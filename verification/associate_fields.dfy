/** The placeholder vocabulary of the associate-degree template and the
    positional mapping that fills it from one spreadsheet row (app.py:77-94).

    Placeholders are keyed by an enumeration; `Name()` gives the key string the
    template uses.  The sheet holds twelve columns, each a Khmer/English pair
    of identity, name, degree, birth date, programme and education date.
 */
module AssociateFields {
  import Cells
  import opened Outcomes

  /** One placeholder of the associate template. */
  datatype Key =
    | IdKh | IdE | NameKh | NameE | G1 | G2
    | DobKh | DobE | ProKh | ProE | EdKh | EdE
    | CurDate
  {
    /** The key string of the placeholder in the template. */
    function Name(): string {
      match this
      case IdKh => "id_kh"
      case IdE => "id_e"
      case NameKh => "name_kh"
      case NameE => "name_e"
      case G1 => "g1"
      case G2 => "g2"
      case DobKh => "dob_kh"
      case DobE => "dob_e"
      case ProKh => "pro_kh"
      case ProE => "pro_e"
      case EdKh => "ed_kh"
      case EdE => "ed_e"
      case CurDate => "cur_date"
    }
  }

  /** The thirteen placeholders have thirteen different key strings, so the
      context dict has one entry per key and none overwrites another. */
  lemma NamesDistinct(a: Key, b: Key)
    ensures a.Name() == b.Name() <==> a == b
  {
  }

  /** Number of cells the mapping reads: positions 0 through 11. */
  const Width: nat := 12

  /** The spreadsheet layout: the placeholder held in column `j`. */
  function KeyAt(j: nat): Key
    requires j < Width
  {
    match j
    case 0 => IdKh
    case 1 => IdE
    case 2 => NameKh
    case 3 => NameE
    case 4 => G1
    case 5 => G2
    case 6 => DobKh
    case 7 => DobE
    case 8 => ProKh
    case 9 => ProE
    case 10 => EdKh
    case _ => EdE
  }

  /** The column each placeholder is read from, as the context dict reads it. */
  function Column(k: Key): nat
    requires !k.CurDate?
  {
    match k
    case NameKh => 2
    case G1 => 4
    case IdKh => 0
    case NameE => 3
    case G2 => 5
    case IdE => 1
    case DobKh => 6
    case ProKh => 8
    case DobE => 7
    case ProE => 9
    case EdKh => 10
    case EdE => 11
  }

  /** The dict reads each of the twelve columns exactly once, and reads column
      `j` into the placeholder the sheet layout puts there. */
  lemma {:induction false} ColumnsMatchLayout()
    ensures forall j: nat :: j < Width ==> !KeyAt(j).CurDate? && Column(KeyAt(j)) == j
    ensures forall k: Key :: !k.CurDate? ==> Column(k) < Width && KeyAt(Column(k)) == k
  {
    forall j: nat | j < Width ensures !KeyAt(j).CurDate? && Column(KeyAt(j)) == j {
      match j
      case 0 => case 1 => case 2 => case 3 => case 4 => case 5 =>
      case 6 => case 7 => case 8 => case 9 => case 10 => case _ =>
    }
  }

  type Context = map<Key, Cells.Cell>

  /** `AssociateDocument`'s context dict for one row (app.py:80-94), entry for
      entry in the order the source writes it: an `IndexError` when the row has
      fewer than twelve cells, otherwise the twelve positional entries plus the
      current date. */
  function Fill(row: Cells.Row, date: string): (r: Result<Context>)
    ensures r.Ok? <==> |row| >= Width
    ensures r.Err? ==> r.error == IndexError
    ensures r.Ok? ==> CurDate in r.value && r.value[CurDate] == Cells.Text(date)
  {
    if |row| < Width then Err(IndexError)
    else Ok(map[
      NameKh := row[2],
      G1 := row[4],
      IdKh := row[0],
      NameE := row[3],
      G2 := row[5],
      IdE := row[1],
      DobKh := row[6],
      ProKh := row[8],
      DobE := row[7],
      ProE := row[9],
      EdKh := row[10],
      EdE := row[11],
      CurDate := Cells.Text(date)])
  }

  /** No placeholder is missing: the context of a wide-enough row binds every
      key of the vocabulary, and the cell it binds to each key but the date is
      the one the sheet layout puts in that key's column. */
  lemma FillBindsEveryColumn(row: Cells.Row, date: string)
    requires |row| >= Width
    ensures Fill(row, date).Ok?
    ensures forall k: Key :: k in Fill(row, date).value
    ensures forall j: nat :: j < Width ==> Fill(row, date).value[KeyAt(j)] == row[j]
  {
    var ctx := Fill(row, date).value;
    forall j: nat | j < Width ensures KeyAt(j) in ctx && ctx[KeyAt(j)] == row[j] {
      match j
      case 0 => case 1 => case 2 => case 3 => case 4 => case 5 =>
      case 6 => case 7 => case 8 => case 9 => case 10 => case _ =>
    }
    forall k: Key ensures k in ctx {
      if !k.CurDate? {
        ColumnsMatchLayout();
        assert KeyAt(Column(k)) == k;
      }
    }
  }
}
