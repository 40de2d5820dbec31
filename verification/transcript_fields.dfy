/** The placeholder vocabulary of the transcript template and the positional
    mapping that fills it from one spreadsheet row (app.py:154-210).

    Placeholders are keyed by an enumeration; `Name()` gives the key string the
    template uses.  Columns 0-2 hold the student's identity and columns 3-50
    hold 24 (subject, grade) pairs, one per course, in the order the context
    dict lists them.
 */
module TranscriptFields {
  import Cells
  import opened Outcomes

  /** The 24 courses of the transcript, in column order. */
  datatype Course =
    | Logic
    | Bcum
    | Design
    | P1
    | E1
    | Wd
    | Algo
    | P2
    | E2
    | Sd
    | Js
    | Php
    | Db
    | Vc1
    | Node
    | E3
    | P3
    | Oop
    | Lar
    | Vue
    | Vc2
    | E4
    | P4
    | Int
  {
    /** Position of the course among the 24 (subject, grade) pairs. */
    function Index(): nat {
      match this
      case Logic => 0
      case Bcum => 1
      case Design => 2
      case P1 => 3
      case E1 => 4
      case Wd => 5
      case Algo => 6
      case P2 => 7
      case E2 => 8
      case Sd => 9
      case Js => 10
      case Php => 11
      case Db => 12
      case Vc1 => 13
      case Node => 14
      case E3 => 15
      case P3 => 16
      case Oop => 17
      case Lar => 18
      case Vue => 19
      case Vc2 => 20
      case E4 => 21
      case P4 => 22
      case Int => 23
    }

    /** Placeholder name of the course's subject cell. */
    function SubjectName(): string {
      match this
      case Logic => "logic"
      case Bcum => "bcum"
      case Design => "design"
      case P1 => "p1"
      case E1 => "e1"
      case Wd => "wd"
      case Algo => "algo"
      case P2 => "p2"
      case E2 => "e2"
      case Sd => "sd"
      case Js => "js"
      case Php => "php"
      case Db => "db"
      case Vc1 => "vc1"
      case Node => "node"
      case E3 => "e3"
      case P3 => "p3"
      case Oop => "oop"
      case Lar => "lar"
      case Vue => "vue"
      case Vc2 => "vc2"
      case E4 => "e4"
      case P4 => "p4"
      case Int => "int"
    }

    /** Placeholder name of the course's grade cell. */
    function GradeName(): string {
      match this
      case Logic => "l_g"
      case Bcum => "bc_g"
      case Design => "d_g"
      case P1 => "p1_g"
      case E1 => "e1_g"
      case Wd => "wd_g"
      case Algo => "al_g"
      case P2 => "p2_g"
      case E2 => "e2_g"
      case Sd => "sd_g"
      case Js => "js_g"
      case Php => "ph_g"
      case Db => "db_g"
      case Vc1 => "v1_g"
      case Node => "no_g"
      case E3 => "e3_g"
      case P3 => "p3_g"
      case Oop => "op_g"
      case Lar => "lar_g"
      case Vue => "vu_g"
      case Vc2 => "v2_g"
      case E4 => "e4_g"
      case P4 => "p4_g"
      case Int => "in_g"
    }
  }

  /** The course whose pair starts at position `i` of the 24. */
  function CourseAt(i: nat): Course
    requires i < 24
  {
    match i
    case 0 => Logic
    case 1 => Bcum
    case 2 => Design
    case 3 => P1
    case 4 => E1
    case 5 => Wd
    case 6 => Algo
    case 7 => P2
    case 8 => E2
    case 9 => Sd
    case 10 => Js
    case 11 => Php
    case 12 => Db
    case 13 => Vc1
    case 14 => Node
    case 15 => E3
    case 16 => P3
    case 17 => Oop
    case 18 => Lar
    case 19 => Vue
    case 20 => Vc2
    case 21 => E4
    case 22 => P4
    case _ => Int
  }

  /** `CourseAt` and `Index` are inverse: the 24 positions name 24 different courses. */
  lemma {:induction false} CoursePositions()
    ensures forall c: Course :: c.Index() < 24 && CourseAt(c.Index()) == c
    ensures forall i: nat :: i < 24 ==> CourseAt(i).Index() == i
  {
    forall c: Course ensures c.Index() < 24 && CourseAt(c.Index()) == c {
      match c
      case Logic => {}
      case Bcum => {}
      case Design => {}
      case P1 => {}
      case E1 => {}
      case Wd => {}
      case Algo => {}
      case P2 => {}
      case E2 => {}
      case Sd => {}
      case Js => {}
      case Php => {}
      case Db => {}
      case Vc1 => {}
      case Node => {}
      case E3 => {}
      case P3 => {}
      case Oop => {}
      case Lar => {}
      case Vue => {}
      case Vc2 => {}
      case E4 => {}
      case P4 => {}
      case Int => {}
    }
  }

  /** One placeholder of the transcript template. */
  datatype Key =
    | StudentId
    | FirstName
    | LastName
    | Subject(course: Course)
    | Grade(course: Course)
    | CurDate
  {
    /** The key string of the placeholder in the template. */
    function Name(): string {
      match this
      case StudentId => "student_id"
      case FirstName => "first_name"
      case LastName => "last_name"
      case Subject(c) => c.SubjectName()
      case Grade(c) => c.GradeName()
      case CurDate => "cur_date"
    }
  }

  /** The 24 subject placeholders have 24 different key strings. */
  lemma SubjectNamesDistinct(c: Course, d: Course)
    ensures c.SubjectName() == d.SubjectName() <==> c == d
  {
  }

  /** The 24 grade placeholders have 24 different key strings. */
  lemma GradeNamesDistinct(c: Course, d: Course)
    ensures c.GradeName() == d.GradeName() <==> c == d
  {
  }

  /** The 52 placeholders have 52 different key strings, so the context dict
      has one entry per key and none overwrites another. */
  lemma NamesDistinct(a: Key, b: Key)
    ensures a.Name() == b.Name() <==> a == b
  {
    match (a, b)
    case (Subject(c), Subject(d)) => SubjectNamesDistinct(c, d);
    case (Grade(c), Grade(d)) => GradeNamesDistinct(c, d);
    case _ =>
  }

  /** Number of cells the mapping reads: positions 0 through 50. */
  const Width: nat := 51

  /** The spreadsheet layout: the column each placeholder is read from, as the
      sheet is laid out (identity, then one subject and one grade per course).
      The current date is not read from the row. */
  function Column(k: Key): nat
    requires !k.CurDate?
  {
    match k
    case StudentId => 0
    case FirstName => 1
    case LastName => 2
    case Subject(c) => 3 + 2 * c.Index()
    case Grade(c) => 4 + 2 * c.Index()
  }

  /** The placeholder the context dict binds to `row_data[j]`, entry by entry
      in the order the dict lists them. */
  function KeyAt(j: nat): Key
    requires j < Width
  {
    if j == 0 then StudentId
    else if j == 1 then FirstName
    else if j == 2 then LastName
    else if (j - 3) % 2 == 0 then Subject(CourseAt((j - 3) / 2))
    else Grade(CourseAt((j - 3) / 2))
  }

  /** Entry `j` binds a placeholder whose layout column is `j`. */
  lemma ColumnOfKeyAt(j: nat)
    requires j < Width
    ensures !KeyAt(j).CurDate? && Column(KeyAt(j)) == j
  {
    if j >= 3 {
      var i := (j - 3) / 2;
      CoursePositions();
      assert CourseAt(i).Index() == i;
    }
  }

  /** Every placeholder but the date is bound by the entry at its column. */
  lemma KeyAtColumn(k: Key)
    requires !k.CurDate?
    ensures Column(k) < Width && KeyAt(Column(k)) == k
  {
    if k.Subject? || k.Grade? {
      var i := k.course.Index();
      assert i < 24 && CourseAt(i) == k.course by {
        CoursePositions();
      }
      var j := Column(k);
      if k.Subject? {
        assert j - 3 == 2 * i;
        assert (j - 3) % 2 == 0 && (j - 3) / 2 == i;
      } else {
        assert j - 3 == 2 * i + 1;
        assert (j - 3) % 2 == 1 && (j - 3) / 2 == i;
      }
    }
  }

  type Context = map<Key, Cells.Cell>

  /** The first `n` placeholders in the order the context dict lists them. */
  function KeysBelow(n: nat): (r: seq<Key>)
    requires n <= Width
    ensures |r| == n
    ensures forall j :: 0 <= j < n ==> r[j] == KeyAt(j)
  {
    if n == 0 then [] else KeysBelow(n - 1) + [KeyAt(n - 1)]
  }

  /** The first `n` listed placeholders are distinct and none is the date. */
  lemma KeysBelowDistinct(n: nat)
    requires n <= Width
    ensures forall j :: 0 <= j < n ==> !KeysBelow(n)[j].CurDate? && Column(KeysBelow(n)[j]) == j
    ensures forall i, j :: 0 <= i < j < n ==> KeysBelow(n)[i] != KeysBelow(n)[j]
  {
    var ks := KeysBelow(n);
    forall j | 0 <= j < n ensures !ks[j].CurDate? && Column(ks[j]) == j {
      ColumnOfKeyAt(j);
    }
  }

  /** A dict literal listing `keys[j]: vals[j]` in order. */
  function Bind<K, V>(keys: seq<K>, vals: seq<V>): map<K, V>
    requires |keys| == |vals|
    decreases |keys|
  {
    if keys == [] then map[]
    else Bind(keys[..|keys| - 1], vals[..|vals| - 1])[keys[|keys| - 1] := vals[|vals| - 1]]
  }

  /** A dict literal with distinct keys binds each key to the value listed
      with it, and binds nothing else. */
  lemma {:induction false} BindDistinct<K, V>(keys: seq<K>, vals: seq<V>)
    requires |keys| == |vals|
    requires forall i, j :: 0 <= i < j < |keys| ==> keys[i] != keys[j]
    ensures forall j :: 0 <= j < |keys| ==> keys[j] in Bind(keys, vals) && Bind(keys, vals)[keys[j]] == vals[j]
    ensures forall k :: k in Bind(keys, vals) ==> k in keys
  {
    if keys != [] {
      var n := |keys| - 1;
      var ks := keys[..n];
      var vs := vals[..n];
      BindDistinct(ks, vs);
      forall j | 0 <= j < |keys|
        ensures keys[j] in Bind(keys, vals) && Bind(keys, vals)[keys[j]] == vals[j]
      {
        if j < n {
          assert keys[j] == ks[j] && vals[j] == vs[j];
        }
      }
      forall k | k in Bind(keys, vals) ensures k in keys {
        if k != keys[n] {
          assert k in Bind(ks, vs);
          var j :| 0 <= j < n && ks[j] == k;
          assert keys[j] == k;
        }
      }
    }
  }

  /** The positional entries of the context dict for the cells `vals`:
      `KeyAt(j)` bound to `vals[j]`. */
  function Entries(vals: seq<Cells.Cell>): Context
    requires |vals| <= Width
  {
    Bind(KeysBelow(|vals|), vals)
  }

  /** The entries for `vals` bind exactly the placeholders listed at the
      positions of `vals`, each to the cell at its position. */
  lemma EntriesBind(vals: seq<Cells.Cell>)
    requires |vals| <= Width
    ensures forall j :: 0 <= j < |vals| ==> KeyAt(j) in Entries(vals) && Entries(vals)[KeyAt(j)] == vals[j]
    ensures forall k :: k in Entries(vals) ==> !k.CurDate? && Column(k) < |vals|
  {
    var ks := KeysBelow(|vals|);
    KeysBelowDistinct(|vals|);
    BindDistinct(ks, vals);
  }

  /** `TranscriptDocument`'s context dict for one row (app.py:157-210): an
      `IndexError` when the row has fewer than 51 cells, otherwise the 51
      positional entries plus the current date. */
  function Fill(row: Cells.Row, date: string): (r: Result<Context>)
    ensures r.Ok? <==> |row| >= Width
    ensures r.Err? ==> r.error == IndexError
    ensures r.Ok? ==> CurDate in r.value && r.value[CurDate] == Cells.Text(date)
  {
    if |row| < Width then Err(IndexError)
    else Ok(Entries(row[..Width])[CurDate := Cells.Text(date)])
  }

  /** No placeholder is missing: the context of a wide-enough row binds every
      key of the vocabulary, each key but the date to the cell of its layout
      column. */
  lemma FillBindsEveryColumn(row: Cells.Row, date: string)
    requires |row| >= Width
    ensures Fill(row, date).Ok?
    ensures forall k: Key :: k in Fill(row, date).value
    ensures forall k: Key :: !k.CurDate? ==> Fill(row, date).value[k] == row[Column(k)]
  {
    var vals := row[..Width];
    EntriesBind(vals);
    forall k: Key | !k.CurDate?
      ensures k in Entries(vals) && Entries(vals)[k] == row[Column(k)]
    {
      KeyAtColumn(k);
    }
  }
}
