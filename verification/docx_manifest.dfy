/** Sheet-level promises of the associate and transcript generators: the
    manifest has one record per eligible row and wanted format, in row order,
    named after the row; record `i` carries the uuid suffix of draw `i`, so
    distinct suffixes give distinct file names; the header row is never read;
    and a template that cannot be opened fails the call exactly when some row
    would have been rendered.
 */
module DocxManifest {
  import opened Outcomes
  import opened Cells
  import opened Paths
  import opened Documents
  import opened DocxGeneration
  import opened DocxFacts

  // ---------------------------------------------------------------------
  // Shapes and counts
  // ---------------------------------------------------------------------

  /** The records of each choice of formats, given a DOCX record and two PDF
      records of the same name and type, have one shape per wanted format. */
  lemma ChoiceShapes(sel: Selector, rs: Manifest, name: string, kind: Kind, d: Artifact, f: Artifact, f': Artifact)
    requires ShapeOf(d) == Shape(name, kind, Docx)
    requires ShapeOf(f) == Shape(name, kind, Pdf) && ShapeOf(f') == Shape(name, kind, Pdf)
    requires sel.NoFormat? ==> rs == []
    requires sel.DocOnly? ==> rs == [d]
    requires sel.PdfOnly? ==> rs == [f]
    requires sel.Both? ==> rs == [d, f']
    ensures Shapes(rs) == ShapesFor(name, kind, Formats(sel))
  {
    var want := ShapesFor(name, kind, Formats(sel));
    match sel
    case NoFormat =>
      assert |want| == 0;
    case DocOnly =>
      assert Formats(sel) == [Docx];
      assert want == [Shape(name, kind, Docx)];
    case PdfOnly =>
      assert Formats(sel) == [Pdf];
      assert want == [Shape(name, kind, Pdf)];
    case Both =>
      assert Formats(sel) == [Docx, Pdf];
      assert want == [Shape(name, kind, Docx), Shape(name, kind, Pdf)];
  }

  /** The records of a contributing row have the shapes the sheet calls for. */
  lemma RowRecordsShapes(kind: Kind, sel: Selector, env: Env, row: Row, k: nat)
    requires IsTemplated(kind) && Eligible(kind, row) == Ok(true) && SafeSubject(kind, row).Ok?
    ensures Shapes(RowRecords(kind, sel, env, row, k)) == ShapesFor(DisplayName(kind, row), kind, Formats(sel))
  {
    RowRecordsCases(kind, sel, env, row, k);
    ChoiceShapes(sel, RowRecords(kind, sel, env, row, k), DisplayName(kind, row), kind,
                 DocxRecord(kind, env, row, k), PdfRecord(kind, env, row, k), PdfRecord(kind, env, row, k + 1));
  }

  /** A row the loop gets past: its test does not raise, and if it is
      rendered its subject can be sanitised. */
  predicate RowRenders(kind: Kind, sel: Selector, row: Row)
    requires IsTemplated(kind)
  {
    && Eligible(kind, row).Ok?
    && (Eligible(kind, row) == Ok(true) && Formats(sel) != [] ==> SafeSubject(kind, row).Ok?)
  }

  /** Every row is one the loop gets past. */
  predicate Renders(kind: Kind, sel: Selector, rows: seq<Row>)
    requires IsTemplated(kind)
    decreases |rows|
  {
    rows == [] || (RowRenders(kind, sel, rows[0]) && Renders(kind, sel, rows[1..]))
  }

  /** A successful loop got past every row. */
  lemma {:induction false} RowsRender(kind: Kind, sel: Selector, env: Env, rows: seq<Row>, run: Run)
    requires IsTemplated(kind)
    requires Rows(kind, sel, env, rows, run).Ok?
    ensures Renders(kind, sel, rows)
    decreases |rows|
  {
    if rows != [] {
      RowsUnfold(kind, sel, env, rows, run);
      RowStepIdle(kind, sel, env, rows[0], run);
      RowsRender(kind, sel, env, rows[1..], RowStep(kind, sel, env, rows[0], run).value);
    }
  }

  /** What a row the loop gets past contributes has the shapes the sheet
      calls for at that row: none for a row failing the test, one per
      wanted format otherwise. */
  lemma ContributionShapes(kind: Kind, sel: Selector, env: Env, row: Row, k: nat)
    requires IsTemplated(kind) && RowRenders(kind, sel, row)
    ensures Shapes(Contribution(kind, sel, env, row, k)) == RowExpected(kind, sel, row)
  {
    if Productive(kind, sel, row) {
      RowRecordsShapes(kind, sel, env, row, k);
    } else if Eligible(kind, row) == Ok(true) {
      assert |ShapesFor(DisplayName(kind, row), kind, Formats(sel))| == 0;
    }
  }

  /** Appending records appends their shapes. */
  lemma ShapesCompose(mine: Manifest, rest: Manifest, head: seq<Shape>, tail: seq<Shape>)
    requires Shapes(mine) == head && Shapes(rest) == tail
    ensures Shapes(mine + rest) == head + tail
  {
    ShapesAppend(mine, rest);
  }

  /** The shapes a sheet calls for: the first row's, then the rest's. */
  lemma {:induction false} ExpectedCons(kind: Kind, sel: Selector, rows: seq<Row>)
    requires IsTemplated(kind) && rows != []
    ensures Expected(kind, sel, rows) == RowExpected(kind, sel, rows[0]) + Expected(kind, sel, rows[1..])
  {
  }

  /** The reference records of rows the loop gets past have, row by row, the
      shapes the sheet calls for. */
  lemma {:induction false} RecordsShapes(kind: Kind, sel: Selector, env: Env, rows: seq<Row>, k: nat)
    requires IsTemplated(kind) && Renders(kind, sel, rows)
    ensures Shapes(Records(kind, sel, env, rows, k)) == Expected(kind, sel, rows)
    decreases |rows|
  {
    if rows != [] {
      var mine := Contribution(kind, sel, env, rows[0], k);
      var rest := Records(kind, sel, env, rows[1..], k + Count(kind, sel, rows[0]));
      assert Records(kind, sel, env, rows, k) == mine + rest by {
        RecordsCons(kind, sel, env, rows, k);
      }
      assert Expected(kind, sel, rows) == RowExpected(kind, sel, rows[0]) + Expected(kind, sel, rows[1..]) by {
        ExpectedCons(kind, sel, rows);
      }
      assert Shapes(mine) == RowExpected(kind, sel, rows[0]) by {
        ContributionShapes(kind, sel, env, rows[0], k);
      }
      assert Shapes(rest) == Expected(kind, sel, rows[1..]) by {
        RecordsShapes(kind, sel, env, rows[1..], k + Count(kind, sel, rows[0]));
      }
      ShapesCompose(mine, rest, RowExpected(kind, sel, rows[0]), Expected(kind, sel, rows[1..]));
    }
  }

  /** The records a successful loop appends have, row by row, the shapes the
      sheet calls for. */
  lemma RowsShapes(kind: Kind, sel: Selector, env: Env, rows: seq<Row>, run: Run)
    requires IsTemplated(kind)
    requires Rows(kind, sel, env, rows, run).Ok?
    ensures Shapes(Rows(kind, sel, env, rows, run).value.files) == Shapes(run.files) + Expected(kind, sel, rows)
  {
    var added := Records(kind, sel, env, rows, run.draws);
    assert Rows(kind, sel, env, rows, run).value.files == run.files + added by {
      RowsRecords(kind, sel, env, rows, run);
    }
    assert Shapes(added) == Expected(kind, sel, rows) by {
      RowsRender(kind, sel, env, rows, run);
      RecordsShapes(kind, sel, env, rows, run.draws);
    }
    ShapesAppend(run.files, added);
  }

  /** The sheet calls for one record per eligible row and wanted format. */
  lemma {:induction false} ExpectedLength(kind: Kind, sel: Selector, rows: seq<Row>)
    requires IsTemplated(kind)
    ensures |Expected(kind, sel, rows)| == EligibleCount(kind, rows) * |Formats(sel)|
    decreases |rows|
  {
    if rows != [] {
      var f := |Formats(sel)|;
      var e := if Eligible(kind, rows[0]) == Ok(true) then 1 else 0;
      var c := EligibleCount(kind, rows[1..]);
      assert |RowExpected(kind, sel, rows[0])| == e * f;
      assert |Expected(kind, sel, rows[1..])| == c * f by {
        ExpectedLength(kind, sel, rows[1..]);
      }
      assert (e + c) * f == e * f + c * f;
    }
  }

  // ---------------------------------------------------------------------
  // Suffixes and distinct names
  // ---------------------------------------------------------------------

  lemma DocxRecordTagged(kind: Kind, env: Env, row: Row, k: nat)
    requires IsTemplated(kind) && Eligible(kind, row) == Ok(true) && SafeSubject(kind, row).Ok?
    ensures Tagged(DocxRecord(kind, env, row, k), env.uuid(k))
  {
    SuffixIsRecoverable(Prefix(kind), SafeSubject(kind, row).value, env.uuid(k), Docx.Extension());
  }

  lemma PdfRecordTagged(kind: Kind, env: Env, row: Row, k: nat)
    requires IsTemplated(kind) && Eligible(kind, row) == Ok(true) && SafeSubject(kind, row).Ok?
    ensures Tagged(PdfRecord(kind, env, row, k), env.uuid(k))
  {
    SuffixIsRecoverable(Prefix(kind), SafeSubject(kind, row).value, env.uuid(k), Pdf.Extension());
  }

  /** The records of each choice of formats, given the records of draws `k`
      and `k + 1`, are tagged in sequence from `k`. */
  lemma ChoiceTagged(sel: Selector, rs: Manifest, env: Env, k: nat, d: Artifact, f: Artifact, f': Artifact)
    requires Tagged(d, env.uuid(k)) && Tagged(f, env.uuid(k)) && Tagged(f', env.uuid(k + 1))
    requires sel.NoFormat? ==> rs == []
    requires sel.DocOnly? ==> rs == [d]
    requires sel.PdfOnly? ==> rs == [f]
    requires sel.Both? ==> rs == [d, f']
    ensures TaggedFrom(rs, env, k)
  {
    match sel
    case NoFormat =>
    case DocOnly =>
      assert rs[0] == d;
    case PdfOnly =>
      assert rs[0] == f;
    case Both =>
      assert rs[0] == d && rs[1] == f';
  }

  /** Record `i` of what a row contributes carries the suffix of draw `k + i`. */
  lemma ContributionTagged(kind: Kind, sel: Selector, env: Env, row: Row, k: nat)
    requires IsTemplated(kind)
    ensures TaggedFrom(Contribution(kind, sel, env, row, k), env, k)
  {
    if Productive(kind, sel, row) {
      RowRecordsCases(kind, sel, env, row, k);
      DocxRecordTagged(kind, env, row, k);
      PdfRecordTagged(kind, env, row, k);
      PdfRecordTagged(kind, env, row, k + 1);
      ChoiceTagged(sel, RowRecords(kind, sel, env, row, k), env, k, DocxRecord(kind, env, row, k),
                   PdfRecord(kind, env, row, k), PdfRecord(kind, env, row, k + 1));
    }
  }

  /** A successful iteration keeps the records in draw order. */
  lemma RowStepInSequence(kind: Kind, sel: Selector, env: Env, row: Row, run: Run)
    requires IsTemplated(kind)
    requires RowStep(kind, sel, env, row, run).Ok?
    requires InSequence(env, run)
    ensures InSequence(env, RowStep(kind, sel, env, row, run).value)
  {
    RowStepContributes(kind, sel, env, row, run);
    ContributionTagged(kind, sel, env, row, run.draws);
    InSequenceAppend(env, run, RowStep(kind, sel, env, row, run).value,
                     Contribution(kind, sel, env, row, run.draws), Count(kind, sel, row));
  }

  /** Appending records tagged in sequence from the next draw, one draw per
      record, keeps a run in sequence. */
  lemma InSequenceAppend(env: Env, run: Run, next: Run, mine: seq<Artifact>, c: nat)
    requires InSequence(env, run) && TaggedFrom(mine, env, run.draws)
    requires next.files == run.files + mine && next.draws == run.draws + c && |next.files| == |run.files| + c
    ensures InSequence(env, next)
  {
    TaggedAppend(run.files, mine, env, 0);
  }

  /** The loop keeps the records in draw order: every file rendered takes
      the next uuid, and every record is of a file rendered in its own draw. */
  lemma {:induction false} RowsInSequence(kind: Kind, sel: Selector, env: Env, rows: seq<Row>, run: Run)
    requires IsTemplated(kind)
    requires Rows(kind, sel, env, rows, run).Ok?
    requires InSequence(env, run)
    ensures InSequence(env, Rows(kind, sel, env, rows, run).value)
    decreases |rows|
  {
    if rows != [] {
      RowsUnfold(kind, sel, env, rows, run);
      RowStepInSequence(kind, sel, env, rows[0], run);
      RowsInSequence(kind, sel, env, rows[1..], RowStep(kind, sel, env, rows[0], run).value);
    }
  }

  // ---------------------------------------------------------------------
  // Rows that render nothing
  // ---------------------------------------------------------------------

  /** A row that fails the test leaves the run alone. */
  lemma IneligibleRowIdle(kind: Kind, sel: Selector, env: Env, row: Row, run: Run)
    requires IsTemplated(kind) && Eligible(kind, row) == Ok(false)
    ensures RowStep(kind, sel, env, row, run) == Ok(run)
  {
  }

  /** A loop over rows that all fail the test returns the run unchanged,
      whatever the template, the clock and the libraries do. */
  lemma {:induction false} SkipIneligible(kind: Kind, sel: Selector, env: Env, rows: seq<Row>, run: Run)
    requires IsTemplated(kind)
    requires forall i :: 0 <= i < |rows| ==> Eligible(kind, rows[i]) == Ok(false)
    ensures Rows(kind, sel, env, rows, run) == Ok(run)
    decreases |rows|
  {
    if rows != [] {
      IneligibleRowIdle(kind, sel, env, rows[0], run);
      assert forall i :: 0 <= i < |rows[1..]| ==> Eligible(kind, rows[1..][i]) == Ok(false) by {
        forall i | 0 <= i < |rows[1..]| ensures Eligible(kind, rows[1..][i]) == Ok(false) {
          assert rows[1..][i] == rows[i + 1];
        }
      }
      SkipIneligible(kind, sel, env, rows[1..], run);
    }
  }

  /** Whether a row lets the loop pass a template that cannot be opened:
      its test raises nothing, and it either fails the test or no format is
      wanted. */
  predicate PassesBroken(kind: Kind, sel: Selector, row: Row)
    requires IsTemplated(kind)
  {
    Eligible(kind, row).Ok? && (Eligible(kind, row) == Ok(true) ==> Formats(sel) == [])
  }

  /** One iteration with a template that cannot be opened. */
  lemma BrokenRow(kind: Kind, sel: Selector, env: Env, row: Row, run: Run)
    requires IsTemplated(kind) && !env.templateOpens
    ensures RowStep(kind, sel, env, row, run).Ok? <==> PassesBroken(kind, sel, row)
    ensures PassesBroken(kind, sel, row) ==> RowStep(kind, sel, env, row, run) == Ok(run)
    ensures RowStep(kind, sel, env, row, run).Err? ==>
              RowStep(kind, sel, env, row, run).error == (if Eligible(kind, row).Err? then IndexError else TemplateError)
  {
    if Eligible(kind, row) == Ok(true) && !WantsDocx(sel) && WantsPdf(sel) {
      assert DocxStep(kind, sel, env, row, run) == Ok(run);
    }
  }

  /** A template that cannot be opened fails the loop exactly when some row
      reaches the rendering (the first such row raises), and otherwise the
      loop changes nothing. */
  lemma {:induction false} BrokenTemplate(kind: Kind, sel: Selector, env: Env, rows: seq<Row>, run: Run)
    requires IsTemplated(kind) && !env.templateOpens
    ensures Rows(kind, sel, env, rows, run).Ok? <==>
              forall i :: 0 <= i < |rows| ==> PassesBroken(kind, sel, rows[i])
    ensures Rows(kind, sel, env, rows, run).Ok? ==> Rows(kind, sel, env, rows, run).value == run
    ensures Rows(kind, sel, env, rows, run).Err? ==>
              Rows(kind, sel, env, rows, run).error in {IndexError, TemplateError}
    decreases |rows|
  {
    if rows != [] {
      BrokenRow(kind, sel, env, rows[0], run);
      BrokenTemplate(kind, sel, env, rows[1..], run);
      assert forall i :: 0 <= i < |rows[1..]| ==> rows[1..][i] == rows[i + 1];
      if PassesBroken(kind, sel, rows[0]) {
        assert Rows(kind, sel, env, rows, run) == Rows(kind, sel, env, rows[1..], run);
        assert (forall i :: 0 <= i < |rows| ==> PassesBroken(kind, sel, rows[i]))
               <==> (forall i :: 0 <= i < |rows[1..]| ==> PassesBroken(kind, sel, rows[1..][i]));
      }
    }
  }

  // ---------------------------------------------------------------------
  // The whole generator
  // ---------------------------------------------------------------------

  /** The header row is skipped unread: two sheets that differ only in it
      give the same outcome. */
  lemma HeaderIgnored(kind: Kind, option: string, env: Env, header: Row, header': Row, body: seq<Row>, disk: Disk)
    requires IsTemplated(kind)
    ensures Generate(kind, option, env, Some([header] + body), disk)
            == Generate(kind, option, env, Some([header'] + body), disk)
  {
    assert DataRows([header] + body) == body == DataRows([header'] + body);
  }

  /** A successful call returns exactly the reference records of the data
      rows, starting from draw 0: one per eligible row and wanted format, in
      row order, named after the row, each well named and on disk, record
      `i` carrying the suffix of the `i`-th uuid drawn. */
  lemma GenerateManifest(kind: Kind, option: string, env: Env, sheet: Sheet, disk: Disk)
    requires IsTemplated(kind)
    requires Generate(kind, option, env, Some(sheet), disk).Ok?
    ensures var r := Generate(kind, option, env, Some(sheet), disk).value;
            var sel := Select(option);
            var rows := DataRows(sheet);
            && r.files == Records(kind, sel, env, rows, 0)
            && Shapes(r.files) == Expected(kind, sel, rows)
            && |r.files| == EligibleCount(kind, rows) * |Formats(sel)|
            && InSequence(env, r)
            && Consistent(sel, r)
  {
    var sel := Select(option);
    var rows := DataRows(sheet);
    var start := Run(0, disk, []);
    assert Generate(kind, option, env, Some(sheet), disk) == Rows(kind, sel, env, rows, start);
    RowsRecords(kind, sel, env, rows, start);
    RowsShapes(kind, sel, env, rows, start);
    ExpectedLength(kind, sel, rows);
    RowsInSequence(kind, sel, env, rows, start);
    RowsConsistent(kind, sel, env, rows, start);
  }

  /** The file names of a successful call are pairwise different, provided
      the uuids it draws differ in their first eight hex digits. */
  lemma GenerateNamesDistinct(kind: Kind, option: string, env: Env, sheet: Sheet, disk: Disk)
    requires IsTemplated(kind)
    requires Generate(kind, option, env, Some(sheet), disk).Ok?
    requires var files := Generate(kind, option, env, Some(sheet), disk).value.files;
             forall i, j :: 0 <= i < j < |files| ==> Suffix(env.uuid(i)) != Suffix(env.uuid(j))
    ensures var files := Generate(kind, option, env, Some(sheet), disk).value.files;
            forall i, j :: 0 <= i < j < |files| ==> files[i].filename != files[j].filename
  {
    GenerateManifest(kind, option, env, sheet, disk);
    NamesDistinct(env, Generate(kind, option, env, Some(sheet), disk).value);
  }
}
