/** What the associate and transcript generators promise about the manifest
    they return: which rows contribute, how many records each contributes and
    in which order, what every record's name, file name and path are, that the
    recorded files are on disk, and that distinct uuid suffixes give distinct
    file names.
 */
module DocxFacts {
  import opened Outcomes
  import opened Cells
  import opened Paths
  import opened Documents
  import opened DocxGeneration

  // ---------------------------------------------------------------------
  // Reference definitions: the records a row should yield
  // ---------------------------------------------------------------------

  /** The file name of the PDF whose DOCX was rendered at draw `k`. */
  function PdfNameAt(kind: Kind, safe: string, env: Env, k: nat): string
    requires IsTemplated(kind)
  {
    FileName(Prefix(kind), safe, env.uuid(k), Pdf.Extension())
  }

  /** The DOCX record of an eligible row whose DOCX took draw `k`. */
  function DocxRecord(kind: Kind, env: Env, row: Row, k: nat): Artifact
    requires IsTemplated(kind) && Eligible(kind, row) == Ok(true) && SafeSubject(kind, row).Ok?
  {
    var name := DocxNameAt(kind, SafeSubject(kind, row).value, env, k);
    Artifact(DisplayName(kind, row), name, kind, Docx, Join(DocxDir(kind), name))
  }

  /** The PDF record of an eligible row whose intermediate DOCX took draw `k`. */
  function PdfRecord(kind: Kind, env: Env, row: Row, k: nat): Artifact
    requires IsTemplated(kind) && Eligible(kind, row) == Ok(true) && SafeSubject(kind, row).Ok?
  {
    var name := PdfNameAt(kind, SafeSubject(kind, row).value, env, k);
    Artifact(DisplayName(kind, row), name, kind, Pdf, Join(PdfDir(kind), name))
  }

  /** The records of one eligible row when its first file takes draw `k`:
      the DOCX first, then the PDF, whose DOCX is a second rendering and so
      takes the next draw when both are wanted. */
  function RowRecords(kind: Kind, sel: Selector, env: Env, row: Row, k: nat): seq<Artifact>
    requires IsTemplated(kind) && Eligible(kind, row) == Ok(true) && SafeSubject(kind, row).Ok?
  {
    Choose(sel, DocxRecord(kind, env, row, k), PdfRecord(kind, env, row, k), PdfRecord(kind, env, row, k + 1))
  }

  /** The records a choice of formats keeps of a DOCX record `d`, a PDF
      record `f` drawn first and a PDF record `f'` drawn after the DOCX. */
  function Choose(sel: Selector, d: Artifact, f: Artifact, f': Artifact): seq<Artifact> {
    match sel
    case NoFormat => []
    case DocOnly => [d]
    case PdfOnly => [f]
    case Both => [d, f']
  }

  lemma ChooseCases(sel: Selector, d: Artifact, f: Artifact, f': Artifact)
    ensures sel.NoFormat? ==> Choose(sel, d, f, f') == []
    ensures sel.DocOnly? ==> Choose(sel, d, f, f') == [d]
    ensures sel.PdfOnly? ==> Choose(sel, d, f, f') == [f]
    ensures sel.Both? ==> Choose(sel, d, f, f') == [d, f']
  {
  }

  /** Whether a row contributes records: it passes the test and some format is wanted. */
  predicate Productive(kind: Kind, sel: Selector, row: Row)
    requires IsTemplated(kind)
  {
    Eligible(kind, row) == Ok(true) && Formats(sel) != [] && SafeSubject(kind, row).Ok?
  }

  /** The records a row contributes when its first file takes draw `k`:
      none unless it is productive. */
  function Contribution(kind: Kind, sel: Selector, env: Env, row: Row, k: nat): seq<Artifact>
    requires IsTemplated(kind)
  {
    if Productive(kind, sel, row) then RowRecords(kind, sel, env, row, k) else []
  }

  /** How many files a row yields, and so how many draws it takes: one per
      wanted format if it is productive, none otherwise. */
  function Count(kind: Kind, sel: Selector, row: Row): nat
    requires IsTemplated(kind)
  {
    if Productive(kind, sel, row) then |Formats(sel)| else 0
  }

  /** The records of a run of rows whose first file takes draw `k`. */
  function Records(kind: Kind, sel: Selector, env: Env, rows: seq<Row>, k: nat): seq<Artifact>
    requires IsTemplated(kind)
    decreases |rows|
  {
    if rows == [] then []
    else
      Contribution(kind, sel, env, rows[0], k) + Records(kind, sel, env, rows[1..], k + Count(kind, sel, rows[0]))
  }

  /** The records of rows: the first row's, then the rest's. */
  lemma {:induction false} RecordsCons(kind: Kind, sel: Selector, env: Env, rows: seq<Row>, k: nat)
    requires IsTemplated(kind) && rows != []
    ensures Records(kind, sel, env, rows, k)
            == Contribution(kind, sel, env, rows[0], k) + Records(kind, sel, env, rows[1..], k + Count(kind, sel, rows[0]))
  {
  }

  /** The number of rows that pass the row test. */
  function EligibleCount(kind: Kind, rows: seq<Row>): nat
    requires IsTemplated(kind)
  {
    if rows == [] then 0
    else (if Eligible(kind, rows[0]) == Ok(true) then 1 else 0) + EligibleCount(kind, rows[1..])
  }

  /** The record shapes the sheet calls for at one row: one per wanted
      format, named after the row, if it passes the test. */
  function RowExpected(kind: Kind, sel: Selector, row: Row): seq<Shape>
    requires IsTemplated(kind)
  {
    if Eligible(kind, row) == Ok(true) then ShapesFor(DisplayName(kind, row), kind, Formats(sel)) else []
  }

  /** The record shapes the sheet calls for, row by row. */
  function Expected(kind: Kind, sel: Selector, rows: seq<Row>): (r: seq<Shape>)
    requires IsTemplated(kind)
  {
    if rows == [] then [] else RowExpected(kind, sel, rows[0]) + Expected(kind, sel, rows[1..])
  }

  function ShapesFor(name: string, kind: Kind, formats: seq<Format>): (r: seq<Shape>)
    ensures |r| == |formats|
    ensures forall i :: 0 <= i < |r| ==> r[i] == Shape(name, kind, formats[i])
  {
    seq(|formats|, i requires 0 <= i < |formats| => Shape(name, kind, formats[i]))
  }

  // ---------------------------------------------------------------------
  // Names and paths of the records
  // ---------------------------------------------------------------------

  lemma FileNameHasNoSlash(prefix: string, subject: string, u: UuidHex, ext: string)
    requires '/' !in prefix && '/' !in subject && '/' !in ext
    ensures '/' !in FileName(prefix, subject, u, ext)
  {
    SuffixHasNoSeparators(u);
    var f := FileName(prefix, subject, u, ext);
    assert f == prefix + "_" + subject + "_" + Suffix(u) + ext;
    forall i | 0 <= i < |f| ensures f[i] != '/' {
      var a := |prefix|;
      var b := a + 1 + |subject|;
      var c := b + 1 + 8;
      if i < a { assert f[i] == prefix[i]; }
      else if i == a || i == b { }
      else if i < b { assert f[i] == subject[i - a - 1]; }
      else if i < c { assert f[i] == Suffix(u)[i - b - 1]; }
      else { assert f[i] == ext[i - c]; }
    }
  }

  /** A file name with no slash, joined onto a directory, is the base name
      of the path, and the path ends as the name does. */
  lemma JoinedName(dir: string, name: string, ext: string)
    requires '/' !in name && EndsWith(name, ext)
    ensures Basename(Join(dir, name)) == name
    ensures EndsWith(Join(dir, name), ext)
  {
    BasenameOfJoin(dir, name);
    var p := Join(dir, name);
    assert p[|p| - |name|..] == name;
    assert p[|p| - |ext|..] == name[|name| - |ext|..];
  }

  lemma FileNameEndsWith(prefix: string, subject: string, u: UuidHex, ext: string)
    ensures EndsWith(FileName(prefix, subject, u, ext), ext)
  {
    SuffixIsRecoverable(prefix, subject, u, ext);
  }

  lemma PrefixShape(kind: Kind)
    requires IsTemplated(kind)
    ensures Prefix(kind) != [] && Prefix(kind)[0] != '.' && '/' !in Prefix(kind)
  {
  }

  /** A DOCX saved at draw `k` lies in `dir` under its generated name, and
      the PDF converted from it gets the same stem with a `.pdf` extension. */
  lemma DocxPathShape(kind: Kind, safe: string, env: Env, k: nat, dir: string)
    requires IsTemplated(kind) && '/' !in safe
    ensures Basename(Join(dir, DocxNameAt(kind, safe, env, k))) == DocxNameAt(kind, safe, env, k)
    ensures EndsWith(Join(dir, DocxNameAt(kind, safe, env, k)), Docx.Extension())
    ensures PdfName(Join(dir, DocxNameAt(kind, safe, env, k))) == PdfNameAt(kind, safe, env, k)
    ensures Basename(Join(PdfDir(kind), PdfNameAt(kind, safe, env, k))) == PdfNameAt(kind, safe, env, k)
    ensures EndsWith(Join(PdfDir(kind), PdfNameAt(kind, safe, env, k)), Pdf.Extension())
  {
    var prefix := Prefix(kind);
    var u := env.uuid(k);
    PrefixShape(kind);
    ExtensionsSpelled();
    FileNameHasNoSlash(prefix, safe, u, Docx.Extension());
    FileNameHasNoSlash(prefix, safe, u, Pdf.Extension());
    FileNameEndsWith(prefix, safe, u, Docx.Extension());
    FileNameEndsWith(prefix, safe, u, Pdf.Extension());
    JoinedName(dir, DocxNameAt(kind, safe, env, k), Docx.Extension());
    JoinedName(PdfDir(kind), PdfNameAt(kind, safe, env, k), Pdf.Extension());
    PdfNameKeepsStem(dir, prefix, safe, u);
  }

  // ---------------------------------------------------------------------
  // One rendering, one conversion
  // ---------------------------------------------------------------------

  /** Rendering succeeds exactly when the template opens, the row is wide
      enough for the context, the rendering does not fail and the subject can
      be sanitised; the saved name never holds a slash, so saving cannot fail. */
  lemma RenderDocxSucceeds(kind: Kind, env: Env, dir: string, row: Row, run: Run)
    requires IsTemplated(kind) && Eligible(kind, row) == Ok(true)
    ensures RenderDocx(kind, env, dir, row, run).Ok? <==>
              && env.templateOpens
              && FillFor(kind, row, env.clock(run.draws)).Ok?
              && !env.renderFails(run.draws)
              && SafeSubject(kind, row).Ok?
  {
    if SafeSubject(kind, row).Ok? {
      PrefixShape(kind);
      ExtensionsSpelled();
      FileNameHasNoSlash(Prefix(kind), SafeSubject(kind, row).value, env.uuid(run.draws), Docx.Extension());
    }
  }

  /** A successful rendering takes one draw, saves the filled-in template
      under the name of that draw in `dir`, returns that path and leaves the
      manifest alone. */
  lemma RenderDocxFacts(kind: Kind, env: Env, dir: string, row: Row, run: Run)
    requires IsTemplated(kind) && Eligible(kind, row) == Ok(true)
    requires RenderDocx(kind, env, dir, row, run).Ok?
    ensures SafeSubject(kind, row).Ok? && FillFor(kind, row, env.clock(run.draws)).Ok?
    ensures var path := Join(dir, DocxNameAt(kind, SafeSubject(kind, row).value, env, run.draws));
            var content := Document(FillFor(kind, row, env.clock(run.draws)).value);
            RenderDocx(kind, env, dir, row, run).value
            == (path, Run(run.draws + 1, run.disk[path := content], run.files))
  {
    var k := run.draws;
    var fields := FillFor(kind, row, env.clock(k));
    var safe := SafeSubject(kind, row);
    assert fields.Ok? && safe.Ok?;
    var name := DocxNameAt(kind, safe.value, env, k);
    var saved := Save(dir, name, Document(fields.value), run.disk);
    assert saved.Ok?;
    assert RenderDocx(kind, env, dir, row, run) == Ok((Join(dir, name), Run(k + 1, saved.value, run.files)));
  }

  /** Converting adds the PDF, named after the stem of the DOCX, holding the
      export of the DOCX, and keeps every other file. */
  lemma ConvertPdfFacts(env: Env, docPath: string, pdfDir: string, k: nat, disk: Disk)
    ensures ConvertPdf(env, docPath, pdfDir, k, disk).Ok? <==> !env.convertFails(k) && docPath in disk
    ensures ConvertPdf(env, docPath, pdfDir, k, disk).Ok? ==>
              var (pdfPath, after) := ConvertPdf(env, docPath, pdfDir, k, disk).value;
              && pdfPath == Join(pdfDir, PdfName(docPath))
              && pdfPath in after
              && after[pdfPath] == Exported(disk[docPath])
              && after.Keys == disk.Keys + {pdfPath}
              && (forall p :: p in disk && p != pdfPath ==> after[p] == disk[p])
    ensures ConvertPdf(env, docPath, pdfDir, k, disk).Err? ==> ConvertPdf(env, docPath, pdfDir, k, disk).error == ConvertError
  {
  }

  /** A DOCX saved at draw `k` into any directory has a path ending in `.docx`. */
  lemma DocxPathEnds(kind: Kind, safe: string, env: Env, k: nat, dir: string)
    requires IsTemplated(kind)
    ensures EndsWith(Join(dir, DocxNameAt(kind, safe, env, k)), Docx.Extension())
  {
    FileNameEndsWith(Prefix(kind), safe, env.uuid(k), Docx.Extension());
    var name := DocxNameAt(kind, safe, env, k);
    var p := Join(dir, name);
    assert p[|p| - |name|..] == name;
    assert p[|p| - |Docx.Extension()|..] == name[|name| - |Docx.Extension()|..];
  }

  /** A PDF converted at draw `k` has a path ending in `.pdf`. */
  lemma PdfPathEnds(kind: Kind, safe: string, env: Env, k: nat)
    requires IsTemplated(kind)
    ensures EndsWith(Join(PdfDir(kind), PdfNameAt(kind, safe, env, k)), Pdf.Extension())
  {
    FileNameEndsWith(Prefix(kind), safe, env.uuid(k), Pdf.Extension());
    var name := PdfNameAt(kind, safe, env, k);
    var p := Join(PdfDir(kind), name);
    assert p[|p| - |name|..] == name;
    assert p[|p| - |Pdf.Extension()|..] == name[|name| - |Pdf.Extension()|..];
  }

  // ---------------------------------------------------------------------
  // The two branches of one row
  // ---------------------------------------------------------------------

  /** The DOCX branch, when taken and successful, appends the row's DOCX
      record for the current draw and saves its file. */
  lemma DocxStepUnfold(kind: Kind, sel: Selector, env: Env, row: Row, run: Run)
    requires IsTemplated(kind) && Eligible(kind, row) == Ok(true) && WantsDocx(sel)
    requires DocxStep(kind, sel, env, row, run).Ok?
    ensures SafeSubject(kind, row).Ok? && FillFor(kind, row, env.clock(run.draws)).Ok?
    ensures var d := DocxRecord(kind, env, row, run.draws);
            var content := Document(FillFor(kind, row, env.clock(run.draws)).value);
            DocxStep(kind, sel, env, row, run).value
            == Run(run.draws + 1, run.disk[d.path := content], run.files + [d])
  {
    RenderDocxFacts(kind, env, DocxDir(kind), row, run);
    DocxPathShape(kind, SafeSubject(kind, row).value, env, run.draws, DocxDir(kind));
  }

  /** The DOCX the PDF branch renders at draw `k` before converting it. */
  function StagedDocx(kind: Kind, sel: Selector, env: Env, row: Row, k: nat): string
    requires IsTemplated(kind) && Eligible(kind, row) == Ok(true) && SafeSubject(kind, row).Ok?
  {
    Join(StagingDir(kind, sel), DocxNameAt(kind, SafeSubject(kind, row).value, env, k))
  }

  /** The PDF branch, when taken and successful, saves the intermediate DOCX,
      converts it into the PDF of the row's PDF record, appends that record,
      and with `"pdf"` removes the intermediate DOCX again. */
  lemma PdfStepUnfold(kind: Kind, sel: Selector, env: Env, row: Row, run: Run)
    requires IsTemplated(kind) && Eligible(kind, row) == Ok(true) && WantsPdf(sel)
    requires PdfStep(kind, sel, env, row, run).Ok?
    ensures SafeSubject(kind, row).Ok? && FillFor(kind, row, env.clock(run.draws)).Ok?
    ensures !env.convertFails(run.draws)
    ensures var docPath := StagedDocx(kind, sel, env, row, run.draws);
            var f := PdfRecord(kind, env, row, run.draws);
            var content := Document(FillFor(kind, row, env.clock(run.draws)).value);
            var after := run.disk[docPath := content][f.path := Exported(content)];
            PdfStep(kind, sel, env, row, run).value
            == Run(run.draws + 1, if sel.PdfOnly? then after - {docPath} else after, run.files + [f])
  {
    var dir := StagingDir(kind, sel);
    RenderDocxFacts(kind, env, dir, row, run);
    var safe := SafeSubject(kind, row).value;
    var k := run.draws;
    DocxPathShape(kind, safe, env, k, dir);
    var docPath := Join(dir, DocxNameAt(kind, safe, env, k));
    var mid := RenderDocx(kind, env, dir, row, run).value.1;
    ConvertPdfFacts(env, docPath, PdfDir(kind), k, mid.disk);
    var pdfPath := Join(PdfDir(kind), PdfNameAt(kind, safe, env, k));
    assert ConvertPdf(env, docPath, PdfDir(kind), k, mid.disk).value.0 == pdfPath;
  }

  /** The PDF branch records a PDF that is on disk afterwards, and removes
      no file but, with `"pdf"`, the intermediate DOCX. */
  lemma PdfStepSaves(kind: Kind, sel: Selector, env: Env, row: Row, run: Run)
    requires IsTemplated(kind) && Eligible(kind, row) == Ok(true) && WantsPdf(sel)
    requires PdfStep(kind, sel, env, row, run).Ok?
    ensures SafeSubject(kind, row).Ok?
    ensures var next := PdfStep(kind, sel, env, row, run).value;
            && PdfRecord(kind, env, row, run.draws).path in next.disk
            && run.disk.Keys - (if sel.PdfOnly? then {StagedDocx(kind, sel, env, row, run.draws)} else {})
               <= next.disk.Keys
  {
    PdfStepUnfold(kind, sel, env, row, run);
    var safe := SafeSubject(kind, row).value;
    var k := run.draws;
    DocxPathEnds(kind, safe, env, k, StagingDir(kind, sel));
    PdfPathEnds(kind, safe, env, k);
    ExtensionsDiffer(StagedDocx(kind, sel, env, row, k), PdfRecord(kind, env, row, k).path, Docx, Pdf);
  }

  // ---------------------------------------------------------------------
  // One row
  // ---------------------------------------------------------------------

  /** A successful iteration runs the DOCX branch, then the PDF branch on
      its result. */
  lemma RowStepBranches(kind: Kind, sel: Selector, env: Env, row: Row, run: Run)
    requires IsTemplated(kind)
    requires RowStep(kind, sel, env, row, run).Ok?
    requires Eligible(kind, row) == Ok(true)
    ensures DocxStep(kind, sel, env, row, run).Ok?
    ensures PdfStep(kind, sel, env, row, DocxStep(kind, sel, env, row, run).value).Ok?
    ensures RowStep(kind, sel, env, row, run) == PdfStep(kind, sel, env, row, DocxStep(kind, sel, env, row, run).value)
  {
  }

  /** The records a row yields under each choice of formats. */
  lemma RowRecordsCases(kind: Kind, sel: Selector, env: Env, row: Row, k: nat)
    requires IsTemplated(kind) && Eligible(kind, row) == Ok(true) && SafeSubject(kind, row).Ok?
    ensures sel.NoFormat? ==> RowRecords(kind, sel, env, row, k) == []
    ensures sel.DocOnly? ==> RowRecords(kind, sel, env, row, k) == [DocxRecord(kind, env, row, k)]
    ensures sel.PdfOnly? ==> RowRecords(kind, sel, env, row, k) == [PdfRecord(kind, env, row, k)]
    ensures sel.Both? ==> RowRecords(kind, sel, env, row, k) == [DocxRecord(kind, env, row, k), PdfRecord(kind, env, row, k + 1)]
  {
    ChooseCases(sel, DocxRecord(kind, env, row, k), PdfRecord(kind, env, row, k), PdfRecord(kind, env, row, k + 1));
  }

  /** A successful iteration fails no test, and over a row that does not
      contribute it changes nothing. */
  lemma RowStepIdle(kind: Kind, sel: Selector, env: Env, row: Row, run: Run)
    requires IsTemplated(kind)
    requires RowStep(kind, sel, env, row, run).Ok?
    ensures Eligible(kind, row).Ok?
    ensures Eligible(kind, row) == Ok(true) && Formats(sel) != [] ==> SafeSubject(kind, row).Ok?
    ensures !Productive(kind, sel, row) ==> RowStep(kind, sel, env, row, run) == Ok(run)
  {
    if Eligible(kind, row) == Ok(true) {
      RowStepBranches(kind, sel, env, row, run);
      var mid := DocxStep(kind, sel, env, row, run).value;
      if WantsDocx(sel) {
        RenderDocxSucceeds(kind, env, DocxDir(kind), row, run);
      } else if WantsPdf(sel) {
        assert mid == run;
        RenderDocxSucceeds(kind, env, StagingDir(kind, sel), row, run);
      } else {
        assert mid == run;
      }
    }
  }

  /** What an iteration over a contributing row promises: it appends
      exactly the row's records, counts one draw per wanted format, leaves
      the file of every appended record on disk, and removes no file but,
      with `"pdf"`, the intermediate DOCX. */
  ghost predicate RowDone(kind: Kind, sel: Selector, env: Env, row: Row, run: Run, next: Run)
    requires IsTemplated(kind) && Eligible(kind, row) == Ok(true) && SafeSubject(kind, row).Ok?
  {
    Appended(run, next, RowRecords(kind, sel, env, row, run.draws),
             if sel.PdfOnly? then {StagedDocx(kind, sel, env, row, run.draws)} else {})
  }

  /** `next` is `run` with `added` appended, one draw per added record, the
      files of the added records on disk, and no file removed but `removed`. */
  ghost predicate Appended(run: Run, next: Run, added: seq<Artifact>, removed: set<string>) {
    && next.files == run.files + added
    && next.draws == run.draws + |added|
    && (forall a :: a in added ==> a.path in next.disk)
    && run.disk.Keys - removed <= next.disk.Keys
  }

  /** Appending one record whose file is on disk afterwards, with one draw,
      and removing no file but `removed`. */
  lemma AppendSaved(run: Run, next: Run, a: Artifact, removed: set<string>)
    requires next.files == run.files + [a] && next.draws == run.draws + 1
    requires a.path in next.disk && run.disk.Keys - removed <= next.disk.Keys
    ensures Appended(run, next, [a], removed)
  {
  }

  lemma DocOnlyRow(kind: Kind, env: Env, row: Row, run: Run)
    requires IsTemplated(kind)
    requires RowStep(kind, DocOnly, env, row, run).Ok?
    requires Productive(kind, DocOnly, row)
    ensures RowDone(kind, DocOnly, env, row, run, RowStep(kind, DocOnly, env, row, run).value)
  {
    var next := RowStep(kind, DocOnly, env, row, run).value;
    var d := DocxRecord(kind, env, row, run.draws);
    assert next.files == run.files + [d] && next.draws == run.draws + 1
           && next.disk == run.disk[d.path := Document(FillFor(kind, row, env.clock(run.draws)).value)] by {
      RowStepBranches(kind, DocOnly, env, row, run);
      DocxStepUnfold(kind, DocOnly, env, row, run);
    }
    AppendSaved(run, next, d, {});
    RowRecordsCases(kind, DocOnly, env, row, run.draws);
  }

  lemma PdfOnlyRow(kind: Kind, env: Env, row: Row, run: Run)
    requires IsTemplated(kind)
    requires RowStep(kind, PdfOnly, env, row, run).Ok?
    requires Productive(kind, PdfOnly, row)
    ensures RowDone(kind, PdfOnly, env, row, run, RowStep(kind, PdfOnly, env, row, run).value)
  {
    var next := RowStep(kind, PdfOnly, env, row, run).value;
    var f := PdfRecord(kind, env, row, run.draws);
    var staged := StagedDocx(kind, PdfOnly, env, row, run.draws);
    assert next == PdfStep(kind, PdfOnly, env, row, run).value by {
      RowStepBranches(kind, PdfOnly, env, row, run);
      assert DocxStep(kind, PdfOnly, env, row, run).value == run;
    }
    assert && next.files == run.files + [f] && next.draws == run.draws + 1
           && f.path in next.disk && run.disk.Keys - {staged} <= next.disk.Keys by {
      PdfStepUnfold(kind, PdfOnly, env, row, run);
      PdfStepSaves(kind, PdfOnly, env, row, run);
    }
    AppendSaved(run, next, f, {staged});
    RowRecordsCases(kind, PdfOnly, env, row, run.draws);
  }

  /** The bookkeeping of the `"both"` choice: appending a DOCX record and
      then a PDF record appends the two. */
  lemma BothCompose(run: Run, mid: Run, next: Run, d: Artifact, p: Artifact)
    requires Appended(run, mid, [d], {}) && Appended(mid, next, [p], {})
    ensures Appended(run, next, [d, p], {})
  {
    assert next.files == run.files + [d, p];
  }

  lemma BothRow(kind: Kind, env: Env, row: Row, run: Run)
    requires IsTemplated(kind)
    requires RowStep(kind, Both, env, row, run).Ok?
    requires Productive(kind, Both, row)
    ensures RowDone(kind, Both, env, row, run, RowStep(kind, Both, env, row, run).value)
  {
    RowStepBranches(kind, Both, env, row, run);
    var mid := DocxStep(kind, Both, env, row, run).value;
    var next := PdfStep(kind, Both, env, row, mid).value;
    var d := DocxRecord(kind, env, row, run.draws);
    var p := PdfRecord(kind, env, row, mid.draws);
    assert Appended(run, mid, [d], {}) && mid.draws == run.draws + 1 by {
      DocxStepUnfold(kind, Both, env, row, run);
    }
    assert Appended(mid, next, [p], {}) by {
      PdfStepUnfold(kind, Both, env, row, mid);
      PdfStepSaves(kind, Both, env, row, mid);
    }
    assert Appended(run, next, [d, p], {}) by {
      BothCompose(run, mid, next, d, p);
    }
    assert RowRecords(kind, Both, env, row, run.draws) == [d, p] by {
      RowRecordsCases(kind, Both, env, row, run.draws);
      assert p == PdfRecord(kind, env, row, run.draws + 1);
    }
  }

  lemma RowStepRecords(kind: Kind, sel: Selector, env: Env, row: Row, run: Run)
    requires IsTemplated(kind)
    requires RowStep(kind, sel, env, row, run).Ok?
    requires Productive(kind, sel, row)
    ensures RowDone(kind, sel, env, row, run, RowStep(kind, sel, env, row, run).value)
  {
    match sel
    case DocOnly => DocOnlyRow(kind, env, row, run);
    case PdfOnly => PdfOnlyRow(kind, env, row, run);
    case Both => BothRow(kind, env, row, run);
  }

  /** Appending the records a choice of formats keeps, case by case. */
  lemma ChooseAppended(sel: Selector, run: Run, next: Run, added: seq<Artifact>, removed: set<string>,
                       d: Artifact, f: Artifact, f': Artifact)
    requires Appended(run, next, added, removed) && added == Choose(sel, d, f, f')
    ensures sel.DocOnly? ==> next.files == run.files + [d] && next.draws == run.draws + 1
    ensures sel.PdfOnly? ==> next.files == run.files + [f] && next.draws == run.draws + 1
    ensures sel.Both? ==> next.files == run.files + [d, f'] && next.draws == run.draws + 2
  {
    ChooseCases(sel, d, f, f');
  }

  /** What one iteration over an eligible row appends to the manifest under
      each choice of formats, and how many uuid draws it takes. */
  lemma RowStepCases(kind: Kind, sel: Selector, env: Env, row: Row, run: Run)
    requires IsTemplated(kind)
    requires RowStep(kind, sel, env, row, run).Ok?
    requires Eligible(kind, row) == Ok(true)
    ensures !sel.NoFormat? ==> SafeSubject(kind, row).Ok?
    ensures var next := RowStep(kind, sel, env, row, run).value;
            && (sel.NoFormat? ==> next == run)
            && (sel.DocOnly? ==> next.files == run.files + [DocxRecord(kind, env, row, run.draws)] && next.draws == run.draws + 1)
            && (sel.PdfOnly? ==> next.files == run.files + [PdfRecord(kind, env, row, run.draws)] && next.draws == run.draws + 1)
            && (sel.Both? ==> && next.files == run.files + [DocxRecord(kind, env, row, run.draws), PdfRecord(kind, env, row, run.draws + 1)]
                              && next.draws == run.draws + 2)
  {
    var next := RowStep(kind, sel, env, row, run).value;
    RowStepIdle(kind, sel, env, row, run);
    if !sel.NoFormat? {
      RowStepRecords(kind, sel, env, row, run);
      ChooseAppended(sel, run, next, RowRecords(kind, sel, env, row, run.draws),
                     if sel.PdfOnly? then {StagedDocx(kind, sel, env, row, run.draws)} else {},
                     DocxRecord(kind, env, row, run.draws), PdfRecord(kind, env, row, run.draws),
                     PdfRecord(kind, env, row, run.draws + 1));
    }
  }

  // ---------------------------------------------------------------------
  // The loop
  // ---------------------------------------------------------------------

  /** A record whose file name is the base name of its path and whose path
      ends in its format's extension. */
  ghost predicate WellNamed(a: Artifact) {
    a.filename == Basename(a.path) && EndsWith(a.path, a.format.Extension())
  }

  /** Every record of the run is well named and on disk, and when only PDFs
      are wanted every record is a PDF. */
  ghost predicate Consistent(sel: Selector, run: Run) {
    forall a :: a in run.files ==> a.path in run.disk && WellNamed(a) && (sel.PdfOnly? ==> a.format == Pdf)
  }

  /** Both reference records of a row are well named. */
  lemma RecordsWellNamed(kind: Kind, env: Env, row: Row, k: nat)
    requires IsTemplated(kind) && Eligible(kind, row) == Ok(true) && SafeSubject(kind, row).Ok?
    ensures WellNamed(DocxRecord(kind, env, row, k))
    ensures WellNamed(PdfRecord(kind, env, row, k))
  {
    DocxPathShape(kind, SafeSubject(kind, row).value, env, k, DocxDir(kind));
  }

  /** The records each choice of formats keeps of well-named records. */
  lemma ChoiceWellNamed(sel: Selector, d: Artifact, f: Artifact, f': Artifact)
    requires WellNamed(d) && WellNamed(f) && WellNamed(f') && f.format == Pdf
    ensures forall a :: a in Choose(sel, d, f, f') ==> WellNamed(a) && (sel.PdfOnly? ==> a.format == Pdf)
  {
    forall a | a in Choose(sel, d, f, f') ensures WellNamed(a) && (sel.PdfOnly? ==> a.format == Pdf) {
      assert (sel.PdfOnly? ==> a == f) && (a == d || a == f || a == f');
    }
  }

  /** Every record a row yields is well named, and a PDF under `"pdf"`. */
  lemma RowRecordsWellNamed(kind: Kind, sel: Selector, env: Env, row: Row, k: nat)
    requires IsTemplated(kind) && Eligible(kind, row) == Ok(true) && SafeSubject(kind, row).Ok?
    ensures forall a :: a in RowRecords(kind, sel, env, row, k) ==>
              WellNamed(a) && (sel.PdfOnly? ==> a.format == Pdf)
  {
    RecordsWellNamed(kind, env, row, k);
    RecordsWellNamed(kind, env, row, k + 1);
    ChoiceWellNamed(sel, DocxRecord(kind, env, row, k), PdfRecord(kind, env, row, k), PdfRecord(kind, env, row, k + 1));
  }

  /** The bookkeeping of one iteration: appending well-named records whose
      files are on disk, while removing at most one `.docx` file, keeps a
      run consistent. */
  lemma ConsistentCompose(sel: Selector, run: Run, next: Run, added: seq<Artifact>, staged: string)
    requires Consistent(sel, run)
    requires next.files == run.files + added
    requires forall a :: a in added ==> a.path in next.disk && WellNamed(a) && (sel.PdfOnly? ==> a.format == Pdf)
    requires run.disk.Keys - (if sel.PdfOnly? then {staged} else {}) <= next.disk.Keys
    requires sel.PdfOnly? ==> EndsWith(staged, Docx.Extension())
    ensures Consistent(sel, next)
  {
    forall a | a in next.files
      ensures a.path in next.disk
    {
      if a !in added {
        assert a in run.files;
        if sel.PdfOnly? && a.path == staged {
          ExtensionsDiffer(a.path, a.path, Docx, Pdf);
        }
      }
    }
  }

  /** Appending a contributing row's records keeps a run consistent. */
  lemma RowDoneConsistent(kind: Kind, sel: Selector, env: Env, row: Row, run: Run, next: Run)
    requires IsTemplated(kind) && Eligible(kind, row) == Ok(true) && SafeSubject(kind, row).Ok?
    requires RowDone(kind, sel, env, row, run, next)
    requires Consistent(sel, run)
    ensures Consistent(sel, next)
  {
    var k := run.draws;
    var added := RowRecords(kind, sel, env, row, k);
    var staged := StagedDocx(kind, sel, env, row, k);
    assert Appended(run, next, added, if sel.PdfOnly? then {staged} else {});
    assert forall a :: a in added ==> WellNamed(a) && (sel.PdfOnly? ==> a.format == Pdf) by {
      RowRecordsWellNamed(kind, sel, env, row, k);
    }
    assert EndsWith(staged, Docx.Extension()) by {
      DocxPathEnds(kind, SafeSubject(kind, row).value, env, k, StagingDir(kind, sel));
    }
    ConsistentCompose(sel, run, next, added, staged);
  }

  /** A successful iteration keeps the run consistent. */
  lemma RowStepConsistent(kind: Kind, sel: Selector, env: Env, row: Row, run: Run)
    requires IsTemplated(kind)
    requires RowStep(kind, sel, env, row, run).Ok?
    requires Consistent(sel, run)
    ensures Consistent(sel, RowStep(kind, sel, env, row, run).value)
  {
    RowStepIdle(kind, sel, env, row, run);
    if Productive(kind, sel, row) {
      RowStepRecords(kind, sel, env, row, run);
      RowDoneConsistent(kind, sel, env, row, run, RowStep(kind, sel, env, row, run).value);
    }
  }

  /** One turn of the loop. */
  lemma RowsUnfold(kind: Kind, sel: Selector, env: Env, rows: seq<Row>, run: Run)
    requires IsTemplated(kind)
    requires rows != [] && Rows(kind, sel, env, rows, run).Ok?
    ensures RowStep(kind, sel, env, rows[0], run).Ok?
    ensures Rows(kind, sel, env, rows, run)
            == Rows(kind, sel, env, rows[1..], RowStep(kind, sel, env, rows[0], run).value)
  {
  }

  /** A successful iteration appends the row's contribution, one draw per
      record. */
  lemma RowStepContributes(kind: Kind, sel: Selector, env: Env, row: Row, run: Run)
    requires IsTemplated(kind)
    requires RowStep(kind, sel, env, row, run).Ok?
    ensures var next := RowStep(kind, sel, env, row, run).value;
            && next.files == run.files + Contribution(kind, sel, env, row, run.draws)
            && next.draws == run.draws + Count(kind, sel, row)
            && |next.files| == |run.files| + Count(kind, sel, row)
  {
    RowStepIdle(kind, sel, env, row, run);
    if Productive(kind, sel, row) {
      RowStepRecords(kind, sel, env, row, run);
      RowRecordsCases(kind, sel, env, row, run.draws);
    }
  }

  /** A run that appends `mine` with `c` draws and then `rest` with one draw
      per record has appended `all == mine + rest`, with one draw per record
      if `mine` holds `c` records. */
  lemma AppendCompose(run: Run, next: Run, fin: Run, mine: seq<Artifact>, rest: seq<Artifact>, all: seq<Artifact>, c: nat)
    requires next.files == run.files + mine && next.draws == run.draws + c && |next.files| == |run.files| + c
    requires fin.files == next.files + rest && fin.draws - next.draws == |fin.files| - |next.files|
    requires all == mine + rest
    ensures fin.files == run.files + all && fin.draws - run.draws == |fin.files| - |run.files|
  {
  }

  /** The loop appends exactly the reference records of its rows, in row
      order, consuming one draw per record. */
  lemma {:induction false} RowsRecords(kind: Kind, sel: Selector, env: Env, rows: seq<Row>, run: Run)
    requires IsTemplated(kind)
    requires Rows(kind, sel, env, rows, run).Ok?
    ensures var fin := Rows(kind, sel, env, rows, run).value;
            && fin.files == run.files + Records(kind, sel, env, rows, run.draws)
            && fin.draws - run.draws == |fin.files| - |run.files|
    decreases |rows|
  {
    if rows != [] {
      RowsUnfold(kind, sel, env, rows, run);
      var next := RowStep(kind, sel, env, rows[0], run).value;
      RowStepContributes(kind, sel, env, rows[0], run);
      RowsRecords(kind, sel, env, rows[1..], next);
      RecordsStep(kind, sel, env, rows, run, next, Rows(kind, sel, env, rows[1..], next).value);
    }
  }

  /** A run that takes the first row's contribution and then the records of
      the rest has taken the records of all rows, one draw per record. */
  lemma RecordsStep(kind: Kind, sel: Selector, env: Env, rows: seq<Row>, run: Run, next: Run, fin: Run)
    requires IsTemplated(kind) && rows != []
    requires next.files == run.files + Contribution(kind, sel, env, rows[0], run.draws)
    requires next.draws == run.draws + Count(kind, sel, rows[0]) && |next.files| == |run.files| + Count(kind, sel, rows[0])
    requires fin.files == next.files + Records(kind, sel, env, rows[1..], next.draws)
    requires fin.draws - next.draws == |fin.files| - |next.files|
    ensures fin.files == run.files + Records(kind, sel, env, rows, run.draws)
    ensures fin.draws - run.draws == |fin.files| - |run.files|
  {
    RecordsCons(kind, sel, env, rows, run.draws);
    AppendCompose(run, next, fin, Contribution(kind, sel, env, rows[0], run.draws),
                  Records(kind, sel, env, rows[1..], next.draws), Records(kind, sel, env, rows, run.draws),
                  Count(kind, sel, rows[0]));
  }

  /** The loop keeps the run consistent: every record it returns is well
      named, its file is on disk, and under `"pdf"` it is a PDF. */
  lemma {:induction false} RowsConsistent(kind: Kind, sel: Selector, env: Env, rows: seq<Row>, run: Run)
    requires IsTemplated(kind)
    requires Rows(kind, sel, env, rows, run).Ok?
    requires Consistent(sel, run)
    ensures Consistent(sel, Rows(kind, sel, env, rows, run).value)
    decreases |rows|
  {
    if rows != [] {
      RowsUnfold(kind, sel, env, rows, run);
      RowStepConsistent(kind, sel, env, rows[0], run);
      RowsConsistent(kind, sel, env, rows[1..], RowStep(kind, sel, env, rows[0], run).value);
    }
  }
}
