/** The certificate generator, `generate_certificates` (app.py:27-69): one PNG
    per data row, the row's stripped "Name" drawn onto the template image, with
    no eligibility test.  Any exception ends the call with a failure and no
    manifest.  Fonts, text measurement and centring are not modelled; what is
    drawn is only recorded as the name.
 */
module Certificates {
  import opened Outcomes
  import opened Cells
  import opened Paths
  import opened Documents

  /** The header cell that labels the column `row["Name"]` reads. */
  const NameLabel: Cell := Text("Name")

  /** The first column of the header holding `title`, if any. */
  function IndexOf(header: Row, title: Cell): (r: Option<nat>)
    ensures r.Some? ==> r.value < |header| && header[r.value] == title
    ensures r.Some? ==> forall j :: 0 <= j < r.value ==> header[j] != title
    ensures r.None? <==> title !in header
  {
    if header == [] then None
    else if header[0] == title then Some(0)
    else match IndexOf(header[1..], title)
      case None => None
      case Some(i) => Some(i + 1)
  }

  /** A data row's cell in column `j`; pandas pads short rows with blanks. */
  function CellAt(row: Row, j: nat): Cell {
    if j < |row| then row[j] else Empty
  }

  /** `str()` of a cell as pandas hands it back: a blank cell is NaN. */
  function PandasStr(c: Cell): string {
    if c.Empty? then "nan" else Str(c)
  }

  /** `str(row["Name"]).strip()`. */
  function NameOf(row: Row, column: nat): string {
    Strip(PandasStr(CellAt(row, column)))
  }

  /** The names the loop reads, row by row, from column `column`. */
  function Names(rows: seq<Row>, column: nat): (r: seq<string>)
    ensures |r| == |rows|
    ensures forall i :: 0 <= i < |rows| ==> r[i] == NameOf(rows[i], column)
  {
    seq(|rows|, i requires 0 <= i < |rows| => NameOf(rows[i], column))
  }

  /** `output_folder` as the upload route passes it. */
  const CertificateDir: string := Join(GeneratedFolder, "Certificates")

  /** `f"certificate_{name.replace(' ', '_')}_{uuid4().hex[:8]}.png"`: only
      spaces are replaced, so a slash in the name survives. */
  function CertificateName(name: string, u: UuidHex): string {
    FileName("certificate", Replace(name, ' ', '_'), u, Png.Extension())
  }

  /** The record of the certificate drawn for `name` at draw `k`. */
  function CertificateRecord(env: Env, name: string, k: nat): Artifact {
    var file := CertificateName(name, env.uuid(k));
    Artifact(name, file, Certificate, Png, Join(CertificateDir, file))
  }

  /** One iteration, for a row whose name has been read: open the template,
      draw, name the file after the next uuid and save it. */
  function RowStep(env: Env, name: string, run: Run): Result<Run> {
    var k := run.draws;
    if !env.templateOpens then Err(TemplateError)
    else if env.renderFails(k) then Err(RenderError)
    else
      var file := CertificateName(name, env.uuid(k));
      var disk :- Save(CertificateDir, file, Picture(name), run.disk);
      Ok(Run(k + 1, disk, run.files + [Artifact(name, file, Certificate, Png, Join(CertificateDir, file))]))
  }

  /** The loop over the names of the data rows, in order; the first
      exception ends it. */
  function Draw(env: Env, names: seq<string>, run: Run): Result<Run>
    decreases |names|
  {
    if names == [] then Ok(run)
    else
      var next :- RowStep(env, names[0], run);
      Draw(env, names[1..], next)
  }

  /** The whole generator.  pandas takes row 0 as the header and the rest as
      data; an unreadable workbook fails the call.  Without a "Name" header,
      `row["Name"]` raises `KeyError` in the first iteration before that row
      has any other effect, which is why the case is settled before the
      loop; reading a name from an existing column cannot fail. */
  function Generate(env: Env, workbook: Option<Sheet>, disk: Disk): Result<Run> {
    match workbook
    case None => Err(Unreadable)
    case Some(sheet) =>
      var rows := DataRows(sheet);
      var start := Run(0, disk, []);
      if rows == [] then Ok(start)
      else match IndexOf(sheet[0], NameLabel)
        case None => Err(KeyError)
        case Some(column) => Draw(env, Names(rows, column), start)
  }

  // ---------------------------------------------------------------------
  // One iteration
  // ---------------------------------------------------------------------

  /** Whether the name drawn at draw `k` can be saved: drawing does not fail
      and the name holds no slash. */
  predicate Saves(env: Env, name: string, k: nat) {
    !env.renderFails(k) && '/' !in name
  }

  /** Certificate file names end in `.png`, and hold a slash exactly when
      the name does. */
  lemma CertificateNameShape(name: string, u: UuidHex)
    ensures EndsWith(CertificateName(name, u), ".png")
    ensures '/' in CertificateName(name, u) <==> '/' in name
  {
    var f := CertificateName(name, u);
    var safe := Replace(name, ' ', '_');
    SuffixIsRecoverable("certificate", safe, u, Png.Extension());
    ExtensionsSpelled();
    assert forall i :: 0 <= i < |name| ==> (safe[i] == '/' <==> name[i] == '/');
    if '/' in name {
      var i :| 0 <= i < |name| && name[i] == '/';
      assert f[|"certificate_"| + i] == safe[i];
    } else {
      assert '/' !in safe;
      SuffixHasNoSeparators(u);
      assert f == "certificate_" + safe + "_" + Suffix(u) + ".png";
      assert forall i :: 0 <= i < |f| ==> f[i] != '/' by {
        forall i | 0 <= i < |f| ensures f[i] != '/' {
          if 12 <= i < 12 + |safe| {
            assert f[i] == safe[i - 12];
          } else if 13 + |safe| <= i < 21 + |safe| {
            assert f[i] == Suffix(u)[i - 13 - |safe|];
          }
        }
      }
    }
  }

  /** A `png` certificate record for `name`, whose file name is the base
      name of its path, ends in `.png` and carries the suffix of `u`. */
  ghost predicate Shaped(a: Artifact, name: string, u: UuidHex) {
    && a.kind == Certificate && a.format == Png && a.name == name
    && a.filename == CertificateName(name, u)
    && a.filename == Basename(a.path)
    && EndsWith(a.filename, ".png")
    && Tagged(a, u)
  }

  /** A certificate record for a name without a slash is a `png`
      certificate whose file name is the base name of its path, ends in
      `.png` and carries the suffix of its draw. */
  lemma RecordShape(env: Env, name: string, k: nat)
    requires '/' !in name
    ensures Shaped(CertificateRecord(env, name, k), name, env.uuid(k))
  {
    var file := CertificateName(name, env.uuid(k));
    CertificateNameShape(name, env.uuid(k));
    BasenameOfJoin(CertificateDir, file);
    SuffixIsRecoverable("certificate", Replace(name, ' ', '_'), env.uuid(k), Png.Extension());
  }

  /** An iteration succeeds exactly when the template opens and the name can
      be saved; it then appends the name's record, saved on disk, and takes
      one draw. */
  lemma RowStepFacts(env: Env, name: string, run: Run)
    ensures RowStep(env, name, run).Ok? <==> env.templateOpens && Saves(env, name, run.draws)
    ensures RowStep(env, name, run).Ok? ==>
              var next := RowStep(env, name, run).value;
              && next.files == run.files + [CertificateRecord(env, name, run.draws)]
              && next.draws == run.draws + 1
              && CertificateRecord(env, name, run.draws).path in next.disk
              && run.disk.Keys <= next.disk.Keys
    ensures RowStep(env, name, run).Err? ==>
              RowStep(env, name, run).error ==
                if !env.templateOpens then TemplateError
                else if env.renderFails(run.draws) then RenderError
                else FileNotFound
  {
    CertificateNameShape(name, env.uuid(run.draws));
  }

  // ---------------------------------------------------------------------
  // The loop
  // ---------------------------------------------------------------------

  /** `f` applied to each element with its index counted from `k`. */
  function Indexed<T, U>(f: (T, nat) -> U, xs: seq<T>, k: nat): (r: seq<U>)
    ensures |r| == |xs|
    decreases |xs|
  {
    if xs == [] then [] else [f(xs[0], k)] + Indexed(f, xs[1..], k + 1)
  }

  /** Element `i` is `f` of element `i` at index `k + i`. */
  lemma {:induction false} IndexedAt<T, U>(f: (T, nat) -> U, xs: seq<T>, k: nat, i: nat)
    requires i < |xs|
    ensures Indexed(f, xs, k)[i] == f(xs[i], k + i)
    decreases i
  {
    if i > 0 {
      IndexedAt(f, xs[1..], k + 1, i - 1);
      assert xs[1..][i - 1] == xs[i];
    }
  }

  /** The record of a name drawn at a given draw, as a function value. */
  function Recorder(env: Env): (string, nat) -> Artifact {
    (name: string, k: nat) => CertificateRecord(env, name, k)
  }

  /** The records of names drawn from draw `k` on, one per name, in order. */
  function Records(env: Env, names: seq<string>, k: nat): seq<Artifact> {
    Indexed(Recorder(env), names, k)
  }

  /** Every name, drawn from draw `k` on, can be saved. */
  predicate AllSave(env: Env, names: seq<string>, k: nat)
    decreases |names|
  {
    names == [] || (Saves(env, names[0], k) && AllSave(env, names[1..], k + 1))
  }

  /** A property of every element, the `i`-th at index `k + i`, holds of a
      non-empty sequence exactly when it holds of the head at `k` and of the
      tail from `k + 1`. */
  lemma EveryFromCons<T>(p: (T, nat) -> bool, xs: seq<T>, k: nat)
    requires xs != []
    ensures (forall i :: 0 <= i < |xs| ==> p(xs[i], k + i)) <==>
              p(xs[0], k) && forall i :: 0 <= i < |xs[1..]| ==> p(xs[1..][i], k + 1 + i)
  {
    var tail := xs[1..];
    if forall i :: 0 <= i < |xs| ==> p(xs[i], k + i) {
      assert p(xs[0], k + 0);
      forall i | 0 <= i < |tail| ensures p(tail[i], k + 1 + i) {
        assert tail[i] == xs[i + 1];
      }
    }
    if p(xs[0], k) && forall i :: 0 <= i < |tail| ==> p(tail[i], k + 1 + i) {
      forall i | 0 <= i < |xs| ensures p(xs[i], k + i) {
        if i > 0 {
          assert xs[i] == tail[i - 1];
        }
      }
    }
  }

  /** Record `i` is that of name `i` at draw `k + i`. */
  lemma RecordsAt(env: Env, names: seq<string>, k: nat, i: nat)
    requires i < |names|
    ensures Records(env, names, k)[i] == CertificateRecord(env, names[i], k + i)
  {
    IndexedAt(Recorder(env), names, k, i);
  }

  /** Record `i` of names drawn from the first draw on, for a name without
      a slash, is shaped for that name and draw `i`. */
  lemma RecordShapeAt(env: Env, names: seq<string>, files: Manifest, i: nat)
    requires files == Records(env, names, 0)
    requires i < |names| && '/' !in names[i]
    ensures Shaped(files[i], names[i], env.uuid(i))
  {
    RecordsAt(env, names, 0, i);
    RecordShape(env, names[i], i);
  }

  /** Every name can be saved exactly when name `i` can at draw `k + i`. */
  lemma {:induction false} AllSaveEvery(env: Env, names: seq<string>, k: nat)
    ensures AllSave(env, names, k) <==> forall i :: 0 <= i < |names| ==> Saves(env, names[i], k + i)
    decreases |names|
  {
    if names != [] {
      AllSaveEvery(env, names[1..], k + 1);
      EveryFromCons((name, j) => Saves(env, name, j), names, k);
    }
  }

  /** The loop after one iteration: the first iteration's failure, or the
      rest of the loop from where it left the run. */
  lemma DrawUnfold(env: Env, names: seq<string>, run: Run)
    requires names != []
    ensures RowStep(env, names[0], run).Err? ==>
              Draw(env, names, run) == Err(RowStep(env, names[0], run).error)
    ensures RowStep(env, names[0], run).Ok? ==>
              Draw(env, names, run) == Draw(env, names[1..], RowStep(env, names[0], run).value)
  {
  }

  /** The loop succeeds exactly when there are no names, or the template
      opens and every name can be saved. */
  lemma {:induction false} DrawSucceeds(env: Env, names: seq<string>, run: Run)
    ensures Draw(env, names, run).Ok? <==>
              names == [] || (env.templateOpens && AllSave(env, names, run.draws))
    decreases |names|
  {
    if names != [] {
      var step := RowStep(env, names[0], run);
      var ok := Draw(env, names, run).Ok?;
      if step.Err? {
        assert !ok by {
          DrawUnfold(env, names, run);
        }
        assert !env.templateOpens || !Saves(env, names[0], run.draws) by {
          RowStepFacts(env, names[0], run);
        }
      } else {
        var next := step.value;
        assert ok == Draw(env, names[1..], next).Ok? by {
          DrawUnfold(env, names, run);
        }
        assert env.templateOpens && Saves(env, names[0], run.draws) && next.draws == run.draws + 1 by {
          RowStepFacts(env, names[0], run);
        }
        DrawSucceeds(env, names[1..], next);
      }
    }
  }

  /** A successful loop appends one certificate record per name, in order,
      takes one draw per name, and leaves every recorded file on disk. */
  lemma {:induction false} DrawRecords(env: Env, names: seq<string>, run: Run)
    requires Draw(env, names, run).Ok?
    requires forall a :: a in run.files ==> a.path in run.disk
    ensures var fin := Draw(env, names, run).value;
            && fin.files == run.files + Records(env, names, run.draws)
            && fin.draws == run.draws + |names|
            && forall a :: a in fin.files ==> a.path in fin.disk
    decreases |names|
  {
    if names != [] {
      var k := run.draws;
      var next := RowStep(env, names[0], run).value;
      var fin := Draw(env, names, run).value;
      var mine := CertificateRecord(env, names[0], k);
      var rest := Records(env, names[1..], k + 1);
      assert RowStep(env, names[0], run).Ok? && fin == Draw(env, names[1..], next).value by {
        DrawUnfold(env, names, run);
      }
      assert next.files == run.files + [mine] && next.draws == k + 1
             && forall a :: a in next.files ==> a.path in next.disk by {
        RowStepFacts(env, names[0], run);
        forall a | a in next.files ensures a.path in next.disk {
          if a !in run.files {
            assert a == next.files[|run.files|];
          }
        }
      }
      assert fin.files == next.files + rest && fin.draws == k + 1 + |names[1..]|
             && forall a :: a in fin.files ==> a.path in fin.disk by {
        DrawRecords(env, names[1..], next);
      }
      assert Records(env, names, k) == [mine] + rest;
      RegroupGlue(run.files, [mine], rest);
    }
  }

  /** Glue for the loop proof: regrouping a three-part concatenation, kept
      out of line so the loop lemma need not find the step itself. */
  lemma RegroupGlue<T>(a: seq<T>, b: seq<T>, c: seq<T>)
    ensures a + b + c == a + (b + c)
  {
  }

  /** No drawing from draw `k` to draw `k + n - 1` fails. */
  predicate DrawsFrom(env: Env, k: nat, n: nat) {
    forall j :: k <= j < k + n ==> !env.renderFails(j)
  }

  /** Records of names without a slash, drawn from the first draw on: record
      `i` is shaped for name `i` and the `i`-th uuid. */
  lemma RecordsShaped(env: Env, names: seq<string>, files: Manifest)
    requires files == Records(env, names, 0)
    requires forall i :: 0 <= i < |names| ==> '/' !in names[i]
    ensures |files| == |names|
    ensures forall i :: 0 <= i < |names| ==> Shaped(files[i], names[i], env.uuid(i))
  {
    forall i | 0 <= i < |names|
      ensures Shaped(files[i], names[i], env.uuid(i))
    {
      RecordShapeAt(env, names, files, i);
    }
  }

  /** A successful loop over a fresh run records the names in order, none of
      which holds a slash. */
  lemma DrawOk(env: Env, names: seq<string>, disk: Disk)
    requires Draw(env, names, Run(0, disk, [])).Ok?
    ensures var r := Draw(env, names, Run(0, disk, [])).value;
            && r.files == Records(env, names, 0)
            && r.draws == |names|
            && (forall a :: a in r.files ==> a.path in r.disk)
            && forall i :: 0 <= i < |names| ==> '/' !in names[i]
  {
    var start := Run(0, disk, []);
    DrawRecords(env, names, start);
    DrawSucceeds(env, names, start);
    AllSaveNoSlash(env, names, 0);
  }

  /** Names that all save hold no slash. */
  lemma AllSaveNoSlash(env: Env, names: seq<string>, k: nat)
    requires AllSave(env, names, k)
    ensures forall i :: 0 <= i < |names| ==> '/' !in names[i]
  {
    AllSaveEvery(env, names, k);
    forall i | 0 <= i < |names| ensures '/' !in names[i] {
      assert Saves(env, names[i], k + i);
    }
  }

  /** A successful loop over a fresh run returns one certificate record per
      name, record `i` shaped for name `i` and the `i`-th uuid, saved on
      disk, the records tagged in draw order. */
  lemma DrawManifest(env: Env, names: seq<string>, disk: Disk)
    requires Draw(env, names, Run(0, disk, [])).Ok?
    ensures var r := Draw(env, names, Run(0, disk, [])).value;
            && |r.files| == |names|
            && InSequence(env, r)
            && (forall a :: a in r.files ==> a.path in r.disk)
            && forall i :: 0 <= i < |names| ==> Shaped(r.files[i], names[i], env.uuid(i))
  {
    var r := Draw(env, names, Run(0, disk, [])).value;
    DrawOk(env, names, disk);
    RecordsShaped(env, names, r.files);
    assert TaggedFrom(r.files, env, 0) by {
      forall i | 0 <= i < |r.files| ensures Tagged(r.files[i], env.uuid(0 + i)) {
        assert Shaped(r.files[i], names[i], env.uuid(i));
      }
    }
  }

  /** Which exception a failed loop ends with: a template error when the
      image cannot be opened, and otherwise a drawing failure or a save into
      a missing directory; when no drawing fails, it is the save. */
  lemma {:induction false} DrawFailure(env: Env, names: seq<string>, run: Run)
    requires Draw(env, names, run).Err?
    ensures var e := Draw(env, names, run).error;
            && (!env.templateOpens ==> e == TemplateError)
            && (env.templateOpens ==> e == RenderError || e == FileNotFound)
            && (env.templateOpens && DrawsFrom(env, run.draws, |names|) ==> e == FileNotFound)
    decreases |names|
  {
    var step := RowStep(env, names[0], run);
    var e := Draw(env, names, run).error;
    var k := run.draws;
    if step.Err? {
      assert e == step.error by {
        DrawUnfold(env, names, run);
      }
      assert && (!env.templateOpens ==> e == TemplateError)
             && (env.templateOpens ==> e == RenderError || e == FileNotFound)
             && (env.templateOpens && !env.renderFails(k) ==> e == FileNotFound) by {
        RowStepFacts(env, names[0], run);
      }
      assert DrawsFrom(env, k, |names|) ==> !env.renderFails(k);
    } else {
      var next := step.value;
      assert Draw(env, names[1..], next) == Draw(env, names, run) by {
        DrawUnfold(env, names, run);
      }
      assert env.templateOpens && next.draws == k + 1 by {
        RowStepFacts(env, names[0], run);
      }
      DrawFailure(env, names[1..], next);
      assert DrawsFrom(env, k, |names|) ==> DrawsFrom(env, k + 1, |names[1..]|);
    }
  }

  // ---------------------------------------------------------------------
  // The whole call
  // ---------------------------------------------------------------------

  /** The "Name" column of a sheet whose header has one. */
  function NameColumn(sheet: Sheet): nat
    requires sheet != [] && NameLabel in sheet[0]
  {
    IndexOf(sheet[0], NameLabel).value
  }

  /** The call succeeds exactly when there are no data rows, or the header
      has a "Name" column, the template opens and every row's name can be
      drawn and saved, row `i` at draw `i`. */
  lemma GenerateSucceeds(env: Env, sheet: Sheet, disk: Disk)
    ensures Generate(env, Some(sheet), disk).Ok? <==>
              DataRows(sheet) == [] ||
              (NameLabel in sheet[0] && env.templateOpens &&
               forall i :: 0 <= i < |DataRows(sheet)| ==> Saves(env, NameOf(DataRows(sheet)[i], NameColumn(sheet)), i))
  {
    var rows := DataRows(sheet);
    if rows != [] && NameLabel in sheet[0] {
      var names := Names(rows, NameColumn(sheet));
      assert Generate(env, Some(sheet), disk) == Draw(env, names, Run(0, disk, []));
      DrawSucceeds(env, names, Run(0, disk, []));
      AllSaveNames(env, rows, NameColumn(sheet));
    }
  }

  /** The names of rows all save, from draw 0, exactly when the name of row
      `i` saves at draw `i`. */
  lemma AllSaveNames(env: Env, rows: seq<Row>, column: nat)
    ensures AllSave(env, Names(rows, column), 0) <==>
              forall i :: 0 <= i < |rows| ==> Saves(env, NameOf(rows[i], column), i)
  {
    var names := Names(rows, column);
    AllSaveEvery(env, names, 0);
    assert forall i :: 0 <= i < |rows| ==> names[i] == NameOf(rows[i], column) && 0 + i == i;
  }

  /** A successful call returns one `png` certificate record per data row,
      record `i` named after row `i`'s stripped "Name" cell, saved on disk and
      carrying the suffix of the `i`-th uuid drawn; the header row yields
      none. */
  lemma GenerateManifest(env: Env, sheet: Sheet, disk: Disk)
    requires Generate(env, Some(sheet), disk).Ok?
    ensures var r := Generate(env, Some(sheet), disk).value;
            && |r.files| == |DataRows(sheet)|
            && InSequence(env, r)
            && (forall a :: a in r.files ==> a.path in r.disk)
            && forall i :: 0 <= i < |r.files| ==>
                 && NameLabel in sheet[0]
                 && r.files[i].name == NameOf(DataRows(sheet)[i], NameColumn(sheet))
                 && r.files[i].kind == Certificate && r.files[i].format == Png
                 && r.files[i].name == Strip(r.files[i].name)
                 && r.files[i].filename == CertificateName(r.files[i].name, env.uuid(i))
                 && r.files[i].filename == Basename(r.files[i].path)
  {
    var r := Generate(env, Some(sheet), disk).value;
    var rows := DataRows(sheet);
    if rows != [] {
      var c := NameColumn(sheet);
      var names := Names(rows, c);
      var start := Run(0, disk, []);
      assert Draw(env, names, start) == Ok(r);
      DrawManifest(env, names, disk);
      forall i | 0 <= i < |names|
        ensures names[i] == NameOf(rows[i], c) && names[i] == Strip(names[i])
      {
        StripIdempotent(PandasStr(CellAt(rows[i], c)));
      }
    }
  }

  /** Which exception a failed call ends with: `KeyError` exactly when there
      are data rows and no "Name" header; otherwise a template error when the
      image cannot be opened, else a drawing failure or a save into a
      missing directory, and the save when no drawing fails. */
  lemma GenerateFailure(env: Env, sheet: Sheet, disk: Disk)
    requires Generate(env, Some(sheet), disk).Err?
    ensures var e := Generate(env, Some(sheet), disk).error;
            && DataRows(sheet) != []
            && (e == KeyError <==> NameLabel !in sheet[0])
            && (NameLabel in sheet[0] && !env.templateOpens ==> e == TemplateError)
            && (NameLabel in sheet[0] && env.templateOpens ==> e == RenderError || e == FileNotFound)
            && (NameLabel in sheet[0] && env.templateOpens && DrawsFrom(env, 0, |DataRows(sheet)|) ==> e == FileNotFound)
  {
    var rows := DataRows(sheet);
    if NameLabel in sheet[0] {
      var names := Names(rows, NameColumn(sheet));
      assert Generate(env, Some(sheet), disk) == Draw(env, names, Run(0, disk, []));
      DrawFailure(env, names, Run(0, disk, []));
    }
  }

  /** With a "Name" header, the template opening and no drawing failing, the
      call fails exactly when some data row's name holds a slash, and then
      with `FileNotFoundError`: only spaces are replaced in the file name, so
      the slash points into a directory that does not exist. */
  lemma SlashFails(env: Env, sheet: Sheet, disk: Disk)
    requires sheet != [] && NameLabel in sheet[0]
    requires env.templateOpens && DrawsFrom(env, 0, |DataRows(sheet)|)
    ensures Generate(env, Some(sheet), disk).Err? <==>
              exists j :: 0 <= j < |DataRows(sheet)| && '/' in NameOf(DataRows(sheet)[j], NameColumn(sheet))
    ensures Generate(env, Some(sheet), disk).Err? ==> Generate(env, Some(sheet), disk).error == FileNotFound
  {
    var rows := DataRows(sheet);
    var c := NameColumn(sheet);
    GenerateSucceeds(env, sheet, disk);
    if Generate(env, Some(sheet), disk).Err? {
      GenerateFailure(env, sheet, disk);
      var j :| 0 <= j < |rows| && !Saves(env, NameOf(rows[j], c), j);
      assert !env.renderFails(0 + j);
    } else if exists j :: 0 <= j < |rows| && '/' in NameOf(rows[j], c) {
      var j :| 0 <= j < |rows| && '/' in NameOf(rows[j], c);
      assert !Saves(env, NameOf(rows[j], c), j);
    }
  }

  /** With no "Name" header, any data row fails the call with `KeyError`;
      with no data rows the call succeeds with an empty manifest. */
  lemma MissingNameColumn(env: Env, header: Row, rows: seq<Row>, disk: Disk)
    requires NameLabel !in header
    ensures rows == [] ==> Generate(env, Some([header] + rows), disk) == Ok(Run(0, disk, []))
    ensures rows != [] ==> Generate(env, Some([header] + rows), disk) == Err(KeyError)
  {
    assert DataRows([header] + rows) == rows;
  }

  /** Only the position of the "Name" header matters: two headers placing it
      in the same column give the same result. */
  lemma HeaderIgnored(env: Env, header: Row, header': Row, body: seq<Row>, disk: Disk)
    requires IndexOf(header, NameLabel) == IndexOf(header', NameLabel)
    ensures Generate(env, Some([header] + body), disk) == Generate(env, Some([header'] + body), disk)
  {
    assert DataRows([header] + body) == body == DataRows([header'] + body);
  }

  /** Distinct uuid suffixes give the certificates distinct file names. */
  lemma GenerateNamesDistinct(env: Env, sheet: Sheet, disk: Disk)
    requires Generate(env, Some(sheet), disk).Ok?
    requires var files := Generate(env, Some(sheet), disk).value.files;
             forall i, j :: 0 <= i < j < |files| ==> Suffix(env.uuid(i)) != Suffix(env.uuid(j))
    ensures var files := Generate(env, Some(sheet), disk).value.files;
            forall i, j :: 0 <= i < j < |files| ==> files[i].filename != files[j].filename
  {
    var r := Generate(env, Some(sheet), disk).value;
    assert InSequence(env, r) && r.draws == |r.files| by {
      GenerateManifest(env, sheet, disk);
    }
    NamesDistinct(env, r);
  }
}
