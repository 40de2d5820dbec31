/** What the generators produce and the world they write it into: artifact
    records (the dicts appended to `generated_files`), the files on disk, and
    the library calls the model cannot see inside, which become an oracle.
 */
module Documents {
  import opened Outcomes
  import opened Paths
  import AssociateFields
  import TranscriptFields

  /** The `'type'` of a record. */
  datatype Kind = Certificate | Transcript | Associate {

    function Label(): string {
      match this
      case Certificate => "certificate"
      case Transcript => "transcript"
      case Associate => "associate"
    }
  }

  /** The `'format'` of a record. */
  datatype Format = Png | Docx | Pdf {

    function Label(): string {
      match this
      case Png => "png"
      case Docx => "docx"
      case Pdf => "pdf"
    }

    /** The extension every file of this format is saved with. */
    function Extension(): string {
      "." + Label()
    }
  }

  lemma ExtensionsSpelled()
    ensures Png.Extension() == ".png" && Docx.Extension() == ".docx" && Pdf.Extension() == ".pdf"
  {
  }

  /** One record of a manifest: `{'name', 'filename', 'type', 'format', 'path'}`. */
  datatype Artifact = Artifact(name: string, filename: string, kind: Kind, format: Format, path: string)

  /** The list of records one generator call returns, in the order appended. */
  type Manifest = seq<Artifact>

  /** A filled-in template context, of either template-based type. */
  datatype Fields =
    | AssociateContext(a: AssociateFields.Context)
    | TranscriptContext(t: TranscriptFields.Context)

  /** What a generated file holds, as far as the model can tell. */
  datatype Content =
    | Document(fields: Fields)   // a DOCX: the template rendered with this context
    | Exported(source: Content)  // a PDF converted from a DOCX with this content
    | Picture(text: string)      // a certificate image with this name drawn on it

  /** The generated files present on disk, by path. */
  type Disk = map<string, Content>

  /** The calls into code the model cannot see.  Draws are numbered in the
      order the generator makes them; draw `k` is the `k`-th rendered file of
      the call. */
  datatype Env = Env(
    uuid: nat -> UuidHex,          // the hex of the `k`-th `uuid.uuid4()`
    clock: nat -> string,          // `datetime.now().strftime("%B %d, %Y")` at draw `k`
    templateOpens: bool,           // whether the template file can be opened
    renderFails: nat -> bool,      // whether rendering or saving draw `k` raises
    convertFails: nat -> bool)     // whether converting the DOCX of draw `k` raises

  /** The state a generator threads through its loop: how many files it has
      drawn names for, the disk, and the records appended so far. */
  datatype Run = Run(draws: nat, disk: Disk, files: Manifest)

  /** `app.config['GENERATED_FOLDER']`. */
  const GeneratedFolder: string := "generated_docs"

  /** Saving a file named `name` into the existing directory `dir`.  A slash
      in the name points into a sub-directory that was never created, so the
      save raises. */
  function Save(dir: string, name: string, content: Content, disk: Disk): (r: Result<Disk>)
    ensures r.Ok? <==> '/' !in name
    ensures r.Ok? ==> Join(dir, name) in r.value && r.value[Join(dir, name)] == content
    ensures r.Ok? ==> disk.Keys <= r.value.Keys
    ensures r.Ok? ==> forall p :: p in disk && p != Join(dir, name) ==> r.value[p] == disk[p]
    ensures r.Err? ==> r.error == FileNotFound
  {
    if '/' in name then Err(FileNotFound) else Ok(disk[Join(dir, name) := content])
  }

  /** The part of a record that does not depend on the random suffix. */
  datatype Shape = Shape(name: string, kind: Kind, format: Format)

  function ShapeOf(a: Artifact): Shape {
    Shape(a.name, a.kind, a.format)
  }

  function Shapes(files: Manifest): (r: seq<Shape>)
    ensures |r| == |files|
    ensures forall i :: 0 <= i < |files| ==> r[i] == ShapeOf(files[i])
  {
    if files == [] then [] else [ShapeOf(files[0])] + Shapes(files[1..])
  }

  lemma ShapesAppend(a: Manifest, b: Manifest)
    ensures Shapes(a + b) == Shapes(a) + Shapes(b)
  {
    var l := Shapes(a + b);
    var r := Shapes(a) + Shapes(b);
    forall i | 0 <= i < |l| ensures l[i] == r[i] {
      if i < |a| {
        assert (a + b)[i] == a[i];
      } else {
        assert (a + b)[i] == b[i - |a|];
      }
    }
  }

  /** The eight characters just before the extension of a record's file name. */
  function Tag(a: Artifact): string
    requires |a.filename| >= |a.format.Extension()| + 8
  {
    var n := |a.filename| - |a.format.Extension()|;
    a.filename[n - 8..n]
  }

  /** Two file names ending in the extensions of different formats differ. */
  lemma ExtensionsDiffer(f: string, g: string, x: Format, y: Format)
    requires EndsWith(f, x.Extension()) && EndsWith(g, y.Extension())
    requires x != y
    ensures f != g
  {
    assert f[|f| - 1] == x.Extension()[|x.Extension()| - 1];
  }

  /** A record whose file name ends in its format's extension, preceded by
      the suffix of the uuid `u`. */
  ghost predicate Tagged(a: Artifact, u: UuidHex) {
    && EndsWith(a.filename, a.format.Extension())
    && |a.filename| >= |a.format.Extension()| + 8
    && Tag(a) == Suffix(u)
  }

  /** Tags drawn in sequence from draw `k`. */
  ghost predicate TaggedFrom(rs: Manifest, env: Env, k: nat) {
    forall i :: 0 <= i < |rs| ==> Tagged(rs[i], env.uuid(k + i))
  }

  /** Records tagged in sequence from `k`, followed by records tagged in
      sequence from where they stop, are tagged in sequence from `k`. */
  lemma TaggedAppend(mine: Manifest, rest: Manifest, env: Env, k: nat)
    requires TaggedFrom(mine, env, k) && TaggedFrom(rest, env, k + |mine|)
    ensures TaggedFrom(mine + rest, env, k)
  {
    var all := mine + rest;
    forall i | 0 <= i < |all| ensures Tagged(all[i], env.uuid(k + i)) {
      if i < |mine| {
        assert all[i] == mine[i];
      } else {
        assert all[i] == rest[i - |mine|];
        assert k + |mine| + (i - |mine|) == k + i;
      }
    }
  }

  /** Record `i` of the run carries the suffix of draw `i`, and every draw
      so far has a record. */
  ghost predicate InSequence(env: Env, run: Run) {
    run.draws == |run.files| && TaggedFrom(run.files, env, 0)
  }

  /** Two records tagged with different suffixes have different file names. */
  lemma TaggedApart(a: Artifact, b: Artifact, u: UuidHex, v: UuidHex)
    requires Tagged(a, u) && Tagged(b, v) && Suffix(u) != Suffix(v)
    ensures a.filename != b.filename
  {
    if a.format != b.format {
      ExtensionsDiffer(a.filename, b.filename, a.format, b.format);
    }
  }

  /** When the draws have pairwise different eight-character suffixes, the
      records of a run in draw order have pairwise different file names. */
  lemma NamesDistinct(env: Env, run: Run)
    requires InSequence(env, run)
    requires forall i, j :: 0 <= i < j < run.draws ==> Suffix(env.uuid(i)) != Suffix(env.uuid(j))
    ensures forall i, j :: 0 <= i < j < |run.files| ==> run.files[i].filename != run.files[j].filename
  {
    var rs := run.files;
    forall i, j | 0 <= i < j < |rs| ensures rs[i].filename != rs[j].filename {
      TaggedApart(rs[i], rs[j], env.uuid(i), env.uuid(j));
    }
  }
}
