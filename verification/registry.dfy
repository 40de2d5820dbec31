/** The in-memory registry of generated manifests and the routes that read it.

    `generated_files_store` maps a session id to the manifest one upload
    produced. The upload route screens the form, runs the generator the
    document type calls for and, on success, stores its manifest under a
    new id; the other routes look manifests up by id, find records by file
    name and forget ids again. Requests, redirects and flashed messages are
    reduced to the values the routes compute.
 */
module Registry {
  import opened Outcomes
  import opened Cells
  import opened Paths
  import opened Documents
  import Certificates
  import DocxGeneration
  import DocxManifest

  /** `generated_files_store`: session id to manifest. */
  type Store = map<string, Manifest>

  /** The fields of an upload request: `None` for a field or file part that
      is absent; a file part is given by the name the browser sent. */
  datatype Form = Form(
    documentType: Option<string>,
    fileFormat: Option<string>,
    excel: Option<string>,
    template: Option<string>)

  /** Why the form is sent back before anything is generated. */
  datatype Rejection =
    | MissingFiles         // a file part is absent
    | NoSelection          // a file part has an empty file name
    | NotAWorkbook         // the spreadsheet name does not end in .xlsx or .xls
    | InvalidType          // the document type is none of the three
    | WrongTemplate(kind: Kind)  // the template's extension does not suit the type

  /** What the screening of a form decides: send it back, or run a
      generator for a document type with a `file_format` value. */
  datatype Screening = Refuse(why: Rejection) | Proceed(kind: Kind, option: string)

  /** What the upload route answers. */
  datatype Response =
    | Refused(why: Rejection)                  // flashed, back to the form
    | Failed(error: Error)                     // the generator failed; flashed, back to the form
    | Crashed                                  // saving an upload raised outside the `try`: a server error
    | Stored(id: string, count: nat, disk: Disk)  // on to the results page; the files now on disk

  /** The answer of an upload and the registry after it. */
  datatype Posted = Posted(response: Response, store: Store)

  /** The answer of a route that looks a session up: the session is unknown,
      the thing asked for is not there, or the answer. */
  datatype Reply<+T> = Expired | Missing | Ready(value: T)

  /** A file handed to the browser: as an attachment, or to display. */
  datatype Sent = Sent(path: string, attachment: bool)

  // ---------------------------------------------------------------------
  // Screening the form
  // ---------------------------------------------------------------------

  /** ASCII lower-casing of one character. */
  function LowerChar(c: char): char {
    if 'A' <= c <= 'Z' then (c as int + 32) as char else c
  }

  /** `s.lower()`, on ASCII letters. */
  function Lower(s: string): (r: string)
    ensures |r| == |s|
    ensures forall i :: 0 <= i < |s| ==> r[i] == LowerChar(s[i])
  {
    seq(|s|, i requires 0 <= i < |s| => LowerChar(s[i]))
  }

  /** Lower-casing twice is lower-casing once. */
  lemma LowerIdempotent(s: string)
    ensures Lower(Lower(s)) == Lower(s)
  {
    assert forall i :: 0 <= i < |s| ==> LowerChar(LowerChar(s[i])) == LowerChar(s[i]);
  }

  /** The spreadsheet test, which is case-sensitive. */
  predicate IsWorkbookName(name: string) {
    EndsWith(name, ".xlsx") || EndsWith(name, ".xls")
  }

  /** The template test of a document type, on the lower-cased name: an image
      for certificates, a Word document otherwise. */
  predicate TemplateFits(kind: Kind, name: string) {
    var low := Lower(name);
    if kind.Certificate? then EndsWith(low, ".png") || EndsWith(low, ".jpg") || EndsWith(low, ".jpeg")
    else EndsWith(low, ".docx")
  }

  /** The document type a `document_type` value names, if any. */
  function DocumentKind(value: Option<string>): (r: Option<Kind>)
    ensures r.Some? <==> value.Some? && value.value in {"certificate", "transcript", "associate"}
    ensures r.Some? ==> r.value.Label() == value.value
  {
    match value
    case None => None
    case Some(v) =>
      if v == "certificate" then Some(Certificate)
      else if v == "transcript" then Some(Transcript)
      else if v == "associate" then Some(Associate)
      else None
  }

  /** A form the upload route accepts: both files present and named, the
      spreadsheet named as a workbook, a known document type, and a template
      that suits it. */
  predicate Acceptable(form: Form) {
    && form.excel.Some? && form.template.Some?
    && form.excel.value != "" && form.template.value != ""
    && IsWorkbookName(form.excel.value)
    && DocumentKind(form.documentType).Some?
    && TemplateFits(DocumentKind(form.documentType).value, form.template.value)
  }

  /** The checks the upload route makes before it saves the two uploads:
      both file parts present and named, the spreadsheet named as a workbook. */
  predicate FilesNamed(form: Form) {
    && form.excel.Some? && form.template.Some?
    && form.excel.value != "" && form.template.value != ""
    && IsWorkbookName(form.excel.value)
  }

  /** Whether saving the uploads raises. Each is saved as
      `uploads/<uuid>_<name>`, so a `/` in a name makes its directory part a
      folder under `uploads/` named after a fresh uuid, which does not exist. */
  predicate SaveFails(form: Form) {
    FilesNamed(form) && ('/' in form.excel.value || '/' in form.template.value)
  }

  /** The checks of the upload route, in the order it makes them: missing
      parts, empty names, the spreadsheet's extension, then the document type
      and the template's extension; `file_format` defaults to `"both"`. */
  function Screen(form: Form): (r: Screening)
    ensures r.Proceed? <==> Acceptable(form)
    ensures r == Refuse(MissingFiles) <==> form.excel.None? || form.template.None?
    ensures r == Refuse(NoSelection) <==>
              form.excel.Some? && form.template.Some? && (form.excel.value == "" || form.template.value == "")
    ensures r == Refuse(NotAWorkbook) <==>
              && form.excel.Some? && form.template.Some?
              && form.excel.value != "" && form.template.value != ""
              && !IsWorkbookName(form.excel.value)
    ensures r == Refuse(InvalidType) <==>
              && form.excel.Some? && form.template.Some?
              && form.excel.value != "" && form.template.value != ""
              && IsWorkbookName(form.excel.value)
              && DocumentKind(form.documentType).None?
    ensures r.Refuse? && r.why.WrongTemplate? ==> !TemplateFits(r.why.kind, form.template.value)
    ensures r.Proceed? ==>
              && form.documentType == Some(r.kind.Label())
              && r.option == form.fileFormat.GetOr("both")
  {
    if form.excel.None? || form.template.None? then Refuse(MissingFiles)
    else if form.excel.value == "" || form.template.value == "" then Refuse(NoSelection)
    else if !IsWorkbookName(form.excel.value) then Refuse(NotAWorkbook)
    else match DocumentKind(form.documentType)
      case None => Refuse(InvalidType)
      case Some(kind) =>
        if !TemplateFits(kind, form.template.value) then Refuse(WrongTemplate(kind))
        else Proceed(kind, form.fileFormat.GetOr("both"))
  }

  /** The template test ignores case; the spreadsheet test does not. */
  lemma CaseSensitivity(kind: Kind, name: string)
    ensures TemplateFits(kind, name) <==> TemplateFits(kind, Lower(name))
    ensures TemplateFits(Transcript, "T.DOCX") && !IsWorkbookName("grades.XLSX")
  {
    LowerIdempotent(name);
    assert Lower("T.DOCX") == "t.docx";
    assert "grades.XLSX"[6..] == ".XLSX";
  }

  // ---------------------------------------------------------------------
  // Upload
  // ---------------------------------------------------------------------

  /** The generator a document type calls for, with the parsed spreadsheet. */
  function Produce(kind: Kind, option: string, env: Env, workbook: Option<Sheet>, disk: Disk): Result<Run> {
    if kind.Certificate? then Certificates.Generate(env, workbook, disk)
    else DocxGeneration.Generate(kind, option, env, workbook, disk)
  }

  /** Every record a successful generator returns has its file on disk. */
  lemma ProduceOnDisk(kind: Kind, option: string, env: Env, workbook: Option<Sheet>, disk: Disk)
    requires Produce(kind, option, env, workbook, disk).Ok?
    ensures var run := Produce(kind, option, env, workbook, disk).value;
            forall a :: a in run.files ==> a.path in run.disk
  {
    var sheet := workbook.value;
    if kind.Certificate? {
      Certificates.GenerateManifest(env, sheet, disk);
    } else {
      DocxManifest.GenerateManifest(kind, option, env, sheet, disk);
    }
  }

  /** The upload route: screen the form, save the uploads, run the
      generator, and on success store the manifest under the new session
      id; on any other outcome the registry is left as it was. A save that
      raises escapes the route's `try`, so the form is not screened further. */
  function Upload(form: Form, env: Env, workbook: Option<Sheet>, store: Store, disk: Disk, newId: string): (r: Posted)
    ensures r.response.Crashed? <==> SaveFails(form)
    ensures r.response.Refused? <==> !Acceptable(form) && !SaveFails(form)
    ensures r.response.Refused? ==> r.response.why == Screen(form).why
    ensures !r.response.Stored? ==> r.store == store
    ensures r.response.Stored? ==>
              && r.response.id == newId
              && r.store.Keys == store.Keys + {newId}
              && (forall id :: id in store && id != newId ==> r.store[id] == store[id])
              && r.response.count == |r.store[newId]|
  {
    if SaveFails(form) then Posted(Crashed, store)
    else match Screen(form)
    case Refuse(why) => Posted(Refused(why), store)
    case Proceed(kind, option) =>
      match Produce(kind, option, env, workbook, disk)
      case Err(e) => Posted(Failed(e), store)
      case Ok(run) => Posted(Stored(newId, |run.files|, run.disk), store[newId := run.files])
  }

  /** An upload stores a manifest exactly when the form is acceptable and
      the generator it calls for succeeds, and what it stores is that
      generator's manifest. */
  lemma UploadStores(form: Form, env: Env, workbook: Option<Sheet>, store: Store, disk: Disk, newId: string)
    ensures var r := Upload(form, env, workbook, store, disk, newId);
            r.response.Stored? <==>
              Acceptable(form) && !SaveFails(form) &&
              Produce(Screen(form).kind, Screen(form).option, env, workbook, disk).Ok?
    ensures var r := Upload(form, env, workbook, store, disk, newId);
            r.response.Failed? ==>
              Acceptable(form) && !SaveFails(form) &&
              Produce(Screen(form).kind, Screen(form).option, env, workbook, disk)
              == Err(r.response.error)
    ensures var r := Upload(form, env, workbook, store, disk, newId);
            r.response.Stored? ==>
              var run := Produce(Screen(form).kind, Screen(form).option, env, workbook, disk).value;
              r.store[newId] == run.files && r.response.disk == run.disk
  {
  }

  // ---------------------------------------------------------------------
  // Looking sessions and files up
  // ---------------------------------------------------------------------

  /** The results page: the stored manifest, or expiry when the id is
      absent, empty or unknown. */
  function Results(store: Store, id: Option<string>): (r: Reply<Manifest>)
    ensures !r.Missing?
    ensures r.Ready? <==> id.Some? && id.value != "" && id.value in store
    ensures r.Ready? ==> r.value == store[id.value]
  {
    if id.None? || id.value == "" || id.value !in store then Expired
    else Ready(store[id.value])
  }

  /** Record `i` is the first record with this file name. */
  predicate FirstWith(files: Manifest, filename: string, i: nat) {
    && i < |files|
    && files[i].filename == filename
    && forall j :: 0 <= j < i ==> files[j].filename != filename
  }

  /** There is at most one first record with a file name. */
  lemma FirstWithUnique(files: Manifest, filename: string, i: nat, j: nat)
    requires FirstWith(files, filename, i) && FirstWith(files, filename, j)
    ensures i == j
  {
  }

  /** `next((f for f in files if f['filename'] == filename), None)`, as the
      position of the record found. */
  function FindFile(files: Manifest, filename: string): (r: Option<nat>)
    ensures r.Some? ==> FirstWith(files, filename, r.value)
    ensures r.None? <==> forall i :: 0 <= i < |files| ==> files[i].filename != filename
    decreases |files|
  {
    if files == [] then None
    else if files[0].filename == filename then Some(0)
    else match FindFile(files[1..], filename)
      case None => None
      case Some(i) =>
        assert files[1..][i] == files[i + 1];
        Some(i + 1)
  }

  /** The record the download and view routes serve: expiry for an unknown
      session; nothing when no record has the file name or the first one's
      file is gone from disk. */
  function Locate(store: Store, id: string, filename: string, disk: Disk): (r: Reply<Artifact>)
    ensures r.Expired? <==> id !in store
    ensures r.Ready? ==> r.value in store[id] && r.value.filename == filename && r.value.path in disk
  {
    if id !in store then Expired
    else match FindFile(store[id], filename)
      case None => Missing
      case Some(i) => if store[id][i].path in disk then Ready(store[id][i]) else Missing
  }

  /** The download route serves the first record with the file name, when its
      file exists, and serves nothing when no record has the name. */
  lemma LocateFirst(store: Store, id: string, filename: string, disk: Disk)
    requires id in store
    ensures forall i: nat :: FirstWith(store[id], filename, i) ==>
              Locate(store, id, filename, disk)
              == if store[id][i].path in disk then Ready(store[id][i]) else Missing
    ensures (forall i :: 0 <= i < |store[id]| ==> store[id][i].filename != filename) ==>
              Locate(store, id, filename, disk) == Missing
  {
    forall i: nat | FirstWith(store[id], filename, i)
      ensures Locate(store, id, filename, disk)
              == if store[id][i].path in disk then Ready(store[id][i]) else Missing
    {
      FirstWithUnique(store[id], filename, FindFile(store[id], filename).value, i);
    }
  }

  /** The download route: the located file, always as an attachment. */
  function Download(store: Store, id: string, filename: string, disk: Disk): (r: Reply<Sent>)
    ensures r.Expired? <==> id !in store
    ensures r.Ready? <==> Locate(store, id, filename, disk).Ready?
    ensures r.Ready? ==> r.value.attachment && r.value.path == Locate(store, id, filename, disk).value.path
  {
    match Locate(store, id, filename, disk)
    case Expired => Expired
    case Missing => Missing
    case Ready(a) => Ready(Sent(a.path, true))
  }

  /** The formats a browser is sent to display rather than download. */
  predicate ShownInline(format: Format) {
    format.Label() in ["pdf", "png", "jpg", "jpeg"]
  }

  /** PDFs and images are displayed; only Word documents are downloaded. */
  lemma InlineFormats(format: Format)
    ensures ShownInline(format) <==> format != Docx
  {
  }

  /** The view route: the located file, displayed when its format is a PDF
      or an image and downloaded otherwise. */
  function View(store: Store, id: string, filename: string, disk: Disk): (r: Reply<Sent>)
    ensures r.Expired? <==> id !in store
    ensures r.Ready? <==> Locate(store, id, filename, disk).Ready?
    ensures r.Ready? ==>
              && r.value.path == Locate(store, id, filename, disk).value.path
              && (r.value.attachment <==> Locate(store, id, filename, disk).value.format == Docx)
  {
    match Locate(store, id, filename, disk)
    case Expired => Expired
    case Missing => Missing
    case Ready(a) =>
      InlineFormats(a.format);
      Ready(Sent(a.path, !ShownInline(a.format)))
  }

  /** The batch download route: a redirect to the download of the first
      record's file name, or nothing when the manifest is empty. */
  function BatchDownload(store: Store, id: string): (r: Reply<string>)
    ensures r.Expired? <==> id !in store
    ensures r.Missing? <==> id in store && store[id] == []
    ensures r.Ready? ==> id in store && store[id] != [] && r.value == store[id][0].filename
  {
    if id !in store then Expired
    else if store[id] == [] then Missing
    else Ready(store[id][0].filename)
  }

  /** Following the batch redirect downloads the first record's file. */
  lemma BatchThenDownload(store: Store, id: string, disk: Disk)
    requires BatchDownload(store, id).Ready?
    ensures var first := store[id][0];
            Download(store, id, BatchDownload(store, id).value, disk)
            == if first.path in disk then Ready(Sent(first.path, true)) else Missing
  {
    assert FirstWith(store[id], store[id][0].filename, 0);
    LocateFirst(store, id, store[id][0].filename, disk);
  }

  /** The cleanup route: forget a session id, if it is known. */
  function Cleanup(store: Store, id: string): (r: Store)
    ensures id !in r
    ensures r.Keys == store.Keys - {id}
    ensures forall other :: other in r ==> r[other] == store[other]
    ensures id !in store ==> r == store
  {
    if id in store then store - {id} else store
  }

  /** Cleaning up twice is cleaning up once. */
  lemma CleanupIdempotent(store: Store, id: string)
    ensures Cleanup(Cleanup(store, id), id) == Cleanup(store, id)
  {
  }

  // ---------------------------------------------------------------------
  // Round trips
  // ---------------------------------------------------------------------

  /** After a successful upload, the results page of the new id lists
      exactly the generator's manifest, one entry per counted file. */
  lemma UploadThenResults(form: Form, env: Env, workbook: Option<Sheet>, store: Store, disk: Disk, newId: string)
    requires newId != ""
    requires Upload(form, env, workbook, store, disk, newId).response.Stored?
    ensures var r := Upload(form, env, workbook, store, disk, newId);
            var files := Produce(Screen(form).kind, Screen(form).option, env, workbook, disk).value.files;
            Results(r.store, Some(newId)) == Ready(files) && r.response.count == |files|
  {
    UploadStores(form, env, workbook, store, disk, newId);
  }

  /** After a successful upload, downloading a file name from the new
      session serves the first record with that name, whose file the
      generator left on disk, and serves nothing for a name no record has. */
  lemma UploadThenDownload(form: Form, env: Env, workbook: Option<Sheet>, store: Store, disk: Disk, newId: string, filename: string)
    requires Upload(form, env, workbook, store, disk, newId).response.Stored?
    ensures var r := Upload(form, env, workbook, store, disk, newId);
            var files := r.store[newId];
            var served := Download(r.store, newId, filename, r.response.disk);
            && (forall i: nat :: FirstWith(files, filename, i) ==> served == Ready(Sent(files[i].path, true)))
            && ((forall i :: 0 <= i < |files| ==> files[i].filename != filename) ==> served == Missing)
  {
    var r := Upload(form, env, workbook, store, disk, newId);
    var kind, option := Screen(form).kind, Screen(form).option;
    UploadStores(form, env, workbook, store, disk, newId);
    ProduceOnDisk(kind, option, env, workbook, disk);
    LocateFirst(r.store, newId, filename, r.response.disk);
  }

  /** Forgetting a session expires its results page and leaves every other
      session's page as it was. */
  lemma CleanupThenResults(store: Store, id: string, other: string)
    ensures Results(Cleanup(store, id), Some(id)) == Expired
    ensures other != id ==> Results(Cleanup(store, id), Some(other)) == Results(store, Some(other))
  {
  }

  /** Forgetting the session an upload stored undoes the upload's effect on
      the registry, for an id not in use before. */
  lemma UploadThenCleanup(form: Form, env: Env, workbook: Option<Sheet>, store: Store, disk: Disk, newId: string)
    requires newId !in store
    ensures Cleanup(Upload(form, env, workbook, store, disk, newId).store, newId) == store
  {
  }
}
