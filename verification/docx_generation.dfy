/** The two template-based generators, `generate_associate_documents`
    (app.py:106-146) and `generate_transcripts` (app.py:222-262), with the
    per-document helpers they call.  The source writes the two as copies of
    one another; they differ only in the eligibility test, the subject name,
    the context dict, the file-name prefix and the output directories, which
    is how they are parameterised here.
 */
module DocxGeneration {
  import opened Outcomes
  import opened Cells
  import opened Paths
  import opened Documents
  import AssociateFields
  import TranscriptFields

  /** The document types rendered from a DOCX template. */
  predicate IsTemplated(kind: Kind) {
    kind.Transcript? || kind.Associate?
  }

  /** The `file_format` form field, as far as the generators look at it:
      they only ever compare it with `"doc"`, `"pdf"` and `"both"`. */
  datatype Selector = DocOnly | PdfOnly | Both | NoFormat

  /** Which of the three recognised values `option` is, if any. */
  function Select(option: string): (r: Selector)
    ensures r.DocOnly? <==> option == "doc"
    ensures r.PdfOnly? <==> option == "pdf"
    ensures r.Both? <==> option == "both"
  {
    if option == "doc" then DocOnly
    else if option == "pdf" then PdfOnly
    else if option == "both" then Both
    else NoFormat
  }

  /** The output-format test `option in ["doc", "both"]`. */
  predicate WantsDocx(sel: Selector) {
    sel.DocOnly? || sel.Both?
  }

  /** The output-format test `option in ["pdf", "both"]`. */
  predicate WantsPdf(sel: Selector) {
    sel.PdfOnly? || sel.Both?
  }

  /** The formats one eligible row yields, in the order they are appended. */
  function Formats(sel: Selector): seq<Format> {
    (if WantsDocx(sel) then [Docx] else []) + (if WantsPdf(sel) then [Pdf] else [])
  }

  function Prefix(kind: Kind): string
    requires IsTemplated(kind)
  {
    if kind.Associate? then "associate" else "transcript"
  }

  /** `docx_directory` of the generator. */
  function DocxDir(kind: Kind): string
    requires IsTemplated(kind)
  {
    Join(GeneratedFolder, if kind.Associate? then "Associate_Documents" else "Transcript_Doc")
  }

  /** `pdf_directory` of the generator. */
  function PdfDir(kind: Kind): string
    requires IsTemplated(kind)
  {
    Join(GeneratedFolder, if kind.Associate? then "Associate_PDF" else "Transcript_PDF")
  }

  /** The loop's row test, `if row[3]:` (associate) or `if row[1] and row[2]:`
      (transcript), with Python's short-circuit: a row too short for a column
      the test reaches raises an `IndexError`. */
  function Eligible(kind: Kind, row: Row): (r: Result<bool>)
    requires IsTemplated(kind)
    ensures r.Err? ==> r.error == IndexError
    ensures kind.Associate? ==> (r.Ok? <==> |row| > 3)
    ensures kind.Associate? ==> (r == Ok(true) <==> |row| > 3 && Truthy(row[3]))
    ensures kind.Transcript? ==> (r.Ok? <==> |row| > 2 || (|row| == 2 && !Truthy(row[1])))
    ensures kind.Transcript? ==> (r == Ok(true) <==> |row| > 2 && Truthy(row[1]) && Truthy(row[2]))
  {
    if kind.Associate? then
      if |row| <= 3 then Err(IndexError) else Ok(Truthy(row[3]))
    else
      if |row| <= 1 then Err(IndexError)
      else if !Truthy(row[1]) then Ok(false)
      else if |row| <= 2 then Err(IndexError)
      else Ok(Truthy(row[2]))
  }

  /** The `'name'` of a record: `row[3]`, or `f"{row[1]} {row[2]}"`. */
  function DisplayName(kind: Kind, row: Row): string
    requires IsTemplated(kind) && Eligible(kind, row) == Ok(true)
  {
    if kind.Associate? then Str(row[3]) else Str(row[1]) + " " + Str(row[2])
  }

  /** `filename_safe`: the subject with spaces and slashes turned into
      underscores.  The associate code calls `.replace` on the raw cell: a
      datetime's own `replace` rejects the string arguments with a `TypeError`,
      and every other value that is not a string has no `replace` at all. */
  function SafeSubject(kind: Kind, row: Row): (r: Result<string>)
    requires IsTemplated(kind) && Eligible(kind, row) == Ok(true)
    ensures r.Ok? <==> kind.Transcript? || row[3].Text?
    ensures r.Ok? ==> '/' !in r.value && ' ' !in r.value
    ensures r.Err? ==> r.error == (if row[3].Date? then TypeError else AttributeError)
  {
    if kind.Associate? then
      match row[3]
      case Text(s) => SanitizeShape(s); Ok(Sanitize(s))
      case Date(_) => Err(TypeError)
      case _ => Err(AttributeError)
    else
      var subject := Str(row[1]) + "_" + Str(row[2]);
      SanitizeShape(subject);
      Ok(Sanitize(subject))
  }

  /** The context dict of the document type. */
  function FillFor(kind: Kind, row: Row, date: string): (r: Result<Fields>)
    requires IsTemplated(kind)
  {
    if kind.Associate? then
      var ctx :- AssociateFields.Fill(row, date);
      Ok(AssociateContext(ctx))
    else
      var ctx :- TranscriptFields.Fill(row, date);
      Ok(TranscriptContext(ctx))
  }

  /** The file name a DOCX rendered at draw `k` gets. */
  function DocxNameAt(kind: Kind, safe: string, env: Env, k: nat): string
    requires IsTemplated(kind)
  {
    FileName(Prefix(kind), safe, env.uuid(k), Docx.Extension())
  }

  /** `AssociateDocument` / `TranscriptDocument`: open the template, build the
      context, render, derive the file name from the next uuid, save into `dir`.
      Returns the saved path and the run with the draw counted and the file on
      disk. */
  function RenderDocx(kind: Kind, env: Env, dir: string, row: Row, run: Run): (r: Result<(string, Run)>)
    requires IsTemplated(kind) && Eligible(kind, row) == Ok(true)
  {
    if !env.templateOpens then Err(TemplateError)
    else
      var k := run.draws;
      var fields :- FillFor(kind, row, env.clock(k));
      if env.renderFails(k) then Err(RenderError)
      else
        var safe :- SafeSubject(kind, row);
        var name := DocxNameAt(kind, safe, env, k);
        var disk :- Save(dir, name, Document(fields), run.disk);
        Ok((Join(dir, name), Run(k + 1, disk, run.files)))
  }

  /** `AssociateConvertPDF` / `TranscriptPdf`: convert the DOCX at `docPath`
      into `pdfDir`, under the DOCX's base name with a `.pdf` extension. */
  function ConvertPdf(env: Env, docPath: string, pdfDir: string, k: nat, disk: Disk): (r: Result<(string, Disk)>)
  {
    var pdfPath := Join(pdfDir, PdfName(docPath));
    if env.convertFails(k) || docPath !in disk then Err(ConvertError)
    else Ok((pdfPath, disk[pdfPath := Exported(disk[docPath])]))
  }

  /** Where the PDF branch renders the DOCX it converts: the PDF directory
      when only PDFs are wanted, the DOCX directory otherwise. */
  function StagingDir(kind: Kind, sel: Selector): string
    requires IsTemplated(kind)
  {
    if sel.PdfOnly? then PdfDir(kind) else DocxDir(kind)
  }

  /** The `option in ["doc", "both"]` branch for one eligible row. */
  function DocxStep(kind: Kind, sel: Selector, env: Env, row: Row, run: Run): Result<Run>
    requires IsTemplated(kind) && Eligible(kind, row) == Ok(true)
  {
    if !WantsDocx(sel) then Ok(run)
    else
      var saved :- RenderDocx(kind, env, DocxDir(kind), row, run);
      var path := saved.0;
      var next := saved.1;
      Ok(next.(files := next.files + [Artifact(DisplayName(kind, row), Basename(path), kind, Docx, path)]))
  }

  /** The `option in ["pdf", "both"]` branch for one eligible row: render a
      DOCX again (into the PDF directory when only PDFs are wanted, into the
      DOCX directory otherwise), convert it, record the PDF, and with `"pdf"`
      remove the intermediate DOCX. */
  function PdfStep(kind: Kind, sel: Selector, env: Env, row: Row, run: Run): Result<Run>
    requires IsTemplated(kind) && Eligible(kind, row) == Ok(true)
  {
    if !WantsPdf(sel) then Ok(run)
    else
      var saved :- RenderDocx(kind, env, StagingDir(kind, sel), row, run);
      var docPath := saved.0;
      var next := saved.1;
      var converted :- ConvertPdf(env, docPath, PdfDir(kind), run.draws, next.disk);
      var pdfPath := converted.0;
      var files := next.files + [Artifact(DisplayName(kind, row), Basename(pdfPath), kind, Pdf, pdfPath)];
      var disk := if sel.PdfOnly? then converted.1 - {docPath} else converted.1;
      Ok(Run(next.draws, disk, files))
  }

  /** One iteration of the loop. */
  function RowStep(kind: Kind, sel: Selector, env: Env, row: Row, run: Run): Result<Run>
    requires IsTemplated(kind)
  {
    var eligible :- Eligible(kind, row);
    if !eligible then Ok(run)
    else
      var afterDocx :- DocxStep(kind, sel, env, row, run);
      PdfStep(kind, sel, env, row, afterDocx)
  }

  /** The loop over the data rows, strictly in order; the first exception
      abandons the whole call. */
  function Rows(kind: Kind, sel: Selector, env: Env, rows: seq<Row>, run: Run): Result<Run>
    requires IsTemplated(kind)
    decreases |rows|
  {
    if rows == [] then Ok(run)
    else
      var next :- RowStep(kind, sel, env, rows[0], run);
      Rows(kind, sel, env, rows[1..], next)
  }

  /** The whole generator: read the workbook (`None` when it cannot be
      parsed), skip the header, run the loop from an empty manifest. */
  function Generate(kind: Kind, option: string, env: Env, workbook: Option<Sheet>, disk: Disk): Result<Run>
    requires IsTemplated(kind)
  {
    match workbook
    case None => Err(Unreadable)
    case Some(sheet) => Rows(kind, Select(option), env, DataRows(sheet), Run(0, disk, []))
  }
}
