# Document generator: manifests, file names and the session registry

A Dafny model of the core of `app.py`, a Flask application that turns a
spreadsheet of students into documents: PNG certificates drawn from an image
template, and associate-degree documents and transcripts rendered from a DOCX
template, optionally converted to PDF. Each generator returns a *manifest*,
a list of records `{name, filename, type, format, path}`, one per file it
returns. The upload route keeps that manifest in an in-memory registry under a
fresh session id. The results, download, view, batch-download and cleanup
routes look it up there.

Modules, in dependency order:

- `Outcomes`: `Result`/`Option` and the exceptions a generator can raise. An
  exception that escapes is an `Err`, and `:-` unwinds it the way Python does.
- `Cells`: spreadsheet cells, Python truthiness and `str()`, and `strip()`.
- `Paths`: `replace`, `posixpath.join`, `basename`, `splitext` and the
  `<prefix>_<subject>_<8 hex digits><ext>` file-name scheme.
- `Documents`: the manifest record, file contents, the disk (`map` from path
  to content), and the environment oracle `Env`. `Env` stands for the calls
  the model cannot see: the `k`-th `uuid4()` and clock reading, whether the
  template opens, and whether the `k`-th render or conversion raises.
- `AssociateFields`, `TranscriptFields`: the positional context dicts passed
  to `doc.render` (12 and 51 columns plus `cur_date`).
- `DocxGeneration`: `generate_associate_documents` and `generate_transcripts`
  as one generator parameterised by the document kind. It keeps the header
  skip, the short-circuit eligibility condition, the doc/pdf/both/other
  branches, the removal of the staging DOCX under `"pdf"`, and the abort on
  the first exception.
- `DocxFacts`, `DocxManifest`: what one row adds to the manifest and the disk,
  and the manifest of a whole successful call.
- `Certificates`: `generate_certificates`, one PNG per data row, and its
  manifest.
- `Registry`: `generated_files_store` and the routes `upload`, `results`,
  `download_file`, `view_file`, `batch_download` and `cleanup`.

Under `"both"` the associate and transcript generators render the DOCX twice
(app.py:119 and app.py:132, and again at app.py:235 and app.py:248). The first
rendering is listed as the DOCX record. The second one, with its own random
suffix, is what gets converted, so the PDF's stem differs from the DOCX's.
The model follows the code: a row under `"both"` renders twice and consumes
two draws.

## Model

| member | source | states |
|---|---|---|
| AssociateFields.Fill | app.py:80-94 | the context exists exactly when the row has at least 12 columns; a shorter row raises `IndexError`; `cur_date` holds the date text |
| AssociateFields.FillBindsEveryColumn | app.py:80-94 | for a row of at least 12 columns, all 13 placeholders are bound, and the placeholder laid out for column `j` holds `row[j]` |
| AssociateFields.ColumnsMatchLayout | app.py:81-92 | columns 0..11 and the 12 row placeholders are in one-to-one correspondence in both directions, as the dict lays them out |
| AssociateFields.NamesDistinct | app.py:80-94 | two placeholders have the same template name exactly when they are the same placeholder, so no dict entry overwrites another |
| TranscriptFields.Fill | app.py:157-210 | the context exists exactly when the row has at least 51 columns; a shorter row raises `IndexError`; `cur_date` holds the date text |
| TranscriptFields.FillBindsEveryColumn | app.py:157-210 | for a row of at least 51 columns, every placeholder is bound, and each row placeholder holds the cell of its own column |
| TranscriptFields.NamesDistinct | app.py:157-210 | the 52 placeholders have the same template name exactly when they are the same placeholder, so no dict entry overwrites another |
| TranscriptFields.CoursePositions | app.py:161-208 | the 24 course/grade pairs are numbered 0..23 without gaps or repeats |
| TranscriptFields.EntriesBind | app.py:158-208 | a prefix of the row binds the placeholder of each of its columns to that column's cell, and binds nothing beyond it |
| Cells.StripShape | app.py:43 | `strip()` returns the middle slice of its input, with only whitespace cut from either end and no whitespace left at the ends of the result |
| Cells.StripIdempotent | app.py:43 | stripping a stripped name changes nothing |
| Cells.NatToStringRoundTrip | app.py:237 | the decimal text of a number reads back as that number |
| Paths.SanitizeShape | app.py:95 | `filename_safe` has the input's length, with every space and slash turned into `_` and every other character kept; it holds no space or slash (the same expression is at app.py:211) |
| Paths.SanitizeFixedPoints | app.py:211 | sanitising twice equals sanitising once, and a subject is left unchanged exactly when it holds no space or slash |
| Paths.SuffixIsRecoverable | app.py:96 | the 8 hex digits of the uuid sit immediately before the extension in every generated file name |
| Paths.BasenameOfJoin | app.py:122 | the `filename` of a record is the name the file was saved under, when that name holds no slash |
| Paths.RootOfStemAndExtension | app.py:217 | `splitext` splits a generated name back into its stem and its single extension |
| Paths.PdfNameKeepsStem | app.py:101 | the PDF of a generated DOCX has the DOCX's name with `.docx` replaced by `.pdf` |
| DocxGeneration.Select | app.py:118-130 | `"doc"`, `"pdf"` and `"both"` select their branches exactly, and every other value selects neither |
| DocxGeneration.Eligible | app.py:116-117 | an associate row is rendered exactly when `row[3]` is truthy; a transcript row exactly when `row[1]` and `row[2]` are (app.py:233); a row too short for the cells the condition reads raises `IndexError`, allowing for the short circuit |
| DocxGeneration.SafeSubject | app.py:95 | the subject is produced exactly when the associate name cell is text (the transcript subject always is), and then holds no space or slash; otherwise `.replace` raises, a `TypeError` for a datetime and an `AttributeError` for any other non-string |
| DocxFacts.RenderDocxSucceeds | app.py:77-98 | a rendering succeeds exactly when the template opens, the context can be built, the render and save do not raise, and the subject can be sanitised |
| DocxFacts.ConvertPdfFacts | app.py:100-104 | a conversion succeeds exactly when the DOCX is on disk and the converter does not raise; it then adds the PDF under the PDF directory, converted from that DOCX, adds no other file and leaves every other file's contents as they were; a failure is a conversion error |
| DocxFacts.DocxPathShape | app.py:96-101 | a DOCX path ends in `.docx`, its basename is the generated name, and the PDF derived from it lands in the PDF directory under the same stem with `.pdf` |
| DocxFacts.RowStepIdle | app.py:117 | a row that fails the eligibility condition, or meets it under a format that is neither doc, pdf nor both, leaves the run unchanged |
| DocxFacts.RowStepCases | app.py:118-141 | one successful iteration over an eligible row appends nothing and draws nothing under no format; one DOCX record under `"doc"`; one PDF record under `"pdf"`; and a DOCX record followed by a PDF record named from the next draw under `"both"`, taking one draw per record |
| DocxFacts.PdfStepSaves | app.py:128-144 | after the PDF branch the PDF is on disk, and only the staging DOCX under `"pdf"` has been removed |
| DocxFacts.RowStepRecords | app.py:116-144 | an eligible row appends exactly its records, uses one draw per record, leaves every earlier file on disk except the removed staging DOCX, and has every new record's file on disk |
| DocxFacts.RowsRecords | app.py:115-146 | a successful loop's manifest is the concatenation, in row order, of each eligible row's records, and it uses exactly one draw per record |
| DocxFacts.RowsConsistent | app.py:115-146 | after a successful loop every record's file is on disk, its `filename` is the basename of its `path` with the extension of its format, and under `"pdf"` every record is a PDF |
| DocxManifest.RowsShapes | app.py:116-141 | the loop's records, without their random suffixes, are the expected records of the eligible rows: name, kind and the formats of the option, in row order |
| DocxManifest.ExpectedLength | app.py:116-141 | a successful call lists (eligible rows) × (formats of the option) records: 1 for doc or pdf, 2 for both, 0 otherwise |
| DocxManifest.SkipIneligible | app.py:117 | a sheet with no eligible rows yields an empty manifest and leaves the disk untouched |
| DocxManifest.BrokenTemplate | app.py:78 | with a template that cannot be opened, the call succeeds exactly when no row reaches a rendering, and then nothing changes; otherwise it fails with `IndexError` or the template error |
| DocxManifest.HeaderIgnored | app.py:116 | the header row never affects the result |
| DocxManifest.GenerateManifest | app.py:106-146 | a successful associate or transcript call (also app.py:222-262) returns the per-row records for its eligible rows; their shapes are the expected ones and their count is eligible rows × formats; the `k`-th record carries the suffix of its draw; every file is on disk and named consistently |
| DocxManifest.GenerateNamesDistinct | app.py:96 | if the uuid draws the call consumes (one per returned record) have distinct 8-digit prefixes, no two records of one call share a file name |
| Certificates.IndexOf | app.py:43 | `row["Name"]` reads the first header column titled "Name"; none exists exactly when no header cell is "Name" |
| Certificates.CertificateNameShape | app.py:56 | a certificate file name ends in `.png`, and holds a slash exactly when the name does (only spaces are replaced) |
| Certificates.RowStepFacts | app.py:43-65 | one row succeeds exactly when the template opens and its image is saved; it then appends the row's record, saves the PNG and keeps every earlier file; otherwise it fails with the template, render or missing-directory error, in that order |
| Certificates.DrawSucceeds | app.py:42-65 | the loop succeeds exactly when there are no rows, or the template opens and every row's image is saved |
| Certificates.DrawRecords | app.py:42-65 | a successful loop appends one record per row, in row order, each from its own draw, and keeps every recorded file on disk |
| Certificates.DrawFailure | app.py:44-69 | a failing loop reports the template error when the template does not open, and otherwise a render or missing-directory error; only the latter when no render raises |
| Certificates.GenerateSucceeds | app.py:27-69 | a call succeeds exactly when the sheet has no data rows, or it has a "Name" column, the template opens, and every row's certificate is saved |
| Certificates.GenerateManifest | app.py:41-67 | a successful call lists one PNG certificate per data row, in row order; each is named with the row's stripped "Name" cell, its file name is `certificate_<name with spaces as underscores>_<8 hex digits of its draw>.png` and the basename of its path, its suffix is that of its own draw, and its file is on disk |
| Certificates.GenerateFailure | app.py:68-69 | a failing call had data rows; it failed with `KeyError` exactly when "Name" is missing; otherwise with the template error, or a render or missing-directory error |
| Certificates.SlashFails | app.py:56-58 | when nothing else fails, the call fails exactly when some name holds a slash, and then with `FileNotFoundError` |
| Certificates.MissingNameColumn | app.py:43 | without a "Name" column, an empty sheet gives an empty manifest and any data row raises `KeyError` |
| Certificates.HeaderIgnored | app.py:30 | only the position of "Name" in the header matters to the result |
| Certificates.GenerateNamesDistinct | app.py:56 | if the uuid draws the call consumes (one per returned certificate) have distinct 8-digit prefixes, no two certificates share a file name |
| Documents.Save | app.py:58 | a save succeeds exactly when the name holds no slash; it then writes the content under the joined path and keeps every other file; otherwise it raises `FileNotFoundError` |
| Documents.TaggedApart | app.py:96 | two generated names with different uuid prefixes differ |
| Documents.NamesDistinct | app.py:212 | in a run whose records carry the suffix of their own draw, distinct draws give distinct file names |
| Registry.DocumentKind | app.py:305-329 | a document type is recognised exactly when it is "certificate", "transcript" or "associate", and names its kind |
| Registry.Screen | app.py:272-329 | a form goes on to generation exactly when it is acceptable; a missing file part, an empty file name, a spreadsheet name without `.xlsx`/`.xls` and an unknown type are each refused with their own reason exactly when the earlier checks pass and theirs fails; a refused template does not suit its type; the format defaults to "both" |
| Registry.CaseSensitivity | app.py:288-322 | the template check ignores case and the workbook check does not: `T.DOCX` is a DOCX template and `grades.XLSX` is not a workbook |
| Registry.ProduceOnDisk | app.py:305-326 | every record of the generator the form calls for has its file on disk |
| Registry.Upload | app.py:293-346 | an upload whose file names pass the first checks but hold a `/` raises while saving, outside the `try`, and answers with a server error; otherwise a form is refused exactly when it is not acceptable, with the reason the screening gives; only a success changes the registry, adding exactly the new id, keeping every other entry, and reporting the count of files stored |
| Registry.UploadStores | app.py:293-346 | an upload stores a manifest exactly when the form is acceptable, its uploads save, and its generator succeeds; it stores that generator's manifest, and a failure carries that generator's error |
| Registry.Results | app.py:356-360 | the results page shows a manifest exactly when the id is given, non-empty and registered, and it shows the one stored under that id |
| Registry.FindFile | app.py:377 | a search returns the first record with the file name, and finds none exactly when no record has it |
| Registry.Locate | app.py:376-381 | an unknown session is expired; a record found belongs to the session, has the file name, and its file is on disk |
| Registry.LocateFirst | app.py:377-381 | the record served is the first with the file name, provided its file exists; otherwise, or when no record matches, the file is missing |
| Registry.Download | app.py:371-383 | a download is expired exactly for an unknown session; it serves exactly what the lookup finds, as an attachment |
| Registry.InlineFormats | app.py:401-405 | pdf, png, jpg and jpeg are shown inline, and of the formats generated only docx is not |
| Registry.View | app.py:388-405 | a view serves what the lookup finds, as an attachment exactly when it is a DOCX |
| Registry.BatchDownload | app.py:410-420 | batch download is expired for an unknown session, missing for an empty manifest, and otherwise names the first record's file |
| Registry.BatchThenDownload | app.py:415-417 | following the batch redirect downloads the first record, if its file exists |
| Registry.Cleanup | app.py:425-427 | cleanup removes the id, keeps every other entry as it was, and is a no-op for an unknown id |
| Registry.CleanupIdempotent | app.py:423-428 | cleaning up an id twice is the same as once |
| Registry.CleanupThenResults | app.py:425-427 | after cleanup the id's results are expired, and other ids' results are unchanged |
| Registry.UploadThenResults | app.py:333-339 | after a successful upload, the results for the new id show exactly the generator's manifest, and the count matches it |
| Registry.UploadThenDownload | app.py:334 | after a successful upload, downloading a file name serves the first generated record with that name, and a name no record has is missing |
| Registry.UploadThenCleanup | app.py:333-334 | cleaning up a freshly stored id restores the registry as it was before the upload |

## Left out

- Flask itself: requests, redirects, `flash` messages, templates, `MAX_CONTENT_LENGTH` and the `GET` form. The routes are functions from their arguments and the registry to the value they compute.
- Registry.Upload: the uploaded files are not put on the modelled disk, since nothing downstream reads them by name and the generator is given the parsed spreadsheet. Only whether saving them raises is modelled (`Registry.SaveFails`, a `/` in either name); other names the file system refuses, such as one holding a NUL character or one too long, are not. The new session id (`str(uuid.uuid4())`) is a parameter.
- Registry.Upload: a failed generation's partial output is not returned. The associate and transcript generators may leave files on disk before raising, but `Err` carries no disk, so the `Failed` response does not report them.
- Registry.Screen: the order of the checks is the source's; the saving of the uploads, which happens between the spreadsheet check and the type check, is modelled in `Registry.Upload`, not here.
- Registry.Lower: lower-cases ASCII letters only. Python's `str.lower()` also folds non-ASCII letters, which no extension compared here contains.
- Paths.Join: models `posixpath`, so a POSIX path convention (macOS, where `docx2pdf` also runs) is assumed. On Windows, `ntpath` also splits on `\`, so a backslash in a name would change `Basename` and `PdfName`.
- Certificates.PandasStr: models `str()` of the cell as read, and a blank as `nan`. It does not model pandas' per-column type inference: an all-integer "Name" column with a blank becomes float, giving `5.0` where the model gives `5`. pandas also drops trailing blank rows, which the model would turn into `nan` certificates.
- Documents.Save: success depends only on the absence of a slash. Operating-system limits such as over-long file names, permissions and a full disk are not modelled.
- Fonts, text measurement, centring and colour of the certificate name; the image content is only the drawn name.
- What `docxtpl` and `docx2pdf` do inside: rendering, saving and conversion are the `Env` oracle's success or failure, and the content is recorded symbolically.
- `datetime.now()` and `uuid.uuid4()`: they are the oracle's `k`-th reading and draw. Distinct file names are proved only under the assumption that the 8-digit prefixes of the draws one call consumes differ, which the source does not guarantee.
- Certificates.Generate has no contract of its own. Its behaviour is stated by `GenerateSucceeds`, `GenerateManifest`, `GenerateFailure`, `SlashFails` and `MissingNameColumn`.
- DocxGeneration.Generate has no contract of its own. Its behaviour is stated by `DocxManifest.GenerateManifest` and the lemmas beside it.
- The certificate generator's directory creation and the font fallback (app.py:31-39) never fail in the model. `os.makedirs` in the other generators is likewise assumed to succeed.
- A workbook that cannot be parsed is a `None` workbook. It fails with `Unreadable`, and what the readers do with an unusual file is not modelled.
- Concurrency between requests sharing `generated_files_store`: each route is one atomic step.
