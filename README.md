# lawdocs-automation: the document pipeline in Dafny

This project models the core of lawdocs-automation, a small law-firm service.
Uploaded documents are checked, then a background run extracts their text,
classifies them into one of nine legal categories and files them under
`storage/<case>/<category folder>/`. Drafts (summary, checklist, cover letter) are
generated from a case's completed documents. Nine modules cover it:

- `Results`: `Result`/`Option`. It also defines the language-model backend as an
  oracle from prompt to `Ok(reply)` or `Err(message)`.
- `Strings`: the Python `str` operations the pipeline relies on, restricted to
  ASCII: `lower`, `isspace`, `strip`, `title`, `replace`, slicing, `join`, `split`,
  `in`, `str(int)` and the `repr` of a list of strings.
- `Paths`: `PurePosixPath.name`, `.suffix`, `.stem` and `/`.
- `Config`: the settings' default values.
- `Organizer` (`app/services/organizer.py`):
  - `_sanitize`, which is pure;
  - the category-to-folder table;
  - `organize_document` as a method on a `FileStore` class. The class holds the
    sets of existing files and directories. The collision `while` loop is its own
    method, proved against the "first free counter" relation.
- `Classifier` (`app/services/classifier.py`): the keyword rule table,
  `_rule_based_classify` and `classify_document`. They are pure functions with the
  language model as a parameter.
- `Generator` (`app/services/generator.py`): `PROMPTS` as `str.format` templates and
  `generate_draft`. The two append loops (document blocks and fallback lines) are
  methods proved against the functions that specify them.
- `Ocr` (`app/services/ocr.py`): the extension dispatch, the per-page loop of
  `_extract_pdf`, the density rule and the OCR join. The three external engines are
  fields of an `Extractors` value.
- `Documents` (`app/routers/documents.py`):
  - the upload checks;
  - `_process_document` as methods on a `DocumentRecord` class, whose status goes
    pending → processing → completed or failed;
  - the document selection of `generate_case_draft`.

A PDF with no pages is sent to OCR. The divisor is `max(0, 1) = 1`, the average
is 0, and 0 is below 50 (app/services/ocr.py:41-43). `Ocr.ZeroPagePdfGoesToOcr`
states this.

## Model

| member | source | states |
|---|---|---|
| Organizer.FolderFor | app/services/organizer.py:32 | every category, known or not, is given one of the table's folders |
| Organizer.FolderTableKeys | app/services/organizer.py:12-22 | the folder table has exactly the nine configured categories as keys |
| Organizer.FolderNames | app/services/organizer.py:32 | every folder is a non-empty safe name, and any category outside the table gets the folder of "Other" |
| Organizer.FoldersDistinct | app/services/organizer.py:12-22 | no two categories share a folder |
| Organizer.Sanitize | app/services/organizer.py:53-56 | a sanitised name holds only lower-case letters, digits, `-` and `_`, so no space, slash or dot, and it is never longer than the input |
| Organizer.SanitizeExact | app/services/organizer.py:53-56 | `_sanitize` is exactly: drop the spaces at both ends, then map each remaining character on its own (alphanumerics lower-cased, `-` kept, anything else to `_`); other whitespace at the ends is not stripped, because the cleaning step has already turned it into `_` |
| Organizer.StripLeftClean | app/services/organizer.py:55-56 | stripping the cleaned name on the left removes exactly its leading spaces |
| Organizer.StripRightClean | app/services/organizer.py:55-56 | stripping the cleaned name on the right removes exactly its trailing spaces |
| Organizer.SanitizeSafeName | app/services/organizer.py:55-56 | a name that is already safe is returned unchanged |
| Organizer.SanitizeIdempotent | app/services/organizer.py:55-56 | `_sanitize(_sanitize(x)) == _sanitize(x)` |
| Organizer.TargetDir | app/services/organizer.py:32-35 | the last component of the target directory is the category's folder |
| Organizer.TargetDirLayout | app/services/organizer.py:35 | the target directory is `storage/<sanitised case>/<folder>`; the case level is absent when the case name sanitises to nothing |
| Organizer.OrganizedPathLayout | app/services/organizer.py:32-46 | an organised path is `storage/<sanitised case>/<folder>/<date>_<sanitised stem>[_<k>]<ext>`, with `k` the first free counter and no `_<k>` for 0 |
| Organizer.DestinationFor | app/services/organizer.py:39-40 | the stem of the destination name is a sanitised name; the extension is lower-case; neither holds a slash, so neither adds a directory level |
| Organizer.CandidateLayout | app/services/organizer.py:38-45 | every candidate path is `<dir>/<name>`, where the name is one path component that starts with `<date>_<stem>` and ends with the extension |
| Organizer.CandidatesDistinct | app/services/organizer.py:41-45 | the base name and the names with counters 1, 2, … are pairwise different paths |
| Organizer.CandidatesBound | app/services/organizer.py:43-46 | if the first n candidates all exist, at least n paths exist, so the loop ends on a finite file system |
| Organizer.ChooseTarget | app/services/organizer.py:43-46 | the loop returns candidate k, where k is the first counter whose path does not exist (0 = the base name) |
| Organizer.FirstFreeUnique | app/services/organizer.py:43-46 | the first free counter is unique: it is 0 when the base name is free and at least 1 otherwise |
| Organizer.OrganizedPathIsNew | app/services/organizer.py:43-46 | the chosen path did not exist before, so nothing is overwritten |
| Organizer.RepeatedCollisions | app/services/organizer.py:41-46 | when the base name and counters 1..n-1 are taken, counter n is chosen |
| Organizer.FileStore.Organize | app/services/organizer.py:25-50 | the target directories are added; the move succeeds exactly when the source exists; on success the path is the collision rule's answer, it is new, and the files become old − {source} + {target}; a missing source gives the move's error and no file changes |
| Organizer.FileStore.MoveToFirstFree | app/services/organizer.py:36-48 | for a known destination: the new directories are added; the move succeeds exactly when the source exists; on success the path is the collision rule's answer among the existing files and directories, it is new, and only the source and target change; a missing source gives the move's error and no file changes |
| Classifier.Hits | app/services/classifier.py:68 | the hit count never exceeds the number of keywords |
| Classifier.FirstQualifying | app/services/classifier.py:67-70 | the index found is the first rule, from the start index on, with at least two hits, or the table length when no rule qualifies |
| Classifier.TwoHitsIff | app/services/classifier.py:68-69 | a keyword list has at least two hits exactly when two different entries of it occur in the text |
| Classifier.OneHitIff | app/services/classifier.py:68 | at least one hit exactly when some keyword occurs |
| Classifier.RuleBasedClassify | app/services/classifier.py:52-72 | the rule-based result is always a configured category |
| Classifier.RuleBasedFirstMatch | app/services/classifier.py:67-70 | the result is the category of the first rule, in table order, that qualifies on the lower-cased text, even if a later rule has more hits |
| Classifier.RuleBasedNoMatch | app/services/classifier.py:72 | with no qualifying rule the result is "Other" |
| Classifier.RuleCategoriesConfigured | app/services/classifier.py:56-65 | every category in the rule table is a configured category |
| Classifier.RuleBasedCaseInsensitive | app/services/classifier.py:54 | rule-based classification of `text.lower()` equals that of `text` |
| Classifier.ClassifyDocument | app/services/classifier.py:26-49 | the result is always one of the configured categories, and blank text gives "Other" |
| Classifier.ClassifyFallsBack | app/services/classifier.py:31-49 | for non-blank text, with no backend configured or when the backend call fails, the result is the rule-based one |
| Classifier.ClassifyValidatesReply | app/services/classifier.py:40-45 | a successful reply is returned, stripped, exactly when it names a configured category; any other reply gives "Other" |
| Classifier.ClassificationPrompt | app/services/classifier.py:12-23 | the prompt ends with the first 3000 characters of the text (the `{text}` slot is the template's last line, filled at line 37) |
| Classifier.PromptListsCategories | app/services/classifier.py:10-15 | the prompt contains a `- <category>` line for every configured category |
| Generator.BuildBlocks | app/services/generator.py:46-49 | the loop produces one block per document, in input order |
| Generator.BlockShape | app/services/generator.py:48 | a block is the `**name** (category)` line followed by a prefix of the text of at most 2000 characters, or the whole text when it is shorter |
| Generator.DocumentsTextLength | app/services/generator.py:51 | for one document or more, the documents text has the blocks' lengths plus n − 1 separators |
| Generator.DocumentsTextLayout | app/services/generator.py:51 | cutting the documents anywhere cuts the documents text at one separator: the blocks stay in order, with exactly one separator between neighbours |
| Generator.Prompt | app/services/generator.py:9-34 | every `PROMPTS` template ends with the documents placeholder, so the prompt of line 52 ends with the documents text |
| Generator.FormatEndsWithDocuments | app/services/generator.py:52 | `format` of a template whose last piece is `{documents}` is the rest of the template, formatted, followed by the documents text |
| Generator.KindsListed | app/services/generator.py:9-34 | the draft kinds are exactly `summary`, `checklist` and `cover_letter` |
| Generator.UnknownKindMessageListsKinds | app/services/generator.py:44 | the unknown-kind message names every valid kind, quoted |
| Generator.SummaryLabel | app/services/generator.py:54 | `summary` is labelled `Summary` |
| Generator.ChecklistLabel | app/services/generator.py:54 | `checklist` is labelled `Checklist` |
| Generator.CoverLetterLabel | app/services/generator.py:54 | `cover_letter` is labelled `Cover Letter` |
| Generator.DraftTitle | app/services/generator.py:54 | the title starts with the kind's label and ends with the case name |
| Generator.TitlesOfKinds | app/services/generator.py:54 | each kind's title is its label, ` — `, then the case name |
| Generator.FallbackContent | app/services/generator.py:68-80 | the loop builds the header lines, one line per document in order, a blank line and the note, joined by newlines |
| Generator.FallbackShape | app/services/generator.py:70-80 | fallback content splits into n + 6 lines: `# <Kind>` first, `**Documents:**` third, document i at line 4 + i, and the configuration note last |
| Generator.GenerateDraft | app/services/generator.py:37-65 | an unknown kind is an error with the listing message, whatever the backend; a known kind always gives a draft whose title does not depend on the backend |
| Generator.DraftContent | app/services/generator.py:56-65 | the content is either the fallback content or exactly the backend's successful reply to this prompt, and the latter only with a backend configured |
| Generator.ContentChoice | app/services/generator.py:56-65 | the content is the fallback without a backend or when the call fails, and the reply verbatim when the call succeeds |
| Generator.FormatWithoutCaseName | app/services/generator.py:52 | a template without the case-name placeholder formats the same for every case name |
| Generator.SummaryPromptOmitsCase | app/services/generator.py:10-15 | the summary prompt is the same for every case name |
| Generator.CasePromptsNameCase | app/services/generator.py:16-33 | the checklist and cover-letter prompts contain the line `Case: <case_name>` |
| Ocr.OcrPdf | app/services/ocr.py:53-57 | fails exactly when rasterising or OCR fails, with that error; otherwise every page's text occurs in the result, whose length is the pages' lengths plus one page break between neighbours |
| Ocr.PdfExtraction | app/services/ocr.py:30-50 | a reader error is passed on; a result always carries the PDF's own page count, and its text is either the native text layer joined by page breaks or the OCR text |
| Ocr.ExtractPdf | app/services/ocr.py:30-50 | the per-page loop and the density test give exactly the PDF extraction: native text when dense enough, OCR text otherwise, with the PDF's page count either way, and engine errors passed on |
| Ocr.ExtractionOf | app/services/ocr.py:17-27 | only an image or a PDF suffix can succeed, and an image counts as one page |
| Ocr.ExtractText | app/services/ocr.py:17-27 | the dispatch gives exactly the extraction its lower-cased suffix selects |
| Ocr.DensityIsAverage | app/services/ocr.py:41-43 | the integer test `len < 50 * max(n, 1)` holds exactly when the real average per page is below 50 |
| Ocr.DensityDecides | app/services/ocr.py:40-50 | with an average below 50 characters a page over `max(n, 1)` pages the result is the OCR text or the OCR error; at or above 50 it is the native text joined by page breaks; the page count is the PDF's either way |
| Ocr.SparsePageKeptByAverage | app/services/ocr.py:40-50 | pages of 100 and 0 characters average 51 a page, so the native text is kept |
| Ocr.Dispatch | app/services/ocr.py:19-27 | images give the OCR text and one page; a PDF keeps its page count; any other suffix is refused with `Unsupported file type: <ext>` |
| Ocr.ExtensionCaseInsensitive | app/services/ocr.py:19 | paths whose suffixes agree up to case are extracted alike |
| Ocr.ZeroPagePdfGoesToOcr | app/services/ocr.py:41-48 | a PDF with no pages goes to OCR and reports page count 0 |
| Ocr.ImageOnlyPdfGoesToOcr | app/services/ocr.py:36-48 | a PDF with no native text on any page goes to OCR and reports its page count |
| Ocr.DensePdfKeepsNativeText | app/services/ocr.py:40-50 | a PDF of at least one page, each page with at least 50 characters, keeps its native text joined by page breaks |
| Documents.DocumentRecord.constructor | app/routers/documents.py:61-67 | a new record is pending, with an empty category, no text, no pages and no error |
| Documents.DocumentRecord.SetStatus | app/routers/documents.py:172-173 | the status is committed and appended to the record's history |
| Documents.DocumentRecord.Fail | app/routers/documents.py:196-200 | the record is committed as failed with the exception's message |
| Documents.DocumentRecord.ExtractStep | app/routers/documents.py:176-178 | text and page count are the extraction's, or the extraction's error is reported and they are kept |
| Documents.DocumentRecord.ClassifyStep | app/routers/documents.py:181-182 | the category is the classifier's result, always a configured category |
| Documents.DocumentRecord.OrganizeStep | app/routers/documents.py:185-188 | the stored path is the organised path, or the move's error is reported and the path is kept |
| Documents.UploadRejection | app/routers/documents.py:37-58 | an upload is accepted exactly when the case exists, the lower-cased suffix is supported and the size is at most 52428800 bytes; a missing case is the only 404, every other refusal a 400 |
| Documents.UploadDocument | app/routers/documents.py:31-73 | refused exactly when a check fails, with that check's error; an accepted upload is written to its temporary path and gets a fresh pending record with no category, text, pages or error; the upload directory and the storage root above it are created once the extension is accepted, even if the size is then refused |
| Documents.SizeLimitBoundary | app/routers/documents.py:54-58 | exactly 50 MiB is accepted; one byte more is refused with `File exceeds 50 MB limit` |
| Documents.TooLargeMessageText | app/routers/documents.py:57 | the size message reads `File exceeds 50 MB limit` |
| Documents.NamelessUploadRefused | app/routers/documents.py:41-46 | an upload without a file name is read as `unknown`, which has no suffix, so it is refused as unsupported |
| Documents.SupportedExtensionShape | app/config.py:22-24 | every supported extension is a lower-case suffix and is either an image extension or `.pdf` |
| Documents.AcceptedUploadIsExtractable | app/routers/documents.py:41-51 | the temporary file of an accepted upload has the accepted extension as its suffix, so extraction never refuses it as unsupported |
| Documents.RunPipeline | app/routers/documents.py:175-200 | the record ends completed or failed. A failed extraction keeps every field. Otherwise text, page count and category come from the steps. A missing source fails the record with the move's message and keeps the old path. A completed record has a configured category and a new stored file. |
| Documents.ProcessDocument | app/routers/documents.py:162-202 | a missing record changes nothing; otherwise the record is committed as processing before any step, then ends as the pipeline says |
| Documents.Selected | app/routers/documents.py:113-120 | the selection holds exactly the completed documents of the case, restricted to the requested ids when there are any |
| Documents.DocInputs | app/routers/documents.py:127-134 | one generator entry per document, in order, with its file name, category and text |
| Documents.GenerateCaseDraft | app/routers/documents.py:104-147 | a missing case gives 404; then an empty selection gives 400; then an unknown kind raises; otherwise the stored draft has the generator's title and content for the selected documents |
| Documents.DraftInputsAreSelected | app/routers/documents.py:113-134 | every document a draft is generated from is a completed document of the case, a requested one when ids are given, and its text is what the generator sees |
| Paths.BaseName | app/services/organizer.py:39 | the name of a path holds no slash |
| Paths.Suffix | app/services/organizer.py:40 | the suffix is empty or a dot followed by at least one character and no other dot; it holds no slash and ends the name |
| Paths.Stem | app/services/organizer.py:39 | stem and suffix together give the name back, and the stem holds no slash |
| Paths.SuffixOfFileName | app/routers/documents.py:51 | a file `<dir>/<stem><ext>`, with a plain stem and a valid extension, has exactly `ext` as its suffix |
| Strings.StripLeft | app/services/classifier.py:40 | stripping on the left keeps a suffix, cuts only whitespace, and leaves no leading whitespace |
| Strings.StripRight | app/services/classifier.py:40 | stripping on the right keeps a prefix, cuts only whitespace, and leaves no trailing whitespace |
| Strings.BlankIffAllSpace | app/services/classifier.py:28 | `not text.strip()` exactly when every character is whitespace |
| Strings.LowerIdempotent | app/services/classifier.py:54 | lower-casing twice is lower-casing once |
| Strings.Take | app/services/generator.py:48 | `s[:n]` is a prefix of `s` of length `min(len(s), n)` |
| Strings.JoinLength | app/services/generator.py:51 | a join has the parts' lengths plus one separator per neighbouring pair |
| Strings.JoinSplitAt | app/services/generator.py:51 | cutting the parts anywhere cuts the joined text at one separator |
| Strings.SplitJoin | app/services/generator.py:80 | splitting a join on one character, of parts that do not contain it, gives the parts back |
| Strings.ContainsIff | app/services/classifier.py:68 | the substring test agrees with "occurs at some index" |
| Strings.JoinContains | app/services/classifier.py:10 | every part occurs in the joined text |
| Strings.ListReprMentions | app/services/generator.py:44 | each item of a listed list occurs quoted in its text |
| Strings.NatToString | app/services/organizer.py:45 | a decimal numeral is non-empty and made of digits |
| Strings.DecimalRoundTrip | app/services/organizer.py:45 | reading a numeral back gives the number |
| Strings.NatToStringInjective | app/services/organizer.py:45 | different counters have different numerals |

## Left out

- Persistence is left out: the database session, commits, queries and their ordering. A record is a `DocumentRecord` object. The stored documents of a case are a sequence, and the query keeps its order.
- `list_documents` and `get_document` are left out: they are plain queries with a 404 check. `list_drafts` is left out too: it is a plain query with no case check, so an unknown case gives an empty list.
- The cases endpoints, the schemas, the application wiring and the browser UI are left out.
- The language model (`app/services/llm.py`) is an oracle: `configured` stands for `is_configured()`, and `complete` maps a prompt to its reply or to the message it raised. `max_tokens` is not modelled.
- The PDF reader, the rasteriser and the OCR engine are functions of the path, the fields of `Ocr.Extractors`. Their file reads are not tied to the `FileStore`.
- The wall-clock date, the `uuid4` name and the upload's content length are parameters.
- Logging is left out, and so is the background scheduling of the processing run. Concurrency is also left out, including a race between the collision check and the move.
- Characters are ASCII only. `isalnum`, `isspace`, `lower` and `title` follow Python on ASCII characters, not beyond.
- `Paths.Suffix` follows `pathlib` up to Python 3.13. A name ending in a dot has no suffix.
- Organizer.FileStore.Organize: the move fails only on a missing source. Its error text stands for the message `shutil.move` raises. Other move failures are not modelled (permissions, a full disk). Neither is a failing `mkdir`: the `FileExistsError` or `NotADirectoryError` raised when a path on the way to the target directory is a file. The directories are simply added.
- Documents.UploadDocument: `mkdir` of the upload directory never fails in the model; the `FileExistsError` or `NotADirectoryError` raised when `storage` or `storage/_uploads` is a file is not modelled.
- Ocr.ExtractPdf: the float average is written as the equivalent integer comparison. `Ocr.DensityIsAverage` proves the two agree.
- Documents.ProcessDocument: the run does not check that the record is still pending, and neither does the source. An exception raised before the record is read is not modelled.
- Documents.UploadDocument: the size check is applied to a length parameter, not to the bytes read.
- Documents.DocumentRecord: timestamps (`created_at`, `updated_at`) are left out.
