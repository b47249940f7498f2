// The document endpoints' core (app/routers/documents.py): the checks an upload
// must pass, the background run that extracts, classifies and files a document
// while stepping its record through pending -> processing -> completed or
// failed, and the choice of documents a draft is generated from.
module Documents {
  import opened Strings
  import opened Paths
  import opened Results
  import Config
  import Organizer
  import Classifier
  import Ocr
  import Generator

  /** `DocumentStatus` (app/models.py) */
  datatype DocumentStatus = Pending | Processing | Completed | Failed

  /** A `Document` row: the identifying fields never change, the others are
      written by the processing run. `statusHistory` records every status the
      record has been committed with. */
  class DocumentRecord {
    const id: nat
    const caseId: nat
    const originalFilename: string
    const fileType: string
    var storedPath: string
    var category: string
    var rawText: string
    var pageCount: nat
    var status: DocumentStatus
    var errorMessage: string
    ghost var statusHistory: seq<DocumentStatus>

    /** A new row with the column defaults: no category, no text, no pages, no
        error, pending. */
    constructor (id: nat, caseId: nat, originalFilename: string, storedPath: string, fileType: string)
      ensures this.id == id && this.caseId == caseId && this.originalFilename == originalFilename
      ensures this.storedPath == storedPath && this.fileType == fileType
      ensures category == "" && rawText == "" && pageCount == 0 && errorMessage == ""
      ensures status == Pending && statusHistory == [Pending]
    {
      this.id := id;
      this.caseId := caseId;
      this.originalFilename := originalFilename;
      this.storedPath := storedPath;
      this.fileType := fileType;
      category := "";
      rawText := "";
      pageCount := 0;
      status := Pending;
      errorMessage := "";
      statusHistory := [Pending];
    }

    /** Commit a new status. */
    method SetStatus(s: DocumentStatus)
      modifies this
      ensures status == s && statusHistory == old(statusHistory) + [s]
      ensures storedPath == old(storedPath) && category == old(category) && rawText == old(rawText)
      ensures pageCount == old(pageCount) && errorMessage == old(errorMessage)
    {
      status := s;
      statusHistory := statusHistory + [s];
    }

    /** The processing run's exception handler: commit the record as failed
        with the exception's text, keeping every other field. */
    method Fail(message: string)
      modifies this
      ensures status == Failed && statusHistory == old(statusHistory) + [Failed] && errorMessage == message
      ensures storedPath == old(storedPath) && category == old(category) && rawText == old(rawText)
      ensures pageCount == old(pageCount)
    {
      status := Failed;
      statusHistory := statusHistory + [Failed];
      errorMessage := message;
    }

    /** Step 1 of the processing run: extract the text and page count into the
        record, or report the text of the exception extraction raises. */
    method ExtractStep(filePath: string, x: Ocr.Extractors) returns (raised: Option<string>)
      modifies this
      ensures status == old(status) && statusHistory == old(statusHistory) && errorMessage == old(errorMessage)
      ensures category == old(category) && storedPath == old(storedPath)
      ensures Ocr.ExtractionOf(filePath, x).Err? ==>
                && raised == Some(Ocr.ExtractionOf(filePath, x).error)
                && rawText == old(rawText) && pageCount == old(pageCount)
      ensures Ocr.ExtractionOf(filePath, x).Ok? ==>
                && raised == None
                && rawText == Ocr.ExtractionOf(filePath, x).value.text
                && pageCount == Ocr.ExtractionOf(filePath, x).value.pageCount
    {
      var extraction := Ocr.ExtractText(filePath, x);
      if extraction.Err? {
        return Some(extraction.error);
      }
      rawText := extraction.value.text;
      pageCount := extraction.value.pageCount;
      raised := None;
    }

    /** Step 2: classify the extracted text; this step never raises. */
    method ClassifyStep(configured: bool, complete: Backend)
      modifies this
      ensures status == old(status) && statusHistory == old(statusHistory) && errorMessage == old(errorMessage)
      ensures rawText == old(rawText) && pageCount == old(pageCount) && storedPath == old(storedPath)
      ensures category == Classifier.ClassifyDocument(rawText, configured, complete)
      ensures category in Config.DocumentCategories
    {
      category := Classifier.ClassifyDocument(rawText, configured, complete);
    }

    /** Step 3: file the document under its case and category and record where
        it went, or report the text of the exception the move raises. */
    method OrganizeStep(fs: Organizer.FileStore, caseName: string, filePath: string, date: string)
      returns (raised: Option<string>)
      modifies this, fs
      ensures status == old(status) && statusHistory == old(statusHistory) && errorMessage == old(errorMessage)
      ensures rawText == old(rawText) && pageCount == old(pageCount) && category == old(category)
      ensures fs.dirs == old(fs.dirs) + Organizer.TargetDirs(caseName, category)
      ensures filePath in old(fs.files) ==>
                && raised == None
                && Organizer.IsOrganizedPath(old(fs.files) + fs.dirs,
                     Organizer.DestinationFor(caseName, category, originalFilename, date), storedPath)
                && storedPath !in old(fs.files)
                && fs.files == old(fs.files) - {filePath} + {storedPath}
      ensures filePath !in old(fs.files) ==>
                && raised == Some(Organizer.NoSuchFile(filePath))
                && storedPath == old(storedPath) && fs.files == old(fs.files)
    {
      var moved := fs.Organize(filePath, caseName, category, originalFilename, date);
      if moved.Err? {
        return Some(moved.error);
      }
      storedPath := moved.value;
      raised := None;
    }
  }

  /** An `HTTPException(status_code, detail)`. */
  datatype HttpError = HttpError(status: nat, detail: string)

  // ---------------------------------------------------------------- upload

  /** The upload limit in bytes: `max_upload_size_mb * 1024 * 1024`. */
  const MaxUploadBytes: nat := Config.MaxUploadSizeMb * 1024 * 1024

  /** `file.filename or "unknown"` */
  function UploadName(filename: string): string {
    if filename == "" then "unknown" else filename
  }

  /** `Path(file.filename or "unknown").suffix.lower()` */
  function UploadExtension(filename: string): string {
    Lower(Suffix(UploadName(filename)))
  }

  function UnsupportedUploadMessage(ext: string): string {
    "Unsupported file type: " + ext + ". Supported: " + ListRepr(Config.SupportedExtensions)
  }

  function TooLargeMessage(): string {
    "File exceeds " + NatToString(Config.MaxUploadSizeMb) + " MB limit"
  }

  /** Why `upload_document` refuses an upload, if it does, checking in the
      source's order: the case, then the extension, then the size. An upload
      is accepted exactly when its case exists, its lower-cased suffix is a
      supported extension and it is at most 50 MiB long; a missing case is the
      only 404, every other refusal a 400. */
  function UploadRejection(caseExists: bool, filename: string, size: nat): (r: Option<HttpError>)
    ensures r == None <==> caseExists && UploadExtension(filename) in Config.SupportedExtensions && size <= 52428800
    ensures r.Some? ==> (r.value.status == 404 <==> !caseExists) && (r.value.status == 404 || r.value.status == 400)
  {
    if !caseExists then Some(HttpError(404, "Case not found"))
    else if UploadExtension(filename) !in Config.SupportedExtensions then
      Some(HttpError(400, UnsupportedUploadMessage(UploadExtension(filename))))
    else if size > MaxUploadBytes then Some(HttpError(400, TooLargeMessage()))
    else None
  }

  /** `settings.storage_dir / "_uploads"` */
  function UploadDir(): string {
    JoinPath(Config.StorageDir, "_uploads")
  }

  /** The directories `upload_dir.mkdir(parents=True, exist_ok=True)` makes sure
      exist: the storage root and the upload directory under it. */
  function UploadDirs(): set<string> {
    {Config.StorageDir, UploadDir()}
  }

  /** `upload_dir / f"{uuid}{ext}"`, with the random name as a parameter. */
  function TempPath(tempName: string, ext: string): string {
    JoinPath(UploadDir(), tempName + ext)
  }

  /** `upload_document`: `size` is the length of the uploaded content and
      `tempName` the `uuid4()` text. The upload directory is created once the
      extension is accepted, before the size is checked; an accepted upload is
      written to its temporary path and gets a new pending record. */
  method UploadDocument(fs: Organizer.FileStore, caseExists: bool, caseId: nat, filename: string, size: nat,
                        tempName: string, newId: nat)
    returns (r: Result<DocumentRecord, HttpError>)
    modifies fs
    ensures r.Err? <==> UploadRejection(caseExists, filename, size).Some?
    ensures r.Err? ==> r.error == UploadRejection(caseExists, filename, size).value
    ensures r.Ok? ==>
              var ext := UploadExtension(filename);
              && fresh(r.value)
              && r.value.id == newId && r.value.caseId == caseId
              && r.value.originalFilename == UploadName(filename)
              && r.value.storedPath == TempPath(tempName, ext) && r.value.fileType == ext
              && r.value.status == Pending && r.value.statusHistory == [Pending]
              && r.value.category == "" && r.value.rawText == "" && r.value.pageCount == 0
              && r.value.errorMessage == ""
    ensures fs.files == if r.Ok? then old(fs.files) + {TempPath(tempName, UploadExtension(filename))} else old(fs.files)
    ensures fs.dirs == if caseExists && UploadExtension(filename) in Config.SupportedExtensions
                       then old(fs.dirs) + UploadDirs() else old(fs.dirs)
  {
    if !caseExists {
      return Err(HttpError(404, "Case not found"));
    }
    var ext := Lower(Suffix(UploadName(filename)));
    if ext !in Config.SupportedExtensions {
      return Err(HttpError(400, UnsupportedUploadMessage(ext)));
    }
    var uploadDir := UploadDir();
    fs.dirs := fs.dirs + UploadDirs();
    var tempPath := JoinPath(uploadDir, tempName + ext);
    if size > Config.MaxUploadSizeMb * 1024 * 1024 {
      return Err(HttpError(400, TooLargeMessage()));
    }
    fs.files := fs.files + {tempPath};
    var doc := new DocumentRecord(newId, caseId, UploadName(filename), tempPath, ext);
    r := Ok(doc);
  }

  /** The limit is inclusive: exactly 50 MiB passes, one byte more is refused. */
  lemma SizeLimitBoundary(filename: string)
    requires UploadExtension(filename) in Config.SupportedExtensions
    ensures UploadRejection(true, filename, 52428800) == None
    ensures UploadRejection(true, filename, 52428801) == Some(HttpError(400, "File exceeds 50 MB limit"))
  {
    TooLargeMessageText();
  }

  lemma TooLargeMessageText()
    ensures TooLargeMessage() == "File exceeds 50 MB limit"
  {
    assert DigitChar(5) == '5' && DigitChar(0) == '0';
    assert NatToString(50) == NatToString(5) + [DigitChar(0)];
    assert NatToString(50) == "50";
  }

  /** An upload without a file name is read as `unknown`, which has no suffix,
      so it is refused as an unsupported type with an empty extension. */
  lemma NamelessUploadRefused(size: nat)
    ensures UploadRejection(true, "", size) == Some(HttpError(400, UnsupportedUploadMessage("")))
  {
    var name := "unknown";
    assert RFind(name, '/') == -1 by {
      RFindAbsent(name, '/');
    }
    assert RFind(name, '.') == -1 by {
      RFindAbsent(name, '.');
    }
    assert BaseName(name) == name;
    assert SuffixStart(name) == -1;
    assert Suffix(name) == "";
    assert Lower("") == "";
    assert UploadExtension("") == "";
  }

  lemma {:induction false} RFindAbsent(s: string, c: char)
    requires c !in s
    ensures RFind(s, c) == -1
    decreases |s|
  {
    if |s| > 0 {
      assert c !in s[..|s| - 1];
      RFindAbsent(s[..|s| - 1], c);
    }
  }

  /** Every supported extension is a dot and lower-case letters. */
  lemma SupportedExtensionShape(ext: string)
    requires ext in Config.SupportedExtensions
    ensures |ext| >= 2 && ext[0] == '.' && '.' !in ext[1..] && '/' !in ext
    ensures Lower(ext) == ext
    ensures ext in Ocr.ImageExtensions || ext == ".pdf"
  {
    LowerIsLower(ext);
  }

  /** An accepted upload's temporary file has the accepted extension as its
      suffix, so the extractor dispatches it to the OCR engine or to the PDF
      reader and never refuses it as unsupported. */
  lemma AcceptedUploadIsExtractable(tempName: string, filename: string)
    requires tempName != "" && '.' !in tempName && '/' !in tempName
    requires UploadExtension(filename) in Config.SupportedExtensions
    ensures var p := TempPath(tempName, UploadExtension(filename));
            && Ocr.ExtensionOf(p) == UploadExtension(filename)
            && (Ocr.ExtensionOf(p) in Ocr.ImageExtensions || Ocr.ExtensionOf(p) == ".pdf")
  {
    var ext := UploadExtension(filename);
    SupportedExtensionShape(ext);
    var p := TempPath(tempName, ext);
    assert p == UploadDir() + "/" + tempName + ext;
    SuffixOfFileName(UploadDir(), tempName, ext);
  }

  // ---------------------------------------------------------------- processing

  /** The part of `_process_document` after the record is committed as
      processing: the three steps inside the `try`, each writing its results
      into the record as they arrive, then either the `completed` commit or the
      `except` handler, which records the text of the first exception. */
  method RunPipeline(doc: DocumentRecord, fs: Organizer.FileStore, caseName: string, filePath: string,
                     x: Ocr.Extractors, configured: bool, complete: Backend, date: string)
    modifies doc, fs
    ensures doc.statusHistory == old(doc.statusHistory) + [doc.status]
    ensures doc.status == Completed || doc.status == Failed
    ensures Ocr.ExtractionOf(filePath, x).Err? ==>
              && doc.status == Failed
              && doc.errorMessage == Ocr.ExtractionOf(filePath, x).error
              && doc.rawText == old(doc.rawText) && doc.pageCount == old(doc.pageCount)
              && doc.category == old(doc.category) && doc.storedPath == old(doc.storedPath)
              && fs.files == old(fs.files) && fs.dirs == old(fs.dirs)
    ensures Ocr.ExtractionOf(filePath, x).Ok? ==>
              var e := Ocr.ExtractionOf(filePath, x).value;
              var category := Classifier.ClassifyDocument(e.text, configured, complete);
              && doc.rawText == e.text && doc.pageCount == e.pageCount && doc.category == category
              && fs.dirs == old(fs.dirs) + Organizer.TargetDirs(caseName, category)
              && (filePath in old(fs.files) ==>
                    && doc.status == Completed && doc.errorMessage == old(doc.errorMessage)
                    && Organizer.IsOrganizedPath(old(fs.files) + fs.dirs,
                         Organizer.DestinationFor(caseName, category, doc.originalFilename, date), doc.storedPath)
                    && fs.files == old(fs.files) - {filePath} + {doc.storedPath})
              && (filePath !in old(fs.files) ==>
                    && doc.status == Failed && doc.errorMessage == Organizer.NoSuchFile(filePath)
                    && doc.storedPath == old(doc.storedPath) && fs.files == old(fs.files))
    ensures doc.status == Completed ==>
              doc.category in Config.DocumentCategories && doc.storedPath in fs.files && doc.storedPath !in old(fs.files)
  {
    var raised := doc.ExtractStep(filePath, x);
    if raised.Some? {
      doc.Fail(raised.value);
      return;
    }
    doc.ClassifyStep(configured, complete);
    raised := doc.OrganizeStep(fs, caseName, filePath, date);
    if raised.Some? {
      doc.Fail(raised.value);
      return;
    }
    doc.SetStatus(Completed);
  }

  /** `_process_document(doc_id, case_name, file_path)`: `doc` is the record the
      id finds (`null` when there is none), `fs` the files on disk, `x` the
      extraction engines, `configured` and `complete` the language model, and
      `date` today's UTC date. A missing record changes nothing; otherwise the
      record is committed as processing before any step runs, and ends
      completed or failed. */
  method ProcessDocument(doc: DocumentRecord?, fs: Organizer.FileStore, caseName: string, filePath: string,
                         x: Ocr.Extractors, configured: bool, complete: Backend, date: string)
    modifies doc, fs
    ensures doc == null ==> fs.files == old(fs.files) && fs.dirs == old(fs.dirs)
    ensures doc != null ==>
              && doc.statusHistory == old(doc.statusHistory) + [Processing, doc.status]
              && (doc.status == Completed || doc.status == Failed)
    ensures doc != null && Ocr.ExtractionOf(filePath, x).Err? ==>
              && doc.status == Failed
              && doc.errorMessage == Ocr.ExtractionOf(filePath, x).error
              && doc.rawText == old(doc.rawText) && doc.pageCount == old(doc.pageCount)
              && doc.category == old(doc.category) && doc.storedPath == old(doc.storedPath)
              && fs.files == old(fs.files) && fs.dirs == old(fs.dirs)
    ensures doc != null && Ocr.ExtractionOf(filePath, x).Ok? ==>
              var e := Ocr.ExtractionOf(filePath, x).value;
              var category := Classifier.ClassifyDocument(e.text, configured, complete);
              && doc.rawText == e.text && doc.pageCount == e.pageCount && doc.category == category
              && fs.dirs == old(fs.dirs) + Organizer.TargetDirs(caseName, category)
              && (filePath in old(fs.files) ==>
                    && doc.status == Completed && doc.errorMessage == old(doc.errorMessage)
                    && Organizer.IsOrganizedPath(old(fs.files) + fs.dirs,
                         Organizer.DestinationFor(caseName, category, doc.originalFilename, date), doc.storedPath)
                    && fs.files == old(fs.files) - {filePath} + {doc.storedPath})
              && (filePath !in old(fs.files) ==>
                    && doc.status == Failed && doc.errorMessage == Organizer.NoSuchFile(filePath)
                    && doc.storedPath == old(doc.storedPath) && fs.files == old(fs.files))
    ensures doc != null && doc.status == Completed ==>
              doc.category in Config.DocumentCategories && doc.storedPath in fs.files && doc.storedPath !in old(fs.files)
  {
    if doc == null {
      return;
    }
    doc.SetStatus(Processing);
    RunPipeline(doc, fs, caseName, filePath, x, configured, complete, date);
  }

  // ---------------------------------------------------------------- draft generation

  /** The document query of `generate_case_draft`: of the case, completed, and
      among the requested ids when any are requested. */
  predicate Wanted(d: DocumentRecord, caseId: nat, ids: seq<nat>)
    reads d
  {
    d.caseId == caseId && d.status == Completed && (ids == [] || d.id in ids)
  }

  /** The documents the query returns, in the order of `docs`. */
  function Selected(docs: seq<DocumentRecord>, caseId: nat, ids: seq<nat>): (r: seq<DocumentRecord>)
    reads docs
    ensures |r| <= |docs|
    ensures forall d :: d in r ==> d in docs && Wanted(d, caseId, ids)
    ensures forall d :: d in docs && Wanted(d, caseId, ids) ==> d in r
  {
    if docs == [] then []
    else (if Wanted(docs[0], caseId, ids) then [docs[0]] else []) + Selected(docs[1..], caseId, ids)
  }

  /** `doc_data`: file name, category and extracted text of each document. */
  function DocInputs(docs: seq<DocumentRecord>): (r: seq<Generator.DocInput>)
    reads docs
    ensures |r| == |docs|
    ensures forall i :: 0 <= i < |docs| ==>
              r[i] == Generator.DocInput(docs[i].originalFilename, docs[i].category, docs[i].rawText)
  {
    if docs == [] then []
    else [Generator.DocInput(docs[0].originalFilename, docs[0].category, docs[0].rawText)] + DocInputs(docs[1..])
  }

  /** The `Draft` row that is stored. */
  datatype DraftRecord = DraftRecord(caseId: nat, draftType: string, title: string, content: string)

  /** How the endpoint fails: an HTTP error, or the generator's `ValueError`,
      which nothing catches. */
  datatype DraftFailure = Rejected(error: HttpError) | Raised(message: string)

  const NoDocumentsMessage: string := "No completed documents found for this case"

  /** `generate_case_draft`: the case must exist and the selection must be
      non-empty, in that order, before the draft kind is looked at. */
  method GenerateCaseDraft(caseExists: bool, caseId: nat, caseName: string, docs: seq<DocumentRecord>,
                           kind: string, ids: seq<nat>, configured: bool, complete: Backend)
    returns (r: Result<DraftRecord, DraftFailure>)
    ensures !caseExists ==> r == Err(Rejected(HttpError(404, "Case not found")))
    ensures caseExists && Selected(docs, caseId, ids) == [] ==> r == Err(Rejected(HttpError(400, NoDocumentsMessage)))
    ensures caseExists && Selected(docs, caseId, ids) != [] && kind !in Generator.Prompts ==>
              r == Err(Raised(Generator.UnknownKindMessage(kind)))
    ensures caseExists && Selected(docs, caseId, ids) != [] && kind in Generator.Prompts ==>
              r == Ok(DraftRecord(caseId, kind, Generator.DraftTitle(kind, caseName),
                        Generator.DraftContent(kind, caseName, DocInputs(Selected(docs, caseId, ids)), configured, complete)))
  {
    if !caseExists {
      return Err(Rejected(HttpError(404, "Case not found")));
    }
    var documents := Selected(docs, caseId, ids);
    if documents == [] {
      return Err(Rejected(HttpError(400, NoDocumentsMessage)));
    }
    var docData := DocInputs(documents);
    var draft := Generator.GenerateDraft(kind, caseName, docData, configured, complete);
    if draft.Err? {
      return Err(Raised(draft.error));
    }
    r := Ok(DraftRecord(caseId, kind, draft.value.title, draft.value.content));
  }

  /** A draft is only ever generated from completed documents of its own case,
      and, when ids are requested, only from requested ones. */
  lemma DraftInputsAreSelected(docs: seq<DocumentRecord>, caseId: nat, ids: seq<nat>, i: nat)
    requires i < |Selected(docs, caseId, ids)|
    ensures var d := Selected(docs, caseId, ids)[i];
            && d in docs && d.caseId == caseId && d.status == Completed
            && (ids != [] ==> d.id in ids)
            && DocInputs(Selected(docs, caseId, ids))[i].text == d.rawText
  {
    var d := Selected(docs, caseId, ids)[i];
    assert d in Selected(docs, caseId, ids);
  }
}
