// Text extraction (app/services/ocr.py): OCR for images; for PDFs, the native
// text layer unless it is too sparse, in which case every page is rasterised
// and OCR'd. The PDF parser, the rasteriser and the OCR engine are outside the
// model: they are the fields of an `Extractors` value.
module Ocr {
  import opened Strings
  import opened Paths
  import opened Results

  /** `IMAGE_EXTENSIONS` */
  const ImageExtensions: set<string> := {".png", ".jpg", ".jpeg", ".tiff", ".tif"}

  /** `MIN_TEXT_DENSITY`: characters per page below which a PDF counts as scanned. */
  const MinTextDensity: nat := 50

  /** What separates pages in extracted text. */
  const PageBreak: string := "\n\n"

  /** The external engines, as functions of the file path; `Err` carries the
      message of the exception an engine raises.
      - `imageOcr`: `pytesseract.image_to_string(Image.open(path))`
      - `pdfPages`: `page.extract_text()` for each page pdfplumber finds, `None`
        for a page without a text layer
      - `pdfOcr`: `image_to_string` of each page `convert_from_path` rasterises */
  datatype Extractors = Extractors(
    imageOcr: string -> Result<string, string>,
    pdfPages: string -> Result<seq<Option<string>>, string>,
    pdfOcr: string -> Result<seq<string>, string>)

  /** `(text, page_count)` */
  datatype Extraction = Extraction(text: string, pageCount: nat)

  /** `page.extract_text() or ""` */
  function PageText(page: Option<string>): string {
    match page
    case None => ""
    case Some(t) => t
  }

  function PageTexts(pages: seq<Option<string>>): seq<string> {
    seq(|pages|, i requires 0 <= i < |pages| => PageText(pages[i]))
  }

  /** `len(combined) / max(page_count, 1) < MIN_TEXT_DENSITY`, on integers: the
      divisor is positive, so the comparison can be multiplied out. */
  predicate NeedsOcr(combinedLength: nat, pageCount: nat) {
    combinedLength < MinTextDensity * (if pageCount > 1 then pageCount else 1)
  }

  /** `_ocr_pdf(path)`: the OCR'd pages joined by page breaks. It fails exactly
      when rasterising or OCR fails; otherwise every page's text occurs in the
      result, which is the pages plus one page break between neighbours. */
  function OcrPdf(path: string, x: Extractors): (r: Result<string, string>)
    ensures r.Err? <==> x.pdfOcr(path).Err?
    ensures r.Err? ==> r.error == x.pdfOcr(path).error
    ensures r.Ok? ==> forall k :: 0 <= k < |x.pdfOcr(path).value| ==> Contains(r.value, x.pdfOcr(path).value[k])
    ensures r.Ok? && |x.pdfOcr(path).value| >= 1 ==>
              |r.value| == SumLengths(x.pdfOcr(path).value) + (|x.pdfOcr(path).value| - 1) * |PageBreak|
  {
    match x.pdfOcr(path)
    case Err(e) => Err(e)
    case Ok(pages) =>
      JoinContainsEach(PageBreak, pages);
      if |pages| >= 1 then JoinLength(PageBreak, pages); Ok(JoinWith(PageBreak, pages))
      else Ok(JoinWith(PageBreak, pages))
  }

  /** What `_extract_pdf(path)` returns or raises: the page count is always the
      PDF's own, and the text is either the native text layer or the OCR text. */
  function PdfExtraction(path: string, x: Extractors): (r: Result<Extraction, string>)
    ensures x.pdfPages(path).Err? ==> r == Err(x.pdfPages(path).error)
    ensures r.Ok? ==> x.pdfPages(path).Ok? && r.value.pageCount == |x.pdfPages(path).value|
    ensures r.Ok? ==> r.value.text == JoinWith(PageBreak, PageTexts(x.pdfPages(path).value))
                      || OcrPdf(path, x) == Ok(r.value.text)
  {
    match x.pdfPages(path)
    case Err(e) => Err(e)
    case Ok(pages) =>
      var combined := JoinWith(PageBreak, PageTexts(pages));
      if NeedsOcr(|combined|, |pages|) then
        match OcrPdf(path, x)
        case Err(e) => Err(e)
        case Ok(text) => Ok(Extraction(text, |pages|))
      else Ok(Extraction(combined, |pages|))
  }

  /** `_extract_pdf(path)`: the per-page loop that collects `pages_text`. */
  method ExtractPdf(path: string, x: Extractors) returns (r: Result<Extraction, string>)
    ensures r == PdfExtraction(path, x)
  {
    var pdf := x.pdfPages(path);
    if pdf.Err? {
      return Err(pdf.error);
    }
    var pages := pdf.value;
    var pageCount := |pages|;
    var pagesText: seq<string> := [];
    for i := 0 to |pages|
      invariant |pagesText| == i
      invariant forall k :: 0 <= k < i ==> pagesText[k] == PageText(pages[k])
    {
      var text := if pages[i].Some? then pages[i].value else "";
      pagesText := pagesText + [text];
    }
    assert pagesText == PageTexts(pages);
    var combined := JoinWith(PageBreak, pagesText);
    if |combined| < MinTextDensity * (if pageCount > 1 then pageCount else 1) {
      var ocr := OcrPdf(path, x);
      if ocr.Err? {
        return Err(ocr.error);
      }
      return Ok(Extraction(ocr.value, pageCount));
    }
    return Ok(Extraction(combined, pageCount));
  }

  /** `Unsupported file type: <ext>` */
  function UnsupportedMessage(ext: string): string {
    "Unsupported file type: " + ext
  }

  /** The lower-cased suffix the dispatch looks at. */
  function ExtensionOf(path: string): string {
    Lower(Suffix(path))
  }

  /** What `extract_text(path)` returns or raises: only an image or a PDF can
      succeed, and an image counts as one page. */
  function ExtractionOf(path: string, x: Extractors): (r: Result<Extraction, string>)
    ensures r.Ok? ==> ExtensionOf(path) in ImageExtensions || ExtensionOf(path) == ".pdf"
    ensures r.Ok? && ExtensionOf(path) in ImageExtensions ==> r.value.pageCount == 1
  {
    var ext := ExtensionOf(path);
    if ext in ImageExtensions then
      match x.imageOcr(path)
      case Err(e) => Err(e)
      case Ok(text) => Ok(Extraction(text, 1))
    else if ext == ".pdf" then PdfExtraction(path, x)
    else Err(UnsupportedMessage(ext))
  }

  /** `extract_text(path)` as a method: the imperative entry point that runs
      `ExtractPdf`'s page loop for a PDF. Its contract ties it to
      `ExtractionOf`, the one definition of what extraction yields. */
  method ExtractText(path: string, x: Extractors) returns (r: Result<Extraction, string>)
    ensures r == ExtractionOf(path, x)
  {
    var ext := Lower(Suffix(path));
    if ext in ImageExtensions {
      var ocr := x.imageOcr(path);
      if ocr.Err? {
        return Err(ocr.error);
      }
      return Ok(Extraction(ocr.value, 1));
    }
    if ext == ".pdf" {
      r := ExtractPdf(path, x);
      return;
    }
    return Err(UnsupportedMessage(ext));
  }

  // ---------------------------------------------------------------- properties

  /** The integer test is the source's real-valued average-per-page test. */
  lemma DensityIsAverage(combinedLength: nat, pageCount: nat)
    ensures var divisor := if pageCount > 1 then pageCount else 1;
            NeedsOcr(combinedLength, pageCount) <==> (combinedLength as real) / (divisor as real) < MinTextDensity as real
  {
    var d := if pageCount > 1 then pageCount else 1;
    var avg := (combinedLength as real) / (d as real);
    assert avg * (d as real) == combinedLength as real;
    if avg < MinTextDensity as real {
      assert avg * (d as real) < (MinTextDensity as real) * (d as real);
    } else {
      assert avg * (d as real) >= (MinTextDensity as real) * (d as real);
    }
  }

  /** Which extractor a path goes to, by its lower-cased suffix: images are one
      page, PDFs keep their page count whichever text they return, anything
      else is refused without touching an engine. */
  lemma Dispatch(path: string, x: Extractors)
    ensures ExtensionOf(path) in ImageExtensions ==>
              (ExtractionOf(path, x).Ok? <==> x.imageOcr(path).Ok?)
    ensures ExtensionOf(path) in ImageExtensions && ExtractionOf(path, x).Ok? ==>
              ExtractionOf(path, x).value == Extraction(x.imageOcr(path).value, 1)
    ensures ExtensionOf(path) == ".pdf" && ExtractionOf(path, x).Ok? ==>
              x.pdfPages(path).Ok? && ExtractionOf(path, x).value.pageCount == |x.pdfPages(path).value|
    ensures ExtensionOf(path) !in ImageExtensions && ExtensionOf(path) != ".pdf" ==>
              ExtractionOf(path, x) == Err(UnsupportedMessage(ExtensionOf(path)))
  {
  }

  /** Dispatch ignores the case of the suffix: `scan.PDF` is read as a PDF. */
  lemma ExtensionCaseInsensitive(p: string, q: string, x: Extractors)
    requires Lower(Suffix(p)) == Lower(Suffix(q))
    requires x.imageOcr(p) == x.imageOcr(q) && x.pdfPages(p) == x.pdfPages(q) && x.pdfOcr(p) == x.pdfOcr(q)
    ensures ExtractionOf(p, x) == ExtractionOf(q, x)
  {
  }

  /** A PDF with no pages has combined text "" and divisor 1, so it is sent to
      OCR: its result is whatever rasterising gives, with page count 0. */
  lemma ZeroPagePdfGoesToOcr(path: string, x: Extractors)
    requires ExtensionOf(path) == ".pdf"
    requires x.pdfPages(path) == Ok([])
    ensures OcrPdf(path, x).Err? ==> ExtractionOf(path, x) == Err(OcrPdf(path, x).error)
    ensures OcrPdf(path, x).Ok? ==> ExtractionOf(path, x) == Ok(Extraction(OcrPdf(path, x).value, 0))
  {
    assert PageTexts([]) == [];
  }

  /** A PDF whose pages have no text layer is always OCR'd, whatever its page
      count: its combined native text is only page breaks, fewer than fifty
      characters a page. The OCR text comes back with the PDF's page count. */
  lemma ImageOnlyPdfGoesToOcr(path: string, x: Extractors)
    requires ExtensionOf(path) == ".pdf"
    requires x.pdfPages(path).Ok?
    requires forall i :: 0 <= i < |x.pdfPages(path).value| ==> PageText(x.pdfPages(path).value[i]) == ""
    ensures OcrPdf(path, x).Err? ==> ExtractionOf(path, x) == Err(OcrPdf(path, x).error)
    ensures OcrPdf(path, x).Ok? ==>
              ExtractionOf(path, x) == Ok(Extraction(OcrPdf(path, x).value, |x.pdfPages(path).value|))
  {
    var pages := x.pdfPages(path).value;
    var texts := PageTexts(pages);
    if |pages| >= 1 {
      JoinLength(PageBreak, texts);
      NoLengths(texts);
    }
    assert NeedsOcr(|JoinWith(PageBreak, texts)|, |pages|);
  }

  lemma {:induction false} NoLengths(parts: seq<string>)
    requires forall i :: 0 <= i < |parts| ==> parts[i] == ""
    ensures SumLengths(parts) == 0
    decreases |parts|
  {
    if parts != [] {
      NoLengths(parts[1..]);
    }
  }

  /** The density rule: a PDF whose native text averages fewer than fifty
      characters a page (over `max(n, 1)` pages) is OCR'd, and its OCR text or
      OCR error is the result; at or above fifty the native text, pages joined
      by page breaks, is returned unchanged. The page count is the PDF's either
      way. */
  lemma DensityDecides(path: string, x: Extractors)
    requires x.pdfPages(path).Ok?
    ensures var pages := x.pdfPages(path).value;
            var combined := JoinWith(PageBreak, PageTexts(pages));
            var average := (|combined| as real) / ((if |pages| > 1 then |pages| else 1) as real);
            && (average >= MinTextDensity as real ==> PdfExtraction(path, x) == Ok(Extraction(combined, |pages|)))
            && (average < MinTextDensity as real && OcrPdf(path, x).Ok? ==>
                  PdfExtraction(path, x) == Ok(Extraction(OcrPdf(path, x).value, |pages|)))
            && (average < MinTextDensity as real && OcrPdf(path, x).Err? ==>
                  PdfExtraction(path, x) == Err(OcrPdf(path, x).error))
  {
    var pages := x.pdfPages(path).value;
    DensityIsAverage(|JoinWith(PageBreak, PageTexts(pages))|, |pages|);
  }

  /** The rule looks at the average, not at each page: two pages of 100 and
      0 characters make 102 characters over two pages, 51 a page, so the
      native text is kept although the second page has none. */
  lemma SparsePageKeptByAverage(path: string, x: Extractors, first: string)
    requires |first| == 100
    requires x.pdfPages(path) == Ok([Some(first), None])
    ensures PdfExtraction(path, x) == Ok(Extraction(first + PageBreak, 2))
  {
    var pages := x.pdfPages(path).value;
    var texts := PageTexts(pages);
    assert texts == [first, ""];
    var combined := JoinWith(PageBreak, texts);
    assert combined == first + PageBreak + JoinWith(PageBreak, texts[1..]);
    assert texts[1..] == [""];
    assert combined == first + PageBreak;
    assert |combined| == 102;
    assert !NeedsOcr(|combined|, |pages|);
  }

  /** A PDF of at least one page whose every page has at least fifty
      characters of native text keeps that text: no OCR is run. */
  lemma DensePdfKeepsNativeText(path: string, x: Extractors)
    requires ExtensionOf(path) == ".pdf"
    requires x.pdfPages(path).Ok? && |x.pdfPages(path).value| >= 1
    requires forall i :: 0 <= i < |x.pdfPages(path).value| ==>
               |PageText(x.pdfPages(path).value[i])| >= MinTextDensity
    ensures var pages := x.pdfPages(path).value;
            ExtractionOf(path, x) == Ok(Extraction(JoinWith(PageBreak, PageTexts(pages)), |pages|))
  {
    var pages := x.pdfPages(path).value;
    var texts := PageTexts(pages);
    JoinLength(PageBreak, texts);
    LongParts(texts, MinTextDensity);
    assert |JoinWith(PageBreak, texts)| >= MinTextDensity * |pages|;
  }

  lemma {:induction false} LongParts(parts: seq<string>, m: nat)
    requires forall i :: 0 <= i < |parts| ==> |parts[i]| >= m
    ensures SumLengths(parts) >= m * |parts|
    decreases |parts|
  {
    if parts != [] {
      LongParts(parts[1..], m);
    }
  }
}
