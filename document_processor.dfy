/**
 * The attachment reader (src/lib/documentProcessor.js): the classification
 * of a file by its MIME type and extension, the dispatch of `processFile` to
 * one extractor per kind with its error wrapping, and the text the PDF,
 * spreadsheet and CSV extractors assemble from what their libraries parse.
 *
 * The libraries (OCR, PDF, Word, spreadsheet and CSV parsers, `file.text()`)
 * are not modelled: `Source` holds what each would yield for the file, a
 * value or a thrown error.
 */
module DocumentProcessor {
  import opened Wrappers
  import opened Text

  /** The kinds `getFileType` tells apart. */
  datatype FileType = Image | Pdf | Docx | Excel | Csv | PlainText | Unsupported

  /** A `File`: its name and its `type` (the empty string when the browser knows none). */
  datatype File = File(name: string, mime: string)

  const PdfMime: string := "application/pdf"
  const DocxMime: string := "application/vnd.openxmlformats-officedocument.wordprocessingml.document"
  const XlsxMime: string := "application/vnd.openxmlformats-officedocument.spreadsheetml.sheet"
  const XlsMime: string := "application/vnd.ms-excel"
  const PptxMime: string := "application/vnd.openxmlformats-officedocument.presentationml.presentation"
  const TextExtensions: seq<string> := ["md", "json", "js", "py", "html", "css", "txt"]

  /** `file.name.split('.').pop()?.toLowerCase()`: the last dot-separated piece of the name, lower-cased. */
  function Extension(name: string): string {
    var pieces := Split(name, '.');
    ToLower(pieces[|pieces| - 1])
  }

  /** The rules of `getFileType`, in order, on the lower-cased MIME type and the extension. */
  function Classify(mime: string, ext: string): FileType {
    if StartsWith(mime, "image/") then Image
    else if mime == PdfMime then Pdf
    else if mime == DocxMime || ext == "docx" then Docx
    else if mime in [XlsxMime, XlsMime] || ext in ["xlsx", "xls"] then Excel
    else if mime in ["text/csv", "application/csv"] || ext == "csv" then Csv
    else if StartsWith(mime, "text/") || ext in TextExtensions then PlainText
    else Unsupported
  }

  /** `getFileType(file)`. */
  function GetFileType(file: File): FileType {
    Classify(ToLower(file.mime), Extension(file.name))
  }

  /** What the extraction libraries would yield for a file, each a value or a thrown error. */
  datatype Source = Source(
    ocr: Result<string>,
    pdfPages: Result<seq<seq<string>>>,
    docx: Result<string>,
    sheets: Result<seq<(string, string)>>,
    csvRows: Result<seq<seq<(string, string)>>>,
    text: Result<string>)

  /** The `{ name, type, content }` object `processFile` resolves to. */
  datatype Processed = Processed(name: string, fileType: FileType, content: string)

  /** The content given for a file of an unsupported kind. */
  function UnsupportedMessage(name: string): string {
    "The file format for \"" + name + "\" is not supported for text extraction."
  }

  /** The error `processFile` throws whatever went wrong. */
  function CouldNotProcess(name: string): string {
    "Could not process \"" + name + "\"."
  }

  /** A PDF page's items joined by spaces, then a blank line. */
  function PageBlock(items: seq<string>): string {
    Join(items, " ") + "\n\n"
  }

  /** A sheet's header line, its CSV text, then a blank line. */
  function SheetBlock(sheet: (string, string)): string {
    SheetHeader(sheet.0) + "\n" + sheet.1 + "\n\n"
  }

  /** The text of every page, in page order, before trimming. */
  function PagesText(pages: seq<seq<string>>): string {
    Concat(seq(|pages|, i requires 0 <= i < |pages| => PageBlock(pages[i])))
  }

  /** The text of every sheet, in workbook order, before trimming. */
  function SheetsText(sheets: seq<(string, string)>): string {
    Concat(seq(|sheets|, i requires 0 <= i < |sheets| => SheetBlock(sheets[i])))
  }

  /** `extractTextFromPDF` once the pages are parsed: each page's block appended in turn, then trimmed. */
  method ExtractTextFromPdf(pages: seq<seq<string>>) returns (text: string)
    ensures text == Trim(PagesText(pages))
  {
    var fullText := "";
    var i := 0;
    while i < |pages|
      invariant 0 <= i <= |pages|
      invariant fullText == Concat(seq(i, k requires 0 <= k < i => PageBlock(pages[k])))
    {
      ghost var done := seq(i, k requires 0 <= k < i => PageBlock(pages[k]));
      ConcatSnoc(done, PageBlock(pages[i]));
      assert done + [PageBlock(pages[i])] == seq(i + 1, k requires 0 <= k < i + 1 => PageBlock(pages[k]));
      fullText := fullText + PageBlock(pages[i]);
      i := i + 1;
    }
    assert seq(i, k requires 0 <= k < i => PageBlock(pages[k])) == seq(|pages|, k requires 0 <= k < |pages| => PageBlock(pages[k]));
    text := Trim(fullText);
  }

  /** `extractTextFromExcel` once the workbook is read: each sheet's block appended in turn, then trimmed. */
  method ExtractTextFromExcel(sheets: seq<(string, string)>) returns (text: string)
    ensures text == Trim(SheetsText(sheets))
  {
    var allText := "";
    var i := 0;
    while i < |sheets|
      invariant 0 <= i <= |sheets|
      invariant allText == Concat(seq(i, k requires 0 <= k < i => SheetBlock(sheets[k])))
    {
      ghost var done := seq(i, k requires 0 <= k < i => SheetBlock(sheets[k]));
      ConcatSnoc(done, SheetBlock(sheets[i]));
      assert done + [SheetBlock(sheets[i])] == seq(i + 1, k requires 0 <= k < i + 1 => SheetBlock(sheets[k]));
      allText := allText + SheetBlock(sheets[i]);
      i := i + 1;
    }
    assert seq(i, k requires 0 <= k < i => SheetBlock(sheets[k])) == seq(|sheets|, k requires 0 <= k < |sheets| => SheetBlock(sheets[k]));
    text := Trim(allText);
  }

  /** The entries of a CSV row whose key and value are both non-empty, in order. */
  function Kept(row: seq<(string, string)>): (r: seq<(string, string)>)
    decreases |row|
  {
    if row == [] then []
    else if row[0].0 != "" && row[0].1 != "" then [row[0]] + Kept(row[1..])
    else Kept(row[1..])
  }

  /** A row's kept entries as `key: value`, joined by `, `. */
  function RowText(row: seq<(string, string)>): string {
    var kept := Kept(row);
    Join(seq(|kept|, i requires 0 <= i < |kept| => kept[i].0 + ": " + kept[i].1), ", ")
  }

  /** `extractTextFromCSV` once the rows are parsed: one line per row. */
  function CsvText(rows: seq<seq<(string, string)>>): string {
    Join(seq(|rows|, i requires 0 <= i < |rows| => RowText(rows[i])), "\n")
  }

  /** The raw content for the file's kind, before trimming, or the library's error. */
  function RawContent(file: File, source: Source): Result<string> {
    match GetFileType(file)
    case Image => source.ocr
    case Pdf => if source.pdfPages.Success? then Success(Trim(PagesText(source.pdfPages.value))) else Failure(source.pdfPages.error)
    case Docx => source.docx
    case Excel => if source.sheets.Success? then Success(Trim(SheetsText(source.sheets.value))) else Failure(source.sheets.error)
    case Csv => if source.csvRows.Success? then Success(CsvText(source.csvRows.value)) else Failure(source.csvRows.error)
    case PlainText => source.text
    case Unsupported => Success(UnsupportedMessage(file.name))
  }

  /** What `processFile` resolves with, or the error it rejects with. */
  function ProcessResult(file: File, source: Source): Result<Processed> {
    if RawContent(file, source).Success? then
      Success(Processed(file.name, GetFileType(file), Trim(RawContent(file, source).value)))
    else Failure(CouldNotProcess(file.name))
  }

  /**
   * `processFile(file)`: the name, the kind and the trimmed content, or,
   * whatever the extractor threw, the one `Could not process` error. (The
   * `default` case of the switch cannot be reached: the kind is always one of
   * the seven.)
   */
  method ProcessFile(file: File, source: Source) returns (r: Result<Processed>)
    ensures r.Success? <==> RawContent(file, source).Success?
    ensures r.Success? ==> r.value == Processed(file.name, GetFileType(file), Trim(RawContent(file, source).value))
    ensures r.Failure? ==> r.error == CouldNotProcess(file.name)
    ensures r == ProcessResult(file, source)
  {
    var fileType := GetFileType(file);
    var content: Result<string>;
    match fileType {
      case Image =>
        content := source.ocr;
      case Pdf =>
        if source.pdfPages.Success? {
          var text := ExtractTextFromPdf(source.pdfPages.value);
          content := Success(text);
        } else {
          content := Failure(source.pdfPages.error);
        }
      case Docx =>
        content := source.docx;
      case Excel =>
        if source.sheets.Success? {
          var text := ExtractTextFromExcel(source.sheets.value);
          content := Success(text);
        } else {
          content := Failure(source.sheets.error);
        }
      case Csv =>
        content := if source.csvRows.Success? then Success(CsvText(source.csvRows.value)) else Failure(source.csvRows.error);
      case PlainText =>
        content := source.text;
      case Unsupported =>
        content := Success(UnsupportedMessage(file.name));
    }
    if content.Failure? {
      return Failure(CouldNotProcess(file.name));
    }
    return Success(Processed(file.name, fileType, Trim(content.value)));
  }

  /** The extension is what follows the last dot, lower-cased. */
  lemma ExtensionAfterLastDot(base: string, ext: string)
    requires '.' !in ext
    ensures Extension(base + "." + ext) == ToLower(ext)
  {
    var s := base + "." + ext;
    var i := SplitLast(s, '.');
    assert s[|base|] == '.';
    InSuffix(s, i + 1, |base|);
    assert forall k :: |base| < k < |s| ==> s[k] == ext[k - |base| - 1];
    assert i == |base|;
    assert s[i + 1..] == ext;
  }

  /** A name without a dot is its own extension, lower-cased. */
  lemma ExtensionWithoutDot(name: string)
    requires '.' !in name
    ensures Extension(name) == ToLower(name)
  {
  }

  /** The MIME type is compared lower-cased: its case never changes the kind. */
  lemma MimeCaseIgnored(name: string, mime: string)
    ensures GetFileType(File(name, mime)) == GetFileType(File(name, ToLower(mime)))
  {
    assert ToLower(ToLower(mime)) == ToLower(mime);
  }

  /** An `image/` MIME type wins over any extension. */
  lemma ImageFirst(file: File)
    requires StartsWith(ToLower(file.mime), "image/")
    ensures GetFileType(file) == Image
  {
  }

  /** A PDF is recognised by its MIME type alone. */
  lemma PdfOnlyByMime(file: File)
    ensures GetFileType(file) == Pdf <==> ToLower(file.mime) == PdfMime
  {
    assert PdfMime[0] != "image/"[0];
  }

  /** A `.pdf` name whose MIME type is empty is unsupported. */
  lemma PdfNameWithoutMime(base: string)
    ensures GetFileType(File(base + ".pdf", "")) == Unsupported
  {
    ExtensionAfterLastDot(base, "pdf");
    assert base + ".pdf" == base + "." + "pdf";
    assert ToLower("") == [] && ToLower("pdf") == "pdf";
    assert Classify([], "pdf") == Unsupported;
  }

  /** An unsupported file's content is the fixed message, untouched by the trim. */
  lemma UnsupportedContent(file: File, source: Source)
    requires GetFileType(file) == Unsupported
    ensures RawContent(file, source) == Success(UnsupportedMessage(file.name))
    ensures Trim(UnsupportedMessage(file.name)) == UnsupportedMessage(file.name)
  {
    var m := UnsupportedMessage(file.name);
    assert m[0] == 'T' && m[|m| - 1] == '.';
    TrimOfTrimmed(m);
  }

  /** A CSV row keeps exactly its entries with a non-empty key and a non-empty value. */
  lemma {:induction false} KeptMeaning(row: seq<(string, string)>)
    ensures forall p :: p in Kept(row) <==> p in row && p.0 != "" && p.1 != ""
    decreases |row|
  {
    if row != [] {
      KeptMeaning(row[1..]);
      assert row == [row[0]] + row[1..];
    }
  }

  /**
   * The CSV text has one line per row, in order, each the row's text, as
   * long as no key or value holds a line feed.
   */
  lemma CsvLines(rows: seq<seq<(string, string)>>)
    requires |rows| >= 1
    requires forall i, j :: 0 <= i < |rows| && 0 <= j < |rows[i]| ==> '\n' !in rows[i][j].0 && '\n' !in rows[i][j].1
    ensures Split(CsvText(rows), '\n') == seq(|rows|, i requires 0 <= i < |rows| => RowText(rows[i]))
  {
    var texts := seq(|rows|, i requires 0 <= i < |rows| => RowText(rows[i]));
    forall i | 0 <= i < |rows|
      ensures '\n' !in texts[i]
    {
      RowLacks(rows[i]);
    }
    SplitJoin(texts, '\n');
  }

  /** A row whose keys and values lack line feeds renders without one. */
  lemma RowLacks(row: seq<(string, string)>)
    requires forall j :: 0 <= j < |row| ==> '\n' !in row[j].0 && '\n' !in row[j].1
    ensures '\n' !in RowText(row)
  {
    var kept := Kept(row);
    KeptMeaning(row);
    var pieces := seq(|kept|, i requires 0 <= i < |kept| => kept[i].0 + ": " + kept[i].1);
    forall i | 0 <= i < |kept|
      ensures '\n' !in pieces[i]
    {
      assert kept[i] in row;
      var p := kept[i];
      assert forall x :: x in p.0 + ": " + p.1 ==> x in p.0 || x in ": " || x in p.1;
    }
    JoinLacks(pieces, ", ", '\n');
  }

  /** Each page's items joined by spaces, in page order. */
  function PageTexts(pages: seq<seq<string>>): (r: seq<string>)
    ensures |r| == |pages|
  {
    seq(|pages|, i requires 0 <= i < |pages| => Join(pages[i], " "))
  }

  /** Each sheet's header line and CSV text, in workbook order. */
  function SheetTexts(sheets: seq<(string, string)>): (r: seq<string>)
    ensures |r| == |sheets|
  {
    seq(|sheets|, i requires 0 <= i < |sheets| => SheetHeader(sheets[i].0) + "\n" + sheets[i].1)
  }

  /** The line that opens a sheet's text. */
  function SheetHeader(name: string): string {
    "--- SHEET: " + name + " ---"
  }

  /** The PDF text is the pages' texts separated by blank lines, trimmed. */
  lemma PdfPagesJoined(pages: seq<seq<string>>)
    ensures Trim(PagesText(pages)) == Trim(Join(PageTexts(pages), "\n\n"))
  {
    if |pages| >= 1 {
      var texts := PageTexts(pages);
      assert seq(|pages|, i requires 0 <= i < |pages| => PageBlock(pages[i]))
          == seq(|texts|, i requires 0 <= i < |texts| => texts[i] + "\n\n");
      ConcatTerminated(texts, "\n\n");
      TrimPadded("", Join(texts, "\n\n"), "\n\n");
      assert "" + Join(texts, "\n\n") + "\n\n" == Join(texts, "\n\n") + "\n\n";
    }
  }

  /** The spreadsheet text is the sheets' texts separated by blank lines, trimmed. */
  lemma ExcelSheetsJoined(sheets: seq<(string, string)>)
    ensures Trim(SheetsText(sheets)) == Trim(Join(SheetTexts(sheets), "\n\n"))
  {
    if |sheets| >= 1 {
      var texts := SheetTexts(sheets);
      assert seq(|sheets|, i requires 0 <= i < |sheets| => SheetBlock(sheets[i]))
          == seq(|texts|, i requires 0 <= i < |texts| => texts[i] + "\n\n");
      ConcatTerminated(texts, "\n\n");
      TrimPadded("", Join(texts, "\n\n"), "\n\n");
      assert "" + Join(texts, "\n\n") + "\n\n" == Join(texts, "\n\n") + "\n\n";
    }
  }

  /** A workbook's text starts with its first sheet's header, whatever the sheets hold. */
  lemma ExcelStartsWithFirstSheet(sheets: seq<(string, string)>)
    requires |sheets| >= 1
    ensures var h := SheetHeader(sheets[0].0);
      |Trim(SheetsText(sheets))| >= |h| && Trim(SheetsText(sheets))[..|h|] == h
  {
    var h := SheetHeader(sheets[0].0);
    var blocks := seq(|sheets|, i requires 0 <= i < |sheets| => SheetBlock(sheets[i]));
    var rest := "\n" + sheets[0].1 + "\n\n" + Concat(blocks[1..]);
    assert SheetsText(sheets) == blocks[0] + Concat(blocks[1..]);
    assert SheetsText(sheets) == h + rest;
    TrimKeepsHead(h, rest);
  }
}
