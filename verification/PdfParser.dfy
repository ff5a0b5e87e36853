/** The PDF parser (parsers/pdf_parser.py): page text and tables, as the PDF
    library returns them, assembled into one text with a "[Page k]" marker
    at the head of each page. */
module PdfParser {
  import opened Wrappers
  import opened Strings
  import opened Seqs

  /** A table cell as the library gives it: None for a missing cell. */
  type Cell = Option<string>

  /** A table row: None or an empty list are both falsy and skipped. */
  type Row = Option<seq<Cell>>

  type Table = seq<Row>

  /** A page as pdfplumber gives it: its extracted text (None when the page
      has none) and its tables. */
  datatype PlumberPage = PlumberPage(text: Option<string>, tables: seq<Table>)

  /** The dictionary that the parser returns, without its metadata. */
  datatype PdfParse = PdfParse(text: string, pages: seq<string>, source: string, error: Option<string>)

  // ---------------------------------------------------------------------
  // _table_to_text

  /** `str(cell).strip() if cell else ""` */
  function CellText(cell: Cell): string {
    if cell.None? || cell.value == "" then "" else Strip(cell.value)
  }

  /** `if row:` */
  predicate RowKept(row: Row) {
    row.Some? && row.value != []
  }

  /** `" | ".join(cells)` of the cleaned cells of a row. */
  function RowText(row: Row): string {
    if row.None? then "" else Join(MapSeq(row.value, CellText), " | ")
  }

  /** The text lines of a table: one per kept row, in order. */
  function KeptRowTexts(table: Table): seq<string> {
    MapSeq(Filter(table, RowKept), RowText)
  }

  /** What `_table_to_text` returns for a table. */
  function TableText(table: Table): string {
    if table == [] then "" else Join(KeptRowTexts(table), "\n")
  }

  /** `_table_to_text`: skip falsy rows; clean each kept row's cells and join
      them by " | "; join the rows by newlines. */
  method TableToText(table: Table) returns (r: string)
    ensures r == TableText(table)
  {
    if table == [] {
      return "";
    }
    var rows: seq<string> := [];
    var i := 0;
    while i < |table|
      invariant 0 <= i <= |table|
      invariant rows == MapSeq(Filter(table[..i], RowKept), RowText)
    {
      var row := table[i];
      FilterMapStep(table, i, RowKept, RowText);
      if row.Some? && row.value != [] {
        var cells := MapSeq(row.value, CellText);
        rows := rows + [Join(cells, " | ")];
      }
      i := i + 1;
    }
    assert table[..|table|] == table;
    r := Join(rows, "\n");
  }

  /** A table whose kept rows hold no line break in any cleaned cell has one
      line per kept row: splitting its text on newlines gives back the row
      texts. */
  lemma TableLines(table: Table)
    requires Filter(table, RowKept) != []
    requires forall row, c | row in table && row.Some? && c in row.value :: '\n' !in CellText(c)
    ensures SplitOn(TableText(table), '\n') == KeptRowTexts(table)
    ensures |SplitOn(TableText(table), '\n')| == |Filter(table, RowKept)|
  {
    var kept := Filter(table, RowKept);
    var lines := KeptRowTexts(table);
    forall k | 0 <= k < |lines| ensures '\n' !in lines[k] {
      var row := kept[k];
      assert row in kept;
      var cells := MapSeq(row.value, CellText);
      forall j | 0 <= j < |cells| ensures '\n' !in cells[j] {
        assert row.value[j] in row.value;
      }
      JoinAvoids(cells, " | ", '\n');
    }
    SplitOnJoin(lines, '\n');
  }

  // ---------------------------------------------------------------------
  // Page assembly

  /** `page.extract_text() or ""` */
  function TextOrEmpty(text: Option<string>): string {
    if text.None? then "" else text.value
  }

  /** `if table:` */
  predicate TableKept(table: Table) {
    table != []
  }

  /** A page's content: its text, then the text of each non-empty table,
      joined by newlines. */
  function PageContent(page: PlumberPage): string {
    Join([TextOrEmpty(page.text)] + MapSeq(Filter(page.tables, TableKept), TableText), "\n")
  }

  /** `f"[Page {k}]\n{content}"` */
  function PageBlock(k: nat, content: string): string {
    "[Page " + NatToString(k) + "]\n" + content
  }

  /** The page contents in order, the k-th (counting from 1) headed by its
      marker, joined by blank lines. */
  function PagesText(contents: seq<string>): string {
    Join(seq(|contents|, i requires 0 <= i < |contents| => PageBlock(i + 1, contents[i])), "\n\n")
  }

  /** The result when the library raised `message`. */
  function Failed(name: string, message: string): PdfParse {
    PdfParse("", [], name, Some(message))
  }

  /** What `parse_pdf` returns with pdfplumber installed. */
  predicate PlumberParsed(name: string, pdf: Result<seq<PlumberPage>, string>, r: PdfParse) {
    && r.source == name
    && (pdf.Failure? ==> r == Failed(name, pdf.error))
    && (pdf.Success? ==>
         r.error == None && r.pages == MapSeq(pdf.value, PageContent) && r.text == PagesText(r.pages))
  }

  /** What `_parse_with_pypdf` returns with pypdf installed. */
  predicate PypdfParsed(name: string, pdf: Result<seq<Option<string>>, string>, r: PdfParse) {
    && r.source == name
    && (pdf.Failure? ==> r == Failed(name, pdf.error))
    && (pdf.Success? ==>
         r.error == None && r.pages == MapSeq(pdf.value, TextOrEmpty) && r.text == PagesText(r.pages))
  }

  /** The table loop of a page: the text of each non-empty table, in
      order. */
  method KeepTables(tables: seq<Table>) returns (texts: seq<string>)
    ensures texts == MapSeq(Filter(tables, TableKept), TableText)
  {
    texts := [];
    var t := 0;
    while t < |tables|
      invariant 0 <= t <= |tables|
      invariant texts == MapSeq(Filter(tables[..t], TableKept), TableText)
    {
      FilterMapStep(tables, t, TableKept, TableText);
      if tables[t] != [] {
        var tableText := TableToText(tables[t]);
        texts := texts + [tableText];
      }
      t := t + 1;
    }
    assert tables[..|tables|] == tables;
  }

  /** The body of `parse_pdf`'s page loop: the page's text, then the text
      of each non-empty table, joined by newlines. */
  method ExtractPage(page: PlumberPage) returns (content: string)
    ensures content == PageContent(page)
  {
    var tableTexts := KeepTables(page.tables);
    content := Join([TextOrEmpty(page.text)] + tableTexts, "\n");
  }

  /** `parse_pdf` with pdfplumber: `pdf` is the library's pages, or the
      message of the exception it raised. */
  method ParsePdf(name: string, pdf: Result<seq<PlumberPage>, string>) returns (r: PdfParse)
    ensures PlumberParsed(name, pdf, r)
  {
    if pdf.Failure? {
      return Failed(name, pdf.error);
    }
    var doc := pdf.value;
    var pages: seq<string> := [];
    var fullText: seq<string> := [];
    var pageNum := 0;
    while pageNum < |doc|
      invariant 0 <= pageNum <= |doc|
      invariant pages == MapSeq(doc[..pageNum], PageContent)
      invariant fullText == seq(pageNum, i requires 0 <= i < pageNum => PageBlock(i + 1, pages[i]))
    {
      var page := doc[pageNum];
      var pageContent := ExtractPage(page);
      pages := pages + [pageContent];
      fullText := fullText + [PageBlock(pageNum + 1, pageContent)];
      assert doc[..pageNum + 1] == doc[..pageNum] + [page];
      pageNum := pageNum + 1;
    }
    assert doc[..|doc|] == doc;
    r := PdfParse(Join(fullText, "\n\n"), pages, name, None);
  }

  /** `_parse_with_pypdf`: each page's text (or "" when it has none) is a
      page, assembled with the same markers; `pdf` is the library's page
      texts, or the message of the exception it raised. */
  method ParseWithPypdf(name: string, pdf: Result<seq<Option<string>>, string>) returns (r: PdfParse)
    ensures PypdfParsed(name, pdf, r)
  {
    if pdf.Failure? {
      return Failed(name, pdf.error);
    }
    var doc := pdf.value;
    var pages: seq<string> := [];
    var fullText: seq<string> := [];
    var pageNum := 0;
    while pageNum < |doc|
      invariant 0 <= pageNum <= |doc|
      invariant pages == MapSeq(doc[..pageNum], TextOrEmpty)
      invariant fullText == seq(pageNum, i requires 0 <= i < pageNum => PageBlock(i + 1, pages[i]))
    {
      var text := TextOrEmpty(doc[pageNum]);
      pages := pages + [text];
      fullText := fullText + [PageBlock(pageNum + 1, text)];
      pageNum := pageNum + 1;
    }
    assert doc[..|doc|] == doc;
    r := PdfParse(Join(fullText, "\n\n"), pages, name, None);
  }

  /** The assembled text is empty exactly when the document has no pages:
      every page contributes at least its marker. */
  lemma PagesTextEmptyIff(contents: seq<string>)
    ensures PagesText(contents) == "" <==> contents == []
  {
    var blocks := seq(|contents|, i requires 0 <= i < |contents| => PageBlock(i + 1, contents[i]));
    forall k | 0 <= k < |blocks| ensures blocks[k] != "" {
      assert blocks[k][0] == '[';
    }
    JoinEmptyIff(blocks, "\n\n");
  }

  // ---------------------------------------------------------------------
  // Library choice

  /** The message of the ImportError raised when neither PDF library is
      installed. */
  const MissingLibraries := "Please install pdfplumber or pypdf: pip install pdfplumber pypdf"

  /** `parse_pdf` as a whole: pdfplumber when it is installed (`plumber` is
      what it gives for the file), else the pypdf fallback (`pypdf`), else
      the ImportError, which is the only way this parser raises. */
  method ParsePdfFile(name: string, plumber: Option<Result<seq<PlumberPage>, string>>,
                      pypdf: Option<Result<seq<Option<string>>, string>>)
    returns (r: Result<PdfParse, string>)
    ensures r.Failure? <==> plumber.None? && pypdf.None?
    ensures r.Failure? ==> r.error == MissingLibraries
    ensures plumber.Some? ==> r.Success? && PlumberParsed(name, plumber.value, r.value)
    ensures plumber.None? && pypdf.Some? ==> r.Success? && PypdfParsed(name, pypdf.value, r.value)
  {
    if plumber.None? {
      if pypdf.None? {
        return Failure(MissingLibraries);
      }
      var parsed := ParseWithPypdf(name, pypdf.value);
      return Success(parsed);
    }
    var parsed := ParsePdf(name, plumber.value);
    return Success(parsed);
  }
}
