/** The Word document parser (parsers/docx_parser.py): the paragraphs and
    tables that python-docx reads from a document, flattened into text. */
module DocxParser {
  import opened Wrappers
  import opened Strings
  import opened Seqs

  /** A table as rows of cell texts. */
  type DocxTable = seq<seq<string>>

  /** What python-docx gives for a document: the paragraph texts and the
      tables, in document order. */
  datatype DocxDocument = DocxDocument(paragraphs: seq<string>, tables: seq<DocxTable>)

  /** The dictionary that the parser returns, without its metadata. */
  datatype DocxParse = DocxParse(text: string, paragraphs: seq<string>, tables: seq<string>,
                                 source: string, error: Option<string>)

  /** The message of the ImportError raised when python-docx is missing. */
  const MissingLibrary := "Please install python-docx: pip install python-docx"

  // ---------------------------------------------------------------------
  // _table_to_text

  /** `[cell.text.strip() for cell in row.cells]` */
  function CleanCells(row: seq<string>): seq<string> {
    MapSeq(row, Strip)
  }

  /** `any(cells)`: some cell is non-empty. */
  predicate AnyNonEmpty(cells: seq<string>) {
    exists k | 0 <= k < |cells| :: cells[k] != ""
  }

  /** A row is kept when some cleaned cell is non-empty. */
  predicate RowKept(row: seq<string>) {
    AnyNonEmpty(CleanCells(row))
  }

  function RowText(row: seq<string>): string {
    Join(CleanCells(row), " | ")
  }

  /** The text lines of a table: one per kept row, in order. */
  function KeptRowTexts(table: DocxTable): seq<string> {
    MapSeq(Filter(table, RowKept), RowText)
  }

  /** What `_table_to_text` returns for a table. */
  function TableText(table: DocxTable): string {
    Join(KeptRowTexts(table), "\n")
  }

  /** `_table_to_text`: keep the rows with some non-empty cleaned cell, join
      each one's cleaned cells by " | " and the rows by newlines. */
  method TableToText(table: DocxTable) returns (r: string)
    ensures r == TableText(table)
  {
    var rows: seq<string> := [];
    var i := 0;
    while i < |table|
      invariant 0 <= i <= |table|
      invariant rows == MapSeq(Filter(table[..i], RowKept), RowText)
    {
      var row := table[i];
      FilterMapStep(table, i, RowKept, RowText);
      var cells := CleanCells(row);
      if AnyNonEmpty(cells) {
        rows := rows + [Join(cells, " | ")];
      }
      i := i + 1;
    }
    assert table[..|table|] == table;
    r := Join(rows, "\n");
  }

  /** A kept row's text is never empty. */
  lemma RowTextNonEmpty(row: seq<string>)
    requires RowKept(row)
    ensures RowText(row) != ""
  {
    var k :| 0 <= k < |row| && CleanCells(row)[k] != "";
    JoinHasPart(CleanCells(row), " | ", k);
  }

  /** A table's text is empty exactly when none of its rows has a non-empty
      cell; those are the tables that the parser leaves out. */
  lemma TableTextEmptyIff(table: DocxTable)
    ensures TableText(table) == "" <==> forall row | row in table :: !RowKept(row)
  {
    var kept := Filter(table, RowKept);
    var lines := KeptRowTexts(table);
    forall k | 0 <= k < |lines| ensures lines[k] != "" {
      assert kept[k] in kept;
      RowTextNonEmpty(kept[k]);
    }
    JoinEmptyIff(lines, "\n");
    if exists row | row in table :: RowKept(row) {
      var row :| row in table && RowKept(row);
      FilterKeeps(table, RowKept, row);
    } else {
      FilterNone(table, RowKept);
    }
  }

  /** A table none of whose cells holds a line break has one line per kept
      row: splitting its text on newlines gives back the row texts. */
  lemma TableLines(table: DocxTable)
    requires Filter(table, RowKept) != []
    requires forall row, c | row in table && c in row :: '\n' !in c
    ensures SplitOn(TableText(table), '\n') == KeptRowTexts(table)
  {
    var kept := Filter(table, RowKept);
    var lines := KeptRowTexts(table);
    forall k | 0 <= k < |lines| ensures '\n' !in lines[k] {
      var row := kept[k];
      assert row in kept;
      var cells := CleanCells(row);
      forall j | 0 <= j < |cells| ensures '\n' !in cells[j] {
        assert row[j] in row;
        StripAvoids(row[j], '\n');
      }
      JoinAvoids(cells, " | ", '\n');
    }
    SplitOnJoin(lines, '\n');
  }

  // ---------------------------------------------------------------------
  // parse_docx

  predicate NonEmpty(s: string) {
    s != ""
  }

  /** The stripped paragraph texts, empty ones dropped, in document order. */
  function Paragraphs(doc: DocxDocument): seq<string> {
    Filter(MapSeq(doc.paragraphs, Strip), NonEmpty)
  }

  /** The texts of the tables that have any, in document order. */
  function TableTexts(doc: DocxDocument): seq<string> {
    Filter(MapSeq(doc.tables, TableText), NonEmpty)
  }

  /** The result when python-docx raised `message`. */
  function Failed(name: string, message: string): DocxParse {
    DocxParse("", [], [], name, Some(message))
  }

  /** What `parse_docx` returns when python-docx is installed and gives
      `doc` for the file (or raises). */
  predicate DocxParsed(name: string, doc: Result<DocxDocument, string>, r: DocxParse) {
    && r.source == name
    && (doc.Failure? ==> r == Failed(name, doc.error))
    && (doc.Success? ==>
         && r.error == None
         && r.paragraphs == Paragraphs(doc.value)
         && r.tables == TableTexts(doc.value)
         && r.text == Join(r.paragraphs + r.tables, "\n\n"))
  }

  /** The paragraph loop of `parse_docx`. */
  method KeepParagraphs(texts: seq<string>) returns (paragraphs: seq<string>)
    ensures paragraphs == Filter(MapSeq(texts, Strip), NonEmpty)
  {
    paragraphs := [];
    var i := 0;
    while i < |texts|
      invariant 0 <= i <= |texts|
      invariant paragraphs == Filter(MapSeq(texts[..i], Strip), NonEmpty)
    {
      var text := Strip(texts[i]);
      KeepStep(texts, i, Strip, NonEmpty);
      if text != "" {
        paragraphs := paragraphs + [text];
      }
      i := i + 1;
    }
    assert texts[..|texts|] == texts;
  }

  /** The table loop of `parse_docx`. */
  method KeepTables(docTables: seq<DocxTable>) returns (tables: seq<string>)
    ensures tables == Filter(MapSeq(docTables, TableText), NonEmpty)
  {
    tables := [];
    var t := 0;
    while t < |docTables|
      invariant 0 <= t <= |docTables|
      invariant tables == Filter(MapSeq(docTables[..t], TableText), NonEmpty)
    {
      var tableText := TableToText(docTables[t]);
      KeepStep(docTables, t, TableText, NonEmpty);
      if tableText != "" {
        tables := tables + [tableText];
      }
      t := t + 1;
    }
    assert docTables[..|docTables|] == docTables;
  }

  /** `parse_docx`: `library` is None when python-docx is not installed;
      otherwise it is what the library gives for the file, or the message
      of the exception it raised. */
  method ParseDocx(name: string, library: Option<Result<DocxDocument, string>>)
    returns (r: Result<DocxParse, string>)
    ensures library.None? <==> r.Failure?
    ensures r.Failure? ==> r.error == MissingLibrary
    ensures library.Some? ==> r.Success? && DocxParsed(name, library.value, r.value)
  {
    if library.None? {
      return Failure(MissingLibrary);
    }
    if library.value.Failure? {
      return Success(Failed(name, library.value.error));
    }
    var doc := library.value.value;
    var paragraphs := KeepParagraphs(doc.paragraphs);
    var tables := KeepTables(doc.tables);
    return Success(DocxParse(Join(paragraphs + tables, "\n\n"), paragraphs, tables, name, None));
  }

  /** A parsed document's text is empty exactly when it kept no paragraph
      and no table; otherwise it starts with its first paragraph (or, with
      none, its first table). */
  lemma DocxTextEmptyIff(name: string, doc: DocxDocument, r: DocxParse)
    requires DocxParsed(name, Success(doc), r)
    ensures r.text == "" <==> r.paragraphs == [] && r.tables == []
    ensures r.paragraphs + r.tables != [] ==> StartsWith(r.text, (r.paragraphs + r.tables)[0])
  {
    var ps, ts := r.paragraphs, r.tables;
    var all := ps + ts;
    forall k | 0 <= k < |all| ensures all[k] != "" {
      if k < |ps| {
        assert all[k] == ps[k] && ps[k] in ps;
      } else {
        assert all[k] == ts[k - |ps|] && ts[k - |ps|] in ts;
      }
    }
    JoinEmptyIff(all, "\n\n");
    if all != [] {
      JoinStartsWith(all, "\n\n");
    }
  }
}
