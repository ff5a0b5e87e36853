# Private document Q&A: the indexing and retrieval core in Dafny

The application answers questions about a user's own documents without sending
them anywhere. Its core has two parts:

- The **document store** (`core/document_store.py`) turns PDF, Word and
  text/Markdown files into text with the three parsers under `parsers/`. It
  cuts the text into overlapping windows of words and embeds each window as a
  vector. It keeps the chunks with their vectors, and the matrix of those
  vectors, in an index directory on disk (chunks.json, embeddings.npy,
  hashes.json). A query is embedded and compared with every row by cosine
  similarity, and the best `top_k` chunks are returned.
- The **RAG engine** (`core/rag_engine.py`) calls that search for a question.
  It drops the hits below a minimum confidence and assembles the rest into
  three things: the context given to the language model, the citations shown
  to the user, and the mean score.

This project is a model of that core with proofs about it. It is organised
like the program:

| module | models |
|---|---|
| `Chunker` | `DocumentChunk`, `_chunk_document` and `_detect_page` |
| `Ranking` | the top-k selection of `search` (`np.argsort(...)[-top_k:][::-1]`) |
| `Store` | the `DocumentStore` class: its fields, its index directory, and every method of it |
| `RagEngine` | `RetrievalResult` and the `RAGEngine` class |
| `PdfParser`, `DocxParser`, `TextParser` | the three parsers |
| `Wrappers`, `Seqs`, `Strings` | Option/Result, and the Python list and `str` operations the code relies on: `split()`, `split(c)`, `splitlines()`, `strip()`, `join`, `find`, `lower()`, path suffixes, `str(int)` |

`DocumentStore` and `RAGEngine` are classes whose methods update fields, as
in the source. The index directory is a `Disk` record that the methods
rewrite. The loops of the source are `while` loops with invariants, proved
against specification functions (`IsChunking`, `IsTopSelection`,
`Retrieval`, `DisplayText`, `PageContent`, …). The lemmas then prove what
those functions promise.

The model keeps these behaviours of the code, which a reader might not
expect:

- `add_document` never calls `_save_hash` (`core/document_store.py:66-114`).
  The hash registry therefore never grows, and adding an unchanged file a
  second time indexes it again instead of returning 0.
- `clear` deletes chunks.json and embeddings.npy but keeps hashes.json
  (`core/document_store.py:182-196`).
- When the two files of the index have different lengths, `_load_index` does
  not raise. It keeps the chunks without embeddings and keeps the loaded
  matrix (`core/document_store.py:338-344`; see `Store.LoadMismatch`).
- `search` orders equal scores as numpy's `argsort` happens to, not by
  position. The model states only what every such ordering satisfies.
- `top_k == 0` gives every row, because `a[-0:]` is the whole array. A
  negative `top_k` drops rows from the bottom (`Ranking.TopCount`).
- `_save_index` writes embeddings.npy only when a matrix exists. A store that
  becomes empty therefore leaves the old matrix on disk
  (`Store.StaleMatrixAfterEmptying`).

## Model

| member | source | states |
|---|---|---|
| Chunker.DetectPage | core/document_store.py:260-266 | None exactly when the text holds no "[Page digits]" marker; otherwise the number written in the leftmost marker |
| Chunker.PageMarkerRoundTrip | core/document_store.py:260-266 | a text that opens with the marker "[Page k]" is detected as page k, for every k and whatever follows |
| Chunker.MakeChunk | core/document_store.py:233-248 | the chunk built for window i is chunk i of the chunking; splitting its text on whitespace gives back exactly the window's words; its page is the one detected in its own text; it carries its position and source and no embedding |
| Chunker.ChunkDocument | core/document_store.py:220-258 | the produced list is the chunking of the text's words: windows of 500 words moving by 450, numbered from 0; every window but the last stops short of the end and the last reaches it; no chunks for a text without words |
| Chunker.ChunkingUnique | core/document_store.py:220-258 | the chunking of a text is unique: two lists that both satisfy the specification are equal |
| Chunker.ChunkingCovers | core/document_store.py:229-256 | every word of the text lies in some window, so chunking loses no word |
| Chunker.LastWindowReachesEnd | core/document_store.py:251-256 | the last window ends exactly at the last word |
| Chunker.ChunkTextWords | core/document_store.py:234-235 | splitting a chunk's text on whitespace gives back exactly the words of its window |
| Chunker.TwelveHundredWords | core/document_store.py:229-256 | with size 500 and overlap 50, 1200 words give three chunks at positions 0, 1 and 2, covering words 0-499, 450-949 and 900-1199 |
| Ranking.TopCount | core/document_store.py:153 | the number of rows that `argsort(...)[-top_k:]` keeps: top_k capped at the row count for positive top_k, all rows for 0, the row count minus the magnitude (floored at 0) for negative top_k |
| Ranking.SelectTop | core/document_store.py:153 | the selected positions are distinct rows in non-increasing score order, and no row left out scores higher than a row taken |
| Ranking.TopScoresAgree | core/document_store.py:153 | any two selections that meet that description have the same score at every position, so tie order is the only freedom argsort has |
| Ranking.NotAhead | core/document_store.py:153 | the i-th score of one valid selection is never above the i-th score of another |
| Store.SupportedHaveParser | core/document_store.py:207-218 | an extension has a parser exactly when it is in SUPPORTED_EXTENSIONS, so the ValueError branch of `_parse_document` cannot be reached from `add_document` |
| Store.RegistryIsMap | core/document_store.py:273-289 | after a hash is recorded, the source is registered with that hash and no other, and every other source keeps its registration |
| Store.WantedNamesMembers | core/document_store.py:126-130 | the keys of `add_folder`'s result are exactly the names of the entries that are files with a supported extension |
| Store.FolderResultsStep | core/document_store.py:126-133 | one pass of the folder loop keeps the result map complete and correct for the entries seen so far, since names in a directory are distinct |
| Store.RowsAligned | core/document_store.py:297-307 | when every chunk has an embedding, the rebuilt matrix exists exactly when there are chunks, has one row per chunk, and row i is chunk i's vector |
| Store.SaveLoadRoundTrip | core/document_store.py:309-346 | saving the index and loading it into a fresh store gives back the chunks with their embeddings and the same matrix |
| Store.LoadMismatch | core/document_store.py:338-344 | when chunks.json and embeddings.npy differ in length, the loaded chunks have no embeddings and the matrix is the file as saved |
| Store.StaleMatrixAfterEmptying | core/document_store.py:322-324 | saving an empty store leaves embeddings.npy in place, so the next load finds no chunks but the old matrix |
| Store.PageBlockDetected | core/document_store.py:260-266 | the page block the PDF parser writes for page k is detected as page k |
| Store.RemoveKeepsOthers | core/document_store.py:198-201 | after removal no chunk of the source is left, every chunk of another source stays, and removing an absent source changes nothing |
| Store.DocumentStore.constructor | core/document_store.py:41-50 | a new store holds what loading its index directory gives, with the embedder not yet loaded |
| Store.DocumentStore.LoadIndex | core/document_store.py:328-346 | the chunks are those of chunks.json when present, otherwise unchanged; the matrix is that of embeddings.npy when present; embeddings are attached only when the lengths agree |
| Store.DocumentStore.GetEmbedder | core/document_store.py:52-64 | succeeds exactly when the model is already loaded or can be loaded, and it then stays loaded |
| Store.DocumentStore.RebuildEmbeddingMatrix | core/document_store.py:297-307 | the matrix becomes the vectors of the chunks that have one, in order, and None when there are no chunks or no vectors |
| Store.DocumentStore.SaveIndex | core/document_store.py:309-326 | chunks.json becomes the chunks without their embeddings; embeddings.npy is rewritten only when a matrix exists; hashes.json is untouched |
| Store.DocumentStore.SaveHash | core/document_store.py:282-289 | afterwards the source is registered with this hash, and every other source keeps its registration |
| Store.DocumentStore.AddDocument | core/document_store.py:66-114 | missing file, unsupported suffix, parser exception: the error, nothing changed. Registered file or parse error: 0, nothing changed. No embedder: ImportError, nothing changed. Otherwise the chunking of the parsed text is embedded and appended in order, the matrix rebuilt, the index saved and the count returned; the registry is never written |
| Store.DocumentStore.IndexChunks | core/document_store.py:96-114 | the new chunks, each with the vector of its text, are appended in order; the matrix is rebuilt from all chunks and the index saved; a store whose rows matched its chunks still does |
| Store.DocumentStore.AppendEmbedded | core/document_store.py:99-106 | the chunk list grows by the new chunks in order, each carrying the vector of its own text |
| Store.DocumentStore.AddFolderFile | core/document_store.py:128-133 | records what `add_document` returns for the file, or -1 when it raises; an indexed file gets the number of its chunks, which are appended with their vectors, the matrix rebuilt and the index saved; any other file changes nothing |
| Store.DocumentStore.AddFolderEntry | core/document_store.py:126-133 | one pass of the loop keeps the folder's progress: the result map, one chunking and count per entry, the chunks appended in entry order, and the matrix and index saved once something was indexed |
| Store.DocumentStore.AddFolder | core/document_store.py:116-135 | not a directory: NotADirectoryError and nothing changed. Otherwise one key per supported file, holding -1 for a file that raised, 0 for a registered or unparsable file, and the number of chunks of an indexed one; the chunks of the indexed files are appended with their vectors in listing order; when some file was indexed the matrix is rebuilt and the index saved, otherwise matrix and files are as they were |
| Store.AnyIndexedExists | core/document_store.py:126-133 | the folder's matrix and index are rewritten exactly when some listed entry is a supported file that `add_document` indexes |
| Store.FolderRecordStep | core/document_store.py:126-133 | one entry keeps the result map, the chunkings and the counts of all the entries seen so far |
| Store.FolderCountsStep | core/document_store.py:126-133 | recording one more file leaves every earlier indexed file's count in place, since names in a directory are distinct |
| Store.FolderStoredStep | core/document_store.py:126-133 | an indexed entry appends its chunks after those of earlier entries and leaves the matrix rebuilt and the index saved; any other entry leaves the store as it was |
| Store.SavedAgain | core/document_store.py:309-326 | saving a grown store over a saved one gives the same index directory as saving it once, because a grown store keeps its matrix |
| Store.RebuiltGrows | core/document_store.py:297-307 | once a store has a matrix, appending chunks never loses it |
| Store.DocumentStore.Search | core/document_store.py:137-167 | no chunks or no matrix: an empty list. No embedder: ImportError. Otherwise the hits are the chunks at a valid top selection of the cosine scores, best first, each with its score, text, source and page; an IndexError when a selected row has no chunk, which cannot happen while rows and chunks match |
| Store.DocumentStore.CollectHits | core/document_store.py:155-165 | succeeds exactly when every selected row has a chunk, and then gives one hit per selected row, in order |
| Store.DocumentStore.GetSources | core/document_store.py:169-171 | exactly the sources of the chunks, never more names than chunks |
| Store.DocumentStore.GetStats | core/document_store.py:173-180 | the chunk count, the source names and their number, which is 0 exactly when there are no chunks |
| Store.DocumentStore.Clear | core/document_store.py:182-196 | no chunks and no matrix; chunks.json and embeddings.npy are deleted, hashes.json is kept; the statistics are then all zero |
| Store.DocumentStore.RemoveDocument | core/document_store.py:198-203 | the chunks of other sources stay, in order; the matrix is rebuilt and the index saved; a store whose rows matched its chunks still does |
| RagEngine.PageTag | core/rag_engine.py:75-78 | the page tag is empty exactly when the hit's page is falsy (None or 0) |
| RagEngine.ContextPart | core/rag_engine.py:75-80 | every context part is non-empty and opens with "[", the start of its source tag |
| RagEngine.Snippet | core/rag_engine.py:87 | a text of at most 200 characters is its own snippet; a longer one gives its first 200 characters followed by "..." |
| RagEngine.Survivors | core/rag_engine.py:59 | only hits of the search whose score reaches the threshold survive |
| RagEngine.Assemble | core/rag_engine.py:59-98 | the loop builds exactly the retrieval of the hits: the joined context, one citation per surviving hit in order, the mean score, the count |
| RagEngine.RetrievalSources | core/rag_engine.py:73-88 | one citation per surviving hit, in order, carrying its source, page, score and snippet; every cited score reaches the threshold, and every hit that reaches it is cited |
| RagEngine.RetrievalEmptyIff | core/rag_engine.py:61-67 | the result is the empty retrieval exactly when no hit reaches the threshold, and the context is empty exactly when no chunk was kept |
| RagEngine.MeanBetween | core/rag_engine.py:91 | the mean of a non-empty list of scores lies between its lowest and highest score |
| RagEngine.RetrievalConfidence | core/rag_engine.py:91 | the confidence of a non-empty retrieval lies between the lowest and the highest cited score, and is at least the threshold |
| RagEngine.RoundHalfEven | core/rag_engine.py:117 | the whole number that `:.0%` prints: within one half of the value, ties going to the even neighbour |
| RagEngine.PageNote | core/rag_engine.py:115-116 | the page note is empty exactly when the page is falsy |
| RagEngine.PercentageDigits | core/rag_engine.py:117 | the percentage is an optional minus sign, then decimal digits whose value is the score times 100 rounded half to even, then "%" |
| RagEngine.FormatSourcesForDisplay | core/rag_engine.py:100-120 | "No sources found." for no citations; otherwise the display lines of the first citation of each document, in order, joined by newlines |
| RagEngine.FirstOfEachOrigins | core/rag_engine.py:106-112 | the citations kept by the `seen` set sit at increasing positions; each is the first citation of its document, and every first citation is kept |
| RagEngine.FirstOfEachDocuments | core/rag_engine.py:106-112 | the kept citations name distinct documents and all the documents, one line per document |
| RagEngine.DisplayLines | core/rag_engine.py:100-120 | when no document name holds a line break, the display splits into exactly the display lines, as many as there are distinct documents |
| RagEngine.GetContextStats | core/rag_engine.py:122-139 | zeros and no documents for a retrieval without sources; otherwise its count and confidence, and the set of its cited documents with their number |
| RagEngine.StatsMatchDisplay | core/rag_engine.py:132-136 | the document count of the statistics equals the number of citations the display keeps (one line each), and never exceeds the chunk count |
| RagEngine.RAGEngine.constructor | core/rag_engine.py:35-36 | the engine works on the store it is given |
| RagEngine.RAGEngine.Retrieve | core/rag_engine.py:38-98 | leaves the store's chunks, matrix and files as they were. No chunks or no matrix: no hits and the empty retrieval. No embedder: ImportError. Otherwise the hits are the chunks at a top selection of the cosine scores of the query, best first, each with its score, and the result is the retrieval of those hits; an IndexError when a selected row has no chunk, which cannot happen while the store is in step |
| PdfParser.TableToText | parsers/pdf_parser.py:111-123 | the table's text: falsy rows skipped, the cleaned cells of each kept row joined by a vertical bar with spaces, rows joined by newlines |
| PdfParser.TableLines | parsers/pdf_parser.py:111-123 | when no cell holds a line break, the table text splits back into one line per kept row |
| PdfParser.KeepTables | parsers/pdf_parser.py:46-50 | the texts of the non-empty tables, in order |
| PdfParser.ExtractPage | parsers/pdf_parser.py:39-52 | the page content is its text (or "") followed by the text of each non-empty table, joined by newlines |
| PdfParser.ParsePdf | parsers/pdf_parser.py:30-71 | a pdfplumber failure gives the error result; otherwise one content per page, and the text is the pages headed by "[Page k]", counted from 1, joined by blank lines |
| PdfParser.ParseWithPypdf | parsers/pdf_parser.py:81-108 | the pypdf fallback: one text per page (or ""), assembled with the same markers; a failure gives the error result |
| PdfParser.PagesTextEmptyIff | parsers/pdf_parser.py:54-57 | the assembled text is empty exactly when the document has no pages |
| PdfParser.ParsePdfFile | parsers/pdf_parser.py:24-28 | pdfplumber when installed, else pypdf; an ImportError exactly when neither is installed |
| DocxParser.TableToText | parsers/docx_parser.py:82-89 | the stripped cells of each row with a non-empty cell, joined by a vertical bar with spaces, rows joined by newlines |
| DocxParser.TableTextEmptyIff | parsers/docx_parser.py:82-89 | a table's text is empty exactly when none of its rows has a non-empty cell |
| DocxParser.TableLines | parsers/docx_parser.py:82-89 | when no cell holds a line break, the table text splits back into one line per kept row |
| DocxParser.KeepParagraphs | parsers/docx_parser.py:47-50 | the stripped paragraphs that are not empty, in order |
| DocxParser.KeepTables | parsers/docx_parser.py:53-56 | the non-empty table texts, in order |
| DocxParser.ParseDocx | parsers/docx_parser.py:11-79 | an ImportError exactly when python-docx is missing; a library failure gives the error result; otherwise paragraphs, tables and their join by blank lines |
| DocxParser.DocxTextEmptyIff | parsers/docx_parser.py:58-60 | the text is empty exactly when no paragraph and no table was kept, and otherwise starts with the first of them |
| TextParser.ExtractFrontmatter | parsers/text_parser.py:61-88 | the text comes back unchanged unless it opens with "---" and has a second "---" after it; changed content is shorter by at least both fences |
| TextParser.FrontmatterRoundTrip | parsers/text_parser.py:61-88 | for "---", a block with no "---" inside and no '-' at its end (dates and list items are allowed), "---" and a body: the content is the stripped body, and the metadata is the loaded mapping, or the raw block without a yaml module |
| TextParser.FencesFound | parsers/text_parser.py:63-73 | in such a document the closing fence found is the one right after the block |
| TextParser.ParseText | parsers/text_parser.py:11-58 | a read failure gives the error result; otherwise the lines are those of the text as read, and the frontmatter is taken off only for a ".md" file that opens with "---" |
| TextParser.MarkdownFrontmatterRemoved | parsers/text_parser.py:36-41 | a Markdown file written with such a frontmatter block yields the stripped body as its text, while its lines still include the frontmatter |

## Left out

- File system and serialisation: the index directory is the `Disk` record, and JSON and `.npy` files store and return their values exactly. Creating the directory is not modelled.
- Reading a file, its md5 hash (`_file_hash`), the text parser's loop over encodings, and the parser a file goes to are inputs. A `FileEntry` carries whether the file exists, its hash, and what its parser returned or raised.
- `_parse_document` is not a member of its own: `Store.ParserFor` models its choice by suffix, and `Store.SupportedHaveParser` shows that its ValueError cannot be reached.
- The embedding model, md5 and `_cosine_similarity` are function-valued constants of the store (`encode`, `digest`, `similarity`). Cosine similarity itself is not computed.
- Floating point: scores, vectors and the mean are reals. `RagEngine.RoundHalfEven` rounds the exact value, whereas Python rounds the binary double, which can differ when a score times 100 lies within rounding error of one half.
- Logging, and the metadata dictionaries of the three parsers (PDF metadata, Word core properties), are not modelled. YAML values are kept as strings.
- `Store.DocumentStore.Search`: when scores tie, the order in which numpy's argsort returns them is not fixed. The contract states only what every such order satisfies.
- `Store.DocumentStore.GetSources`: returns a set. The order of `list(set(...))` is not modelled.
- `RagEngine.GetContextStats`: the document list is a set, for the same reason.
- `Store.DocumentStore.AddFolder`: requires distinct entry names, which every directory listing has.
- `Chunker.DetectPage`: reads ASCII digits only. Python's `\d` with `int()` also reads other Unicode decimal digits, so "[Page ٣]" is page 3 in the source and no page here.
- `Chunker.ChunkDocument`: requires an overlap smaller than the window size (the source's loop would not end otherwise). The store uses 500 and 50.
- `PdfParser.ParsePdf`: a pdfplumber exception on any page is modelled as a failure of the whole document, which is what the source's single `try` gives.
- The audio and language-model engines, the CLI, the HTTP backend, the desktop shell and the setup script are not part of this model.
