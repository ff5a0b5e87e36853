/** The document store (core/document_store.py): files are parsed, cut into
    word windows, embedded, appended to an ordered chunk list with a
    row-aligned embedding matrix, saved to an index directory, and searched
    by similarity to a query. The embedding model, md5 and cosine similarity
    are functions the store is given; the index directory is a record of
    the three files the store writes. */
module Store {
  import opened Wrappers
  import opened Strings
  import opened Seqs
  import opened Chunker
  import opened Ranking
  import PdfParser
  import DocxParser
  import TextParser

  /** SUPPORTED_EXTENSIONS of the configuration. */
  const SupportedExtensions: set<string> := {".pdf", ".docx", ".doc", ".txt", ".md", ".rtf"}

  /** The lower-cased suffix of a file name, as `add_document` compares it. */
  function Extension(name: string): string {
    Lower(Suffix(name))
  }

  predicate Supported(name: string) {
    Extension(name) in SupportedExtensions
  }

  // ---------------------------------------------------------------------
  // Parsing

  datatype ParserKind = PdfKind | DocxKind | TextKind

  /** `_parse_document`'s choice of parser by lower-cased suffix. */
  function ParserFor(ext: string): Option<ParserKind> {
    if ext == ".pdf" then Some(PdfKind)
    else if ext in {".docx", ".doc"} then Some(DocxKind)
    else if ext in {".txt", ".md", ".rtf"} then Some(TextKind)
    else None
  }

  /** Every supported extension has a parser and no other one has, so the
      ValueError of `_parse_document` cannot follow the suffix check of
      `add_document`. */
  lemma SupportedHaveParser(ext: string)
    ensures ext in SupportedExtensions <==> ParserFor(ext).Some?
  {
  }

  /** The dictionary a parser returned. */
  datatype ParsedDocument =
    | PdfDocument(pdf: PdfParser.PdfParse)
    | DocxDocument(docx: DocxParser.DocxParse)
    | TextDocument(plain: TextParser.TextParse)
  {
    function Text(): string {
      match this
      case PdfDocument(p) => p.text
      case DocxDocument(d) => d.text
      case TextDocument(t) => t.text
    }

    function Source(): string {
      match this
      case PdfDocument(p) => p.source
      case DocxDocument(d) => d.source
      case TextDocument(t) => t.source
    }

    /** `'error' in parsed` */
    predicate HasError() {
      match this
      case PdfDocument(p) => p.error.Some?
      case DocxDocument(d) => d.error.Some?
      case TextDocument(t) => t.error.Some?
    }
  }

  /** What `_parse_document` does for a file: return a dictionary, or raise
      (a parser library that is not installed). */
  datatype ParseOutcome = Returned(doc: ParsedDocument) | Raised(message: string)

  /** A file as the store sees it: its name, whether it exists and is a
      regular file, the md5 digest of its bytes, and what its parser does
      with it. */
  datatype FileEntry = FileEntry(name: string, present: bool, isFile: bool, hash: string, parse: ParseOutcome)

  /** A folder and the entries `iterdir` lists in it. */
  datatype Folder = Folder(path: string, isDirectory: bool, entries: seq<FileEntry>)

  /** The exceptions the store's operations raise. */
  datatype StoreError =
    | FileNotFound(path: string)
    | UnsupportedFileType(suffix: string)
    | NotADirectory(path: string)
    | ParserRaised(message: string)
    | EmbedderMissing
    | ChunkIndexOutOfRange(index: nat)

  // ---------------------------------------------------------------------
  // The hash registry (hashes.json)

  /** `_is_indexed`: the registry exists and maps the source to this hash. */
  predicate Registered(hashes: Option<map<string, string>>, source: string, hash: string) {
    hashes.Some? && source in hashes.value && hashes.value[source] == hash
  }

  /** The registry after `_save_hash(source, hash)`: an absent registry
      starts out empty. */
  function Recorded(hashes: Option<map<string, string>>, source: string, hash: string): map<string, string> {
    (if hashes.Some? then hashes.value else map[])[source := hash]
  }

  /** The registry behaves as a map: after recording a hash for a source,
      that source is registered with exactly that hash, and every other
      source keeps its registration. */
  lemma RegistryIsMap(hashes: Option<map<string, string>>, source: string, hash: string,
                      other: string, h: string)
    ensures Registered(Some(Recorded(hashes, source, hash)), source, hash)
    ensures Registered(Some(Recorded(hashes, source, hash)), source, h) <==> h == hash
    ensures other != source ==>
              (Registered(Some(Recorded(hashes, source, hash)), other, h) <==> Registered(hashes, other, h))
  {
  }

  // ---------------------------------------------------------------------
  // The decisions of add_document before it chunks

  /** Where `add_document` goes with a file, given the registry. */
  datatype Admission =
    | Missing
    | Unsupported(suffix: string)
    | AlreadyIndexed
    | ParserFailed(message: string)
    | ParseError
    | Admitted(doc: ParsedDocument)

  /** The checks of `add_document`, in its order: the file exists, its
      lower-cased suffix is supported, it is not registered with this hash,
      its parser does not raise, and the parse carries no error. */
  function Admit(file: FileEntry, hashes: Option<map<string, string>>): Admission {
    if !file.present then Missing
    else if !Supported(file.name) then Unsupported(Suffix(file.name))
    else if Registered(hashes, file.name, file.hash) then AlreadyIndexed
    else match file.parse
      case Raised(message) => ParserFailed(message)
      case Returned(doc) => if doc.HasError() then ParseError else Admitted(doc)
  }

  /** What `add_document` returns or raises for a file: the errors of the
      checks, 0 for a registered file or a failed parse, and for an
      admitted file either a count or the ImportError of a missing
      embedder. */
  predicate AddResult(file: FileEntry, hashes: Option<map<string, string>>, embedderAvailable: bool,
                      r: Result<int, StoreError>) {
    match Admit(file, hashes)
    case Missing => r == Failure(FileNotFound(file.name))
    case Unsupported(suffix) => r == Failure(UnsupportedFileType(suffix))
    case AlreadyIndexed => r == Success(0)
    case ParserFailed(message) => r == Failure(ParserRaised(message))
    case ParseError => r == Success(0)
    case Admitted(_) => if embedderAvailable then r.Success? && r.value >= 0 else r == Failure(EmbedderMissing)
  }

  /** `add_folder`'s entry for a file: the count `add_document` returned,
      or -1 when it raised. */
  function FolderValue(r: Result<int, StoreError>): int {
    if r.Success? then r.value else -1
  }

  /** The entry `add_folder` records for a file: -1 for a file that raises,
      0 for a registered file or a failed parse, and for an admitted file a
      count, or -1 without an embedder. */
  predicate FolderEntry(file: FileEntry, hashes: Option<map<string, string>>, embedderAvailable: bool, v: int) {
    match Admit(file, hashes)
    case Missing => v == -1
    case Unsupported(_) => v == -1
    case AlreadyIndexed => v == 0
    case ParserFailed(_) => v == -1
    case ParseError => v == 0
    case Admitted(_) => if embedderAvailable then v >= 0 else v == -1
  }

  /** The files `add_folder` hands to `add_document`. */
  predicate Wanted(e: FileEntry) {
    e.isFile && Supported(e.name)
  }

  /** The names of the wanted files among the entries. */
  function WantedNames(entries: seq<FileEntry>): set<string> {
    if entries == [] then {}
    else
      var last := entries[|entries| - 1];
      WantedNames(entries[..|entries| - 1]) + (if Wanted(last) then {last.name} else {})
  }

  /** The wanted names are exactly the names of the wanted entries. */
  lemma {:induction false} WantedNamesMembers(entries: seq<FileEntry>, n: string)
    ensures n in WantedNames(entries) <==> exists k | 0 <= k < |entries| :: Wanted(entries[k]) && entries[k].name == n
  {
    if entries != [] {
      var init := entries[..|entries| - 1];
      WantedNamesMembers(init, n);
      assert forall k | 0 <= k < |init| :: init[k] == entries[k];
    }
  }

  lemma WantedNamesStep(entries: seq<FileEntry>, i: nat)
    requires i < |entries|
    ensures WantedNames(entries[..i + 1])
         == WantedNames(entries[..i]) + (if Wanted(entries[i]) then {entries[i].name} else {})
  {
    assert entries[..i + 1][..i] == entries[..i];
  }

  /** A wanted file has a key in the result map, holding its entry. */
  predicate InResults(e: FileEntry, hashes: Option<map<string, string>>, embedderAvailable: bool,
                     results: map<string, int>) {
    Wanted(e) ==> e.name in results && FolderEntry(e, hashes, embedderAvailable, results[e.name])
  }

  /** The result map of `add_folder` for the entries: one key per wanted
      file, holding that file's entry. */
  predicate FolderResults(entries: seq<FileEntry>, hashes: Option<map<string, string>>, embedderAvailable: bool,
                          results: map<string, int>) {
    && results.Keys == WantedNames(entries)
    && forall j | 0 <= j < |entries| :: InResults(entries[j], hashes, embedderAvailable, results)
  }

  /** One step of the folder loop: a wanted file adds its own key and
      leaves the others, since names in a directory are distinct. */
  lemma FolderResultsStep(entries: seq<FileEntry>, i: nat, hashes: Option<map<string, string>>,
                          embedderAvailable: bool, results: map<string, int>, v: int)
    requires DistinctNames(entries) && i < |entries|
    requires FolderResults(entries[..i], hashes, embedderAvailable, results)
    requires Wanted(entries[i]) ==> FolderEntry(entries[i], hashes, embedderAvailable, v)
    ensures FolderResults(entries[..i + 1], hashes, embedderAvailable,
                          if Wanted(entries[i]) then results[entries[i].name := v] else results)
  {
    var next := if Wanted(entries[i]) then results[entries[i].name := v] else results;
    KeysStep(entries, i, results, v);
    forall j | 0 <= j < i ensures InResults(entries[j], hashes, embedderAvailable, results) {
      assert entries[..i][j] == entries[j];
    }
    ValuesStep(entries, i, hashes, embedderAvailable, results, v, next);
    var extended := entries[..i + 1];
    forall j | 0 <= j < |extended|
      ensures InResults(extended[j], hashes, embedderAvailable, next)
    {
      assert extended[j] == entries[j];
    }
  }

  /** The keys half of `FolderResultsStep`. */
  lemma KeysStep(entries: seq<FileEntry>, i: nat, results: map<string, int>, v: int)
    requires i < |entries| && results.Keys == WantedNames(entries[..i])
    ensures (if Wanted(entries[i]) then results[entries[i].name := v] else results).Keys
         == WantedNames(entries[..i + 1])
  {
    WantedNamesStep(entries, i);
    if Wanted(entries[i]) {
      assert results[entries[i].name := v].Keys == results.Keys + {entries[i].name};
    }
  }

  /** The values half of `FolderResultsStep`. */
  lemma ValuesStep(entries: seq<FileEntry>, i: nat, hashes: Option<map<string, string>>,
                   embedderAvailable: bool, results: map<string, int>, v: int, next: map<string, int>)
    requires DistinctNames(entries) && i < |entries|
    requires forall j | 0 <= j < i :: InResults(entries[j], hashes, embedderAvailable, results)
    requires Wanted(entries[i]) ==> FolderEntry(entries[i], hashes, embedderAvailable, v)
    requires next == if Wanted(entries[i]) then results[entries[i].name := v] else results
    ensures forall j | 0 <= j <= i :: InResults(entries[j], hashes, embedderAvailable, next)
  {
    forall j | 0 <= j <= i
      ensures InResults(entries[j], hashes, embedderAvailable, next)
    {
      if j < i {
        InResultsKept(entries[j], entries[i], hashes, embedderAvailable, results, v);
      }
    }
  }

  /** Recording another file leaves an entry's record as it was. */
  lemma InResultsKept(e: FileEntry, other: FileEntry, hashes: Option<map<string, string>>,
                     embedderAvailable: bool, results: map<string, int>, v: int)
    requires e.name != other.name
    requires InResults(e, hashes, embedderAvailable, results)
    ensures InResults(e, hashes, embedderAvailable, if Wanted(other) then results[other.name := v] else results)
  {
  }

  /** A directory never lists two entries with the same name. */
  predicate DistinctNames(entries: seq<FileEntry>) {
    forall i, j | 0 <= i < j < |entries| :: entries[i].name != entries[j].name
  }

  // ---------------------------------------------------------------------
  // Chunks, embeddings and the matrix

  /** `if c.embedding`: an embedding that is present and not empty. */
  predicate HasEmbedding(c: Chunk) {
    c.embedding.Some? && c.embedding.value != []
  }

  function EmbeddingOf(c: Chunk): Vector {
    if c.embedding.Some? then c.embedding.value else []
  }

  /** `_rebuild_embedding_matrix`: no matrix for no chunks; otherwise one
      row per chunk that has an embedding, in chunk order, and no matrix
      when there is no such chunk. */
  function Rebuilt(chunks: seq<Chunk>): Option<seq<Vector>> {
    if chunks == [] then None
    else
      var rows := MapSeq(Filter(chunks, HasEmbedding), EmbeddingOf);
      if rows == [] then None else Some(rows)
  }

  /** When every chunk has an embedding, the rebuilt matrix is aligned with
      the chunk list: row `i` is the embedding of chunk `i`. */
  lemma RowsAligned(chunks: seq<Chunk>)
    requires forall i | 0 <= i < |chunks| :: HasEmbedding(chunks[i])
    ensures Rebuilt(chunks).Some? <==> chunks != []
    ensures Rebuilt(chunks).Some? ==>
              && |Rebuilt(chunks).value| == |chunks|
              && forall i | 0 <= i < |chunks| :: Some(Rebuilt(chunks).value[i]) == chunks[i].embedding
  {
    forall c | c in chunks ensures HasEmbedding(c) {
      var i :| 0 <= i < |chunks| && chunks[i] == c;
    }
    FilterAll(chunks, HasEmbedding);
  }

  /** A chunk with the vector the embedder gives for its text. */
  function Embedded(c: Chunk, encode: string -> Vector): Chunk {
    c.(embedding := Some(encode(c.text)))
  }

  function EmbedAll(chunks: seq<Chunk>, encode: string -> Vector): (r: seq<Chunk>)
    ensures |r| == |chunks|
    ensures forall i | 0 <= i < |chunks| :: r[i] == Embedded(chunks[i], encode)
  {
    seq(|chunks|, i requires 0 <= i < |chunks| => Embedded(chunks[i], encode))
  }

  /** A search result: the chunk, its score, and the chunk's source, text
      and page copied out. */
  datatype SearchHit = SearchHit(chunk: Chunk, score: real, source: string, text: string, page: Option<nat>)

  function Hit(c: Chunk, score: real): SearchHit {
    SearchHit(c, score, c.source, c.text, c.page)
  }

  /** `get_stats` */
  datatype StoreStats = StoreStats(numDocuments: nat, numChunks: nat, documents: set<string>)

  // ---------------------------------------------------------------------
  // The index directory

  /** The index directory: chunks.json (the chunk records, without
      embeddings), embeddings.npy (the matrix rows) and hashes.json (the
      registry), each possibly absent. */
  datatype Disk = Disk(chunksFile: Option<seq<Chunk>>, embeddingsFile: Option<seq<Vector>>,
                       hashesFile: Option<map<string, string>>)

  /** A chunk as chunks.json records it: its embedding is written as null. */
  function WithoutEmbedding(c: Chunk): Chunk {
    c.(embedding := None)
  }

  /** The directory after `_save_index`: chunks.json is rewritten; the
      matrix file is rewritten only when there is a matrix, so a store
      whose matrix became None leaves the previous file in place. */
  function SavedDisk(chunks: seq<Chunk>, embeddings: Option<seq<Vector>>, d: Disk): Disk {
    d.(chunksFile := Some(MapSeq(chunks, WithoutEmbedding)),
       embeddingsFile := if embeddings.Some? then embeddings else d.embeddingsFile)
  }

  /** `_load_index`'s re-association: the rows go back onto the chunks one
      by one when there are as many rows as chunks; otherwise the chunks
      are left without them and nothing is raised. */
  function Reassociate(chunks: seq<Chunk>, rows: Option<seq<Vector>>): (r: seq<Chunk>)
    ensures |r| == |chunks|
  {
    if rows.Some? && |rows.value| == |chunks| then
      seq(|chunks|, i requires 0 <= i < |chunks| => chunks[i].(embedding := Some(rows.value[i])))
    else chunks
  }

  /** The chunk list after `_load_index` from the directory, starting from
      `current`. */
  function LoadedChunks(d: Disk, current: seq<Chunk>): seq<Chunk> {
    Reassociate(if d.chunksFile.Some? then d.chunksFile.value else current, d.embeddingsFile)
  }

  /** The matrix after `_load_index`, starting from `current`. */
  function LoadedMatrix(d: Disk, current: Option<seq<Vector>>): Option<seq<Vector>> {
    if d.embeddingsFile.Some? then d.embeddingsFile else current
  }

  /** Saving a store whose chunks all have embeddings and loading the
      directory into a new store gives back the chunk list, embeddings
      included, and, when there are chunks, the matrix. */
  lemma SaveLoadRoundTrip(chunks: seq<Chunk>, d: Disk)
    requires forall i | 0 <= i < |chunks| :: HasEmbedding(chunks[i])
    ensures LoadedChunks(SavedDisk(chunks, Rebuilt(chunks), d), []) == chunks
    ensures chunks != [] ==> LoadedMatrix(SavedDisk(chunks, Rebuilt(chunks), d), None) == Rebuilt(chunks)
  {
    RowsAligned(chunks);
    var saved := SavedDisk(chunks, Rebuilt(chunks), d);
    var loaded := LoadedChunks(saved, []);
    if chunks != [] {
      assert |loaded| == |chunks|;
      forall i | 0 <= i < |chunks| ensures loaded[i] == chunks[i] {
        assert loaded[i] == chunks[i].(embedding := Some(Rebuilt(chunks).value[i]));
      }
    }
  }

  /** When the two files disagree in length, the loaded chunks carry no
      embeddings at all while the matrix is loaded anyway, and its rows are
      no longer tied to the chunks. */
  lemma LoadMismatch(d: Disk)
    requires d.chunksFile.Some? && d.embeddingsFile.Some?
    requires forall i | 0 <= i < |d.chunksFile.value| :: d.chunksFile.value[i].embedding == None
    requires |d.chunksFile.value| != |d.embeddingsFile.value|
    ensures forall c | c in LoadedChunks(d, []) :: !HasEmbedding(c)
    ensures LoadedMatrix(d, None) == d.embeddingsFile
  {
  }

  /** Emptying the store keeps the previous matrix file: a store reloaded
      after its last document was removed has rows but no chunks. */
  lemma StaleMatrixAfterEmptying(d: Disk)
    requires d.embeddingsFile.Some?
    ensures LoadedChunks(SavedDisk([], Rebuilt([]), d), []) == []
    ensures LoadedMatrix(SavedDisk([], Rebuilt([]), d), None) == d.embeddingsFile
  {
  }

  /** A page block of the PDF parser is found by the page detector: a
      chunk whose text starts with one is attributed to that page. */
  lemma PageBlockDetected(k: nat, content: string)
    ensures DetectPage(PdfParser.PageBlock(k, content)) == Some(k)
  {
    PageMarkerRoundTrip(k, "\n" + content);
    assert PdfParser.PageBlock(k, content) == MarkerOpen + NatToString(k) + "]" + ("\n" + content);
  }

  // ---------------------------------------------------------------------
  // What add_folder leaves in the store

  /** A file that `add_document` chunks and indexes: admitted while an
      embedder is available. */
  predicate Indexed(file: FileEntry, hashes: Option<map<string, string>>, embedderAvailable: bool) {
    embedderAvailable && Admit(file, hashes).Admitted?
  }

  /** A folder entry that `add_folder` hands to `add_document` and that
      gets indexed there. */
  predicate FolderIndexes(e: FileEntry, hashes: Option<map<string, string>>, embedderAvailable: bool) {
    Wanted(e) && Indexed(e, hashes, embedderAvailable)
  }

  /** The chunks `add_document` produces for a folder entry: the chunking
      of its parsed text when the entry gets indexed, none otherwise. */
  ghost predicate FolderChunking(e: FileEntry, hashes: Option<map<string, string>>, embedderAvailable: bool,
                                 digest: string -> string, p: seq<Chunk>) {
    if FolderIndexes(e, hashes, embedderAvailable) then
      var doc := Admit(e, hashes).doc;
      IsChunking(SplitWords(doc.Text()), doc.Source(), ChunkSize, ChunkOverlap, digest, p)
    else p == []
  }

  /** One chunking per entry, each as `FolderChunking` says. */
  ghost predicate FolderProduced(entries: seq<FileEntry>, hashes: Option<map<string, string>>,
                                 embedderAvailable: bool, digest: string -> string, produced: seq<seq<Chunk>>) {
    && |produced| == |entries|
    && forall k | 0 <= k < |entries| :: FolderChunking(entries[k], hashes, embedderAvailable, digest, produced[k])
  }

  /** The chunks a folder appends: the chunks of each entry with their
      vectors, in the order of the entries. */
  function FolderChunks(produced: seq<seq<Chunk>>, encode: string -> Vector): seq<Chunk> {
    if produced == [] then []
    else FolderChunks(produced[..|produced| - 1], encode) + EmbedAll(produced[|produced| - 1], encode)
  }

  /** Whether some entry gets indexed, so that the matrix is rebuilt and
      the index saved at least once. */
  predicate AnyIndexed(entries: seq<FileEntry>, hashes: Option<map<string, string>>, embedderAvailable: bool) {
    Any(entries, (e: FileEntry) => FolderIndexes(e, hashes, embedderAvailable))
  }

  /** Some entry gets indexed exactly when one of the entries does. */
  lemma AnyIndexedExists(entries: seq<FileEntry>, hashes: Option<map<string, string>>, embedderAvailable: bool)
    ensures AnyIndexed(entries, hashes, embedderAvailable)
        <==> exists k | 0 <= k < |entries| :: FolderIndexes(entries[k], hashes, embedderAvailable)
  {
    AnyExists(entries, (e: FileEntry) => FolderIndexes(e, hashes, embedderAvailable));
  }

  /** Every indexed entry's key holds the number of its chunks. */
  predicate FolderCounts(entries: seq<FileEntry>, hashes: Option<map<string, string>>, embedderAvailable: bool,
                         produced: seq<seq<Chunk>>, results: map<string, int>) {
    && |produced| == |entries|
    && forall k | 0 <= k < |entries| :: CountRecorded(entries[k], hashes, embedderAvailable, |produced[k]|, results)
  }

  /** One more entry appends its chunks with their vectors. */
  lemma FolderChunksStep(produced: seq<seq<Chunk>>, p: seq<Chunk>, encode: string -> Vector)
    ensures FolderChunks(produced + [p], encode) == FolderChunks(produced, encode) + EmbedAll(p, encode)
  {
    assert (produced + [p])[..|produced|] == produced;
  }

  /** One more entry: some entry gets indexed when an earlier one did or
      this one does. */
  lemma AnyIndexedStep(entries: seq<FileEntry>, i: nat, hashes: Option<map<string, string>>, embedderAvailable: bool)
    requires i < |entries|
    ensures AnyIndexed(entries[..i + 1], hashes, embedderAvailable)
        <==> AnyIndexed(entries[..i], hashes, embedderAvailable) || FolderIndexes(entries[i], hashes, embedderAvailable)
  {
    AnyStep(entries, i, (e: FileEntry) => FolderIndexes(e, hashes, embedderAvailable));
  }

  /** One more entry keeps one chunking per entry. */
  lemma FolderProducedStep(entries: seq<FileEntry>, i: nat, hashes: Option<map<string, string>>,
                           embedderAvailable: bool, digest: string -> string, produced: seq<seq<Chunk>>, p: seq<Chunk>)
    requires i < |entries|
    requires FolderProduced(entries[..i], hashes, embedderAvailable, digest, produced)
    requires FolderChunking(entries[i], hashes, embedderAvailable, digest, p)
    ensures FolderProduced(entries[..i + 1], hashes, embedderAvailable, digest, produced + [p])
  {
    var after, next := entries[..i + 1], produced + [p];
    forall k | 0 <= k < |after|
      ensures FolderChunking(after[k], hashes, embedderAvailable, digest, next[k])
    {
      if k < i {
        assert after[k] == entries[..i][k] && next[k] == produced[k];
      }
    }
  }

  /** One more entry keeps every indexed entry's count: its name is new,
      so recording it overwrites no other. */
  lemma FolderCountsStep(entries: seq<FileEntry>, i: nat, hashes: Option<map<string, string>>,
                         embedderAvailable: bool, produced: seq<seq<Chunk>>, p: seq<Chunk>,
                         results: map<string, int>, v: int)
    requires i < |entries|
    requires forall k | 0 <= k < i :: entries[k].name != entries[i].name
    requires FolderCounts(entries[..i], hashes, embedderAvailable, produced, results)
    requires FolderIndexes(entries[i], hashes, embedderAvailable) ==> v == |p|
    ensures FolderCounts(entries[..i + 1], hashes, embedderAvailable, produced + [p],
                         if Wanted(entries[i]) then results[entries[i].name := v] else results)
  {
    var before, after, next := entries[..i], entries[..i + 1], produced + [p];
    forall k | 0 <= k < |after|
      ensures CountRecorded(after[k], hashes, embedderAvailable, |next[k]|,
                            if Wanted(entries[i]) then results[entries[i].name := v] else results)
    {
      if k < i {
        assert after[k] == before[k] == entries[k] && next[k] == produced[k];
        assert CountRecorded(before[k], hashes, embedderAvailable, |produced[k]|, results);
        CountKept(entries[k], entries[i], hashes, embedderAvailable, |produced[k]|, results, v);
      } else {
        assert after[k] == entries[i] && next[k] == p;
      }
    }
  }

  /** An indexed entry's key holds `n`. */
  predicate CountRecorded(e: FileEntry, hashes: Option<map<string, string>>, embedderAvailable: bool, n: int,
                          results: map<string, int>) {
    FolderIndexes(e, hashes, embedderAvailable) ==> e.name in results && results[e.name] == n
  }

  /** Recording another file leaves an entry's count as it was. */
  lemma CountKept(e: FileEntry, other: FileEntry, hashes: Option<map<string, string>>, embedderAvailable: bool,
                  n: int, results: map<string, int>, v: int)
    requires e.name != other.name
    requires CountRecorded(e, hashes, embedderAvailable, n, results)
    ensures CountRecorded(e, hashes, embedderAvailable, n, if Wanted(other) then results[other.name := v] else results)
  {
  }

  /** The bookkeeping of the folder loop after the entries given: the
      result map, one chunking per entry, and each indexed entry's count. */
  ghost predicate FolderRecord(entries: seq<FileEntry>, hashes: Option<map<string, string>>, embedderAvailable: bool,
                               digest: string -> string, results: map<string, int>, produced: seq<seq<Chunk>>) {
    && FolderResults(entries, hashes, embedderAvailable, results)
    && FolderProduced(entries, hashes, embedderAvailable, digest, produced)
    && FolderCounts(entries, hashes, embedderAvailable, produced, results)
  }

  /** The store's chunks, matrix and disk after some entries: the chunks
      produced appended after `start` with their vectors, and, once some
      entry was indexed (`anyIndexed`), the matrix rebuilt and the index
      saved over `startDisk`; before that, the matrix and the disk as they
      were. */
  predicate FolderStored(anyIndexed: bool, encode: string -> Vector, produced: seq<seq<Chunk>>,
                         start: seq<Chunk>, startEmbeddings: Option<seq<Vector>>, startDisk: Disk,
                         chunks: seq<Chunk>, embeddings: Option<seq<Vector>>, disk: Disk) {
    && chunks == start + FolderChunks(produced, encode)
    && (anyIndexed ==> embeddings == Rebuilt(chunks) && disk == SavedDisk(chunks, embeddings, startDisk))
    && (!anyIndexed ==> chunks == start && embeddings == startEmbeddings && disk == startDisk)
  }

  /** One entry of the folder loop keeps the bookkeeping. */
  lemma FolderRecordStep(entries: seq<FileEntry>, i: nat, hashes: Option<map<string, string>>,
                         embedderAvailable: bool, digest: string -> string, results: map<string, int>,
                         produced: seq<seq<Chunk>>, p: seq<Chunk>, v: int)
    requires DistinctNames(entries) && i < |entries|
    requires FolderRecord(entries[..i], hashes, embedderAvailable, digest, results, produced)
    requires Wanted(entries[i]) ==> FolderEntry(entries[i], hashes, embedderAvailable, v)
    requires FolderChunking(entries[i], hashes, embedderAvailable, digest, p)
    requires FolderIndexes(entries[i], hashes, embedderAvailable) ==> v == |p|
    ensures FolderRecord(entries[..i + 1], hashes, embedderAvailable, digest,
                         if Wanted(entries[i]) then results[entries[i].name := v] else results, produced + [p])
  {
    FolderResultsStep(entries, i, hashes, embedderAvailable, results, v);
    FolderProducedStep(entries, i, hashes, embedderAvailable, digest, produced, p);
    assert forall k | 0 <= k < i :: entries[k].name != entries[i].name;
    FolderCountsStep(entries, i, hashes, embedderAvailable, produced, p, results, v);
  }

  /** One entry of the folder loop keeps the stored state: an indexed entry
      appends its chunks, rebuilds and saves; any other changes nothing. */
  lemma FolderStoredStep(anyBefore: bool, indexes: bool, encode: string -> Vector,
                         produced: seq<seq<Chunk>>, p: seq<Chunk>,
                         start: seq<Chunk>, startEmbeddings: Option<seq<Vector>>, startDisk: Disk,
                         c0: seq<Chunk>, e0: Option<seq<Vector>>, d0: Disk,
                         c1: seq<Chunk>, e1: Option<seq<Vector>>, d1: Disk)
    requires FolderStored(anyBefore, encode, produced, start, startEmbeddings, startDisk, c0, e0, d0)
    requires indexes ==> c1 == c0 + EmbedAll(p, encode) && e1 == Rebuilt(c1) && d1 == SavedDisk(c1, e1, d0)
    requires !indexes ==> p == [] && c1 == c0 && e1 == e0 && d1 == d0
    ensures FolderStored(anyBefore || indexes, encode, produced + [p], start, startEmbeddings, startDisk, c1, e1, d1)
  {
    var before := FolderChunks(produced, encode);
    FolderChunksStep(produced, p, encode);
    if indexes {
      AppendAssoc(start, before, EmbedAll(p, encode));
      if anyBefore {
        SavedAgain(c0, c1, startDisk);
      }
    } else {
      assert EmbedAll(p, encode) == [];
      assert before + EmbedAll(p, encode) == before;
    }
  }

  /** A store whose chunks only grow never loses its matrix. */
  lemma RebuiltGrows(c1: seq<Chunk>, c2: seq<Chunk>)
    requires c1 <= c2
    ensures Rebuilt(c1).Some? ==> Rebuilt(c2).Some?
  {
    var rest := c2[|c1|..];
    assert c2 == c1 + rest;
    FilterAppend(c1, rest, HasEmbedding);
  }

  /** Saving a grown store over a saved one is the same as saving it once:
      embeddings.npy is only ever replaced by a matrix, and a grown store
      keeps one. */
  lemma SavedAgain(c1: seq<Chunk>, c2: seq<Chunk>, d: Disk)
    requires c1 <= c2
    ensures SavedDisk(c2, Rebuilt(c2), SavedDisk(c1, Rebuilt(c1), d)) == SavedDisk(c2, Rebuilt(c2), d)
  {
    RebuiltGrows(c1, c2);
  }

  // ---------------------------------------------------------------------
  // DocumentStore

  class DocumentStore {
    /** The ordered chunk list. */
    var chunks: seq<Chunk>
    /** The embedding matrix, one row per embedded chunk, or None. */
    var embeddings: Option<seq<Vector>>
    /** Whether the embedding model has been loaded. */
    var embedderLoaded: bool
    /** The index directory. */
    var disk: Disk

    /** Whether sentence-transformers can be imported. */
    const embedderInstalled: bool
    /** The embedding model's `encode` for one text. */
    const encode: string -> Vector
    /** md5 of a chunk text, as a hex string. */
    const digest: string -> string
    /** `_cosine_similarity` of a query vector and a matrix row. */
    const similarity: (Vector, Vector) -> real

    /** Every chunk has an embedding and the matrix is rebuilt from them,
        as after `add_document` and `remove_document`. */
    ghost predicate Synced()
      reads this
    {
      && (forall i | 0 <= i < |chunks| :: HasEmbedding(chunks[i]))
      && embeddings == Rebuilt(chunks)
    }

    /** The store's whole mutable state is the one given. */
    predicate StateIs(c: seq<Chunk>, e: Option<seq<Vector>>, loaded: bool, d: Disk)
      reads this
    {
      chunks == c && embeddings == e && embedderLoaded == loaded && disk == d
    }

    /** `__init__`: an empty store that loads the index directory. */
    constructor (d: Disk, embedderInstalled: bool, encode: string -> Vector,
                 digest: string -> string, similarity: (Vector, Vector) -> real)
      ensures chunks == LoadedChunks(d, []) && embeddings == LoadedMatrix(d, None)
      ensures disk == d && !embedderLoaded
      ensures this.embedderInstalled == embedderInstalled && this.encode == encode
      ensures this.digest == digest && this.similarity == similarity
    {
      this.embedderInstalled := embedderInstalled;
      this.encode := encode;
      this.digest := digest;
      this.similarity := similarity;
      chunks := [];
      embeddings := None;
      embedderLoaded := false;
      disk := d;
      new;
      LoadIndex();
    }

    /** `_load_index` */
    method LoadIndex()
      modifies this
      ensures chunks == LoadedChunks(disk, old(chunks))
      ensures embeddings == LoadedMatrix(disk, old(embeddings))
      ensures disk == old(disk) && embedderLoaded == old(embedderLoaded)
    {
      if disk.chunksFile.Some? {
        chunks := disk.chunksFile.value;
      }
      if disk.embeddingsFile.Some? {
        var rows := disk.embeddingsFile.value;
        embeddings := Some(rows);
        if |chunks| == |rows| {
          ghost var records := chunks;
          var k := 0;
          while k < |chunks|
            invariant 0 <= k <= |chunks| == |records|
            invariant forall i | 0 <= i < k :: chunks[i] == records[i].(embedding := Some(rows[i]))
            invariant forall i | k <= i < |chunks| :: chunks[i] == records[i]
            invariant disk == old(disk) && embedderLoaded == old(embedderLoaded) && embeddings == Some(rows)
          {
            chunks := chunks[k := chunks[k].(embedding := Some(rows[k]))];
            k := k + 1;
          }
          assert chunks == Reassociate(records, Some(rows));
        }
      }
    }

    /** `_get_embedder`: load the model on first use; raise when it cannot
        be imported. */
    method GetEmbedder() returns (ok: bool)
      modifies this
      ensures ok <==> old(embedderLoaded) || embedderInstalled
      ensures embedderLoaded == ok
      ensures chunks == old(chunks) && embeddings == old(embeddings) && disk == old(disk)
    {
      if !embedderLoaded {
        if !embedderInstalled {
          return false;
        }
        embedderLoaded := true;
      }
      return true;
    }

    /** `_rebuild_embedding_matrix` */
    method RebuildEmbeddingMatrix()
      modifies this
      ensures embeddings == Rebuilt(chunks)
      ensures chunks == old(chunks) && disk == old(disk) && embedderLoaded == old(embedderLoaded)
    {
      if chunks == [] {
        embeddings := None;
        return;
      }
      var vectors := MapSeq(Filter(chunks, HasEmbedding), EmbeddingOf);
      if vectors != [] {
        embeddings := Some(vectors);
      } else {
        embeddings := None;
      }
    }

    /** `_save_index` */
    method SaveIndex()
      modifies this
      ensures disk == SavedDisk(chunks, embeddings, old(disk))
      ensures chunks == old(chunks) && embeddings == old(embeddings) && embedderLoaded == old(embedderLoaded)
    {
      disk := SavedDisk(chunks, embeddings, disk);
    }

    /** `_is_indexed` */
    predicate IsIndexed(source: string, hash: string)
      reads this
    {
      Registered(disk.hashesFile, source, hash)
    }

    /** `_save_hash`: afterwards the source is registered with this hash and
        every other source keeps its registration. */
    method SaveHash(source: string, hash: string)
      modifies this
      ensures disk == old(disk).(hashesFile := Some(Recorded(old(disk.hashesFile), source, hash)))
      ensures IsIndexed(source, hash)
      ensures forall other, h | other != source :: IsIndexed(other, h) == old(IsIndexed(other, h))
      ensures chunks == old(chunks) && embeddings == old(embeddings) && embedderLoaded == old(embedderLoaded)
    {
      var hashes: map<string, string> := map[];
      if disk.hashesFile.Some? {
        hashes := disk.hashesFile.value;
      }
      hashes := hashes[source := hash];
      disk := disk.(hashesFile := Some(hashes));
    }

    /** `add_document`. Every path leaves the registry as it was (the hash
        is never saved) and only ever appends to the chunk list. A file
        that fails a check, is registered, fails to parse, or finds no
        embedder changes nothing. An admitted file has its text chunked,
        each chunk embedded and appended in order; then the matrix is
        rebuilt and the index saved, and the count is returned. */
    method AddDocument(file: FileEntry) returns (r: Result<int, StoreError>, ghost produced: seq<Chunk>)
      modifies this
      ensures AddResult(file, old(disk.hashesFile), old(embedderLoaded) || embedderInstalled, r)
      ensures old(chunks) <= chunks
      ensures disk.hashesFile == old(disk.hashesFile)
      ensures old(embedderLoaded) ==> embedderLoaded
      ensures embedderLoaded ==> old(embedderLoaded) || embedderInstalled
      ensures !Admit(file, old(disk.hashesFile)).Admitted? ==> StateIs(old(chunks), old(embeddings), old(embedderLoaded), old(disk))
      ensures Admit(file, old(disk.hashesFile)).Admitted? && !(old(embedderLoaded) || embedderInstalled) ==>
                StateIs(old(chunks), old(embeddings), old(embedderLoaded), old(disk))
      ensures Admit(file, old(disk.hashesFile)).Admitted? && (old(embedderLoaded) || embedderInstalled) ==>
                var doc := Admit(file, old(disk.hashesFile)).doc;
                && IsChunking(SplitWords(doc.Text()), doc.Source(), ChunkSize, ChunkOverlap, digest, produced)
                && chunks == old(chunks) + EmbedAll(produced, encode)
                && r == Success(|produced|)
                && embeddings == Rebuilt(chunks)
                && disk == SavedDisk(chunks, embeddings, old(disk))
      ensures old(Synced()) && (forall i | 0 <= i < |produced| :: encode(produced[i].text) != []) ==> Synced()
    {
      produced := [];
      if !file.present {
        return Failure(FileNotFound(file.name)), produced;
      }
      if Extension(file.name) !in SupportedExtensions {
        return Failure(UnsupportedFileType(Suffix(file.name))), produced;
      }
      if IsIndexed(file.name, file.hash) {
        return Success(0), produced;
      }
      if file.parse.Raised? {
        return Failure(ParserRaised(file.parse.message)), produced;
      }
      var parsed := file.parse.doc;
      if parsed.HasError() {
        return Success(0), produced;
      }
      assert Admit(file, old(disk.hashesFile)) == Admitted(parsed);
      var newChunks := ChunkDocument(parsed.Text(), parsed.Source(), ChunkSize, ChunkOverlap, digest);
      produced := newChunks;
      var ok := GetEmbedder();
      if !ok {
        return Failure(EmbedderMissing), produced;
      }
      IndexChunks(newChunks);
      return Success(|newChunks|), produced;
    }

    /** The tail of `add_document` once the embedder is loaded: embed and
        append the new chunks, rebuild the matrix and save the index. */
    method IndexChunks(newChunks: seq<Chunk>)
      modifies this
      ensures chunks == old(chunks) + EmbedAll(newChunks, encode)
      ensures embeddings == Rebuilt(chunks)
      ensures disk == SavedDisk(chunks, embeddings, old(disk))
      ensures embedderLoaded == old(embedderLoaded)
      ensures old(Synced()) && (forall i | 0 <= i < |newChunks| :: encode(newChunks[i].text) != []) ==> Synced()
    {
      AppendEmbedded(newChunks);
      RebuildEmbeddingMatrix();
      SaveIndex();
      if old(Synced()) && (forall i | 0 <= i < |newChunks| :: encode(newChunks[i].text) != []) {
        RowsAligned(chunks);
      }
    }

    /** The embedding loop of `add_document`: each new chunk gets the
        vector of its text and is appended, in order. */
    method AppendEmbedded(newChunks: seq<Chunk>)
      modifies this
      ensures chunks == old(chunks) + EmbedAll(newChunks, encode)
      ensures embeddings == old(embeddings) && disk == old(disk) && embedderLoaded == old(embedderLoaded)
    {
      var texts := MapSeq(newChunks, (c: Chunk) => c.text);
      var vectors := MapSeq(texts, encode);
      var k := 0;
      while k < |newChunks|
        invariant 0 <= k <= |newChunks|
        invariant chunks == old(chunks) + EmbedAll(newChunks[..k], encode)
        invariant embeddings == old(embeddings) && disk == old(disk) && embedderLoaded == old(embedderLoaded)
      {
        var chunk := newChunks[k].(embedding := Some(vectors[k]));
        assert EmbedAll(newChunks[..k + 1], encode) == EmbedAll(newChunks[..k], encode) + [chunk];
        chunks := chunks + [chunk];
        k := k + 1;
      }
      assert newChunks[..|newChunks|] == newChunks;
    }

    /** One file of `add_folder`: what `add_document` returns, or -1 when it
        raises. An indexed file gets its count of chunks, and leaves them
        appended with their vectors, the matrix rebuilt and the index
        saved; any other file changes nothing. */
    method AddFolderFile(file: FileEntry) returns (count: int, ghost produced: seq<Chunk>)
      modifies this
      ensures FolderEntry(file, old(disk.hashesFile), old(embedderLoaded) || embedderInstalled, count)
      ensures (embedderLoaded || embedderInstalled) == (old(embedderLoaded) || embedderInstalled)
      ensures disk.hashesFile == old(disk.hashesFile)
      ensures Indexed(file, old(disk.hashesFile), old(embedderLoaded) || embedderInstalled) ==>
                var doc := Admit(file, old(disk.hashesFile)).doc;
                && IsChunking(SplitWords(doc.Text()), doc.Source(), ChunkSize, ChunkOverlap, digest, produced)
                && count == |produced|
                && chunks == old(chunks) + EmbedAll(produced, encode)
                && embeddings == Rebuilt(chunks)
                && disk == SavedDisk(chunks, embeddings, old(disk))
      ensures !Indexed(file, old(disk.hashesFile), old(embedderLoaded) || embedderInstalled) ==>
                produced == [] && chunks == old(chunks) && embeddings == old(embeddings) && disk == old(disk)
    {
      ghost var indexed := Indexed(file, disk.hashesFile, embedderLoaded || embedderInstalled);
      var r;
      r, produced := AddDocument(file);
      count := FolderValue(r);
      if !indexed {
        produced := [];
      }
    }

    /** What the folder loop has done after the entries given, with the
        registry and the availability of the embedder as they were. */
    ghost predicate FolderProgress(entries: seq<FileEntry>, available: bool, results: map<string, int>,
                                   produced: seq<seq<Chunk>>, start: seq<Chunk>,
                                   startEmbeddings: Option<seq<Vector>>, startDisk: Disk)
      reads this
    {
      && FolderRecord(entries, startDisk.hashesFile, available, digest, results, produced)
      && FolderStored(AnyIndexed(entries, startDisk.hashesFile, available), encode, produced,
                      start, startEmbeddings, startDisk, chunks, embeddings, disk)
      && disk.hashesFile == startDisk.hashesFile
      && (embedderLoaded || embedderInstalled) == available
    }

    /** One pass of `add_folder`'s loop: a wanted entry goes to
        `add_document` and its entry is recorded under its name; any other
        entry is skipped. */
    method AddFolderEntry(entries: seq<FileEntry>, i: nat, ghost available: bool, results: map<string, int>,
                          ghost produced: seq<seq<Chunk>>, ghost start: seq<Chunk>,
                          ghost startEmbeddings: Option<seq<Vector>>, ghost startDisk: Disk)
      returns (next: map<string, int>, ghost nextProduced: seq<seq<Chunk>>)
      requires DistinctNames(entries) && i < |entries|
      requires FolderProgress(entries[..i], available, results, produced, start, startEmbeddings, startDisk)
      modifies this
      ensures FolderProgress(entries[..i + 1], available, next, nextProduced, start, startEmbeddings, startDisk)
    {
      ghost var hashes := startDisk.hashesFile;
      var entry := entries[i];
      var wanted := entry.isFile && Extension(entry.name) in SupportedExtensions;
      var count := 0;
      ghost var p: seq<Chunk> := [];
      if wanted {
        count, p := AddFolderFile(entry);
      }
      next := results;
      if wanted {
        next := results[entry.name := count];
      }
      nextProduced := produced + [p];
      FolderRecordStep(entries, i, hashes, available, digest, results, produced, p, count);
      AnyIndexedStep(entries, i, hashes, available);
      FolderStoredStep(AnyIndexed(entries[..i], hashes, available), FolderIndexes(entry, hashes, available), encode,
                       produced, p, start, startEmbeddings, startDisk,
                       old(chunks), old(embeddings), old(disk), chunks, embeddings, disk);
    }

    /** `add_folder`: every wanted file of a directory goes to
        `add_document`, in the order of the listing, and a file that raises
        gets -1 without stopping the others. Each indexed file's chunks are
        appended in that order, and its key holds their number. */
    method AddFolder(folder: Folder) returns (r: Result<map<string, int>, StoreError>, ghost produced: seq<seq<Chunk>>)
      requires DistinctNames(folder.entries)
      modifies this
      ensures !folder.isDirectory ==> r == Failure(NotADirectory(folder.path)) && StateIs(old(chunks), old(embeddings), old(embedderLoaded), old(disk))
      ensures folder.isDirectory ==>
                var hashes, available := old(disk.hashesFile), old(embedderLoaded) || embedderInstalled;
                && r.Success?
                && FolderRecord(folder.entries, hashes, available, digest, r.value, produced)
                && FolderStored(AnyIndexed(folder.entries, hashes, available), encode, produced,
                                old(chunks), old(embeddings), old(disk), chunks, embeddings, disk)
      ensures disk.hashesFile == old(disk.hashesFile)
    {
      produced := [];
      if !folder.isDirectory {
        return Failure(NotADirectory(folder.path)), produced;
      }
      var entries := folder.entries;
      var results: map<string, int> := map[];
      ghost var available := embedderLoaded || embedderInstalled;
      assert entries[..0] == [];
      var i := 0;
      while i < |entries|
        invariant 0 <= i <= |entries|
        invariant FolderProgress(entries[..i], available, results, produced, old(chunks), old(embeddings), old(disk))
      {
        results, produced := AddFolderEntry(entries, i, available, results, produced,
                                            old(chunks), old(embeddings), old(disk));
        i := i + 1;
      }
      assert entries[..|entries|] == entries;
      return Success(results), produced;
    }

    /** `search`: no results without chunks or a matrix; otherwise the
        query is embedded, every row scored, and the `top_k` best rows
        (all of them for `top_k == 0`) are returned best first, each with
        the chunk at the row's position, which raises when a row has no
        chunk at its position. */
    method Search(query: string, topK: int) returns (r: Result<seq<SearchHit>, StoreError>, ghost selected: seq<nat>)
      modifies this
      ensures chunks == old(chunks) && embeddings == old(embeddings) && disk == old(disk)
      ensures old(embedderLoaded) ==> embedderLoaded
      ensures chunks == [] || embeddings.None? ==> r == Success([])
      ensures chunks != [] && embeddings.Some? && !(old(embedderLoaded) || embedderInstalled) ==>
                r == Failure(EmbedderMissing)
      ensures chunks != [] && embeddings.Some? && (old(embedderLoaded) || embedderInstalled) ==>
                var rows := embeddings.value;
                var scores := MapSeq(rows, (row: Vector) => similarity(encode(query), row));
                && IsTopSelection(scores, TopCount(topK, |rows|), selected)
                && (r.Success? <==> forall i | 0 <= i < |selected| :: selected[i] < |chunks|)
                && (r.Success? ==>
                      && |r.value| == |selected|
                      && forall i | 0 <= i < |selected| :: r.value[i] == Hit(chunks[selected[i]], scores[selected[i]]))
      ensures r.Success? ==> forall i, j | 0 <= i < j < |r.value| :: r.value[i].score >= r.value[j].score
      ensures old(Synced()) && chunks != [] && (old(embedderLoaded) || embedderInstalled) ==> r.Success?
      ensures r.Failure? ==> r.error == EmbedderMissing || (r.error.ChunkIndexOutOfRange? && r.error.index >= |chunks|)
    {
      selected := [];
      if chunks == [] || embeddings.None? {
        return Success([]), selected;
      }
      var ok := GetEmbedder();
      if !ok {
        return Failure(EmbedderMissing), selected;
      }
      var queryVector := encode(query);
      var rows := embeddings.value;
      var scores := MapSeq(rows, (row: Vector) => similarity(queryVector, row));
      var top := SelectTop(scores, TopCount(topK, |rows|));
      selected := top;
      if old(Synced()) {
        RowsAligned(chunks);
      }
      r := CollectHits(top, scores);
    }

    /** The loop of `search` that turns the selected rows into hits; a row
        beyond the chunk list raises IndexError. */
    method CollectHits(top: seq<nat>, scores: seq<real>) returns (r: Result<seq<SearchHit>, StoreError>)
      requires forall i | 0 <= i < |top| :: top[i] < |scores|
      ensures r.Success? <==> forall i | 0 <= i < |top| :: top[i] < |chunks|
      ensures r.Success? ==>
                && |r.value| == |top|
                && forall i | 0 <= i < |top| :: r.value[i] == Hit(chunks[top[i]], scores[top[i]])
      ensures r.Failure? ==> r.error.ChunkIndexOutOfRange? && r.error.index >= |chunks|
    {
      var results: seq<SearchHit> := [];
      var k := 0;
      while k < |top|
        invariant 0 <= k <= |top|
        invariant forall i | 0 <= i < k :: top[i] < |chunks|
        invariant |results| == k
        invariant forall i | 0 <= i < k :: results[i] == Hit(chunks[top[i]], scores[top[i]])
      {
        var idx := top[k];
        if idx >= |chunks| {
          return Failure(ChunkIndexOutOfRange(idx));
        }
        results := results + [Hit(chunks[idx], scores[idx])];
        k := k + 1;
      }
      return Success(results);
    }

    /** `get_sources`: the distinct source names of the chunks. */
    function GetSources(): (r: set<string>)
      reads this
      ensures forall i | 0 <= i < |chunks| :: chunks[i].source in r
      ensures forall s | s in r :: exists i | 0 <= i < |chunks| :: chunks[i].source == s
      ensures |r| <= |chunks|
    {
      assert forall i | 0 <= i < |chunks| :: chunks[i] in chunks;
      Image(chunks, (c: Chunk) => c.source)
    }

    /** `get_stats`: as many documents as distinct sources, never more than
        chunks, and none exactly when there are no chunks. */
    function GetStats(): (s: StoreStats)
      reads this
      ensures s.numChunks == |chunks| && s.documents == GetSources()
      ensures s.numDocuments == |s.documents| <= s.numChunks
      ensures s.numDocuments == 0 <==> chunks == []
    {
      var sources := GetSources();
      assert chunks != [] ==> chunks[0].source in sources;
      StoreStats(|sources|, |chunks|, sources)
    }

    /** `clear`: no chunks and no matrix; chunks.json and embeddings.npy
        are deleted, hashes.json is kept. */
    method Clear()
      modifies this
      ensures chunks == [] && embeddings == None
      ensures disk == old(disk).(chunksFile := None, embeddingsFile := None)
      ensures embedderLoaded == old(embedderLoaded)
      ensures GetStats() == StoreStats(0, 0, {})
    {
      chunks := [];
      embeddings := None;
      disk := disk.(chunksFile := None, embeddingsFile := None);
    }

    /** `remove_document`: the chunks of other sources stay, in order; the
        matrix is rebuilt and the index saved. */
    method RemoveDocument(sourceName: string)
      modifies this
      ensures chunks == Filter(old(chunks), (c: Chunk) => c.source != sourceName)
      ensures embeddings == Rebuilt(chunks)
      ensures disk == SavedDisk(chunks, embeddings, old(disk))
      ensures embedderLoaded == old(embedderLoaded)
      ensures old(Synced()) ==> Synced()
    {
      chunks := Filter(chunks, (c: Chunk) => c.source != sourceName);
      RebuildEmbeddingMatrix();
      SaveIndex();
      if old(Synced()) {
        forall i | 0 <= i < |chunks| ensures HasEmbedding(chunks[i]) {
          assert chunks[i] in chunks;
          var j :| 0 <= j < |old(chunks)| && old(chunks)[j] == chunks[i];
        }
      }
    }
  }

  /** `remove_document` keeps exactly the chunks of the other sources: none
      of the removed source survives, every other chunk does, and removing
      an absent source changes nothing. */
  lemma RemoveKeepsOthers(chunks: seq<Chunk>, sourceName: string)
    ensures forall c | c in Filter(chunks, (c: Chunk) => c.source != sourceName) :: c.source != sourceName
    ensures forall c | c in chunks && c.source != sourceName :: c in Filter(chunks, (c: Chunk) => c.source != sourceName)
    ensures (forall c | c in chunks :: c.source != sourceName) ==>
              Filter(chunks, (c: Chunk) => c.source != sourceName) == chunks
  {
    var keep := (c: Chunk) => c.source != sourceName;
    forall c | c in chunks && keep(c) ensures c in Filter(chunks, keep) {
      FilterKeeps(chunks, keep, c);
    }
    if forall c | c in chunks :: keep(c) {
      FilterAll(chunks, keep);
    }
  }
}
