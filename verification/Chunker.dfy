/** The word-window chunker and the page-marker detector of the document
    store (core/document_store.py), and the chunk record they produce. */
module Chunker {
  import opened Wrappers
  import opened Strings

  /** An embedding vector; the embedding model is not part of this model. */
  type Vector = seq<real>

  /** `DocumentChunk`: a window of a document's words and, once the embedder
      has run, its vector. */
  datatype Chunk = Chunk(
    id: string,
    source: string,
    text: string,
    page: Option<nat>,
    chunkIndex: nat,
    embedding: Option<Vector>)

  /** CHUNK_SIZE and CHUNK_OVERLAP of the configuration, in words. */
  const ChunkSize: nat := 500
  const ChunkOverlap: nat := 50

  // ---------------------------------------------------------------------
  // Page markers: the regular expression `\[Page (\d+)\]`

  const MarkerOpen: string := "[Page "

  /** A page marker starts at `p`: "[Page ", one or more digits, then "]". */
  predicate MarkerAt(t: string, p: nat) {
    p + |MarkerOpen| <= |t| && t[p..p + |MarkerOpen|] == MarkerOpen
    && var q := DigitsEnd(t, p + |MarkerOpen|);
       p + |MarkerOpen| < q < |t| && t[q] == ']'
  }

  /** The page number written by the marker at `p`. */
  function MarkerValue(t: string, p: nat): nat
    requires MarkerAt(t, p)
  {
    DigitsValue(t[p + |MarkerOpen|..DigitsEnd(t, p + |MarkerOpen|)])
  }

  /** Position of the first marker at or after `from`. */
  function FindMarker(t: string, from: nat): (r: Option<nat>)
    requires from <= |t|
    ensures r.Some? ==> from <= r.value < |t| && MarkerAt(t, r.value)
    ensures r.Some? ==> forall q | from <= q < r.value :: !MarkerAt(t, q)
    ensures r.None? ==> forall q | from <= q < |t| :: !MarkerAt(t, q)
    decreases |t| - from
  {
    if from == |t| then None
    else if MarkerAt(t, from) then Some(from)
    else FindMarker(t, from + 1)
  }

  /** `_detect_page`: the number in the leftmost page marker of the text, and
      None when the text holds no marker. */
  function DetectPage(t: string): (r: Option<nat>)
    ensures r.None? <==> forall p | 0 <= p < |t| :: !MarkerAt(t, p)
    ensures r.Some? ==> exists p | 0 <= p < |t| ::
      MarkerAt(t, p) && r.value == MarkerValue(t, p)
      && forall q | 0 <= q < p :: !MarkerAt(t, q)
  {
    match FindMarker(t, 0)
    case None => None
    case Some(p) => Some(MarkerValue(t, p))
  }

  /** A text that begins with the marker "[Page k]" that the PDF parser
      writes at the head of page k is detected as page k. */
  lemma PageMarkerRoundTrip(k: nat, rest: string)
    ensures DetectPage(MarkerOpen + NatToString(k) + "]" + rest) == Some(k)
  {
    var digits := NatToString(k);
    var t := MarkerOpen + digits + "]" + rest;
    var q := |MarkerOpen| + |digits|;
    assert t[..|MarkerOpen|] == MarkerOpen;
    assert forall j | |MarkerOpen| <= j < q :: t[j] == digits[j - |MarkerOpen|];
    assert t[q] == ']';
    DigitsEndAt(t, |MarkerOpen|, q);
    assert MarkerAt(t, 0);
    assert t[|MarkerOpen|..q] == digits;
    DigitsValueOfNatToString(k);
  }

  /** The digit run that starts at `i` ends at `q` when `q` is the first
      non-digit. */
  lemma {:induction false} DigitsEndAt(s: string, i: nat, q: nat)
    requires i <= q < |s|
    requires forall j | i <= j < q :: IsDigit(s[j])
    requires !IsDigit(s[q])
    ensures DigitsEnd(s, i) == q
    decreases q - i
  {
    if i < q {
      DigitsEndAt(s, i + 1, q);
    }
  }

  // ---------------------------------------------------------------------
  // Word windows

  /** First word of window `i`: each window starts `size - overlap` words
      after the previous one. */
  function WindowStart(i: nat, size: nat, overlap: nat): nat
    requires overlap < size
  {
    if i == 0 then 0 else WindowStart(i - 1, size, overlap) + (size - overlap)
  }

  /** One past the last word of window `i` of an `n`-word text. */
  function WindowEnd(n: nat, i: nat, size: nat, overlap: nat): nat
    requires overlap < size
  {
    Min(WindowStart(i, size, overlap) + size, n)
  }

  /** The chunk id `f"{source}_{i}_{md5(text)[:8]}"`, with the digest given. */
  function ChunkId(source: string, i: nat, text: string, digest: string -> string): string {
    source + "_" + NatToString(i) + "_" + Prefix(digest(text), 8)
  }

  /** Chunk `i` of the words: the words of window `i` joined by single
      spaces, its detected page, its position, and no embedding yet. */
  function ChunkAt(words: seq<string>, source: string, i: nat, size: nat, overlap: nat,
                   digest: string -> string): Chunk
    requires overlap < size
    requires WindowStart(i, size, overlap) <= |words|
  {
    var text := Join(words[WindowStart(i, size, overlap)..WindowEnd(|words|, i, size, overlap)], " ");
    Chunk(ChunkId(source, i, text, digest), source, text, DetectPage(text), i, None)
  }

  /** `r` is the chunk list of the words: empty for no words; otherwise the
      windows 0, 1, ... in order, where every window but the last stops short
      of the end of the text and the last one reaches it. */
  ghost predicate IsChunking(words: seq<string>, source: string, size: nat, overlap: nat,
                             digest: string -> string, r: seq<Chunk>)
    requires overlap < size
  {
    && (words == [] ==> r == [])
    && (words != [] ==> r != [] && WindowStart(|r| - 1, size, overlap) + size >= |words|)
    && (forall i | 0 <= i < |r| - 1 :: WindowStart(i, size, overlap) + size < |words|)
    && (forall i | 0 <= i < |r| ::
          WindowStart(i, size, overlap) < |words|
          && r[i] == ChunkAt(words, source, i, size, overlap, digest))
  }

  lemma NextWindow(i: nat, size: nat, overlap: nat)
    requires overlap < size
    ensures WindowStart(i + 1, size, overlap) == WindowStart(i, size, overlap) + size - overlap
  {
  }

  /** The first `|chunks|` windows of the words, none of which reaches the
      end of the text: what the chunking loop has built so far. */
  ghost predicate ChunksSoFar(words: seq<string>, source: string, size: nat, overlap: nat,
                              digest: string -> string, chunks: seq<Chunk>)
    requires overlap < size
  {
    forall j | 0 <= j < |chunks| ::
      WindowStart(j, size, overlap) + size < |words|
      && chunks[j] == ChunkAt(words, source, j, size, overlap, digest)
  }

  /** Appending a window that stops short of the end keeps the loop going. */
  lemma AppendWindow(words: seq<string>, source: string, size: nat, overlap: nat,
                     digest: string -> string, chunks: seq<Chunk>, c: Chunk)
    requires overlap < size
    requires ChunksSoFar(words, source, size, overlap, digest, chunks)
    requires WindowStart(|chunks|, size, overlap) + size < |words|
    requires c == ChunkAt(words, source, |chunks|, size, overlap, digest)
    ensures ChunksSoFar(words, source, size, overlap, digest, chunks + [c])
  {
    assert forall j | 0 <= j < |chunks| :: (chunks + [c])[j] == chunks[j];
  }

  /** Appending the window that reaches the end completes the chunk list. */
  lemma AppendLastWindow(words: seq<string>, source: string, size: nat, overlap: nat,
                         digest: string -> string, chunks: seq<Chunk>, c: Chunk)
    requires overlap < size
    requires ChunksSoFar(words, source, size, overlap, digest, chunks)
    requires WindowStart(|chunks|, size, overlap) < |words|
    requires WindowStart(|chunks|, size, overlap) + size >= |words|
    requires c == ChunkAt(words, source, |chunks|, size, overlap, digest)
    ensures IsChunking(words, source, size, overlap, digest, chunks + [c])
  {
    var r := chunks + [c];
    assert forall j | 0 <= j < |chunks| :: r[j] == chunks[j];
    forall j | 0 <= j < |chunks|
      ensures WindowStart(j, size, overlap) < |words|
    {
    }
  }

  /** One step of the chunking loop: the chunk for the words
      `words[start:end]` at position `chunkIndex`, with its page and its id. */
  method MakeChunk(words: seq<string>, source: string, start: nat, end: nat, chunkIndex: nat,
                   size: nat, overlap: nat, digest: string -> string)
    returns (chunk: Chunk)
    requires overlap < size
    requires start == WindowStart(chunkIndex, size, overlap) <= |words|
    requires end == Min(start + size, |words|)
    ensures chunk == ChunkAt(words, source, chunkIndex, size, overlap, digest)
    ensures chunk.chunkIndex == chunkIndex && chunk.source == source && chunk.embedding == None
    ensures chunk.page == DetectPage(chunk.text)
    ensures (forall k | start <= k < end :: words[k] != "" && NoSpace(words[k])) ==>
              SplitWords(chunk.text) == words[start..end]
  {
    var chunkText := Join(words[start..end], " ");
    if forall k | start <= k < end :: words[k] != "" && NoSpace(words[k]) {
      var window := words[start..end];
      assert forall k | 0 <= k < |window| :: window[k] == words[start + k];
      SplitJoinWords(window);
    }
    var page := DetectPage(chunkText);
    var chunkId := source + "_" + NatToString(chunkIndex) + "_" + Prefix(digest(chunkText), 8);
    chunk := Chunk(chunkId, source, chunkText, page, chunkIndex, None);
  }

  /** `_chunk_document` on the document's text and source name. The loop
      stops after the window that reaches the last word; with
      `overlap < size` every other window moves the start forward. */
  method ChunkDocument(text: string, source: string, size: nat, overlap: nat,
                       digest: string -> string)
    returns (chunks: seq<Chunk>)
    requires overlap < size
    ensures IsChunking(SplitWords(text), source, size, overlap, digest, chunks)
  {
    var words := SplitWords(text);
    var n := |words|;
    chunks := [];
    var start: int := 0;
    var chunkIndex: nat := 0;
    while start < n
      invariant chunkIndex == |chunks|
      invariant start == WindowStart(chunkIndex, size, overlap)
      invariant chunkIndex > 0 ==> start < n
      invariant ChunksSoFar(words, source, size, overlap, digest, chunks)
      decreases n - start
    {
      var end := Min(start + size, n);
      var chunk := MakeChunk(words, source, start, end, chunkIndex, size, overlap, digest);
      NextWindow(chunkIndex, size, overlap);
      if end - overlap >= n - overlap {
        AppendLastWindow(words, source, size, overlap, digest, chunks, chunk);
      } else {
        AppendWindow(words, source, size, overlap, digest, chunks, chunk);
      }
      chunks := chunks + [chunk];
      start := end - overlap;
      chunkIndex := chunkIndex + 1;
      if start >= n - overlap {
        break;
      }
    }
  }

  // ---------------------------------------------------------------------
  // Properties of the chunk list

  /** The chunk list of a text is unique: the loop's result is determined by
      the words alone. */
  lemma ChunkingUnique(words: seq<string>, source: string, size: nat, overlap: nat,
                       digest: string -> string, r1: seq<Chunk>, r2: seq<Chunk>)
    requires overlap < size
    requires IsChunking(words, source, size, overlap, digest, r1)
    requires IsChunking(words, source, size, overlap, digest, r2)
    ensures r1 == r2
  {
  }

  /** Every word lies in some window, so no word of the text is lost. */
  lemma ChunkingCovers(words: seq<string>, source: string, size: nat, overlap: nat,
                       digest: string -> string, r: seq<Chunk>, w: nat)
    requires overlap < size
    requires IsChunking(words, source, size, overlap, digest, r)
    requires w < |words|
    ensures exists i | 0 <= i < |r| ::
      WindowStart(i, size, overlap) <= w < WindowEnd(|words|, i, size, overlap)
  {
    var i := CoveringWindow(words, source, size, overlap, digest, r, w, |r| - 1);
  }

  /** A window at or before `j` that holds word `w`, for `w` before the end of
      window `j`. */
  lemma {:induction false} CoveringWindow(words: seq<string>, source: string, size: nat,
                                          overlap: nat, digest: string -> string,
                                          r: seq<Chunk>, w: nat, j: nat)
    returns (i: nat)
    requires overlap < size
    requires IsChunking(words, source, size, overlap, digest, r)
    requires j < |r| && w < WindowEnd(|words|, j, size, overlap)
    ensures i <= j
    ensures WindowStart(i, size, overlap) <= w < WindowEnd(|words|, i, size, overlap)
  {
    if w >= WindowStart(j, size, overlap) {
      i := j;
    } else {
      NextWindow(j - 1, size, overlap);
      i := CoveringWindow(words, source, size, overlap, digest, r, w, j - 1);
    }
  }

  /** The last window ends at the last word. */
  lemma LastWindowReachesEnd(words: seq<string>, source: string, size: nat, overlap: nat,
                             digest: string -> string, r: seq<Chunk>)
    requires overlap < size
    requires IsChunking(words, source, size, overlap, digest, r)
    requires r != []
    ensures WindowEnd(|words|, |r| - 1, size, overlap) == |words|
  {
  }

  /** Splitting a chunk's text gives back exactly the words of its window. */
  lemma ChunkTextWords(words: seq<string>, source: string, size: nat, overlap: nat,
                       digest: string -> string, r: seq<Chunk>, i: nat)
    requires overlap < size
    requires IsChunking(words, source, size, overlap, digest, r)
    requires forall k | 0 <= k < |words| :: words[k] != "" && NoSpace(words[k])
    requires i < |r|
    ensures SplitWords(r[i].text)
         == words[WindowStart(i, size, overlap)..WindowEnd(|words|, i, size, overlap)]
  {
    var window := words[WindowStart(i, size, overlap)..WindowEnd(|words|, i, size, overlap)];
    assert forall k | 0 <= k < |window| :: window[k] in words;
    SplitJoinWords(window);
  }

  /** A 1200-word text with windows of 500 and overlap 50 gives three chunks,
      at positions 0, 1, 2, covering words 0-499, 450-949 and 900-1199. */
  lemma TwelveHundredWords(words: seq<string>, source: string, digest: string -> string,
                           r: seq<Chunk>)
    requires |words| == 1200
    requires IsChunking(words, source, ChunkSize, ChunkOverlap, digest, r)
    ensures |r| == 3
    ensures r[0].chunkIndex == 0 && r[1].chunkIndex == 1 && r[2].chunkIndex == 2
    ensures r[0].text == Join(words[0..500], " ")
    ensures r[1].text == Join(words[450..950], " ")
    ensures r[2].text == Join(words[900..1200], " ")
  {
    assert WindowStart(1, ChunkSize, ChunkOverlap) == 450;
    assert WindowStart(2, ChunkSize, ChunkOverlap) == 900;
  }
}
