/** The retrieval half of question answering (core/rag_engine.py): search
    hits below the confidence threshold are dropped, the survivors become a
    tagged context for the language model and a list of citations, and the
    citations are rendered for the user one line per document. */
module RagEngine {
  import opened Wrappers
  import opened Strings
  import opened Seqs
  import opened Store
  import opened Chunker
  import opened Ranking

  /** TOP_K_RESULTS and MIN_CONFIDENCE of config.py: the defaults of
      `retrieve`. */
  const TopKResults := 5
  const MinConfidence: real := 0.1

  const ContextSeparator := "\n\n---\n\n"
  const SnippetLength := 200
  const Ellipsis := "..."
  const NoSources := "No sources found."
  const DocumentIcon := "\U{1F4C4} "

  /** A source record of a retrieval. */
  datatype Citation = Citation(document: string, page: Option<nat>, score: real, snippet: string)

  /** `RetrievalResult` */
  datatype RetrievalResult = RetrievalResult(context: string, sources: seq<Citation>, confidence: real, numChunks: nat)

  /** What `retrieve` returns when no hit reaches the threshold. */
  const NoRetrieval := RetrievalResult("", [], 0.0, 0)

  // ---------------------------------------------------------------------
  // The pieces of a retrieval

  /** `if result['page']:` a page number is shown unless it is missing or 0. */
  predicate PageTruthy(page: Option<nat>) {
    page.Some? && page.value != 0
  }

  /** The page part of a context tag. */
  function PageTag(page: Option<nat>): (r: string)
    ensures r == "" <==> !PageTruthy(page)
  {
    if PageTruthy(page) then ", Page " + NatToString(page.value) else ""
  }

  /** One part of the context: the tag naming the source (and page), a line
      break, then the chunk text. */
  function ContextPart(h: SearchHit): (r: string)
    ensures |r| > 0 && r[0] == '['
  {
    "[Source: " + h.source + PageTag(h.page) + "]\n" + h.text
  }

  /** The citation snippet: the text when it has at most 200 characters,
      otherwise its first 200 followed by "...". */
  function Snippet(text: string): (r: string)
    ensures |r| <= SnippetLength + |Ellipsis|
    ensures |text| <= SnippetLength ==> r == text
    ensures |text| > SnippetLength ==> |r| == SnippetLength + 3 && r[..SnippetLength] == text[..SnippetLength]
                                       && r[SnippetLength..] == Ellipsis
  {
    if |text| > SnippetLength then text[..SnippetLength] + Ellipsis else text
  }

  function CitationOf(h: SearchHit): Citation {
    Citation(h.source, h.page, h.score, Snippet(h.text))
  }

  predicate Reaches(h: SearchHit, minScore: real) {
    h.score >= minScore
  }

  /** The hits that reach the threshold (inclusive), in search order. */
  function Survivors(hits: seq<SearchHit>, minScore: real): (r: seq<SearchHit>)
    ensures forall h | h in r :: h in hits && h.score >= minScore
  {
    Filter(hits, h => Reaches(h, minScore))
  }

  function ScoreOf(h: SearchHit): real {
    h.score
  }

  function Sum(xs: seq<real>): real {
    if xs == [] then 0.0 else Sum(xs[..|xs| - 1]) + xs[|xs| - 1]
  }

  /** The arithmetic mean of the scores. */
  function Mean(xs: seq<real>): real
    requires xs != []
  {
    Sum(xs) / (|xs| as real)
  }

  /** What `retrieve` returns for the search hits. */
  function Retrieval(hits: seq<SearchHit>, minScore: real): RetrievalResult {
    var survivors := Survivors(hits, minScore);
    if survivors == [] then NoRetrieval
    else RetrievalResult(Join(MapSeq(survivors, ContextPart), ContextSeparator),
                         MapSeq(survivors, CitationOf),
                         Mean(MapSeq(survivors, ScoreOf)),
                         |survivors|)
  }

  /** The body of `retrieve` after the search: filter, then one context
      part and one citation per surviving hit, in order, then the join and
      the mean. */
  method Assemble(hits: seq<SearchHit>, minScore: real) returns (r: RetrievalResult)
    ensures r == Retrieval(hits, minScore)
  {
    var results := Survivors(hits, minScore);
    if results == [] {
      return NoRetrieval;
    }
    var contextParts: seq<string> := [];
    var sources: seq<Citation> := [];
    for i := 0 to |results|
      invariant contextParts == MapSeq(results[..i], ContextPart)
      invariant sources == MapSeq(results[..i], CitationOf)
    {
      var result := results[i];
      var sourceInfo := "[Source: " + result.source;
      if result.page.Some? && result.page.value != 0 {
        sourceInfo := sourceInfo + ", Page " + NatToString(result.page.value);
      }
      assert sourceInfo == "[Source: " + result.source + PageTag(result.page);
      sourceInfo := sourceInfo + "]";
      var part := sourceInfo + "\n" + result.text;
      assert part == ContextPart(result);
      var snippet := if |result.text| > SnippetLength then result.text[..SnippetLength] + Ellipsis else result.text;
      MapSeqAppend(results[..i], result, ContextPart);
      MapSeqAppend(results[..i], result, CitationOf);
      assert results[..i + 1] == results[..i] + [result];
      contextParts := contextParts + [part];
      sources := sources + [Citation(result.source, result.page, result.score, snippet)];
    }
    assert results[..|results|] == results;
    var context := Join(contextParts, ContextSeparator);
    var avgConfidence := Mean(MapSeq(results, ScoreOf));
    return RetrievalResult(context, sources, avgConfidence, |results|);
  }

  // ---------------------------------------------------------------------
  // What a retrieval promises

  /** The citations are exactly the hits that reach the threshold: one per
      surviving hit, carrying its document, page and score, in search
      order, and `num_chunks` counts them. */
  lemma {:induction false} RetrievalSources(hits: seq<SearchHit>, minScore: real)
    ensures var r := Retrieval(hits, minScore);
            && r.numChunks == |r.sources| == |Survivors(hits, minScore)|
            && (forall i | 0 <= i < |r.sources| ::
                  var h := Survivors(hits, minScore)[i];
                  r.sources[i] == Citation(h.source, h.page, h.score, Snippet(h.text)))
            && (forall c | c in r.sources :: c.score >= minScore)
            && (forall h | h in hits && h.score >= minScore :: CitationOf(h) in r.sources)
  {
    var survivors := Survivors(hits, minScore);
    var r := Retrieval(hits, minScore);
    forall h | h in hits && h.score >= minScore
      ensures CitationOf(h) in r.sources
    {
      FilterKeeps(hits, h => Reaches(h, minScore), h);
      var i :| 0 <= i < |survivors| && survivors[i] == h;
      assert r.sources[i] == CitationOf(h);
    }
    forall c | c in r.sources ensures c.score >= minScore {
      var i :| 0 <= i < |r.sources| && r.sources[i] == c;
      assert survivors[i] in survivors;
    }
  }

  /** A retrieval is empty exactly when no hit reaches the threshold; the
      context is empty exactly then, since every part starts with its tag. */
  lemma RetrievalEmptyIff(hits: seq<SearchHit>, minScore: real)
    ensures var r := Retrieval(hits, minScore);
            && (r == NoRetrieval <==> forall h | h in hits :: h.score < minScore)
            && (r.context == "" <==> r.numChunks == 0)
  {
    var survivors := Survivors(hits, minScore);
    var r := Retrieval(hits, minScore);
    if h :| h in hits && h.score >= minScore {
      FilterKeeps(hits, h => Reaches(h, minScore), h);
    }
    if survivors != [] {
      var parts := MapSeq(survivors, ContextPart);
      JoinEmptyIff(parts, ContextSeparator);
    }
  }

  /** The least of the scores. */
  function Lowest(xs: seq<real>): (m: real)
    requires xs != []
    ensures m in xs && forall x | x in xs :: m <= x
  {
    if |xs| == 1 then xs[0]
    else var rest := Lowest(xs[1..]);
      assert forall x | x in xs :: x == xs[0] || x in xs[1..];
      if xs[0] <= rest then xs[0] else rest
  }

  /** The greatest of the scores. */
  function Highest(xs: seq<real>): (m: real)
    requires xs != []
    ensures m in xs && forall x | x in xs :: x <= m
  {
    if |xs| == 1 then xs[0]
    else var rest := Highest(xs[1..]);
      assert forall x | x in xs :: x == xs[0] || x in xs[1..];
      if xs[0] >= rest then xs[0] else rest
  }

  lemma {:induction false} SumBounds(xs: seq<real>, lo: real, hi: real)
    requires forall i | 0 <= i < |xs| :: lo <= xs[i] <= hi
    ensures (|xs| as real) * lo <= Sum(xs) <= (|xs| as real) * hi
  {
    if xs != [] {
      SumBounds(xs[..|xs| - 1], lo, hi);
    }
  }

  /** A mean lies between the least and the greatest value. */
  lemma MeanBetween(xs: seq<real>)
    requires xs != []
    ensures Lowest(xs) <= Mean(xs) <= Highest(xs)
  {
    var lo, hi := Lowest(xs), Highest(xs);
    forall i | 0 <= i < |xs| ensures lo <= xs[i] <= hi {
      assert xs[i] in xs;
    }
    SumBounds(xs, lo, hi);
    DivideBounds(Sum(xs), |xs| as real, lo, hi);
  }

  lemma DivideBounds(total: real, n: real, lo: real, hi: real)
    requires n > 0.0 && n * lo <= total <= n * hi
    ensures lo <= total / n <= hi
  {
    var q := total / n;
    assert total == q * n;
  }

  /** The confidence of a non-empty retrieval lies between the least and the
      greatest citation score, and so is at least the threshold. */
  lemma RetrievalConfidence(hits: seq<SearchHit>, minScore: real)
    requires Retrieval(hits, minScore).numChunks > 0
    ensures var r := Retrieval(hits, minScore);
            var scores := MapSeq(r.sources, (c: Citation) => c.score);
            && scores != []
            && Lowest(scores) <= r.confidence <= Highest(scores)
            && minScore <= r.confidence
  {
    var survivors := Survivors(hits, minScore);
    var r := Retrieval(hits, minScore);
    var scores := MapSeq(r.sources, (c: Citation) => c.score);
    assert scores == MapSeq(survivors, ScoreOf);
    MeanBetween(scores);
    assert Lowest(scores) in scores;
    var k :| 0 <= k < |scores| && scores[k] == Lowest(scores);
    assert survivors[k] in survivors;
  }

  // ---------------------------------------------------------------------
  // format_sources_for_display

  /** The documents the citations name. */
  function Documents(sources: seq<Citation>): (r: set<string>)
    ensures |r| <= |sources|
  {
    if sources == [] then {}
    else Documents(sources[..|sources| - 1]) + {sources[|sources| - 1].document}
  }

  /** A document is named by the citations exactly when some citation
      carries it. */
  lemma {:induction false} DocumentsNamed(sources: seq<Citation>, d: string)
    ensures d in Documents(sources) <==> exists i | 0 <= i < |sources| :: sources[i].document == d
  {
    if sources != [] {
      var n := |sources| - 1;
      var init := sources[..n];
      DocumentsNamed(init, d);
      if d in Documents(init) {
        var i :| 0 <= i < |init| && init[i].document == d;
        assert sources[i].document == d;
      }
      if i :| 0 <= i < |sources| && sources[i].document == d {
        if i < n {
          assert init[i].document == d;
        }
      }
    }
  }

  function DocumentOf(c: Citation): string {
    c.document
  }

  /** Citation `i` is the first to name its document. */
  predicate FirstAt(sources: seq<Citation>, i: nat)
    requires i < |sources|
  {
    sources[i].document !in Documents(sources[..i])
  }

  /** The citations kept by the `seen` set: the first of each document, in
      order. */
  function FirstOfEach(sources: seq<Citation>): seq<Citation> {
    if sources == [] then []
    else
      var init, last := sources[..|sources| - 1], sources[|sources| - 1];
      FirstOfEach(init) + (if last.document in Documents(init) then [] else [last])
  }

  /** The positions of the citations `FirstOfEach` keeps. */
  ghost function Origins(sources: seq<Citation>): seq<nat> {
    if sources == [] then []
    else
      var init, last := sources[..|sources| - 1], sources[|sources| - 1];
      Origins(init) + (if last.document in Documents(init) then [] else [|sources| - 1])
  }

  function Percentage(score: real): string {
    var magnitude := if score < 0.0 then -score else score;
    (if score < 0.0 then "-" else "") + NatToString(RoundHalfEven(magnitude * 100.0)) + "%"
  }

  /** The nearest integer, ties to the even one (Python's rounding when it
      formats with no decimals). */
  function RoundHalfEven(x: real): (n: int)
    ensures x - 0.5 <= n as real <= x + 0.5
    ensures (n as real == x - 0.5 || n as real == x + 0.5) ==> n % 2 == 0
    ensures x >= 0.0 ==> n >= 0
  {
    var f := x.Floor;
    var d := x - f as real;
    if d < 0.5 then f
    else if d > 0.5 then f + 1
    else if f % 2 == 0 then f
    else f + 1
  }

  /** One display line: the icon and the document, the page when it is
      truthy, and the score as a whole percentage. */
  function DisplayLine(c: Citation): string {
    DocumentIcon + c.document + PageNote(c.page) + " - " + Percentage(c.score) + " match"
  }

  /** The page part of a display line. */
  function PageNote(page: Option<nat>): (r: string)
    ensures r == "" <==> !PageTruthy(page)
  {
    if PageTruthy(page) then " (Page " + NatToString(page.value) + ")" else ""
  }

  /** What `format_sources_for_display` returns. */
  function DisplayText(sources: seq<Citation>): string {
    if sources == [] then NoSources else Join(MapSeq(FirstOfEach(sources), DisplayLine), "\n")
  }

  /** One step of the `seen` loop. */
  lemma FirstOfEachStep(sources: seq<Citation>, i: nat)
    requires i < |sources|
    ensures Documents(sources[..i + 1]) == Documents(sources[..i]) + {sources[i].document}
    ensures FirstOfEach(sources[..i + 1])
         == FirstOfEach(sources[..i]) + (if sources[i].document in Documents(sources[..i]) then [] else [sources[i]])
  {
    assert sources[..i + 1][..i] == sources[..i];
  }

  /** `format_sources_for_display`: "No sources found." for no citations;
      otherwise one line per citation whose document is not yet in `seen`,
      joined by newlines. */
  method FormatSourcesForDisplay(sources: seq<Citation>) returns (r: string)
    ensures r == DisplayText(sources)
  {
    if sources == [] {
      return NoSources;
    }
    var lines: seq<string> := [];
    var seen: set<string> := {};
    for i := 0 to |sources|
      invariant seen == Documents(sources[..i])
      invariant lines == MapSeq(FirstOfEach(sources[..i]), DisplayLine)
    {
      var source := sources[i];
      var doc := source.document;
      FirstOfEachStep(sources, i);
      if doc in seen {
        continue;
      }
      seen := seen + {doc};
      var pageInfo := "";
      if source.page.Some? && source.page.value != 0 {
        pageInfo := " (Page " + NatToString(source.page.value) + ")";
      }
      var line := DocumentIcon + doc + pageInfo + " - " + Percentage(source.score) + " match";
      MapSeqAppend(FirstOfEach(sources[..i]), source, DisplayLine);
      lines := lines + [line];
    }
    assert sources[..|sources|] == sources;
    return Join(lines, "\n");
  }

  /** `FirstOfEach` keeps exactly the first citation of each document, in
      the order of those first citations: `Origins` are their positions,
      increasing, and every first citation is among them. */
  lemma FirstOfEachOrigins(sources: seq<Citation>)
    ensures var kept, at := FirstOfEach(sources), Origins(sources);
            && |at| == |kept|
            && (forall k | 0 <= k < |at| :: at[k] < |sources| && kept[k] == sources[at[k]] && FirstAt(sources, at[k]))
            && (forall k, l | 0 <= k < l < |at| :: at[k] < at[l])
            && (forall i | 0 <= i < |sources| && FirstAt(sources, i) :: i in at)
  {
    OriginsKept(sources);
    OriginsComplete(sources);
  }

  /** The positions `Origins` lists are increasing first citations, and the
      kept citations are the citations there. */
  lemma {:induction false} OriginsKept(sources: seq<Citation>)
    ensures var kept, at := FirstOfEach(sources), Origins(sources);
            && |at| == |kept|
            && (forall k | 0 <= k < |at| :: at[k] < |sources| && kept[k] == sources[at[k]] && FirstAt(sources, at[k]))
            && (forall k, l | 0 <= k < l < |at| :: at[k] < at[l])
  {
    if sources != [] {
      var n := |sources| - 1;
      var init := sources[..n];
      OriginsKept(init);
      var kept, at := FirstOfEach(sources), Origins(sources);
      var keptInit, atInit := FirstOfEach(init), Origins(init);
      forall k | 0 <= k < |atInit|
        ensures at[k] < |sources| && kept[k] == sources[at[k]] && FirstAt(sources, at[k])
      {
        assert at[k] == atInit[k] && kept[k] == keptInit[k];
        assert sources[..at[k]] == init[..at[k]];
      }
    }
  }

  /** Every first citation has its position in `Origins`. */
  lemma {:induction false} OriginsComplete(sources: seq<Citation>)
    ensures forall i | 0 <= i < |sources| && FirstAt(sources, i) :: i in Origins(sources)
  {
    if sources != [] {
      var n := |sources| - 1;
      var init := sources[..n];
      OriginsComplete(init);
      var at := Origins(sources);
      assert at == Origins(init) + (if sources[n].document in Documents(init) then [] else [n]);
      forall i | 0 <= i < |sources| && FirstAt(sources, i) ensures i in at {
        if i < n {
          assert sources[..i] == init[..i];
          assert FirstAt(init, i);
          assert i in Origins(init);
        }
      }
    }
  }

  /** The kept citations name distinct documents. */
  lemma KeptDistinct(sources: seq<Citation>)
    ensures var kept := FirstOfEach(sources);
            forall k, l | 0 <= k < l < |kept| :: kept[k].document != kept[l].document
  {
    FirstOfEachOrigins(sources);
    var kept, at := FirstOfEach(sources), Origins(sources);
    forall k, l | 0 <= k < l < |kept| ensures kept[k].document != kept[l].document {
      var prefix := sources[..at[l]];
      assert prefix[at[k]] == sources[at[k]];
      DocumentsNamed(prefix, kept[k].document);
    }
  }

  /** The kept citations name every document of the citations. */
  lemma KeptDocuments(sources: seq<Citation>)
    ensures Documents(FirstOfEach(sources)) == Documents(sources)
  {
    FirstOfEachOrigins(sources);
    var kept, at := FirstOfEach(sources), Origins(sources);
    forall d | d in Documents(sources) ensures d in Documents(kept) {
      var i := FirstIndex(sources, d);
      var k :| 0 <= k < |at| && at[k] == i;
      assert kept[k].document == d;
      DocumentsNamed(kept, d);
    }
    forall d | d in Documents(kept) ensures d in Documents(sources) {
      DocumentsNamed(kept, d);
      var k :| 0 <= k < |kept| && kept[k].document == d;
      assert sources[at[k]].document == d;
      DocumentsNamed(sources, d);
    }
  }

  /** So there is one display line per distinct document. */
  lemma FirstOfEachDocuments(sources: seq<Citation>)
    ensures var kept := FirstOfEach(sources);
            && (forall k, l | 0 <= k < l < |kept| :: kept[k].document != kept[l].document)
            && Documents(kept) == Documents(sources)
            && |kept| == |Documents(sources)|
  {
    KeptDistinct(sources);
    KeptDocuments(sources);
    var kept := FirstOfEach(sources);
    var names := MapSeq(kept, DocumentOf);
    assert Elements(names) == Documents(kept) by {
      forall d ensures d in Documents(kept) <==> d in names {
        DocumentsNamed(kept, d);
        if d in Documents(kept) {
          var k :| 0 <= k < |kept| && kept[k].document == d;
          assert names[k] == d;
        }
      }
    }
  }

  /** The position of the first citation naming a document. */
  lemma {:induction false} FirstIndexExists(sources: seq<Citation>, d: string)
    requires d in Documents(sources)
    ensures exists i | 0 <= i < |sources| :: sources[i].document == d && FirstAt(sources, i)
  {
    var n := |sources| - 1;
    var init := sources[..n];
    if d in Documents(init) {
      FirstIndexExists(init, d);
      var i :| 0 <= i < |init| && init[i].document == d && FirstAt(init, i);
      assert sources[..i] == init[..i];
    } else {
      assert FirstAt(sources, n);
    }
  }

  ghost function FirstIndex(sources: seq<Citation>, d: string): (i: nat)
    requires d in Documents(sources)
    ensures i < |sources| && sources[i].document == d && FirstAt(sources, i)
  {
    FirstIndexExists(sources, d);
    var i :| 0 <= i < |sources| && sources[i].document == d && FirstAt(sources, i);
    i
  }

  /** The percentage text is an optional minus sign, the decimal digits of
      the score times 100 rounded half to even, and "%". */
  lemma PercentageDigits(score: real)
    ensures var p := Percentage(score);
            var start := if score < 0.0 then 1 else 0;
            && start < |p| - 1 && p[|p| - 1] == '%'
            && (score < 0.0 ==> p[0] == '-')
            && AllDigits(p[start..|p| - 1])
            && DigitsValue(p[start..|p| - 1]) == RoundHalfEven((if score < 0.0 then -score else score) * 100.0)
  {
    var magnitude := if score < 0.0 then -score else score;
    var digits := NatToString(RoundHalfEven(magnitude * 100.0));
    var sign := if score < 0.0 then "-" else "";
    assert Percentage(score) == sign + digits + "%";
    assert (sign + digits + "%")[|sign|..|sign| + |digits|] == digits;
    DigitsValueOfNatToString(RoundHalfEven(magnitude * 100.0));
  }

  /** A display line breaks no line unless its document name does. */
  lemma DisplayLineSingle(c: Citation)
    requires '\n' !in c.document
    ensures '\n' !in DisplayLine(c)
  {
    var magnitude := if c.score < 0.0 then -c.score else c.score;
    assert '\n' !in NatToString(RoundHalfEven(magnitude * 100.0));
    assert '\n' !in Percentage(c.score);
    assert '\n' !in PageNote(c.page);
  }

  /** When no document name holds a line break, the display text splits
      into exactly one line per distinct document, in first-occurrence
      order. */
  lemma DisplayLines(sources: seq<Citation>)
    requires sources != []
    requires forall i | 0 <= i < |sources| :: '\n' !in sources[i].document
    ensures SplitOn(DisplayText(sources), '\n') == MapSeq(FirstOfEach(sources), DisplayLine)
    ensures |SplitOn(DisplayText(sources), '\n')| == |Documents(sources)|
  {
    FirstOfEachDocuments(sources);
    OriginsKept(sources);
    var kept := FirstOfEach(sources);
    var lines := MapSeq(kept, DisplayLine);
    assert kept != [] by {
      assert sources[0].document in Documents(sources) by {
        DocumentsNamed(sources, sources[0].document);
      }
    }
    forall k | 0 <= k < |lines| ensures '\n' !in lines[k] {
      DisplayLineSingle(kept[k]);
    }
    SplitOnJoin(lines, '\n');
  }

  // ---------------------------------------------------------------------
  // get_context_stats

  /** `get_context_stats`; the document list comes from a set, so its order
      is not modelled. */
  datatype ContextStats = ContextStats(numChunks: nat, numDocuments: nat, avgConfidence: real, documents: set<string>)

  function GetContextStats(result: RetrievalResult): (s: ContextStats)
    ensures result.sources == [] ==> s == ContextStats(0, 0, 0.0, {})
    ensures result.sources != [] ==>
              && s.numChunks == result.numChunks && s.avgConfidence == result.confidence
              && (forall d :: d in s.documents <==> exists c | c in result.sources :: c.document == d)
              && s.numDocuments == |s.documents| <= |result.sources|
  {
    if result.sources == [] then ContextStats(0, 0, 0.0, {})
    else
      var docs := Documents(result.sources);
      assert forall d :: d in docs <==> exists c | c in result.sources :: c.document == d by {
        forall d ensures d in docs <==> exists c | c in result.sources :: c.document == d {
          DocumentsNamed(result.sources, d);
          if d in docs {
            var i :| 0 <= i < |result.sources| && result.sources[i].document == d;
            assert result.sources[i] in result.sources;
          }
          if c :| c in result.sources && c.document == d {
            var i :| 0 <= i < |result.sources| && result.sources[i] == c;
          }
        }
      }
      ContextStats(result.numChunks, |docs|, result.confidence, docs)
  }

  /** The statistics count one document per line of the display, and a
      retrieval names at most as many documents as it has chunks. */
  lemma StatsMatchDisplay(hits: seq<SearchHit>, minScore: real)
    ensures var r := Retrieval(hits, minScore);
            var s := GetContextStats(r);
            && (r.sources != [] ==> s.numDocuments == |FirstOfEach(r.sources)|)
            && s.numDocuments <= s.numChunks
  {
    var r := Retrieval(hits, minScore);
    FirstOfEachDocuments(r.sources);
    RetrievalSources(hits, minScore);
  }

  // ---------------------------------------------------------------------
  // The engine

  /** `RAGEngine`: the retrieval side over a document store. */
  class RAGEngine {
    const store: DocumentStore

    constructor(store: DocumentStore)
      ensures this.store == store
    {
      this.store := store;
    }

    /** `retrieve`: search the store for the `top_k` best chunks, then
        assemble the hits; an exception of the search is passed on. The
        ghost `hits` are what the search returned and `selected` the rows
        it picked: the chunks at a top selection of the similarity scores,
        best first. */
    method Retrieve(query: string, topK: int, minScore: real)
      returns (r: Result<RetrievalResult, StoreError>, ghost hits: seq<SearchHit>, ghost selected: seq<nat>)
      modifies store
      ensures store.chunks == old(store.chunks) && store.embeddings == old(store.embeddings)
      ensures store.disk == old(store.disk)
      ensures r.Success? ==> r.value == Retrieval(hits, minScore)
      ensures store.chunks == [] || store.embeddings.None? ==> hits == [] && r == Success(NoRetrieval)
      ensures store.chunks != [] && store.embeddings.Some? && !(old(store.embedderLoaded) || store.embedderInstalled) ==>
                r == Failure(EmbedderMissing)
      ensures store.chunks != [] && store.embeddings.Some? && (old(store.embedderLoaded) || store.embedderInstalled) ==>
                var rows := store.embeddings.value;
                var scores := MapSeq(rows, (row: Vector) => store.similarity(store.encode(query), row));
                && IsTopSelection(scores, TopCount(topK, |rows|), selected)
                && (r.Success? <==> forall i | 0 <= i < |selected| :: selected[i] < |store.chunks|)
                && (r.Success? ==>
                      && |hits| == |selected|
                      && forall i | 0 <= i < |selected| ::
                           hits[i] == Hit(store.chunks[selected[i]], scores[selected[i]]))
      ensures r.Success? ==> forall i, j | 0 <= i < j < |hits| :: hits[i].score >= hits[j].score
      ensures (old(store.Synced()) && store.chunks != [] &&
               (old(store.embedderLoaded) || store.embedderInstalled)) ==> r.Success?
      ensures r.Failure? ==> r.error == EmbedderMissing || r.error.ChunkIndexOutOfRange?
    {
      var found;
      found, selected := store.Search(query, topK);
      hits := [];
      if found.Failure? {
        return Failure(found.error), hits, selected;
      }
      hits := found.value;
      var assembled := Assemble(found.value, minScore);
      return Success(assembled), hits, selected;
    }
  }
}
