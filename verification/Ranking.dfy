/** The ranking step of the document store's search
    (core/document_store.py): `np.argsort(similarities)[-top_k:][::-1]`,
    the indices of the highest scores, best first. */
module Ranking {
  import opened Strings
  import opened Seqs

  function Max(a: int, b: int): int {
    if a >= b then a else b
  }

  /** How many indices `a[-top_k:]` keeps of an `n`-element array: Python
      starts the slice at `n - top_k` (never below 0) for a positive
      `top_k`, at 0 for `-0 == 0`, and at `-top_k` (never beyond `n`) for a
      negative one. */
  function TopCount(topK: int, n: nat): (c: nat)
    ensures c <= n
    ensures topK >= 1 ==> c == Min(topK, n)
    ensures topK == 0 ==> c == n
    ensures topK < 0 ==> c == Max(n + topK, 0)
  {
    var start := if topK > 0 then Max(n - topK, 0) else if topK == 0 then 0 else Min(-topK, n);
    n - start
  }

  /** `idx` lists `count` distinct positions of `scores`, best score first,
      and no position left out scores higher than one that was taken: what
      any ascending argsort, sliced and reversed, gives, whatever order it
      puts equal scores in. */
  predicate IsTopSelection(scores: seq<real>, count: nat, idx: seq<nat>) {
    && |idx| == count
    && (forall i | 0 <= i < |idx| :: idx[i] < |scores|)
    && Distinct(idx)
    && (forall i, j | 0 <= i < j < |idx| :: scores[idx[i]] >= scores[idx[j]])
    && (forall i, k | 0 <= i < |idx| && 0 <= k < |scores| && k !in idx :: scores[k] <= scores[idx[i]])
  }

  /** The positions `0 .. n-1`. */
  function Range(n: nat): (r: seq<nat>)
    ensures |r| == n && Distinct(r)
    ensures forall k | 0 <= k < n :: r[k] == k
  {
    seq(n, k requires 0 <= k < n => k)
  }

  /** The position of a highest score among those not yet taken. */
  method PickBest(scores: seq<real>, taken: seq<nat>) returns (best: nat)
    requires |taken| < |scores|
    requires forall i | 0 <= i < |taken| :: taken[i] < |scores|
    requires Distinct(taken)
    ensures best < |scores| && best !in taken
    ensures forall k | 0 <= k < |scores| && k !in taken :: scores[k] <= scores[best]
  {
    var found := false;
    best := 0;
    var k := 0;
    while k < |scores|
      invariant 0 <= k <= |scores|
      invariant found ==> best < k && best !in taken
      invariant found ==> forall j | 0 <= j < k && j !in taken :: scores[j] <= scores[best]
      invariant !found ==> forall j | 0 <= j < k :: j in taken
    {
      if k !in taken && (!found || scores[k] > scores[best]) {
        best := k;
        found := true;
      }
      k := k + 1;
    }
    if !found {
      var all := Range(|scores|);
      assert forall x | x in all :: x in taken by {
        forall x | x in all ensures x in taken {
          var k :| 0 <= k < |all| && all[k] == x;
        }
      }
      Pigeonhole(all, taken);
      assert false;
    }
  }

  /** Repeatedly take the best remaining position: `count` positions, best
      first. */
  method SelectTop(scores: seq<real>, count: nat) returns (idx: seq<nat>)
    requires count <= |scores|
    ensures IsTopSelection(scores, count, idx)
  {
    idx := [];
    while |idx| < count
      invariant |idx| <= count
      invariant forall i | 0 <= i < |idx| :: idx[i] < |scores|
      invariant Distinct(idx)
      invariant forall i, j | 0 <= i < j < |idx| :: scores[idx[i]] >= scores[idx[j]]
      invariant forall i, k | 0 <= i < |idx| && 0 <= k < |scores| && k !in idx :: scores[k] <= scores[idx[i]]
      decreases count - |idx|
    {
      var best := PickBest(scores, idx);
      forall k | 0 <= k < |scores| && k !in idx + [best]
        ensures scores[k] <= scores[best]
      {
      }
      idx := idx + [best];
    }
  }

  /** Two top selections of the same size agree on the scores, position by
      position: the search's scores are determined, and only the order of
      tied positions is left to the sort. */
  lemma TopScoresAgree(scores: seq<real>, count: nat, a: seq<nat>, b: seq<nat>)
    requires IsTopSelection(scores, count, a)
    requires IsTopSelection(scores, count, b)
    ensures forall i | 0 <= i < count :: scores[a[i]] == scores[b[i]]
  {
    forall i | 0 <= i < count ensures scores[a[i]] == scores[b[i]] {
      NotAhead(scores, count, a, b, i);
      NotAhead(scores, count, b, a, i);
    }
  }

  /** The `i`-th score of one top selection is no higher than the `i`-th of
      another: otherwise the first `i + 1` positions of the one would all
      sit among the first `i` of the other. */
  lemma NotAhead(scores: seq<real>, count: nat, a: seq<nat>, b: seq<nat>, i: nat)
    requires IsTopSelection(scores, count, a)
    requires IsTopSelection(scores, count, b)
    requires i < count
    ensures scores[a[i]] <= scores[b[i]]
  {
    if scores[a[i]] > scores[b[i]] {
      var prefix := a[..i + 1];
      forall x | x in prefix ensures x in b[..i] {
        var j :| 0 <= j <= i && a[j] == x;
        AheadOfBoth(scores, count, a, b, i, j);
      }
      assert Distinct(prefix) by {
        forall p, q | 0 <= p < q < |prefix| ensures prefix[p] != prefix[q] {
          assert prefix[p] == a[p] && prefix[q] == a[q];
        }
      }
      Pigeonhole(prefix, b[..i]);
    }
  }

  /** Under the assumption that `a` ranks a higher score `i`-th than `b`
      does, each of `a`'s first `i + 1` rows is among `b`'s first `i`. */
  lemma AheadOfBoth(scores: seq<real>, count: nat, a: seq<nat>, b: seq<nat>, i: nat, j: nat)
    requires IsTopSelection(scores, count, a)
    requires IsTopSelection(scores, count, b)
    requires j <= i < count
    requires scores[a[i]] > scores[b[i]]
    ensures a[j] in b[..i]
  {
    var x := a[j];
    assert scores[x] >= scores[a[i]];
    assert x in b;
    var m :| 0 <= m < |b| && b[m] == x;
    assert m < i;
    assert b[..i][m] == x;
  }
}
