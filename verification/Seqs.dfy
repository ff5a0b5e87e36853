/** Generic sequence helpers: the list comprehensions `[x for x in s if p(x)]`
    and `[f(x) for x in s]`, and `set(f(x) for x in s)`. */
module Seqs {

  /** `[f(x) for x in s]` */
  function MapSeq<T, U>(s: seq<T>, f: T -> U): (r: seq<U>)
    ensures |r| == |s|
    ensures forall i | 0 <= i < |s| :: r[i] == f(s[i])
  {
    seq(|s|, i requires 0 <= i < |s| => f(s[i]))
  }

  /** Mapping over one more element appends its image. */
  lemma MapSeqAppend<T, U>(s: seq<T>, x: T, f: T -> U)
    ensures MapSeq(s + [x], f) == MapSeq(s, f) + [f(x)]
  {
  }

  /** `[x for x in s if keep(x)]` */
  function Filter<T>(s: seq<T>, keep: T -> bool): (r: seq<T>)
    ensures |r| <= |s|
    ensures forall x | x in r :: x in s && keep(x)
  {
    if s == [] then []
    else if keep(s[0]) then [s[0]] + Filter(s[1..], keep)
    else Filter(s[1..], keep)
  }

  /** Filtering keeps every element the predicate accepts. */
  lemma {:induction false} FilterKeeps<T>(s: seq<T>, keep: T -> bool, x: T)
    requires x in s && keep(x)
    ensures x in Filter(s, keep)
  {
    if s[0] != x {
      assert x in s[1..];
      FilterKeeps(s[1..], keep, x);
    }
  }

  /** Filtering a concatenation filters each part in place: the survivors
      keep their relative order. */
  lemma {:induction false} FilterAppend<T>(a: seq<T>, b: seq<T>, keep: T -> bool)
    ensures Filter(a + b, keep) == Filter(a, keep) + Filter(b, keep)
  {
    if a == [] {
      assert a + b == b;
    } else {
      assert (a + b)[0] == a[0];
      assert (a + b)[1..] == a[1..] + b;
      FilterAppend(a[1..], b, keep);
    }
  }

  /** One step of a loop that maps and filters `s` element by element. */
  lemma KeepStep<T, U>(s: seq<T>, i: nat, f: T -> U, keep: U -> bool)
    requires i < |s|
    ensures Filter(MapSeq(s[..i + 1], f), keep)
         == Filter(MapSeq(s[..i], f), keep) + (if keep(f(s[i])) then [f(s[i])] else [])
  {
    assert s[..i + 1] == s[..i] + [s[i]];
    MapSeqAppend(s[..i], s[i], f);
    FilterAppend(MapSeq(s[..i], f), [f(s[i])], keep);
  }

  /** One step of a loop that filters `s` and maps the survivors, element
      by element. */
  lemma FilterMapStep<T, U>(s: seq<T>, i: nat, keep: T -> bool, f: T -> U)
    requires i < |s|
    ensures MapSeq(Filter(s[..i + 1], keep), f)
         == MapSeq(Filter(s[..i], keep), f) + (if keep(s[i]) then [f(s[i])] else [])
  {
    assert s[..i + 1] == s[..i] + [s[i]];
    FilterAppend(s[..i], [s[i]], keep);
    MapSeqConcat(Filter(s[..i], keep), Filter([s[i]], keep), f);
  }

  /** Mapping distributes over concatenation. */
  lemma MapSeqConcat<T, U>(a: seq<T>, b: seq<T>, f: T -> U)
    ensures MapSeq(a + b, f) == MapSeq(a, f) + MapSeq(b, f)
  {
  }

  /** A filter that every element passes is the identity. */
  lemma {:induction false} FilterAll<T>(s: seq<T>, keep: T -> bool)
    requires forall x | x in s :: keep(x)
    ensures Filter(s, keep) == s
  {
    if s != [] {
      assert forall x | x in s[1..] :: x in s;
      FilterAll(s[1..], keep);
    }
  }

  /** `any(p(x) for x in s)`, taken from the end so that a loop over `s`
      extends it one element at a time. */
  predicate Any<T>(s: seq<T>, p: T -> bool) {
    if s == [] then false else Any(s[..|s| - 1], p) || p(s[|s| - 1])
  }

  /** `Any` holds exactly when some element satisfies the predicate. */
  lemma {:induction false} AnyExists<T>(s: seq<T>, p: T -> bool)
    ensures Any(s, p) <==> exists k | 0 <= k < |s| :: p(s[k])
  {
    if s != [] {
      var n := |s| - 1;
      var init := s[..n];
      AnyExists(init, p);
      if Any(s, p) && Any(init, p) {
        var k :| 0 <= k < |init| && p(init[k]);
        assert s[k] == init[k];
      }
      if !Any(s, p) {
        forall k | 0 <= k < |s| ensures !p(s[k]) {
          if k < n {
            assert s[k] == init[k];
          }
        }
      }
    }
  }

  /** One more element: `Any` holds when it held before or the element
      satisfies the predicate. */
  lemma AnyStep<T>(s: seq<T>, i: nat, p: T -> bool)
    requires i < |s|
    ensures Any(s[..i + 1], p) <==> Any(s[..i], p) || p(s[i])
  {
    assert s[..i + 1][..i] == s[..i];
  }

  /** Concatenation is associative. */
  lemma AppendAssoc<T>(a: seq<T>, b: seq<T>, c: seq<T>)
    ensures (a + b) + c == a + (b + c)
  {
  }

  /** Filtering with a predicate that rejects every element leaves nothing. */
  lemma {:induction false} FilterNone<T>(s: seq<T>, keep: T -> bool)
    requires forall x | x in s :: !keep(x)
    ensures Filter(s, keep) == []
  {
    if s != [] {
      assert s[0] in s;
      assert forall x | x in s[1..] :: x in s;
      FilterNone(s[1..], keep);
    }
  }

  /** `set(f(x) for x in s)`: never larger than the sequence it comes from. */
  function Image<T, U>(s: seq<T>, f: T -> U): (r: set<U>)
    ensures |r| <= |s|
    ensures forall x | x in s :: f(x) in r
    ensures forall y | y in r :: exists i | 0 <= i < |s| :: f(s[i]) == y
  {
    if s == [] then {}
    else
      var rest := Image(s[1..], f);
      assert forall x | x in s[1..] :: x in s;
      assert forall y | y in rest :: exists i | 0 <= i < |s| :: f(s[i]) == y by {
        forall y | y in rest ensures exists i | 0 <= i < |s| :: f(s[i]) == y {
          var j :| 0 <= j < |s| - 1 && f(s[1..][j]) == y;
          assert f(s[j + 1]) == y;
        }
      }
      {f(s[0])} + rest
  }

  /** No element occurs twice. */
  predicate Distinct<T(==)>(s: seq<T>) {
    forall i, j | 0 <= i < j < |s| :: s[i] != s[j]
  }

  /** The elements of a sequence, as a set. */
  function Elements<T(==)>(s: seq<T>): (r: set<T>)
    ensures forall x | x in s :: x in r
    ensures forall x | x in r :: x in s
    ensures |r| <= |s|
    ensures Distinct(s) ==> |r| == |s|
  {
    if s == [] then {}
    else
      var rest := Elements(s[1..]);
      assert forall x | x in s[1..] :: x in s;
      assert forall x | x in s :: x == s[0] || x in s[1..];
      if s[0] in rest then
        assert !Distinct(s) by {
          var j :| 0 <= j < |s| - 1 && s[1..][j] == s[0];
          assert s[0] == s[j + 1];
        }
        rest
      else
        assert Distinct(s) ==> Distinct(s[1..]) by {
          if Distinct(s) {
            forall i, j | 0 <= i < j < |s| - 1 ensures s[1..][i] != s[1..][j] {
              assert s[1..][i] == s[i + 1] && s[1..][j] == s[j + 1];
            }
          }
        }
        {s[0]} + rest
  }

  /** Pigeonhole: a sequence without repetitions whose elements all occur in
      `ys` is no longer than `ys`. */
  lemma Pigeonhole<T>(xs: seq<T>, ys: seq<T>)
    requires Distinct(xs)
    requires forall x | x in xs :: x in ys
    ensures |xs| <= |ys|
  {
    var a := Elements(xs);
    var b := Elements(ys);
    assert a <= b;
    SubsetCard(a, b);
  }

  lemma SubsetCard<T>(a: set<T>, b: set<T>)
    requires a <= b
    ensures |a| <= |b|
  {
    assert b == a + (b - a);
  }
}
