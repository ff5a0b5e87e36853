/** Python `str` operations that the parsers, the chunker and the retrieval
    engine rely on, as functions over `seq<char>`. */
module Strings {

  /** `c.isspace()`: the characters that `str.split()` with no argument and
      `str.strip()` with no argument treat as whitespace. */
  predicate IsSpace(c: char) {
    c == ' ' || ('\t' <= c <= '\r') || ('\U{1C}' <= c <= '\U{1F}')
    || c == '\U{85}' || c == '\U{A0}' || c == '\U{1680}'
    || ('\U{2000}' <= c <= '\U{200A}') || c == '\U{2028}' || c == '\U{2029}'
    || c == '\U{202F}' || c == '\U{205F}' || c == '\U{3000}'
  }

  predicate NoSpace(w: string) {
    forall k | 0 <= k < |w| :: !IsSpace(w[k])
  }

  predicate IsDigit(c: char) {
    '0' <= c <= '9'
  }

  predicate AllDigits(s: string) {
    forall k | 0 <= k < |s| :: IsDigit(s[k])
  }

  function Min(a: int, b: int): int {
    if a <= b then a else b
  }

  // ---------------------------------------------------------------------
  // sep.join(parts)

  /** `sep.join(parts)` */
  function Join(parts: seq<string>, sep: string): string
  {
    if |parts| == 0 then ""
    else if |parts| == 1 then parts[0]
    else parts[0] + sep + Join(parts[1..], sep)
  }

  /** Joining non-empty parts gives the empty string exactly when there are
      no parts. */
  lemma {:induction false} JoinEmptyIff(parts: seq<string>, sep: string)
    requires forall k | 0 <= k < |parts| :: parts[k] != ""
    ensures Join(parts, sep) == "" <==> parts == []
  {
    if |parts| >= 2 {
      assert |Join(parts, sep)| >= |parts[0]| > 0;
    }
  }

  /** A join starts with its first part. */
  lemma JoinStartsWith(parts: seq<string>, sep: string)
    requires parts != []
    ensures |parts[0]| <= |Join(parts, sep)| && Join(parts, sep)[..|parts[0]|] == parts[0]
  {
    if |parts| >= 2 {
      assert Join(parts, sep) == parts[0] + (sep + Join(parts[1..], sep));
    }
  }

  /** A character that occurs neither in the parts nor in the separator does
      not occur in their join. */
  lemma {:induction false} JoinAvoids(parts: seq<string>, sep: string, c: char)
    requires forall k | 0 <= k < |parts| :: c !in parts[k]
    requires c !in sep
    ensures c !in Join(parts, sep)
  {
    if |parts| >= 2 {
      JoinAvoids(parts[1..], sep, c);
    }
  }

  /** A join is at least as long as any one of its parts. */
  lemma {:induction false} JoinHasPart(parts: seq<string>, sep: string, k: nat)
    requires k < |parts|
    ensures |Join(parts, sep)| >= |parts[k]|
  {
    if k > 0 {
      JoinHasPart(parts[1..], sep, k - 1);
    }
  }

  // ---------------------------------------------------------------------
  // s.split() with no argument

  /** Index of the first whitespace character at or after `i`, or `|s|`. */
  function WordEnd(s: string, i: nat): (e: nat)
    requires i <= |s|
    ensures i <= e <= |s|
    ensures forall k | i <= k < e :: !IsSpace(s[k])
    ensures e < |s| ==> IsSpace(s[e])
    decreases |s| - i
  {
    if i == |s| || IsSpace(s[i]) then i else WordEnd(s, i + 1)
  }

  /** `s.split()`: the maximal runs of non-whitespace characters, in order. */
  function SplitWords(s: string): (r: seq<string>)
    ensures forall k | 0 <= k < |r| :: r[k] != "" && NoSpace(r[k])
    decreases |s|
  {
    if s == [] then []
    else if IsSpace(s[0]) then SplitWords(s[1..])
    else
      var e := WordEnd(s, 0);
      [s[..e]] + SplitWords(s[e..])
  }

  /** Splitting words that were joined by single spaces gives them back:
      `" ".join(ws).split() == ws` for non-empty, whitespace-free words. */
  lemma {:induction false} SplitJoinWords(ws: seq<string>)
    requires forall k | 0 <= k < |ws| :: ws[k] != "" && NoSpace(ws[k])
    ensures SplitWords(Join(ws, " ")) == ws
  {
    if |ws| == 1 {
      var w := ws[0];
      assert WordEnd(w, 0) == |w|;
      assert w[..|w|] == w && w[|w|..] == [];
    } else if |ws| >= 2 {
      var w := ws[0];
      var tail := Join(ws[1..], " ");
      var s := Join(ws, " ");
      assert s == w + " " + tail;
      assert s[0] == w[0];
      assert s[|w|] == ' ';
      assert forall k | 0 <= k < |w| :: s[k] == w[k];
      var e := WordEnd(s, 0);
      assert e == |w|;
      assert s[..e] == w;
      assert s[e..] == " " + tail;
      assert (" " + tail)[1..] == tail;
      SplitJoinWords(ws[1..]);
    }
  }

  // ---------------------------------------------------------------------
  // s.split(c) for a one-character separator

  /** Index of the first `c` in `s`, or `|s|`. */
  function IndexOf(s: string, c: char): (i: nat)
    ensures i <= |s|
    ensures forall k | 0 <= k < i :: s[k] != c
    ensures i < |s| ==> s[i] == c
  {
    if s == [] then 0
    else if s[0] == c then 0
    else 1 + IndexOf(s[1..], c)
  }

  /** `s.split(c)`: the pieces between occurrences of `c`; always at least one. */
  function SplitOn(s: string, c: char): (r: seq<string>)
    ensures |r| >= 1
    ensures forall k | 0 <= k < |r| :: c !in r[k]
    decreases |s|
  {
    var i := IndexOf(s, c);
    if i == |s| then [s] else [s[..i]] + SplitOn(s[i + 1..], c)
  }

  /** Splitting and re-joining on the same character gives back the string. */
  lemma {:induction false} JoinSplitOn(s: string, c: char)
    ensures Join(SplitOn(s, c), [c]) == s
    decreases |s|
  {
    var i := IndexOf(s, c);
    if i < |s| {
      var rest := SplitOn(s[i + 1..], c);
      assert SplitOn(s, c) == [s[..i]] + rest;
      assert ([s[..i]] + rest)[1..] == rest;
      assert Join(SplitOn(s, c), [c]) == s[..i] + [c] + Join(rest, [c]);
      JoinSplitOn(s[i + 1..], c);
      assert s == s[..i] + [c] + s[i + 1..];
    }
  }

  /** Joining pieces that do not contain `c` with `c` and splitting on `c`
      gives back the pieces: one piece per line, one cell per column. */
  lemma {:induction false} SplitOnJoin(parts: seq<string>, c: char)
    requires |parts| >= 1
    requires forall k | 0 <= k < |parts| :: c !in parts[k]
    ensures SplitOn(Join(parts, [c]), c) == parts
  {
    var p := parts[0];
    assert IndexOf(p, c) == |p|;
    if |parts| >= 2 {
      var tail := Join(parts[1..], [c]);
      var s := Join(parts, [c]);
      assert s == p + [c] + tail;
      assert forall k | 0 <= k < |p| :: s[k] == p[k];
      assert s[|p|] == c;
      assert IndexOf(s, c) == |p|;
      assert s[..|p|] == p;
      assert s[|p| + 1..] == tail;
      SplitOnJoin(parts[1..], c);
    }
  }

  // ---------------------------------------------------------------------
  // s.strip()

  /** Number of leading whitespace characters. */
  function LeadingSpaces(s: string): (n: nat)
    ensures n <= |s|
    ensures forall k | 0 <= k < n :: IsSpace(s[k])
    ensures n < |s| ==> !IsSpace(s[n])
  {
    if s == [] || !IsSpace(s[0]) then 0 else 1 + LeadingSpaces(s[1..])
  }

  /** Number of trailing whitespace characters. */
  function TrailingSpaces(s: string): (n: nat)
    ensures n <= |s|
    ensures forall k | |s| - n <= k < |s| :: IsSpace(s[k])
    ensures n < |s| ==> !IsSpace(s[|s| - n - 1])
  {
    if s == [] || !IsSpace(s[|s| - 1]) then 0 else 1 + TrailingSpaces(s[..|s| - 1])
  }

  /** `s.strip()`: `s` without its leading and trailing whitespace, a slice
      of `s` that starts after its leading whitespace. */
  function Strip(s: string): (r: string)
    ensures LeadingSpaces(s) + |r| <= |s|
    ensures r == s[LeadingSpaces(s)..LeadingSpaces(s) + |r|]
  {
    var t := s[LeadingSpaces(s)..];
    t[..|t| - TrailingSpaces(t)]
  }

  /** The slice that `Strip` keeps runs from the first to the last
      non-whitespace character: what it drops is all whitespace, and the
      result is empty exactly when `s` is all whitespace. */
  lemma StripSpaces(s: string)
    ensures forall k | LeadingSpaces(s) + |Strip(s)| <= k < |s| :: IsSpace(s[k])
    ensures Strip(s) != "" ==> !IsSpace(Strip(s)[0]) && !IsSpace(Strip(s)[|Strip(s)| - 1])
    ensures Strip(s) == "" <==> forall k | 0 <= k < |s| :: IsSpace(s[k])
  {
    var n := LeadingSpaces(s);
    var t := s[n..];
    var m := TrailingSpaces(t);
    assert Strip(s) == t[..|t| - m];
    forall k | n + |Strip(s)| <= k < |s| ensures IsSpace(s[k]) {
      assert s[k] == t[k - n];
    }
    if n < |s| {
      assert t[0] == s[n];
      assert Strip(s)[0] == t[0];
      assert Strip(s)[|Strip(s)| - 1] == t[|t| - m - 1];
    }
  }

  /** Stripping a string that lacks a character cannot bring it in. */
  lemma StripAvoids(s: string, c: char)
    requires c !in s
    ensures c !in Strip(s)
  {
    var r := Strip(s);
    var n := LeadingSpaces(s);
    forall k | 0 <= k < |r| ensures r[k] != c {
      assert r[k] == s[n + k];
    }
  }

  // ---------------------------------------------------------------------
  // Prefixes, searching, lower-casing, path suffixes

  predicate StartsWith(s: string, prefix: string) {
    |prefix| <= |s| && s[..|prefix|] == prefix
  }

  predicate OccursAt(s: string, pat: string, i: int) {
    0 <= i && i + |pat| <= |s| && s[i..i + |pat|] == pat
  }

  /** `s[:n]`, which is the whole of `s` when it is shorter. */
  function Prefix(s: string, n: nat): (r: string)
    ensures |r| == Min(n, |s|)
    ensures StartsWith(s, r)
  {
    if |s| <= n then s else s[..n]
  }

  /** `s.find(pat, start)`: the lowest index at or after `start` where `pat`
      occurs, or -1 when there is none. */
  function Find(s: string, pat: string, start: nat): (r: int)
    ensures r == -1 || (start <= r && OccursAt(s, pat, r))
    ensures r != -1 ==> forall i | start <= i < r :: !OccursAt(s, pat, i)
    ensures r == -1 ==> forall i | start <= i :: !OccursAt(s, pat, i)
    decreases |s| - start
  {
    if start + |pat| > |s| then -1
    else if s[start..start + |pat|] == pat then start
    else Find(s, pat, start + 1)
  }

  /** The ASCII part of `str.lower()`. */
  function LowerChar(c: char): char {
    if 'A' <= c <= 'Z' then (c as int + 32) as char else c
  }

  /** `s.lower()` on ASCII letters; every other character is kept. */
  function Lower(s: string): string {
    if s == [] then [] else [LowerChar(s[0])] + Lower(s[1..])
  }

  /** Lower-casing maps each character on its own and keeps the length. */
  lemma {:induction false} LowerChars(s: string)
    ensures |Lower(s)| == |s|
    ensures forall k | 0 <= k < |s| :: Lower(s)[k] == LowerChar(s[k])
  {
    if s != [] {
      LowerChars(s[1..]);
    }
  }

  /** Index of the last `c` in `s`, or -1 (`s.rfind(c)`). */
  function LastIndexOf(s: string, c: char): (i: int)
    ensures -1 <= i < |s|
    ensures i >= 0 ==> s[i] == c
    ensures forall k | i < k < |s| :: s[k] != c
  {
    if s == [] then -1
    else if s[|s| - 1] == c then |s| - 1
    else LastIndexOf(s[..|s| - 1], c)
  }

  /** `PurePath(name).suffix`: from the last dot to the end, provided that dot
      is neither the first nor the last character of the name; otherwise "". */
  function Suffix(name: string): (r: string)
    ensures r == "" || (2 <= |r| < |name| && r[0] == '.' && name[|name| - |r|..] == r)
    ensures r != "" ==> '.' !in r[1..]
  {
    var i := LastIndexOf(name, '.');
    if 0 < i < |name| - 1 then
      assert forall k | 0 <= k < |name[i..]| - 1 :: name[i..][1..][k] == name[i + 1 + k];
      name[i..]
    else ""
  }

  // ---------------------------------------------------------------------
  // str(n) and int(digits)

  function DigitChar(d: nat): char
    requires d < 10
  {
    ('0' as int + d) as char
  }

  function DigitValue(c: char): nat
    requires IsDigit(c)
  {
    c as int - '0' as int
  }

  /** `str(n)` for a natural number: its decimal digits, most significant first. */
  function NatToString(n: nat): (r: string)
    ensures r != "" && AllDigits(r)
  {
    if n < 10 then [DigitChar(n)] else NatToString(n / 10) + [DigitChar(n % 10)]
  }

  /** `int(s)` for a string of decimal digits. */
  function DigitsValue(s: string): nat
    requires AllDigits(s)
  {
    if s == [] then 0 else DigitsValue(s[..|s| - 1]) * 10 + DigitValue(s[|s| - 1])
  }

  /** `int(str(n)) == n`. */
  lemma {:induction false} DigitsValueOfNatToString(n: nat)
    ensures DigitsValue(NatToString(n)) == n
  {
    var s := NatToString(n);
    if n >= 10 {
      DigitsValueOfNatToString(n / 10);
      assert s[..|s| - 1] == NatToString(n / 10);
    }
  }

  /** Index of the first non-digit at or after `i`, or `|s|`. */
  function DigitsEnd(s: string, i: nat): (e: nat)
    requires i <= |s|
    ensures i <= e <= |s|
    ensures AllDigits(s[i..e])
    ensures e < |s| ==> !IsDigit(s[e])
    decreases |s| - i
  {
    if i == |s| || !IsDigit(s[i]) then i else DigitsEnd(s, i + 1)
  }

  // ---------------------------------------------------------------------
  // s.splitlines()

  /** The line boundaries of `str.splitlines()`. */
  predicate IsLineBreak(c: char) {
    c == '\n' || c == '\r' || c == '\U{B}' || c == '\U{C}'
    || ('\U{1C}' <= c <= '\U{1E}') || c == '\U{85}' || c == '\U{2028}' || c == '\U{2029}'
  }

  /** Index of the first line boundary at or after `i`, or `|s|`. */
  function LineEnd(s: string, i: nat): (e: nat)
    requires i <= |s|
    ensures i <= e <= |s|
    ensures forall k | i <= k < e :: !IsLineBreak(s[k])
    ensures e < |s| ==> IsLineBreak(s[e])
    decreases |s| - i
  {
    if i == |s| || IsLineBreak(s[i]) then i else LineEnd(s, i + 1)
  }

  /** `s.splitlines()`: the lines of `s` without their boundaries; `"\r\n"` is
      one boundary, and a final boundary does not start an empty line. */
  function SplitLines(s: string): (r: seq<string>)
    ensures forall k | 0 <= k < |r| :: forall j | 0 <= j < |r[k]| :: !IsLineBreak(r[k][j])
    ensures s == "" <==> r == []
    decreases |s|
  {
    if s == [] then []
    else
      var e := LineEnd(s, 0);
      if e == |s| then [s]
      else
        var next := if s[e] == '\r' && e + 1 < |s| && s[e + 1] == '\n' then e + 2 else e + 1;
        [s[..e]] + SplitLines(s[next..])
  }
}
