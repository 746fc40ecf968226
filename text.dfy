/** The handful of Kotlin string operations the services rely on:
    `isWhitespace`, `trim`, `isBlank`, `uppercase`, `equals`/`contains` with
    `ignoreCase = true`, `startsWith`, `removePrefix`, `split` and
    `substringAfterLast`. */
module Text {
  import opened Wrappers

  /** Kotlin's `Char.isWhitespace()`: Java whitespace or a Unicode space separator. */
  predicate IsWhitespace(c: char) {
    || c == ' ' || ('\t' <= c <= '\r') || ('\U{1C}' <= c <= '\U{1F}')
    || c == '\U{A0}' || c == '\U{1680}' || ('\U{2000}' <= c <= '\U{200A}')
    || c == '\U{2028}' || c == '\U{2029}' || c == '\U{202F}' || c == '\U{205F}' || c == '\U{3000}'
  }

  /** Kotlin's `isBlank()`: empty or whitespace only. */
  predicate IsBlank(s: string) {
    forall i :: 0 <= i < |s| ==> IsWhitespace(s[i])
  }

  /** Kotlin's `trimStart()`. */
  function TrimStart(s: string): (r: string)
    ensures |r| <= |s| && r == s[|s| - |r|..]
    ensures IsBlank(s[..|s| - |r|])
    ensures r != [] ==> !IsWhitespace(r[0])
  {
    if s != [] && IsWhitespace(s[0]) then
      var r := TrimStart(s[1..]);
      var cut := s[..|s| - |r|];
      var rest := s[1..][..|s| - 1 - |r|];
      assert IsBlank(cut) by {
        forall j | 0 <= j < |cut| ensures IsWhitespace(cut[j]) {
          if j > 0 { assert cut[j] == rest[j - 1]; }
        }
      }
      r
    else s
  }

  /** Kotlin's `trimEnd()`. */
  function TrimEnd(s: string): (r: string)
    ensures |r| <= |s| && r == s[..|r|]
    ensures IsBlank(s[|r|..])
    ensures r != [] ==> !IsWhitespace(r[|r| - 1])
  {
    if s != [] && IsWhitespace(s[|s| - 1]) then
      var r := TrimEnd(s[..|s| - 1]);
      var cut := s[|r|..];
      var rest := s[..|s| - 1][|r|..];
      assert IsBlank(cut) by {
        forall j | 0 <= j < |cut| ensures IsWhitespace(cut[j]) {
          if j < |rest| { assert cut[j] == rest[j]; }
        }
      }
      r
    else s
  }

  /** `r` is an infix of `s` with only whitespace before and after it. */
  predicate BlankAround(s: string, r: string) {
    exists i :: 0 <= i <= |s| - |r| && r == s[i..i + |r|] && IsBlank(s[..i]) && IsBlank(s[i + |r|..])
  }

  /** Kotlin's `trim()`: the infix of `s` left once leading and trailing
      whitespace is cut off; it neither starts nor ends with whitespace. */
  function Trim(s: string): (r: string)
    ensures |r| <= |s|
    ensures BlankAround(s, r)
    ensures r != [] ==> !IsWhitespace(r[0]) && !IsWhitespace(r[|r| - 1])
    ensures r == [] <==> IsBlank(s)
  {
    var t := TrimStart(s);
    var r := TrimEnd(t);
    TrimOfParts(s, t, r);
    r
  }

  /** A prefix `r` of a suffix `t` of `s` sits at `|s| - |t|` in `s`, and
      a blank tail of `t` is a blank tail of `s`. */
  lemma InfixOfSuffix(s: string, t: string, r: string)
    requires |t| <= |s| && t == s[|s| - |t|..]
    requires |r| <= |t| && r == t[..|r|] && IsBlank(t[|r|..])
    ensures var i := |s| - |t|; r == s[i..i + |r|] && IsBlank(s[i + |r|..])
  {
    var i := |s| - |t|;
    assert s[i + |r|..] == t[|r|..];
  }

  /** What `Trim` promises, from what `TrimStart` promises of `t` and
      `TrimEnd` of `r`. */
  lemma TrimOfParts(s: string, t: string, r: string)
    requires |t| <= |s| && t == s[|s| - |t|..] && IsBlank(s[..|s| - |t|])
    requires t != [] ==> !IsWhitespace(t[0])
    requires |r| <= |t| && r == t[..|r|] && IsBlank(t[|r|..])
    requires r != [] ==> !IsWhitespace(r[|r| - 1])
    ensures |r| <= |s|
    ensures BlankAround(s, r)
    ensures r != [] ==> !IsWhitespace(r[0]) && !IsWhitespace(r[|r| - 1])
    ensures r == [] <==> IsBlank(s)
  {
    var i := |s| - |t|;
    InfixOfSuffix(s, t, r);
    if r != [] {
      assert r[0] == t[0];
    }
    TrimParts(s, i, r);
  }

  /** The facts `Trim` promises, from the split `s == s[..i] + r + blank tail`. */
  lemma TrimParts(s: string, i: int, r: string)
    requires 0 <= i <= |s| && IsBlank(s[..i])
    requires |r| <= |s| - i && r == s[i..i + |r|] && IsBlank(s[i + |r|..])
    requires r != [] ==> !IsWhitespace(r[0])
    ensures r == [] <==> IsBlank(s)
  {
    if r == [] {
      forall k | 0 <= k < |s| ensures IsWhitespace(s[k]) {
        if k < i { assert s[k] == s[..i][k]; } else { assert s[k] == s[i..][k - i]; }
      }
    } else {
      assert s[i] == r[0];
    }
  }

  /** Kotlin's `Char.uppercaseChar()` restricted to the ASCII letters. */
  function UpperChar(c: char): char {
    if 'a' <= c <= 'z' then (c as int - 32) as char else c
  }

  /** Kotlin's `uppercase()` restricted to the ASCII letters. */
  function Upper(s: string): (r: string)
    ensures |r| == |s|
    ensures forall i :: 0 <= i < |s| ==> r[i] == UpperChar(s[i])
  {
    seq(|s|, i requires 0 <= i < |s| => UpperChar(s[i]))
  }

  /** Two characters are equal when case is ignored. */
  predicate CharEqualsIgnoreCase(a: char, b: char) {
    a == b || UpperChar(a) == UpperChar(b)
  }

  /** Kotlin's `a.equals(b, ignoreCase = true)`. */
  predicate EqualsIgnoreCase(a: string, b: string) {
    |a| == |b| && forall i :: 0 <= i < |a| ==> CharEqualsIgnoreCase(a[i], b[i])
  }

  /** `q` occurs in `s` at offset `i`, ignoring case. */
  predicate RegionMatches(s: string, i: int, q: string) {
    0 <= i && i + |q| <= |s| && forall j :: 0 <= j < |q| ==> CharEqualsIgnoreCase(s[i + j], q[j])
  }

  /** Kotlin's `s.contains(q, ignoreCase = true)`. */
  predicate ContainsIgnoreCase(s: string, q: string) {
    exists i | 0 <= i <= |s| - |q| :: RegionMatches(s, i, q)
  }

  /** Kotlin's `startsWith(prefix)`. */
  predicate StartsWith(s: string, prefix: string) {
    |prefix| <= |s| && s[..|prefix|] == prefix
  }

  /** Kotlin's `split(d)` for a one-character delimiter: the pieces between
      occurrences of `d`, empty pieces included, so there is always one. */
  function Split(s: string, d: char): (r: seq<string>)
    ensures |r| >= 1
  {
    if s == [] then [""]
    else if s[0] == d then [""] + Split(s[1..], d)
    else
      var rest := Split(s[1..], d);
      [[s[0]] + rest[0]] + rest[1..]
  }

  /** The inverse of `Split`: the pieces glued back together with `d`. */
  function Join(pieces: seq<string>, d: char): string
    requires |pieces| >= 1
  {
    if |pieces| == 1 then pieces[0] else pieces[0] + [d] + Join(pieces[1..], d)
  }

  /** Splitting loses nothing: joining the pieces gives back the input. */
  lemma {:induction false} JoinSplit(s: string, d: char)
    ensures Join(Split(s, d), d) == s
  {
    if s == [] {
    } else if s[0] == d {
      JoinSplit(s[1..], d);
      assert Split(s, d)[1..] == Split(s[1..], d);
    } else {
      JoinSplit(s[1..], d);
      var rest := Split(s[1..], d);
      if |rest| > 1 {
        assert Split(s, d)[1..] == rest[1..];
      }
    }
  }

  /** No piece of a split contains the delimiter. */
  lemma {:induction false} SplitPiecesHaveNoDelimiter(s: string, d: char)
    ensures forall k :: 0 <= k < |Split(s, d)| ==> d !in Split(s, d)[k]
  {
    if s != [] {
      SplitPiecesHaveNoDelimiter(s[1..], d);
    }
  }

  /** Index of the last occurrence of `d` in `s`, if any. */
  function LastIndexOf(s: string, d: char): (r: Option<nat>)
    ensures r.Some? ==> 0 <= r.value < |s| && s[r.value] == d && d !in s[r.value + 1..]
    ensures r.None? <==> d !in s
  {
    if s == [] then None
    else if s[|s| - 1] == d then Some(|s| - 1)
    else
      var r := LastIndexOf(s[..|s| - 1], d);
      assert s == s[..|s| - 1] + [s[|s| - 1]];
      if r.Some? then assert s[r.value + 1..] == s[..|s| - 1][r.value + 1..] + [s[|s| - 1]]; r else r
  }

  /** Kotlin's `s.substringAfterLast(d, missing)`. */
  function SubstringAfterLast(s: string, d: char, missing: string): (r: string)
    ensures d !in s ==> r == missing
    ensures d in s ==> d !in r && exists i :: 0 <= i < |s| && s == s[..i] + [d] + r
  {
    match LastIndexOf(s, d)
    case None => missing
    case Some(i) =>
      assert s == s[..i] + [d] + s[i + 1..];
      s[i + 1..]
  }
}
