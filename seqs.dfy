/** Kotlin's `map` and `filter` on lists, with the facts the services rely
    on: mapping respects reordering, filtering keeps order and exactly the
    elements the predicate accepts. */
module Seqs {
  /** `map { f(it) }` on a list. */
  function MapSeq<X, Y>(f: X -> Y, s: seq<X>): (r: seq<Y>)
    ensures |r| == |s| && forall i :: 0 <= i < |s| ==> r[i] == f(s[i])
  {
    if s == [] then [] else [f(s[0])] + MapSeq(f, s[1..])
  }

  /** A value is in a mapped list exactly when it is the image of one of
      the list's elements. */
  lemma MapSeqMember<X, Y>(f: X -> Y, s: seq<X>, y: Y)
    ensures y in MapSeq(f, s) <==> exists k :: 0 <= k < |s| && y == f(s[k])
  {
    var r := MapSeq(f, s);
    if y in r {
      var k :| 0 <= k < |r| && r[k] == y;
      assert 0 <= k < |s| && y == f(s[k]);
    }
    if exists k :: 0 <= k < |s| && y == f(s[k]) {
      var k :| 0 <= k < |s| && y == f(s[k]);
      assert r[k] == y;
    }
  }

  /** Removing one element of a sequence removes one occurrence from its multiset. */
  lemma RemoveOneFromMultiset<T>(s: seq<T>, k: int)
    requires 0 <= k < |s|
    ensures multiset(s[..k] + s[k + 1..]) == multiset(s) - multiset{s[k]}
  {
    assert s == s[..k] + [s[k]] + s[k + 1..];
  }

  /** Mapping commutes with cutting one element out. */
  lemma MapSeqCut<X, Y>(f: X -> Y, ys: seq<X>, k: int)
    requires 0 <= k < |ys|
    ensures MapSeq(f, ys[..k] + ys[k + 1..]) == MapSeq(f, ys)[..k] + MapSeq(f, ys)[k + 1..]
  {
    var all := MapSeq(f, ys);
    var cut := ys[..k] + ys[k + 1..];
    var rest := MapSeq(f, cut);
    var expected := all[..k] + all[k + 1..];
    assert |rest| == |expected|;
    forall i | 0 <= i < |rest| ensures rest[i] == expected[i] {
      if i < k {
        assert cut[i] == ys[i] && expected[i] == all[i];
      } else {
        assert cut[i] == ys[i + 1] && expected[i] == all[i + 1];
      }
    }
  }

  /** Taking one element out of a sequence takes its image out of the mapped sequence. */
  lemma MapSeqRemoveOne<X, Y>(f: X -> Y, ys: seq<X>, k: int)
    requires 0 <= k < |ys|
    ensures multiset(ys[..k] + ys[k + 1..]) == multiset(ys) - multiset{ys[k]}
    ensures multiset(MapSeq(f, ys[..k] + ys[k + 1..])) == multiset(MapSeq(f, ys)) - multiset{f(ys[k])}
  {
    RemoveOneFromMultiset(ys, k);
    MapSeqCut(f, ys, k);
    RemoveOneFromMultiset(MapSeq(f, ys), k);
  }

  /** Mapping respects permutations: the images of a reordering are a
      reordering of the images. */
  lemma {:induction false} MapSeqPermutation<X, Y>(f: X -> Y, xs: seq<X>, ys: seq<X>)
    requires multiset(xs) == multiset(ys)
    ensures multiset(MapSeq(f, xs)) == multiset(MapSeq(f, ys))
    decreases |xs|
  {
    if xs != [] {
      var a := xs[0];
      assert xs == [a] + xs[1..];
      assert a in multiset(ys);
      var k :| 0 <= k < |ys| && ys[k] == a;
      var rest := ys[..k] + ys[k + 1..];
      MapSeqRemoveOne(f, ys, k);
      assert multiset(xs[1..]) == multiset(rest) by {
        assert multiset(xs) == multiset{a} + multiset(xs[1..]);
      }
      MapSeqPermutation(f, xs[1..], rest);
      var image := MapSeq(f, ys);
      assert f(a) in multiset(image) by {
        assert image[k] == f(a);
      }
      calc {
        multiset(MapSeq(f, xs));
        { assert MapSeq(f, xs) == [f(a)] + MapSeq(f, xs[1..]); }
        multiset{f(a)} + multiset(MapSeq(f, xs[1..]));
        multiset{f(a)} + multiset(MapSeq(f, rest));
        multiset{f(a)} + (multiset(image) - multiset{f(a)});
        { AddBackRemoved(multiset(image), f(a)); }
        multiset(image);
      }
    }
  }

  /** Putting back an element taken out of a multiset restores it. */
  lemma AddBackRemoved<T>(m: multiset<T>, x: T)
    requires x in m
    ensures multiset{x} + (m - multiset{x}) == m
  {
  }

  /** No element occurs twice. */
  predicate NoDuplicates<T(==)>(s: seq<T>) {
    forall i, j :: 0 <= i < j < |s| ==> s[i] != s[j]
  }

  /** Appending an element not yet present keeps a list free of duplicates. */
  lemma AppendFresh<T>(s: seq<T>, x: T)
    requires NoDuplicates(s) && x !in s
    ensures NoDuplicates(s + [x])
  {
  }

  /** `xs` is `ys` with some elements dropped and the rest in their order. */
  predicate IsSubsequence<T(==)>(xs: seq<T>, ys: seq<T>) {
    if xs == [] then true
    else if ys == [] then false
    else (xs[0] == ys[0] && IsSubsequence(xs[1..], ys[1..])) || IsSubsequence(xs, ys[1..])
  }

  /** `filter { p(it) }` on a list: exactly the elements `p` accepts, in
      their order. */
  function Filter<T(==,!new)>(p: T -> bool, s: seq<T>): (r: seq<T>)
    ensures |r| <= |s|
    ensures forall x :: x in r <==> x in s && p(x)
    ensures IsSubsequence(r, s)
  {
    if s == [] then []
    else if p(s[0]) then [s[0]] + Filter(p, s[1..])
    else Filter(p, s[1..])
  }

  /** Two filters in a row are one filter by both predicates. */
  lemma {:induction false} FilterFilter<T(!new)>(p: T -> bool, q: T -> bool, both: T -> bool, s: seq<T>)
    requires forall x :: both(x) == (p(x) && q(x))
    ensures Filter(q, Filter(p, s)) == Filter(both, s)
  {
    if s != [] {
      FilterFilter(p, q, both, s[1..]);
      if p(s[0]) {
        assert Filter(p, s)[1..] == Filter(p, s[1..]);
      }
    }
  }

  /** Filters by predicates that agree on every element give the same list. */
  lemma {:induction false} FilterAgreeing<T(!new)>(p: T -> bool, q: T -> bool, s: seq<T>)
    requires forall x :: x in s ==> p(x) == q(x)
    ensures Filter(p, s) == Filter(q, s)
  {
    if s != [] {
      FilterAgreeing(p, q, s[1..]);
    }
  }

  /** A filter that accepts every element keeps the whole list. */
  lemma {:induction false} FilterKeepsAll<T(!new)>(p: T -> bool, s: seq<T>)
    requires forall x :: x in s ==> p(x)
    ensures Filter(p, s) == s
  {
    if s != [] {
      FilterKeepsAll(p, s[1..]);
      assert s == [s[0]] + s[1..];
    }
  }
}
