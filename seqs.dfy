/** Generic facts about sequences used throughout the model. */
module Seqs {

  /** No element occurs twice. */
  ghost predicate Distinct<T>(s: seq<T>) {
    forall i, j | 0 <= i < |s| && 0 <= j < |s| && i != j :: s[i] != s[j]
  }

  lemma DistinctAppend<T>(s: seq<T>, x: T)
    requires Distinct(s) && x !in s
    ensures Distinct(s + [x])
  {
  }

  lemma DistinctConcat<T>(a: seq<T>, b: seq<T>)
    requires Distinct(a) && Distinct(b)
    requires forall x :: x in a ==> x !in b
    ensures Distinct(a + b)
  {
    var c := a + b;
    forall i, j | 0 <= i < |c| && 0 <= j < |c| && i != j
      ensures c[i] != c[j]
    {
      if i < |a| && j >= |a| {
        assert c[j] in b;
      } else if j < |a| && i >= |a| {
        assert c[i] in b;
      }
    }
  }

  /** The set of elements of a sequence. */
  function Elems<T>(s: seq<T>): set<T> {
    set x | x in s
  }

  lemma ElemsSnoc<T>(s: seq<T>, x: T)
    ensures Elems(s + [x]) == Elems(s) + {x}
  {
  }

  lemma DistinctPrefix<T>(s: seq<T>, k: nat)
    requires Distinct(s) && k <= |s|
    ensures Distinct(s[..k])
  {
  }

  lemma DistinctSuffix<T>(s: seq<T>)
    requires Distinct(s) && s != []
    ensures Distinct(s[1..]) && s[0] !in s[1..]
  {
  }

  lemma DistinctCons<T>(x: T, s: seq<T>)
    requires Distinct(s) && x !in s
    ensures Distinct([x] + s)
  {
  }

  lemma SliceAll<T>(s: seq<T>)
    ensures s[..|s|] == s
  {
  }

  lemma SliceSnoc<T>(s: seq<T>, n: nat)
    requires n < |s|
    ensures s[..n + 1] == s[..n] + [s[n]]
  {
  }

  lemma DistinctNotEarlier<T>(s: seq<T>, i: nat)
    requires Distinct(s) && i < |s|
    ensures s[i] !in s[..i]
  {
  }

  /** A distinct sequence has as many elements as the set of its elements. */
  lemma {:induction false} DistinctCard<T>(s: seq<T>)
    requires Distinct(s)
    ensures |Elems(s)| == |s|
  {
    if s != [] {
      var t := s[..|s| - 1];
      DistinctCard(t);
      assert Elems(s) == Elems(t) + {s[|s| - 1]};
    }
  }

  /** `s` with every element kept at its first occurrence only: the key
      order of a Python dict whose keys are assigned in the order of `s`. */
  function FirstOccurrences<T(==)>(s: seq<T>): (r: seq<T>)
    ensures Distinct(r) && Elems(r) == Elems(s)
    decreases |s|
  {
    if s == [] then []
    else
      var n := |s| - 1;
      var p := FirstOccurrences(s[..n]);
      assert s == s[..n] + [s[n]];
      ElemsSnoc(s[..n], s[n]);
      if s[n] in p then p
      else
        ElemsSnoc(p, s[n]);
        p + [s[n]]
  }

  /** Without repetitions nothing is dropped and the order is kept. */
  lemma {:induction false} FirstOccurrencesOfDistinct<T>(s: seq<T>)
    requires Distinct(s)
    ensures FirstOccurrences(s) == s
    decreases |s|
  {
    if s != [] {
      var n := |s| - 1;
      DistinctPrefix(s, n);
      FirstOccurrencesOfDistinct(s[..n]);
      DistinctNotEarlier(s, n);
      assert s == s[..n] + [s[n]];
    }
  }

  /** Later elements never reorder earlier ones: the first occurrences in a
      prefix come first, in the same order. */
  lemma {:induction false} FirstOccurrencesPrefix<T>(s: seq<T>, k: nat)
    requires k <= |s|
    ensures FirstOccurrences(s[..k]) <= FirstOccurrences(s)
    decreases |s| - k
  {
    if k < |s| {
      FirstOccurrencesPrefix(s, k + 1);
      SliceSnoc(s, k);
      assert s[..k + 1][..k] == s[..k];
    } else {
      assert s[..k] == s;
    }
  }

  /** The concatenation of `f(x)` over the elements, in order. */
  function FlatMap<T, U>(f: T -> seq<U>, xs: seq<T>): seq<U>
    decreases |xs|
  {
    if xs == [] then [] else FlatMap(f, xs[..|xs| - 1]) + f(xs[|xs| - 1])
  }

  lemma {:induction false} FlatMapCons<T, U>(f: T -> seq<U>, x: T, xs: seq<T>)
    ensures FlatMap(f, [x] + xs) == f(x) + FlatMap(f, xs)
    decreases |xs|
  {
    if xs != [] {
      var n := |xs| - 1;
      assert ([x] + xs)[..n + 1] == [x] + xs[..n];
      FlatMapCons(f, x, xs[..n]);
    }
  }

  /** The sum of the lengths of `f(x)` over the elements. */
  function SumLen<T, U>(f: T -> seq<U>, xs: seq<T>): nat
    decreases |xs|
  {
    if xs == [] then 0 else SumLen(f, xs[..|xs| - 1]) + |f(xs[|xs| - 1])|
  }

  lemma {:induction false} FlatMapLength<T, U>(f: T -> seq<U>, xs: seq<T>)
    ensures |FlatMap(f, xs)| == SumLen(f, xs)
    decreases |xs|
  {
    if xs != [] {
      FlatMapLength(f, xs[..|xs| - 1]);
    }
  }

  /** Element `i` contributes the slice that starts after the contributions
      of the elements before it. */
  lemma {:induction false} FlatMapSlice<T, U>(f: T -> seq<U>, xs: seq<T>, i: nat)
    requires i < |xs|
    ensures SumLen(f, xs[..i]) + |f(xs[i])| <= |FlatMap(f, xs)|
    ensures FlatMap(f, xs)[SumLen(f, xs[..i])..SumLen(f, xs[..i]) + |f(xs[i])|] == f(xs[i])
    decreases |xs|
  {
    var n := |xs| - 1;
    var init := xs[..n];
    var a := FlatMap(f, init);
    var t := f(xs[n]);
    assert FlatMap(f, xs) == a + t;
    if i < n {
      FlatMapSlice(f, init, i);
      assert xs[..i] == init[..i];
      assert init[i] == xs[i];
      var lo := SumLen(f, xs[..i]);
      var hi := lo + |f(xs[i])|;
      assert (a + t)[lo..hi] == a[lo..hi];
    } else {
      assert xs[..i] == init;
      FlatMapLength(f, init);
      assert (a + t)[|a|..|a| + |t|] == t;
    }
  }
}
