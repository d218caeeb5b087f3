/**
 Sequence operations that the storefront uses in the shape of JavaScript's
 array methods: `filter`, and the insertion-ordered de-duplication that
 `Array.from(new Set(xs))` performs.
 */
module Seqs {

  /** `a` can be obtained from `b` by deleting elements (order is kept). */
  predicate IsSubsequence<T(==)>(a: seq<T>, b: seq<T>)
    decreases |b|
  {
    if a == [] then true
    else if b == [] then false
    else (a[0] == b[0] && IsSubsequence(a[1..], b[1..])) || IsSubsequence(a, b[1..])
  }

  /** No element occurs twice. */
  predicate Distinct<T(==)>(xs: seq<T>)
  {
    forall i, j :: 0 <= i < j < |xs| ==> xs[i] != xs[j]
  }

  /** The elements of `s` for which `keep` holds, in their original order. */
  function Filter<T(==,!new)>(s: seq<T>, keep: T -> bool): (r: seq<T>)
    ensures |r| <= |s|
    ensures forall i :: 0 <= i < |r| ==> keep(r[i])
    ensures forall x :: x in r <==> x in s && keep(x)
  {
    if s == [] then []
    else
      var rest := Filter(s[1..], keep);
      assert s == [s[0]] + s[1..];
      if keep(s[0]) then [s[0]] + rest else rest
  }

  /** Filtering keeps the order of what it keeps. */
  lemma {:induction false} FilterIsSubsequence<T(!new)>(s: seq<T>, keep: T -> bool)
    ensures IsSubsequence(Filter(s, keep), s)
  {
    if s != [] {
      FilterIsSubsequence(s[1..], keep);
      var r := Filter(s, keep);
      if keep(s[0]) {
        assert r[0] == s[0] && r[1..] == Filter(s[1..], keep);
      }
    }
  }

  /** Each kept value occurs as often as in the input; nothing else occurs. */
  lemma {:induction false} FilterMultiset<T(!new)>(s: seq<T>, keep: T -> bool, x: T)
    ensures multiset(Filter(s, keep))[x] == if keep(x) then multiset(s)[x] else 0
  {
    if s != [] {
      FilterMultiset(s[1..], keep, x);
      assert s == [s[0]] + s[1..];
      assert multiset(s) == multiset([s[0]]) + multiset(s[1..]);
    }
  }

  /** When every element passes, filtering is the identity. */
  lemma {:induction false} FilterAllKept<T(!new)>(s: seq<T>, keep: T -> bool)
    requires forall i :: 0 <= i < |s| ==> keep(s[i])
    ensures Filter(s, keep) == s
  {
    if s != [] {
      FilterAllKept(s[1..], keep);
      assert s == [s[0]] + s[1..];
    }
  }

  /** Filtering distributes over concatenation. */
  lemma {:induction false} FilterConcat<T(!new)>(a: seq<T>, b: seq<T>, keep: T -> bool)
    ensures Filter(a + b, keep) == Filter(a, keep) + Filter(b, keep)
  {
    if a == [] {
      assert a + b == b;
    } else {
      assert (a + b)[1..] == a[1..] + b;
      FilterConcat(a[1..], b, keep);
    }
  }

  /** Index of the first occurrence of `x` in `xs`. */
  function FirstIndex<T(==)>(xs: seq<T>, x: T): (k: nat)
    requires x in xs
    ensures k < |xs| && xs[k] == x
    ensures forall j :: 0 <= j < k ==> xs[j] != x
  {
    if xs[0] == x then 0 else 1 + FirstIndex(xs[1..], x)
  }

  /** Appending elements does not move an existing first occurrence. */
  lemma FirstIndexOfPrefix<T>(ys: seq<T>, zs: seq<T>, x: T)
    requires x in ys
    ensures FirstIndex(ys + zs, x) == FirstIndex(ys, x)
  {
    var a, b := FirstIndex(ys + zs, x), FirstIndex(ys, x);
    assert (ys + zs)[b] == x;
  }

  /**
   The distinct elements of `xs`, built the way a JavaScript `Set` is
   filled: left to right, skipping elements already present.
   */
  function Dedup<T(==)>(xs: seq<T>): seq<T>
    decreases |xs|
  {
    if xs == [] then []
    else
      var d := Dedup(xs[..|xs| - 1]);
      if xs[|xs| - 1] in d then d else d + [xs[|xs| - 1]]
  }

  /** `Dedup` keeps every value of its input once, and adds none. */
  lemma {:induction false} DedupElements<T(!new)>(xs: seq<T>)
    ensures Distinct(Dedup(xs))
    ensures forall x :: x in Dedup(xs) <==> x in xs
    decreases |xs|
  {
    if xs != [] {
      var ys, x := xs[..|xs| - 1], xs[|xs| - 1];
      assert xs == ys + [x];
      DedupElements(ys);
    }
  }

  /** `Dedup` lists the elements in the order of their first occurrence. */
  lemma {:induction false} DedupFirstSeenOrder<T(!new)>(xs: seq<T>)
    ensures forall i :: 0 <= i < |Dedup(xs)| ==> Dedup(xs)[i] in xs
    ensures forall i, j :: 0 <= i < j < |Dedup(xs)| ==>
      FirstIndex(xs, Dedup(xs)[i]) < FirstIndex(xs, Dedup(xs)[j])
    decreases |xs|
  {
    if xs != [] {
      var ys, x := xs[..|xs| - 1], xs[|xs| - 1];
      assert xs == ys + [x];
      DedupElements(ys);
      DedupFirstSeenOrder(ys);
      forall y | y in ys
        ensures FirstIndex(xs, y) == FirstIndex(ys, y)
      {
        FirstIndexOfPrefix(ys, [x], y);
      }
      if x !in ys {
        assert FirstIndex(xs, x) == |ys|;
      }
    }
  }

  /** One more element either is already present or is added at the end. */
  lemma DedupSnoc<T(!new)>(ys: seq<T>, x: T)
    ensures Dedup(ys + [x]) == if x in Dedup(ys) then Dedup(ys) else Dedup(ys) + [x]
  {
    assert (ys + [x])[..|ys + [x]| - 1] == ys;
  }

  /** Elements that were already seen leave the de-duplicated list unchanged. */
  lemma {:induction false} DedupAbsorbs<T(!new)>(ys: seq<T>, zs: seq<T>)
    requires forall i :: 0 <= i < |zs| ==> zs[i] in ys
    ensures Dedup(ys + zs) == Dedup(ys)
    decreases |zs|
  {
    if zs == [] {
      assert ys + zs == ys;
    } else {
      var init, z := zs[..|zs| - 1], zs[|zs| - 1];
      assert ys + zs == (ys + init) + [z];
      DedupAbsorbs(ys, init);
      DedupSnoc(ys + init, z);
      DedupElements(ys + init);
      assert z in ys + init;
    }
  }
}
