/** Sequences without repetition, and rearrangements. */
module Sequences {
  ghost predicate Distinct<T>(s: seq<T>) {
    forall i, j :: 0 <= i < j < |s| ==> s[i] != s[j]
  }

  lemma MultisetOfDistinct<T>(s: seq<T>, x: T)
    requires Distinct(s)
    ensures multiset(s)[x] <= 1
  {
    if s != [] {
      assert s == s[..|s| - 1] + [s[|s| - 1]];
      MultisetOfDistinct(s[..|s| - 1], x);
    }
  }

  lemma DistinctFromMultiset<T>(s: seq<T>)
    requires forall x :: multiset(s)[x] <= 1
    ensures Distinct(s)
  {
    forall i, j | 0 <= i < j < |s| ensures s[i] != s[j] {
      assert s == s[..i] + [s[i]] + s[i + 1..];
      assert s[i + 1..][j - i - 1] == s[j];
      assert multiset(s)[s[j]] == multiset(s[..i])[s[j]] + multiset([s[i]])[s[j]] + multiset(s[i + 1..])[s[j]];
    }
  }

  /** A rearrangement of a sequence without repetition has none either. */
  lemma DistinctRearranged<T>(s: seq<T>, t: seq<T>)
    requires Distinct(s) && multiset(s) == multiset(t)
    ensures Distinct(t)
  {
    forall x ensures multiset(t)[x] <= 1 { MultisetOfDistinct(s, x); }
    DistinctFromMultiset(t);
  }

  function Map<T, R>(f: T -> R, s: seq<T>): (r: seq<R>)
    ensures |r| == |s| && forall i :: 0 <= i < |s| ==> r[i] == f(s[i])
  {
    seq(|s|, i requires 0 <= i < |s| => f(s[i]))
  }

  lemma MapPieces<T, R>(f: T -> R, a: seq<T>, x: T, b: seq<T>)
    ensures multiset(Map(f, a + [x] + b)) == multiset([f(x)] + Map(f, a + b))
  {
    assert Map(f, a + [x] + b) == Map(f, a) + [f(x)] + Map(f, b);
    assert Map(f, a + b) == Map(f, a) + Map(f, b);
  }

  /** A function maps rearranged sequences to rearranged sequences. */
  lemma {:induction false} MapRearranged<T, R>(f: T -> R, a: seq<T>, b: seq<T>)
    requires multiset(a) == multiset(b)
    ensures multiset(Map(f, a)) == multiset(Map(f, b))
    decreases |a|
  {
    assert |multiset(a)| == |multiset(b)|;
    if a == [] {
      assert b == [];
    } else {
      var k := TakeOut(a, b);
      var rest := b[..k] + b[k + 1..];
      MapRearranged(f, a[1..], rest);
      MapPieces(f, b[..k], b[k], b[k + 1..]);
      assert b[..k] + [b[k]] + b[k + 1..] == b;
      assert Map(f, a) == [f(a[0])] + Map(f, a[1..]);
    }
  }

  /** The first element of a sequence can be taken out of any rearrangement of it. */
  lemma TakeOut<T>(a: seq<T>, b: seq<T>) returns (k: nat)
    requires multiset(a) == multiset(b) && a != []
    ensures k < |b| && b[k] == a[0] && multiset(b[..k] + b[k + 1..]) == multiset(a[1..])
  {
    k := IndexIn(b, a[0]);
    RemoveFirst(a);
    RemoveAt(b, k);
  }

  lemma RemoveFirst<T>(s: seq<T>)
    requires s != []
    ensures multiset(s[1..]) == multiset(s) - multiset{s[0]}
  {
    assert s == [s[0]] + s[1..];
  }

  lemma IndexIn<T>(s: seq<T>, x: T) returns (k: nat)
    requires x in multiset(s)
    ensures k < |s| && s[k] == x
  {
    k :| 0 <= k < |s| && s[k] == x;
  }

  lemma RemoveAt<T>(s: seq<T>, k: nat)
    requires k < |s|
    ensures multiset(s[..k] + s[k + 1..]) == multiset(s) - multiset{s[k]}
  {
    assert s == s[..k] + ([s[k]] + s[k + 1..]);
    assert multiset(s) == multiset(s[..k]) + (multiset{s[k]} + multiset(s[k + 1..]));
  }

  function Indices(n: nat): (r: seq<int>)
    ensures |r| == n && forall i :: 0 <= i < n ==> r[i] == i
  {
    seq(n, i => i)
  }

  /** A sequence of n different numbers below n is a rearrangement of all of them. */
  lemma AllIndices(order: seq<int>, n: nat)
    requires Distinct(order) && forall i :: i in order <==> 0 <= i < n
    ensures multiset(order) == multiset(Indices(n))
  {
    var all := Indices(n);
    forall x: int ensures multiset(order)[x] == multiset(all)[x] {
      MultisetOfDistinct(order, x);
      MultisetOfDistinct(all, x);
      assert x in order <==> x in multiset(order);
      assert x in all <==> x in multiset(all);
      if 0 <= x < n { assert all[x] == x; }
    }
  }
}
