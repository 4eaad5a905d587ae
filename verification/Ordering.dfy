/** Sorting by a total preorder, and the order of strings and of numbers. */
module Ordering {
  import opened Sequences

  ghost predicate TotalPreorder<T(!new)>(le: (T, T) -> bool) {
    && (forall x, y :: le(x, y) || le(y, x))
    && (forall x, y, z :: le(x, y) && le(y, z) ==> le(x, z))
  }

  ghost predicate SortedBy<T>(le: (T, T) -> bool, s: seq<T>) {
    forall i, j :: 0 <= i < j < |s| ==> le(s[i], s[j])
  }

  function Insert<T>(le: (T, T) -> bool, x: T, s: seq<T>): seq<T> {
    if s == [] then [x]
    else if le(x, s[0]) then [x] + s
    else [s[0]] + Insert(le, x, s[1..])
  }

  function Sort<T>(le: (T, T) -> bool, s: seq<T>): seq<T> {
    if s == [] then [] else Insert(le, s[0], Sort(le, s[1..]))
  }

  lemma InsertRearranges<T>(le: (T, T) -> bool, x: T, s: seq<T>)
    ensures multiset(Insert(le, x, s)) == multiset([x] + s)
  {
    if s != [] && !le(x, s[0]) {
      InsertRearranges(le, x, s[1..]);
      assert s == [s[0]] + s[1..];
    }
  }

  lemma InsertSorts<T(!new)>(le: (T, T) -> bool, x: T, s: seq<T>)
    requires TotalPreorder(le) && SortedBy(le, s)
    ensures SortedBy(le, Insert(le, x, s))
  {
    if s != [] && !le(x, s[0]) {
      var rest := Insert(le, x, s[1..]);
      InsertSorts(le, x, s[1..]);
      InsertRearranges(le, x, s[1..]);
      forall j | 0 <= j < |rest| ensures le(s[0], rest[j]) {
        assert rest[j] in multiset(rest);
        assert rest[j] in [x] + s[1..];
      }
    }
  }

  /** Sorting yields a sorted rearrangement. */
  lemma {:induction false} SortSorts<T(!new)>(le: (T, T) -> bool, s: seq<T>)
    requires TotalPreorder(le)
    ensures SortedBy(le, Sort(le, s)) && multiset(Sort(le, s)) == multiset(s) && |Sort(le, s)| == |s|
  {
    if s != [] {
      SortSorts(le, s[1..]);
      InsertSorts(le, s[0], Sort(le, s[1..]));
      InsertRearranges(le, s[0], Sort(le, s[1..]));
      assert s == [s[0]] + s[1..];
    }
    assert |multiset(Sort(le, s))| == |multiset(s)|;
  }

  /** There is only one sorted rearrangement when no two different elements are equivalent. */
  lemma {:induction false} SortedUnique<T(!new)>(le: (T, T) -> bool, s: seq<T>, t: seq<T>)
    requires TotalPreorder(le) && SortedBy(le, s) && SortedBy(le, t) && multiset(s) == multiset(t)
    requires forall x, y :: x in s && y in s && le(x, y) && le(y, x) ==> x == y
    ensures s == t
  {
    assert |multiset(s)| == |multiset(t)|;
    if s != [] {
      LeastFirst(le, s, t);
      LeastFirst(le, t, s);
      TailsRearranged(s, t);
      SortedUnique(le, s[1..], t[1..]);
      assert s == [s[0]] + s[1..] && t == [t[0]] + t[1..];
    }
  }

  lemma TailsRearranged<T>(s: seq<T>, t: seq<T>)
    requires s != [] && t != [] && s[0] == t[0] && multiset(s) == multiset(t)
    ensures multiset(s[1..]) == multiset(t[1..])
  {
    RemoveFirst(s);
    RemoveFirst(t);
  }

  /** The first element of a sorted rearrangement comes before every element. */
  lemma LeastFirst<T(!new)>(le: (T, T) -> bool, s: seq<T>, t: seq<T>)
    requires TotalPreorder(le) && SortedBy(le, s) && multiset(s) == multiset(t) && s != [] && t != []
    ensures le(s[0], t[0]) && t[0] in s
  {
    assert t[0] in multiset(s);
  }

  predicate NumberLe(a: nat, b: nat) { a <= b }

  /** The order of `str`. */
  predicate StringLe(a: string, b: string) {
    a == [] || (b != [] && (a[0] < b[0] || (a[0] == b[0] && StringLe(a[1..], b[1..]))))
  }

  /** The order is the lexicographic one: a prefix comes first, and else the first difference decides. */
  lemma {:induction false} StringLeMeans(a: string, b: string)
    ensures StringLe(a, b) <==> a <= b || exists k :: FirstDifferenceBelow(a, b, k)
  {
    if a != [] && b != [] {
      StringLeMeans(a[1..], b[1..]);
      assert a == [a[0]] + a[1..] && b == [b[0]] + b[1..];
      if a[0] == b[0] {
        forall k ensures FirstDifferenceBelow(a, b, k) <==> FirstDifferenceBelow(a[1..], b[1..], k - 1) {
          if FirstDifferenceBelow(a[1..], b[1..], k - 1) {
            assert a[..k] == [a[0]] + a[1..][..k - 1] && b[..k] == [b[0]] + b[1..][..k - 1];
          }
          if FirstDifferenceBelow(a, b, k) && k > 0 {
            assert a[1..][..k - 1] == a[..k][1..] && b[1..][..k - 1] == b[..k][1..];
          }
        }
        if exists k :: FirstDifferenceBelow(a[1..], b[1..], k) {
          var k :| FirstDifferenceBelow(a[1..], b[1..], k);
          assert FirstDifferenceBelow(a, b, k + 1);
        }
      } else {
        assert FirstDifferenceBelow(a, b, 0) <==> a[0] < b[0];
      }
    }
  }

  ghost predicate FirstDifferenceBelow(a: string, b: string, k: int) {
    0 <= k < |a| && k < |b| && a[..k] == b[..k] && a[k] < b[k]
  }

  lemma StringLeTotal(a: string, b: string)
    ensures StringLe(a, b) || StringLe(b, a)
  {
    if a != [] && b != [] && a[0] == b[0] { StringLeTotal(a[1..], b[1..]); }
  }

  lemma StringLeTransitive(a: string, b: string, c: string)
    requires StringLe(a, b) && StringLe(b, c)
    ensures StringLe(a, c)
  {
    if a != [] && a[0] == b[0] == c[0] { StringLeTransitive(a[1..], b[1..], c[1..]); }
  }

  lemma StringLeAntisymmetric(a: string, b: string)
    requires StringLe(a, b) && StringLe(b, a)
    ensures a == b
  {
    if a != [] {
      StringLeAntisymmetric(a[1..], b[1..]);
      assert a == [a[0]] + a[1..] && b == [b[0]] + b[1..];
    }
  }

  lemma StringOrder()
    ensures TotalPreorder(StringLe)
    ensures forall a, b :: StringLe(a, b) && StringLe(b, a) ==> a == b
  {
    forall a, b ensures StringLe(a, b) || StringLe(b, a) { StringLeTotal(a, b); }
    forall a, b, c | StringLe(a, b) && StringLe(b, c) ensures StringLe(a, c) { StringLeTransitive(a, b, c); }
    forall a, b | StringLe(a, b) && StringLe(b, a) ensures a == b { StringLeAntisymmetric(a, b); }
  }

  /** Any two rearrangements of the same strings sort to the same sequence. */
  lemma SameStringsSortAlike(s: seq<string>, t: seq<string>)
    requires multiset(s) == multiset(t)
    ensures Sort(StringLe, s) == Sort(StringLe, t)
  {
    StringOrder();
    SortSorts(StringLe, s);
    SortSorts(StringLe, t);
    SortedUnique(StringLe, Sort(StringLe, s), Sort(StringLe, t));
  }

  lemma SameNumbersSortAlike(s: seq<nat>, t: seq<nat>)
    requires multiset(s) == multiset(t)
    ensures Sort(NumberLe, s) == Sort(NumberLe, t)
  {
    SortSorts(NumberLe, s);
    SortSorts(NumberLe, t);
    SortedUnique(NumberLe, Sort(NumberLe, s), Sort(NumberLe, t));
  }

  predicate Ascending(s: seq<nat>) {
    forall i, j :: 0 <= i < j < |s| ==> s[i] < s[j]
  }

  lemma SortedDistinctAscends(s: seq<nat>)
    requires Distinct(s)
    ensures Ascending(Sort(NumberLe, s)) && forall v :: v in Sort(NumberLe, s) <==> v in s
  {
    var list := Sort(NumberLe, s);
    SortSorts(NumberLe, s);
    DistinctRearranged(s, list);
    forall v: nat ensures v in list <==> v in s {
      assert v in list <==> v in multiset(list);
      assert v in s <==> v in multiset(s);
    }
    forall i, j | 0 <= i < j < |list| ensures list[i] < list[j] {
      assert NumberLe(list[i], list[j]);
    }
  }

  /** A strictly ascending sequence is determined by its elements. */
  lemma AscendingUnique(a: seq<nat>, b: seq<nat>)
    requires Ascending(a) && Ascending(b) && forall v :: v in a <==> v in b
    ensures a == b
  {
    forall x: nat ensures multiset(a)[x] == multiset(b)[x] {
      MultisetOfDistinct(a, x);
      MultisetOfDistinct(b, x);
      assert x in a <==> x in multiset(a);
      assert x in b <==> x in multiset(b);
    }
    assert multiset(a) == multiset(b);
    SortedUnique(NumberLe, a, b);
  }
}
