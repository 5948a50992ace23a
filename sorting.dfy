/**
 * Stable sorting by a total preorder, used for every `orderBy` query and
 * `Array.prototype.sort` call of the system, and the lexicographic order on
 * strings the name orderings use.
 */
module Sorting {
  /** `le` is total and transitive, as a comparator-derived "not after" relation is. */
  ghost predicate TotalPreorder<T(!new)>(le: (T, T) -> bool)
  {
    (forall a, b :: le(a, b) || le(b, a)) &&
    (forall a, b, c :: le(a, b) && le(b, c) ==> le(a, c))
  }

  /** Every element is "not after" every later one. */
  ghost predicate SortedBy<T>(s: seq<T>, le: (T, T) -> bool)
  {
    forall i, j :: 0 <= i < j < |s| ==> le(s[i], s[j])
  }

  /** `x` goes before the first element it is not after, so before the elements equal to it, which come later in the input. */
  function Insert<T>(x: T, s: seq<T>, le: (T, T) -> bool): (r: seq<T>)
    ensures |r| == |s| + 1
    ensures multiset(r) == multiset(s) + multiset{x}
  {
    if |s| == 0 then [x]
    else if le(x, s[0]) then [x] + s
    else
      assert s == [s[0]] + s[1..];
      [s[0]] + Insert(x, s[1..], le)
  }

  /** Insertion sort from the back, which keeps equal elements in input order. */
  function SortBy<T>(s: seq<T>, le: (T, T) -> bool): (r: seq<T>)
    ensures |r| == |s|
    ensures multiset(r) == multiset(s)
  {
    if |s| == 0 then []
    else
      assert s == [s[0]] + s[1..];
      Insert(s[0], SortBy(s[1..], le), le)
  }

  lemma {:induction false} InsertSorted<T(!new)>(x: T, s: seq<T>, le: (T, T) -> bool)
    requires TotalPreorder(le)
    requires SortedBy(s, le)
    ensures SortedBy(Insert(x, s, le), le)
  {
    if |s| > 0 && !le(x, s[0]) {
      var r := Insert(x, s[1..], le);
      InsertSorted(x, s[1..], le);
      assert forall y :: y in multiset(r) ==> y == x || y in multiset(s[1..]);
      forall j | 0 < j < |r| + 1
        ensures le(s[0], ([s[0]] + r)[j])
      {
        assert r[j - 1] in multiset(r);
        if r[j - 1] != x {
          assert r[j - 1] in s[1..];
        }
      }
    }
  }

  /** The result is ordered by `le` and a permutation of the input. */
  lemma {:induction false} SortBySorted<T(!new)>(s: seq<T>, le: (T, T) -> bool)
    requires TotalPreorder(le)
    ensures SortedBy(SortBy(s, le), le)
    ensures multiset(SortBy(s, le)) == multiset(s)
  {
    if |s| > 0 {
      SortBySorted(s[1..], le);
      InsertSorted(s[0], SortBy(s[1..], le), le);
    }
  }

  /** Lexicographic "not after" on strings by code unit, as a byte-wise collation orders names. */
  predicate StringLe(a: string, b: string)
  {
    if |a| == 0 then true
    else if |b| == 0 then false
    else if a[0] != b[0] then a[0] < b[0]
    else StringLe(a[1..], b[1..])
  }

  lemma {:induction false} StringLeTotal(a: string, b: string)
    ensures StringLe(a, b) || StringLe(b, a)
  {
    if |a| > 0 && |b| > 0 && a[0] == b[0] {
      StringLeTotal(a[1..], b[1..]);
    }
  }

  lemma {:induction false} StringLeTransitive(a: string, b: string, c: string)
    requires StringLe(a, b) && StringLe(b, c)
    ensures StringLe(a, c)
  {
    if |a| > 0 && |b| > 0 && |c| > 0 && a[0] == b[0] && b[0] == c[0] {
      StringLeTransitive(a[1..], b[1..], c[1..]);
    }
  }

  /** The string order is total and transitive. */
  lemma StringLeOrder()
    ensures forall a: string, b: string :: StringLe(a, b) || StringLe(b, a)
    ensures forall a: string, b: string, c: string :: StringLe(a, b) && StringLe(b, c) ==> StringLe(a, c)
  {
    forall a: string, b: string {
      StringLeTotal(a, b);
    }
    forall a: string, b: string, c: string | StringLe(a, b) && StringLe(b, c)
      ensures StringLe(a, c)
    {
      StringLeTransitive(a, b, c);
    }
  }

  /** Ordering records by an integer key, ascending or descending, is a total preorder. */
  lemma IntKeyPreorder<T(!new)>(key: T -> int)
    ensures TotalPreorder((x: T, y: T) => key(x) <= key(y))
    ensures TotalPreorder((x: T, y: T) => key(x) >= key(y))
  {
  }
}
