/**
 * The two store query operators the controllers rely on, over a sequence of
 * documents: a filter (`find` / `$match`) and a sort on an integer key
 * (`sort` / `$sort`). A descending sort is a sort on the negated key.
 */
module Query {

  /** `s` is in non-decreasing order of `key`. */
  ghost predicate SortedBy<T>(s: seq<T>, key: T -> int)
  {
    forall i, j :: 0 <= i < j < |s| ==> key(s[i]) <= key(s[j])
  }

  /** No two elements of `s` share an identity. */
  ghost predicate DistinctBy<T, K>(s: seq<T>, id: T -> K)
  {
    forall i, j :: 0 <= i < j < |s| ==> id(s[i]) != id(s[j])
  }

  /** The documents of `s` that satisfy `p`, in their original order. */
  function Where<T(!new)>(s: seq<T>, p: T -> bool): (r: seq<T>)
    ensures forall x :: x in r <==> x in s && p(x)
    ensures forall x :: multiset(r)[x] == if p(x) then multiset(s)[x] else 0
  {
    if s == [] then []
    else
      assert s == [s[0]] + s[1..];
      if p(s[0]) then [s[0]] + Where(s[1..], p) else Where(s[1..], p)
  }

  /** Places `x` before the first element of the sorted `s` whose key is not
      below its own. */
  function InsertBy<T>(x: T, s: seq<T>, key: T -> int): (r: seq<T>)
    requires SortedBy(s, key)
    ensures SortedBy(r, key)
    ensures multiset(r) == multiset(s) + multiset{x}
    ensures r[0] == x || (|s| > 0 && r[0] == s[0])
  {
    if s == [] || key(x) <= key(s[0]) then [x] + s
    else
      assert s == [s[0]] + s[1..];
      [s[0]] + InsertBy(x, s[1..], key)
  }

  /** An insertion sort: the result holds the same documents, ordered by key. */
  function SortBy<T>(s: seq<T>, key: T -> int): (r: seq<T>)
    ensures SortedBy(r, key)
    ensures multiset(r) == multiset(s)
  {
    if s == [] then []
    else
      assert s == [s[0]] + s[1..];
      InsertBy(s[0], SortBy(s[1..], key), key)
  }

  /** Sorting keeps exactly the same documents. */
  lemma SortSameElements<T>(s: seq<T>, key: T -> int)
    ensures forall x :: x in SortBy(s, key) <==> x in s
  {
    var r := SortBy(s, key);
    forall x ensures x in r <==> x in s {
      assert x in r <==> x in multiset(r);
      assert x in s <==> x in multiset(s);
    }
  }

  /** Splitting off the head of a sequence without shared identities. */
  lemma HeadTailDistinct<T, K>(s: seq<T>, id: T -> K)
    requires s != [] && DistinctBy(s, id)
    ensures DistinctBy(s[1..], id)
    ensures forall y :: y in s[1..] ==> id(y) != id(s[0])
  {
    forall y | y in s[1..] ensures id(y) != id(s[0]) {
      var k :| 0 <= k < |s[1..]| && s[1..][k] == y;
      assert s[k + 1] == y;
    }
  }

  /** Putting a document with a new identity in front keeps identities distinct. */
  lemma ConsDistinct<T, K>(a: T, t: seq<T>, id: T -> K)
    requires DistinctBy(t, id)
    requires forall y :: y in t ==> id(y) != id(a)
    ensures DistinctBy([a] + t, id)
  {
    var r := [a] + t;
    forall i, j | 0 <= i < j < |r| ensures id(r[i]) != id(r[j]) {
      assert r[j] == t[j - 1];
      if i > 0 {
        assert r[i] == t[i - 1];
      }
    }
  }

  lemma {:induction false} InsertKeepsDistinct<T, K>(x: T, s: seq<T>, key: T -> int, id: T -> K)
    requires SortedBy(s, key) && DistinctBy(s, id)
    requires forall y :: y in s ==> id(y) != id(x)
    ensures DistinctBy(InsertBy(x, s, key), id)
  {
    if s == [] || key(x) <= key(s[0]) {
      ConsDistinct(x, s, id);
    } else {
      HeadTailDistinct(s, id);
      InsertKeepsDistinct(x, s[1..], key, id);
      var t := InsertBy(x, s[1..], key);
      forall y | y in t ensures id(y) != id(s[0]) {
        assert y in multiset(t);
      }
      ConsDistinct(s[0], t, id);
    }
  }

  /** Sorting never makes two documents share an identity. */
  lemma {:induction false} SortKeepsDistinct<T, K>(s: seq<T>, key: T -> int, id: T -> K)
    requires DistinctBy(s, id)
    ensures DistinctBy(SortBy(s, key), id)
  {
    if s != [] {
      HeadTailDistinct(s, id);
      SortKeepsDistinct(s[1..], key, id);
      var t := SortBy(s[1..], key);
      forall y | y in t ensures id(y) != id(s[0]) {
        assert y in multiset(t);
      }
      InsertKeepsDistinct(s[0], t, key, id);
    }
  }

  /** Filtering never makes two documents share an identity. */
  lemma {:induction false} WhereKeepsDistinct<T(!new), K>(s: seq<T>, p: T -> bool, id: T -> K)
    requires DistinctBy(s, id)
    ensures DistinctBy(Where(s, p), id)
  {
    if s != [] {
      HeadTailDistinct(s, id);
      WhereKeepsDistinct(s[1..], p, id);
      if p(s[0]) {
        ConsDistinct(s[0], Where(s[1..], p), id);
      }
    }
  }
}
