/** The (time, id) order that the server pages by and the browser sorts by,
    and the meaning of "order by" for a table whose rows have distinct keys. */
module Ordering {

  datatype Key = Key(at: int, id: int)

  predicate Less(a: Key, b: Key) {
    a.at < b.at || (a.at == b.at && a.id < b.id)
  }

  /** Strictly ascending: sorted, and no two elements share a key. */
  ghost predicate Ascending<T>(key: T -> Key, s: seq<T>) {
    forall i, j :: 0 <= i < j < |s| ==> Less(key(s[i]), key(s[j]))
  }

  ghost predicate DistinctKeys<T>(key: T -> Key, s: seq<T>) {
    forall i, j :: 0 <= i < j < |s| ==> key(s[i]) != key(s[j])
  }

  /** Stable insertion: `x` goes in front of the first element that is not less than it. */
  function Insert<T>(key: T -> Key, x: T, s: seq<T>): seq<T> {
    if s == [] || !Less(key(s[0]), key(x)) then [x] + s else [s[0]] + Insert(key, x, s[1..])
  }

  /** A stable sort: what SQL's "order by" and JavaScript's `sort` return. */
  function SortBy<T>(key: T -> Key, s: seq<T>): seq<T> {
    if s == [] then [] else Insert(key, s[0], SortBy(key, s[1..]))
  }

  function Reverse<T>(s: seq<T>): seq<T> {
    seq(|s|, i requires 0 <= i < |s| => s[|s| - 1 - i])
  }

  lemma {:induction false} InsertElements<T>(key: T -> Key, x: T, s: seq<T>)
    ensures multiset(Insert(key, x, s)) == multiset(s) + multiset{x}
  {
    if s == [] || !Less(key(s[0]), key(x)) {
    } else {
      assert s == [s[0]] + s[1..];
      InsertElements(key, x, s[1..]);
    }
  }

  /** Sorting is a permutation. */
  lemma {:induction false} SortByElements<T>(key: T -> Key, s: seq<T>)
    ensures multiset(SortBy(key, s)) == multiset(s)
    ensures |SortBy(key, s)| == |s|
    ensures forall x :: x in SortBy(key, s) <==> x in s
  {
    if s == [] {
    } else {
      assert s == [s[0]] + s[1..];
      SortByElements(key, s[1..]);
      InsertElements(key, s[0], SortBy(key, s[1..]));
    }
    assert |SortBy(key, s)| == |multiset(SortBy(key, s))| == |multiset(s)| == |s|;
    forall x ensures x in SortBy(key, s) <==> x in s {
      assert x in SortBy(key, s) <==> x in multiset(SortBy(key, s));
      assert x in s <==> x in multiset(s);
    }
  }

  lemma {:induction false} InsertAscending<T>(key: T -> Key, x: T, s: seq<T>)
    requires Ascending(key, s)
    requires forall y :: y in s ==> key(y) != key(x)
    ensures Ascending(key, Insert(key, x, s))
  {
    if s == [] || !Less(key(s[0]), key(x)) {
    } else {
      InsertAscending(key, x, s[1..]);
      InsertElements(key, x, s[1..]);
      var rest := Insert(key, x, s[1..]);
      forall y | y in rest ensures Less(key(s[0]), key(y)) {
        assert y in multiset(rest);
      }
    }
  }

  lemma {:induction false} SortByAscending<T>(key: T -> Key, s: seq<T>)
    requires DistinctKeys(key, s)
    ensures Ascending(key, SortBy(key, s))
  {
    if s == [] {
    } else {
      SortByAscending(key, s[1..]);
      SortByElements(key, s[1..]);
      forall y | y in SortBy(key, s[1..]) ensures key(y) != key(s[0]) {
        assert y in multiset(SortBy(key, s[1..]));
        assert y in s[1..];
        var j :| 0 <= j < |s[1..]| && s[1..][j] == y;
        assert s[j + 1] == y;
      }
      InsertAscending(key, s[0], SortBy(key, s[1..]));
    }
  }

  lemma EmptyOrInhabited<T>(s: seq<T>)
    ensures s == [] || exists x :: x in s
  {
    if s != [] { assert s[0] in s; }
  }

  /** A strictly ascending list is determined by its elements. */
  lemma {:induction false} AscendingUnique<T>(key: T -> Key, a: seq<T>, b: seq<T>)
    requires Ascending(key, a) && Ascending(key, b)
    requires forall x :: x in a <==> x in b
    ensures a == b
  {
    if a == [] {
      EmptyOrInhabited(b);
    } else {
      assert a[0] in b;
      assert b[0] in a;
      assert a[0] == b[0];
      forall x ensures x in a[1..] <==> x in b[1..] {
        if x in a[1..] { assert x in b && key(x) != key(a[0]); }
        if x in b[1..] { assert x in a && key(x) != key(b[0]); }
      }
      AscendingUnique(key, a[1..], b[1..]);
    }
  }
}
