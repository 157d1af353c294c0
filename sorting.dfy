/** `ORDER BY <column> ASC|DESC` followed by `OFFSET`/`LIMIT`, over rows held
    in a sequence. The sort is a stable insertion sort on an integer column;
    rows with equal keys keep their stored order. */
module Sorting {

  predicate InOrder(x: int, y: int, ascending: bool) {
    if ascending then x <= y else x >= y
  }

  ghost predicate Sorted<T>(s: seq<T>, key: T -> int, ascending: bool) {
    forall i, j :: 0 <= i < j < |s| ==> InOrder(key(s[i]), key(s[j]), ascending)
  }

  /** A sorted sequence stays sorted behind an element that may precede
      all of it. */
  lemma SortedCons<T>(y: T, t: seq<T>, key: T -> int, ascending: bool)
    requires Sorted(t, key, ascending)
    requires forall k :: 0 <= k < |t| ==> InOrder(key(y), key(t[k]), ascending)
    ensures Sorted([y] + t, key, ascending)
  {
    var r := [y] + t;
    forall i, j | 0 <= i < j < |r|
      ensures InOrder(key(r[i]), key(r[j]), ascending)
    {
      assert r[j] == t[j - 1];
      if i > 0 {
        assert r[i] == t[i - 1];
      }
    }
  }

  /** The head of a sorted sequence may precede every element of it. */
  lemma HeadPrecedesAll<T>(s: seq<T>, key: T -> int, ascending: bool)
    requires Sorted(s, key, ascending) && s != []
    ensures forall k :: 0 <= k < |s| ==> InOrder(key(s[0]), key(s[k]), ascending)
  {
    forall k | 0 < k < |s|
      ensures InOrder(key(s[0]), key(s[k]), ascending)
    {
    }
  }

  /** What `y` may precede in `t` and `x`, it may precede in any
      rearrangement of them. */
  lemma PrecedesPermutation<T>(y: T, x: T, t: seq<T>, r: seq<T>, key: T -> int, ascending: bool)
    requires multiset(r) == multiset(t) + multiset{x}
    requires InOrder(key(y), key(x), ascending)
    requires forall k :: 0 <= k < |t| ==> InOrder(key(y), key(t[k]), ascending)
    ensures forall k :: 0 <= k < |r| ==> InOrder(key(y), key(r[k]), ascending)
  {
    forall k | 0 <= k < |r|
      ensures InOrder(key(y), key(r[k]), ascending)
    {
      assert r[k] in multiset(r);
      if r[k] != x {
        assert r[k] in multiset(t);
        var m :| 0 <= m < |t| && t[m] == r[k];
      }
    }
  }

  /** Put `x` in front of the first element it may precede. */
  function Insert<T>(x: T, s: seq<T>, key: T -> int, ascending: bool): (r: seq<T>)
    requires Sorted(s, key, ascending)
    ensures Sorted(r, key, ascending)
    ensures multiset(r) == multiset(s) + multiset{x}
    ensures |r| == |s| + 1
  {
    if s == [] then
      [x]
    else if InOrder(key(x), key(s[0]), ascending) then
      HeadPrecedesAll(s, key, ascending);
      SortedCons(x, s, key, ascending);
      [x] + s
    else
      var rest := Insert(x, s[1..], key, ascending);
      assert s == [s[0]] + s[1..];
      HeadPrecedesAll(s, key, ascending);
      assert forall k :: 0 <= k < |s[1..]| ==> s[1..][k] == s[k + 1];
      PrecedesPermutation(s[0], x, s[1..], rest, key, ascending);
      SortedCons(s[0], rest, key, ascending);
      [s[0]] + rest
  }

  /** The rows of `s` ordered by `key`, ascending or descending. */
  function SortBy<T>(s: seq<T>, key: T -> int, ascending: bool): (r: seq<T>)
    ensures Sorted(r, key, ascending)
    ensures multiset(r) == multiset(s)
    ensures |r| == |s|
  {
    if s == [] then []
    else
      assert s == [s[0]] + s[1..];
      Insert(s[0], SortBy(s[1..], key, ascending), key, ascending)
  }

  /** `OFFSET offset LIMIT limit`. */
  function Page<T>(s: seq<T>, offset: nat, limit: nat): (r: seq<T>)
    ensures |r| == if offset >= |s| then 0 else if |s| - offset < limit then |s| - offset else limit
    ensures forall i :: 0 <= i < |r| ==> r[i] == s[offset + i]
  {
    var lo := if offset < |s| then offset else |s|;
    var hi := if offset + limit < |s| then offset + limit else |s|;
    s[lo..hi]
  }
}
