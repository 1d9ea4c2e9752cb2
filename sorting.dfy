/** Stable sorting in descending order of a key, as Java's `List.sort` and
 *  JavaScript's `Array.prototype.sort` do it with a "b before a" comparator:
 *  equal keys keep their input order. */
module Sorting {
  predicate SortedDesc<T>(s: seq<T>, key: T -> real)
  {
    forall i, j :: 0 <= i < j < |s| ==> key(s[i]) >= key(s[j])
  }

  /** Puts `x` after every element whose key is not below its own. */
  function Insert<T>(x: T, s: seq<T>, key: T -> real): (t: seq<T>)
    requires SortedDesc(s, key)
    ensures SortedDesc(t, key)
    ensures multiset(t) == multiset(s) + multiset{x}
    ensures |t| == |s| + 1
    ensures t[0] == x || (|s| > 0 && t[0] == s[0])
  {
    if |s| == 0 then [x]
    else if key(s[0]) < key(x) then [x] + s
    else
      var rest := Insert(x, s[1..], key);
      assert s == [s[0]] + s[1..];
      [s[0]] + rest
  }

  /** Insertion sort: sort all but the last element, then insert the last
   *  one after every element whose key is not below its own, which is what
   *  keeps equal keys in input order. */
  function SortDesc<T>(s: seq<T>, key: T -> real): (t: seq<T>)
    ensures SortedDesc(t, key)
    ensures multiset(t) == multiset(s)
    ensures |t| == |s|
  {
    if |s| == 0 then []
    else
      var init := s[..|s| - 1];
      assert s == init + [s[|s| - 1]];
      Insert(s[|s| - 1], SortDesc(init, key), key)
  }

  /** Sorting keeps exactly the elements it was given. */
  lemma SortDescSameElements<T>(s: seq<T>, key: T -> real)
    ensures forall y :: y in SortDesc(s, key) <==> y in s
  {
    var t := SortDesc(s, key);
    forall y
      ensures y in t <==> y in s
    {
      assert y in t <==> multiset(t)[y] > 0;
      assert y in s <==> multiset(s)[y] > 0;
    }
  }

  /** A sorted input comes back as it is: the sort is stable. */
  lemma {:induction false} SortDescOfSorted<T>(s: seq<T>, key: T -> real)
    requires SortedDesc(s, key)
    ensures SortDesc(s, key) == s
  {
    if |s| > 0 {
      var init := s[..|s| - 1];
      assert SortedDesc(init, key);
      SortDescOfSorted(init, key);
      InsertAtEnd(s[|s| - 1], init, key);
      assert init + [s[|s| - 1]] == s;
    }
  }

  /** An element whose key is not above any other goes last. */
  lemma {:induction false} InsertAtEnd<T>(x: T, s: seq<T>, key: T -> real)
    requires SortedDesc(s, key)
    requires forall i :: 0 <= i < |s| ==> key(s[i]) >= key(x)
    ensures Insert(x, s, key) == s + [x]
  {
    if |s| > 0 {
      assert SortedDesc(s[1..], key);
      InsertAtEnd(x, s[1..], key);
      assert s == [s[0]] + s[1..];
    }
  }

  /** A prefix of a sorted sequence holds its best keys: nothing left behind
   *  is keyed above anything kept. */
  lemma PrefixIsTop<T>(s: seq<T>, key: T -> real, n: nat)
    requires SortedDesc(s, key) && n <= |s|
    ensures forall x, y :: x in s && x !in s[..n] && y in s[..n] ==> key(y) >= key(x)
  {
    forall x, y | x in s && x !in s[..n] && y in s[..n]
      ensures key(y) >= key(x)
    {
      var k :| 0 <= k < |s| && s[k] == x;
      assert forall t :: 0 <= t < n ==> s[..n][t] == s[t];
      var i :| 0 <= i < n && s[..n][i] == y;
    }
  }
}
