/** Sorting by a total preorder, and cutting a sorted sequence. */
module Sorting {
  import opened Collections

  predicate InOrder<T>(s: seq<T>, before: (T, T) -> bool) {
    forall i, j | 0 <= i < j < |s| :: before(s[i], s[j])
  }

  ghost predicate TotalPreorder<T(!new)>(before: (T, T) -> bool) {
    && (forall a, b :: before(a, b) || before(b, a))
    && (forall a, b, c :: before(a, b) && before(b, c) ==> before(a, c))
  }

  /** No two elements have the same key. */
  predicate DistinctBy<T>(s: seq<T>, key: T -> int) {
    forall i, j | 0 <= i < j < |s| :: key(s[i]) != key(s[j])
  }

  function InsertBy<T>(s: seq<T>, x: T, before: (T, T) -> bool): (r: seq<T>)
    ensures multiset(r) == multiset(s) + multiset{x}
  {
    if |s| == 0 || !before(s[0], x) then [x] + s
    else
      assert s == [s[0]] + s[1..];
      [s[0]] + InsertBy(s[1..], x, before)
  }

  lemma {:induction false} InsertInOrder<T(!new)>(s: seq<T>, x: T, before: (T, T) -> bool)
    requires TotalPreorder(before) && InOrder(s, before)
    ensures InOrder(InsertBy(s, x, before), before)
  {
    if |s| > 0 && before(s[0], x) {
      InsertInOrder(s[1..], x, before);
      var t := InsertBy(s[1..], x, before);
      forall j | 0 <= j < |t|
        ensures before(s[0], t[j])
      {
        assert t[j] in multiset(t);
        assert t[j] == x || t[j] in s[1..];
      }
    }
  }

  /** Only order and contents are promised, as by sort.Slice. */
  method SortBy<T(!new)>(s: seq<T>, before: (T, T) -> bool) returns (r: seq<T>)
    requires TotalPreorder(before)
    ensures InOrder(r, before) && multiset(r) == multiset(s)
  {
    r := [];
    for i := 0 to |s|
      invariant InOrder(r, before) && multiset(r) == multiset(s[..i])
    {
      InsertInOrder(r, s[i], before);
      r := InsertBy(r, s[i], before);
      assert s[..i + 1] == s[..i] + [s[i]];
    }
    assert s[..|s|] == s;
  }

  lemma KeyOnce<T>(s: seq<T>, key: T -> int, k: nat)
    requires DistinctBy(s, key) && k < |s|
    ensures multiset(s)[s[k]] == 1
  {
    assert s == s[..k] + [s[k]] + s[k + 1..];
    assert s[k] !in s[..k] && s[k] !in s[k + 1..];
  }

  lemma Repeated<T>(s: seq<T>, i: nat, j: nat)
    requires i < j < |s| && s[i] == s[j]
    ensures multiset(s)[s[i]] >= 2
  {
    assert s == s[..i] + [s[i]] + s[i + 1..j] + [s[j]] + s[j + 1..];
  }

  /** A permutation keeps keys distinct, the length and the members. */
  lemma PermutationKeeps<T(!new)>(r: seq<T>, s: seq<T>, key: T -> int)
    requires multiset(r) == multiset(s) && DistinctBy(s, key)
    ensures DistinctBy(r, key) && |r| == |s| && forall x :: x in r <==> x in s
  {
    assert |r| == |multiset(r)| && |s| == |multiset(s)|;
    forall x
      ensures x in r <==> x in s
    {
      assert x in r <==> x in multiset(r);
      assert x in s <==> x in multiset(s);
    }
    forall i, j | 0 <= i < j < |r|
      ensures key(r[i]) != key(r[j])
    {
      assert r[i] in s && r[j] in s;
      var k :| 0 <= k < |s| && s[k] == r[i];
      KeyOnce(s, key, k);
      if key(r[i]) == key(r[j]) {
        var l :| 0 <= l < |s| && s[l] == r[j];
        Repeated(r, i, j);
      }
    }
  }

  /** What a cut drops comes after what it keeps. */
  lemma DroppedIsLater<T>(sorted: seq<T>, before: (T, T) -> bool, limit: nat, x: T, y: T)
    requires InOrder(sorted, before) && x in sorted && x !in Take(sorted, limit) && y in Take(sorted, limit)
    ensures before(y, x)
  {
    TakeMembers(sorted, limit);
    var k :| 0 <= k < |sorted| && sorted[k] == x;
    var j :| 0 <= j < |Take(sorted, limit)| && Take(sorted, limit)[j] == y;
    assert sorted[j] == y && j < k;
  }
}
