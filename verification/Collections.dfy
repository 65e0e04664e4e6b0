/** Small facts about sets, maps and sequences used across the project. */
module Collections {
  lemma AnyElement<T>(s: set<T>) returns (x: T)
    requires s != {}
    ensures x in s
  {
    x :| x in s;
  }

  lemma SubsetSize<T>(a: set<T>, b: set<T>)
    requires a <= b
    ensures |a| <= |b|
    ensures |a| == |b| ==> a == b
  {
    assert b == a + (b - a);
  }

  /** The first n elements, or all when there are fewer. */
  function Take<T>(s: seq<T>, n: nat): seq<T> {
    if |s| <= n then s else s[..n]
  }

  lemma TakeMembers<T>(s: seq<T>, n: nat)
    ensures forall i | 0 <= i < |Take(s, n)| :: s[i] in Take(s, n)
  {
    forall i | 0 <= i < |Take(s, n)|
      ensures s[i] in Take(s, n)
    {
      assert Take(s, n)[i] == s[i];
    }
  }

  lemma HeadIn<T>(s: seq<T>)
    requires s != []
    ensures s[0] in s
  {
  }

  function Concat<T>(parts: seq<seq<T>>): seq<T> {
    if parts == [] then [] else parts[0] + Concat(parts[1..])
  }

  lemma {:induction false} ConcatSnoc<T>(parts: seq<seq<T>>, last: seq<T>)
    ensures Concat(parts + [last]) == Concat(parts) + last
  {
    if parts == [] {
      assert Concat([last][1..]) == [];
    } else {
      ConcatSnoc(parts[1..], last);
      assert (parts + [last])[1..] == parts[1..] + [last];
    }
  }

  predicate Ascending(s: seq<int>) {
    forall i, j | 0 <= i < j < |s| :: s[i] < s[j]
  }

  predicate Distinct<T(==)>(s: seq<T>) {
    forall i, j | 0 <= i < j < |s| :: s[i] != s[j]
  }

  /** Counter lookup: an absent key counts as 0. */
  function Get<K>(m: map<K, int>, k: K): int {
    if k in m then m[k] else 0
  }

  lemma SameMap<K>(a: map<K, int>, b: map<K, int>)
    requires forall k :: (k in a <==> k in b) && Get(a, k) == Get(b, k)
    ensures a == b
  {
    assert forall k | k in a :: a[k] == Get(a, k) == Get(b, k) == b[k];
  }

  function Bump<K>(m: map<K, int>, k: K, d: int): map<K, int> {
    m[k := Get(m, k) + d]
  }
}
