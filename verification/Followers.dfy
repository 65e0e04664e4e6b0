/** Cursor pages over a follower set (Store.ListFollowers in internal/store/store.go). */
module Followers {
  import opened Collections

  function After(followers: set<int>, cursor: int): set<int> {
    set u | u in followers && (cursor > 0 ==> u > cursor)
  }

  /** The `limit` smallest followers behind the cursor; next is the last of them, or 0 when no
      follower remains. */
  predicate IsFollowerPage(followers: set<int>, cursor: int, limit: nat, ids: seq<int>, next: int) {
    var rest := After(followers, cursor);
    && Ascending(ids)
    && |ids| <= limit
    && (forall u | u in ids :: u in rest)
    && (forall u, v | u in rest && u !in ids && v in ids :: v < u)
    && (if forall u | u in rest :: u in ids then next == 0 else |ids| == limit > 0 && next == ids[limit - 1])
  }

  function InsertAsc(s: seq<int>, x: int): seq<int> {
    if |s| == 0 || x < s[0] then [x] + s else [s[0]] + InsertAsc(s[1..], x)
  }

  lemma {:induction false} InsertAscSorted(s: seq<int>, x: int)
    requires Ascending(s) && x !in s
    ensures Ascending(InsertAsc(s, x))
    ensures forall y :: y in InsertAsc(s, x) <==> y == x || y in s
  {
    if |s| > 0 && !(x < s[0]) {
      InsertAscSorted(s[1..], x);
      var t := InsertAsc(s[1..], x);
      assert s == [s[0]] + s[1..];
      assert forall j | 0 <= j < |t| :: t[j] in t;
    }
  }

  /** The IDs of the set, sorted. */
  method SortIds(followers: set<int>) returns (all: seq<int>)
    ensures Ascending(all) && forall u :: u in all <==> u in followers
  {
    all := [];
    var todo := followers;
    while todo != {}
      invariant todo <= followers && Ascending(all)
      invariant forall u :: u in all <==> u in followers && u !in todo
      decreases todo
    {
      ghost var some := AnyElement(todo);
      var uid :| uid in todo;
      InsertAscSorted(all, uid);
      all := InsertAsc(all, uid);
      todo := todo - {uid};
    }
  }

  /** The index of the first ID behind the cursor. */
  method FirstAfter(all: seq<int>, cursor: int) returns (start: nat)
    requires Ascending(all)
    ensures start <= |all| && forall j | 0 <= j < |all| :: (cursor > 0 ==> all[j] > cursor) <==> start <= j
  {
    start := 0;
    if cursor > 0 {
      var i := 0;
      while i < |all|
        invariant 0 <= i <= |all|
        invariant start == i
        invariant forall j | 0 <= j < i :: all[j] <= cursor
      {
        if all[i] > cursor {
          break;
        }
        i := i + 1;
        start := i;
      }
    }
  }

  method ListFollowers(followers: set<int>, cursor: int, limit: nat) returns (ids: seq<int>, next: int)
    requires limit > 0
    ensures IsFollowerPage(followers, cursor, limit, ids, next)
  {
    var all := SortIds(followers);
    var start := FirstAfter(all, cursor);
    assert forall j | 0 <= j < |all| :: (all[j] in After(followers, cursor) <==> start <= j) by {
      assert forall j | 0 <= j < |all| :: all[j] in all;
    }
    if start >= |all| {
      assert forall u | u in After(followers, cursor) :: u in all;
      return [], 0;
    }
    var end := if start + limit > |all| then |all| else start + limit;
    ids := all[start..end];
    next := 0;
    if end < |all| {
      next := ids[|ids| - 1];
    }
    PageOfAll(all, followers, cursor, limit, start, end);
  }

  lemma SliceMembers(all: seq<int>, start: nat, end: nat)
    requires start <= end <= |all|
    ensures forall u :: u in all[start..end] <==> exists j :: start <= j < end && all[j] == u
  {
    var ids := all[start..end];
    forall u
      ensures u in ids <==> exists j :: start <= j < end && all[j] == u
    {
      if u in ids {
        var k :| 0 <= k < |ids| && ids[k] == u;
        assert all[start + k] == u;
      }
      if j :| start <= j < end && all[j] == u {
        assert ids[j - start] == u;
      }
    }
  }

  lemma PageOfAll(all: seq<int>, followers: set<int>, cursor: int, limit: nat, start: nat, end: nat)
    requires Ascending(all) && forall u :: u in all <==> u in followers
    requires start < end <= |all| && limit > 0 && end == if start + limit > |all| then |all| else start + limit
    requires forall j | 0 <= j < |all| :: (all[j] in After(followers, cursor) <==> start <= j)
    ensures IsFollowerPage(followers, cursor, limit, all[start..end], if end < |all| then all[end - 1] else 0)
  {
    var ids := all[start..end];
    SliceMembers(all, start, end);
    forall u | u in After(followers, cursor)
      ensures exists j :: start <= j < |all| && all[j] == u
    {
      assert u in all;
    }
    if end < |all| {
      assert all[end] in After(followers, cursor) && all[end] !in ids;
    }
  }
}
