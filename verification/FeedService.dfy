/** Reading the following feed: push inbox merged with pulled outboxes
    (internal/feed/service.go, pull.go). */
module FeedService {
  import opened Collections
  import opened RankedSet
  import opened FeedStore
  import opened Sorting

  const PAGE_SIZE: nat := 10

  datatype Option<T> = None | Some(value: T)

  // ---------------- merge, dedupe, cut ----------------

  /** Each video with the score of its first occurrence. */
  function FirstScores(s: seq<Entry>): ZSet {
    if s == [] then map[]
    else
      var z, e := FirstScores(s[..|s| - 1]), s[|s| - 1];
      if e.id in z then z else z[e.id := e.score]
  }

  predicate FirstAt(s: seq<Entry>, i: int, e: Entry) {
    && 0 <= i < |s| && s[i] == e
    && forall j | 0 <= j < i :: s[j].id != e.id
  }

  lemma {:induction false} FirstScoresAreFirst(s: seq<Entry>)
    ensures FirstScores(s).Keys == Ids(s)
    ensures forall m | m in FirstScores(s) :: exists i :: FirstAt(s, i, Entry(m, FirstScores(s)[m]))
  {
    if s != [] {
      var n := |s| - 1;
      FirstScoresAreFirst(s[..n]);
      assert s == s[..n] + [s[n]];
      assert Ids(s) == Ids(s[..n]) + {s[n].id};
      forall m | m in FirstScores(s)
        ensures exists i :: FirstAt(s, i, Entry(m, FirstScores(s)[m]))
      {
        if m in FirstScores(s[..n]) {
          var i :| FirstAt(s[..n], i, Entry(m, FirstScores(s[..n])[m]));
          assert FirstAt(s, i, Entry(m, FirstScores(s)[m]));
        } else {
          forall j | 0 <= j < n
            ensures s[j].id != m
          {
            assert s[..n][j] in s[..n];
          }
          assert FirstAt(s, n, s[n]);
        }
      }
    }
  }

  predicate NotLower(a: Entry, b: Entry) { a.score >= b.score }

  function IdOf(e: Entry): int { e.id }

  /** r is a best page of the deduplicated s: in score order, each video once with its first
      score, as long as the limit allows, and nothing left out scores above anything kept. */
  predicate IsMerged(r: seq<Entry>, s: seq<Entry>, limit: nat) {
    var firsts := FirstScores(s);
    && InOrder(r, NotLower)
    && DistinctBy(r, IdOf)
    && |r| == (if |firsts.Keys| < limit then |firsts.Keys| else limit)
    && Agrees(r, firsts)
    && (forall m, e | m in firsts && m !in Ids(r) && e in r :: firsts[m] <= e.score)
  }

  /** all lists each video of s once, with its first score. */
  predicate IsDeduped(all: seq<Entry>, s: seq<Entry>) {
    && DistinctBy(all, IdOf)
    && Ids(all) == FirstScores(s).Keys
    && Agrees(all, FirstScores(s))
  }

  lemma CutIsMerged(all: seq<Entry>, sorted: seq<Entry>, s: seq<Entry>, limit: nat)
    requires IsDeduped(all, s) && InOrder(sorted, NotLower) && multiset(sorted) == multiset(all)
    ensures IsMerged(Take(sorted, limit), s, limit)
  {
    var r := Take(sorted, limit);
    PermutationKeeps(sorted, all, IdOf);
    IdsSize(all);
    forall e | e in r
      ensures e in all
    {
      assert e in sorted;
    }
    forall m, e | m in FirstScores(s) && m !in Ids(r) && e in r
      ensures FirstScores(s)[m] <= e.score
    {
      assert m in Ids(all);
      var x :| x in all && x.id == m;
      assert x in sorted;
      DroppedIsLater(sorted, NotLower, limit, x, e);
    }
  }

  method MergeDedupe(a: seq<Entry>, b: seq<Entry>, limit: nat) returns (r: seq<Entry>)
    ensures IsMerged(r, a + b, limit)
    ensures forall e | e in r :: exists i :: FirstAt(a + b, i, e)
  {
    var seen: set<int> := {};
    var all: seq<Entry> := [];
    seen, all := AppendUnseen(seen, all, a, []);
    assert [] + a == a;
    seen, all := AppendUnseen(seen, all, b, a);
    var sorted := SortBy(all, NotLower);
    CutIsMerged(all, sorted, a + b, limit);
    FirstScoresAreFirst(a + b);
    r := Take(sorted, limit);
  }

  /** One list of the merge loop; `done` are the entries of the lists before it. */
  method AppendUnseen(seen: set<int>, all: seq<Entry>, list: seq<Entry>, ghost done: seq<Entry>)
    returns (seen': set<int>, all': seq<Entry>)
    requires seen == Ids(all) && IsDeduped(all, done)
    ensures seen' == Ids(all') && IsDeduped(all', done + list)
  {
    seen', all' := seen, all;
    assert done + list[..0] == done;
    for i := 0 to |list|
      invariant seen' == Ids(all') && IsDeduped(all', done + list[..i])
    {
      var e := list[i];
      AddEntry(all', done + list[..i], e);
      assert done + list[..i + 1] == done + list[..i] + [e];
      if e.id !in seen' {
        seen' := seen' + {e.id};
        all' := all' + [e];
      }
    }
    assert list[..|list|] == list;
  }

  lemma AddEntry(all: seq<Entry>, s: seq<Entry>, e: Entry)
    requires IsDeduped(all, s)
    ensures e.id in Ids(all) ==> IsDeduped(all, s + [e])
    ensures e.id !in Ids(all) ==> IsDeduped(all + [e], s + [e]) && Ids(all + [e]) == Ids(all) + {e.id}
  {
    assert (s + [e])[..|s|] == s;
    forall x | x in all
      ensures x.id in Ids(all)
    {
    }
    assert forall i | 0 <= i < |all| :: all[i] in all;
  }

  /** With distinct scores a merged page is determined: the top of the deduplicated entries. */
  lemma MergedIsTop(r: seq<Entry>, s: seq<Entry>, limit: nat)
    requires IsMerged(r, s, limit) && DistinctScores(FirstScores(s))
    ensures IsListing(r, Top(FirstScores(s), limit))
  {
    var z := FirstScores(s);
    IdsSize(r);
    forall m | m in Ids(r)
      ensures m in Top(z, limit)
    {
      var e :| e in r && e.id == m;
      forall x | x in Above(z, m)
        ensures x in Ids(r) - {m}
      {
        LowerTotal(At(z, m), At(z, x));
        assert z[m] < z[x];
      }
      SubsetSize(Above(z, m), Ids(r) - {m});
    }
    assert Ids(r) <= Top(z, limit).Keys;
    TopSize(z, limit);
    SubsetSize(Ids(r), Top(z, limit).Keys);
    forall i, j | 0 <= i < j < |r|
      ensures Lower(r[j], r[i])
    {
      assert r[i] in r && r[j] in r;
    }
    forall m | m in Top(z, limit)
      ensures At(Top(z, limit), m) in r
    {
      assert m in Ids(r);
    }
  }

  // ---------------- truncated reads give the exact page ----------------

  /** What the outbox reads append, in the order in which they complete. */
  ghost function Pulled(outboxes: map<int, ZSet>, order: seq<int>, cursor: int, fetch: nat): seq<Entry> {
    if order == [] then []
    else Pulled(outboxes, order[..|order| - 1], cursor, fetch)
         + Page(Of(outboxes, order[|order| - 1]), cursor, fetch)
  }

  /** u unites the lists, which agree on every score. */
  ghost predicate IsUnion(u: ZSet, inbox: ZSet, outboxes: map<int, ZSet>, authors: set<int>) {
    && SubMap(inbox, u)
    && (forall a | a in authors :: SubMap(Of(outboxes, a), u))
    && (forall m | m in u && m !in inbox :: exists a :: a in authors && m in Of(outboxes, a))
  }

  predicate Agrees(s: seq<Entry>, z: ZSet) {
    forall e | e in s :: e.id in z && z[e.id] == e.score
  }

  lemma {:induction false} FirstScoresAgree(s: seq<Entry>, z: ZSet)
    requires Agrees(s, z)
    ensures SubMap(FirstScores(s), z) && FirstScores(s).Keys == Ids(s)
  {
    if s != [] {
      var n := |s| - 1;
      assert s == s[..n] + [s[n]];
      FirstScoresAgree(s[..n], z);
      assert Ids(s) == Ids(s[..n]) + {s[n].id};
    }
  }

  /** A page of a part of u holds entries of u, among them each video of the part that has
      fewer than `fetch` videos of u above it. */
  lemma PartialRead(part: ZSet, u: ZSet, cursor: int, fetch: nat)
    requires SubMap(part, u)
    ensures Agrees(Page(part, cursor, fetch), Below(u, cursor))
    ensures forall m | m in part && m in Top(Below(u, cursor), fetch) :: m in Ids(Page(part, cursor, fetch))
  {
    var b, d := Below(part, cursor), Below(u, cursor);
    TakeIsTop(Listing(b), b, fetch);
    forall m | m in part && m in Top(d, fetch)
      ensures m in Ids(Page(part, cursor, fetch))
    {
      assert forall x | x in b :: At(b, x) == At(d, x);
      SubsetSize(Above(b, m), Above(d, m));
      assert At(Top(b, fetch), m) in Page(part, cursor, fetch);
    }
  }

  lemma {:induction false} PulledReads(outboxes: map<int, ZSet>, order: seq<int>, u: ZSet, cursor: int, fetch: nat)
    requires forall a | a in order :: SubMap(Of(outboxes, a), u)
    ensures var s := Pulled(outboxes, order, cursor, fetch);
            && Agrees(s, Below(u, cursor))
            && (forall a, m | a in order && m in Of(outboxes, a) && m in Top(Below(u, cursor), fetch) :: m in Ids(s))
  {
    if order != [] {
      var n := |order| - 1;
      assert order == order[..n] + [order[n]];
      PulledReads(outboxes, order[..n], u, cursor, fetch);
      PartialRead(Of(outboxes, order[n]), u, cursor, fetch);
      assert Ids(Pulled(outboxes, order, cursor, fetch)) == Ids(Pulled(outboxes, order[..n], cursor, fetch))
                                                            + Ids(Page(Of(outboxes, order[n]), cursor, fetch));
    }
  }

  lemma TopGrowsWithN(z: ZSet, n: nat, n': nat)
    requires n <= n'
    ensures SubMap(Top(z, n), Top(z, n'))
  {
  }

  lemma OrderIsAuthors(order: seq<int>, u: ZSet, inbox: ZSet, outboxes: map<int, ZSet>)
    requires IsUnion(u, inbox, outboxes, set a | a in order)
    ensures forall a | a in order :: SubMap(Of(outboxes, a), u)
    ensures forall m | m in u && m !in inbox :: exists a :: a in order && m in Of(outboxes, a)
  {
    var authors := set a | a in order;
    assert forall a | a in order :: a in authors;
    forall m | m in u && m !in inbox
      ensures exists a :: a in order && m in Of(outboxes, a)
    {
      var a :| a in authors && m in Of(outboxes, a);
    }
  }

  lemma JoinReads(p: seq<Entry>, q: seq<Entry>, d: ZSet, top: ZSet)
    requires Agrees(p, d) && Agrees(q, d) && SubMap(top, d)
    requires forall m | m in top :: m in Ids(p) || m in Ids(q)
    ensures SubMap(top, FirstScores(p + q)) && SubMap(FirstScores(p + q), d)
  {
    FirstScoresAgree(p + q, d);
    assert Ids(p + q) == Ids(p) + Ids(q);
  }

  lemma ReadsHoldTop(inbox: ZSet, outboxes: map<int, ZSet>, order: seq<int>, cursor: int, fetch: nat, u: ZSet)
    requires SubMap(inbox, u) && forall a | a in order :: SubMap(Of(outboxes, a), u)
    requires forall m | m in u && m !in inbox :: exists a :: a in order && m in Of(outboxes, a)
    ensures var firsts := FirstScores(Page(inbox, cursor, fetch) + Pulled(outboxes, order, cursor, fetch));
            SubMap(Top(Below(u, cursor), fetch), firsts) && SubMap(firsts, Below(u, cursor))
  {
    var p, q := Page(inbox, cursor, fetch), Pulled(outboxes, order, cursor, fetch);
    var d := Below(u, cursor);
    PartialRead(inbox, u, cursor, fetch);
    PulledReads(outboxes, order, u, cursor, fetch);
    forall m | m in Top(d, fetch)
      ensures m in Ids(p) || m in Ids(q)
    {
      assert m in u;
      if m !in inbox {
        var a :| a in order && m in Of(outboxes, a);
      }
    }
    JoinReads(p, q, d, Top(d, fetch));
  }

  lemma MergedPage(r: seq<Entry>, s: seq<Entry>, d: ZSet, fetch: nat, limit: nat)
    requires limit <= fetch && DistinctScores(d) && IsMerged(r, s, limit)
    requires SubMap(Top(d, fetch), FirstScores(s)) && SubMap(FirstScores(s), d)
    ensures r == Take(Listing(d), limit)
  {
    TopGrowsWithN(d, limit, fetch);
    Sandwich(d, FirstScores(s), limit);
    MergedIsTop(r, s, limit);
    TakeIsTop(Listing(d), d, limit);
    ListingUnique(r, Take(Listing(d), limit), Top(d, limit));
  }

  /** Merging `fetch` entries of each list gives the page of the full union, whatever the order
      in which the concurrent reads completed. */
  lemma PageExact(r: seq<Entry>, inbox: ZSet, outboxes: map<int, ZSet>, order: seq<int>, cursor: int,
                  fetch: nat, limit: nat, u: ZSet)
    requires limit <= fetch
    requires IsUnion(u, inbox, outboxes, set a | a in order) && DistinctScores(u)
    requires IsMerged(r, Page(inbox, cursor, fetch) + Pulled(outboxes, order, cursor, fetch), limit)
    ensures r == Page(u, cursor, limit)
  {
    var s := Page(inbox, cursor, fetch) + Pulled(outboxes, order, cursor, fetch);
    OrderIsAuthors(order, u, inbox, outboxes);
    ReadsHoldTop(inbox, outboxes, order, cursor, fetch, u);
    DistinctBelow(u, cursor);
    MergedPage(r, s, Below(u, cursor), fetch, limit);
  }

  // ---------------- the service ----------------

  datatype VideoVO = VideoVO(videoID: int, authorID: int, liked: bool)

  datatype FeedPage = FeedPage(videos: seq<VideoVO>, nextCursor: int)

  predicate Picked(picks: seq<int>, i: int) {
    exists k | 0 <= k < |picks| :: picks[k] == i
  }

  /** The views stand for the entries at `picks`, from left to right: exactly the visible ones. */
  predicate ShowsPicks(videos: seq<VideoVO>, entries: seq<Entry>, picks: seq<int>,
                       catalogue: map<int, int>, liked: set<int>) {
    && |picks| == |videos| && Ascending(picks)
    && (forall k | 0 <= k < |picks| :: 0 <= picks[k] < |entries|)
    && (forall k | 0 <= k < |picks| :: entries[picks[k]].id in catalogue)
    && (forall k | 0 <= k < |picks| :: var id := entries[picks[k]].id;
          videos[k] == VideoVO(id, catalogue[id], id in liked))
    && (forall i | 0 <= i < |entries| && entries[i].id in catalogue :: Picked(picks, i))
  }

  /** Each video once, and scores that never rise. */
  predicate InPageOrder(videos: seq<VideoVO>, entries: seq<Entry>, picks: seq<int>) {
    && |picks| == |videos|
    && (forall k | 0 <= k < |picks| :: 0 <= picks[k] < |entries| && entries[picks[k]].id == videos[k].videoID)
    && (forall i, j | 0 <= i < j < |picks| :: entries[picks[i]].score >= entries[picks[j]].score)
    && (forall i, j | 0 <= i < j < |videos| :: videos[i].videoID != videos[j].videoID)
  }

  /** Every visible video is there; when all are visible, each stands at its entry's place. */
  predicate ShowsVisible(videos: seq<VideoVO>, entries: seq<Entry>, catalogue: map<int, int>, liked: set<int>) {
    && (forall e | e in entries && e.id in catalogue :: VideoVO(e.id, catalogue[e.id], e.id in liked) in videos)
    && ((forall e | e in entries :: e.id in catalogue) ==>
          |videos| == |entries| && forall i | 0 <= i < |entries| :: videos[i].videoID == entries[i].id)
  }

  function NextCursor(entries: seq<Entry>): int {
    if |entries| == PAGE_SIZE then entries[PAGE_SIZE - 1].score else 0
  }

  /** The page that the merged entries give: their visible videos in order, and the score of the
      tenth as the next cursor. */
  predicate IsPageOf(page: FeedPage, entries: seq<Entry>, picks: seq<int>, catalogue: map<int, int>,
                     liked: set<int>) {
    && ShowsPicks(page.videos, entries, picks, catalogue, liked)
    && InPageOrder(page.videos, entries, picks)
    && ShowsVisible(page.videos, entries, catalogue, liked)
    && page.nextCursor == NextCursor(entries) == if |entries| == 10 then entries[9].score else 0
  }

  /** Each video once, in the order of the scores; all of them when all are visible. */
  lemma ShownInOrder(videos: seq<VideoVO>, entries: seq<Entry>, picks: seq<int>,
                     catalogue: map<int, int>, liked: set<int>)
    requires ShowsPicks(videos, entries, picks, catalogue, liked)
    requires InOrder(entries, NotLower) && DistinctBy(entries, IdOf)
    ensures InPageOrder(videos, entries, picks)
    ensures ShowsVisible(videos, entries, catalogue, liked)
  {
    forall e | e in entries && e.id in catalogue
      ensures VideoVO(e.id, catalogue[e.id], e.id in liked) in videos
    {
      var i :| 0 <= i < |entries| && entries[i] == e;
      var k :| 0 <= k < |picks| && picks[k] == i;
      assert videos[k] == VideoVO(e.id, catalogue[e.id], e.id in liked);
    }
    if forall e | e in entries :: e.id in catalogue {
      forall i | 0 <= i < |entries|
        ensures Picked(picks, i)
      {
        assert entries[i] in entries;
      }
      AllPicked(picks, |entries|);
    }
  }

  lemma {:induction false} PicksFit(picks: seq<int>, n: nat)
    requires Ascending(picks)
    requires forall k | 0 <= k < |picks| :: 0 <= picks[k] < n
    ensures |picks| <= n
    decreases |picks|
  {
    if picks != [] {
      var last := |picks| - 1;
      assert forall k | 0 <= k < last :: picks[..last][k] < picks[last];
      PicksFit(picks[..last], picks[last]);
    }
  }

  lemma {:induction false} AllPicked(picks: seq<int>, n: nat)
    requires Ascending(picks)
    requires forall k | 0 <= k < |picks| :: 0 <= picks[k] < n
    requires forall i | 0 <= i < n :: Picked(picks, i)
    ensures |picks| == n && forall k | 0 <= k < n :: picks[k] == k
  {
    PicksFit(picks, n);
    if n > 0 {
      assert Picked(picks, n - 1);
      var k :| 0 <= k < |picks| && picks[k] == n - 1;
      var last := |picks| - 1;
      assert picks[k] <= picks[last] < n;
      assert k == last;
      forall i | 0 <= i < n - 1
        ensures Picked(picks[..k], i)
      {
        assert Picked(picks, i);
        var j :| 0 <= j < |picks| && picks[j] == i;
        assert picks[..k][j] == i;
      }
      AllPicked(picks[..k], n - 1);
    }
  }

  lemma PickNext(videos: seq<VideoVO>, entries: seq<Entry>, picks: seq<int>, catalogue: map<int, int>,
                 liked: set<int>, i: nat)
    requires i < |entries| && ShowsPicks(videos, entries[..i], picks, catalogue, liked)
    ensures var id := entries[i].id;
            if id in catalogue then
              ShowsPicks(videos + [VideoVO(id, catalogue[id], id in liked)], entries[..i + 1], picks + [i],
                         catalogue, liked)
            else ShowsPicks(videos, entries[..i + 1], picks, catalogue, liked)
  {
    var picks' := picks + [i];
    forall j | 0 <= j < i && entries[j].id in catalogue
      ensures Picked(picks, j) && Picked(picks', j)
    {
      assert entries[..i][j].id in catalogue;
      var k :| 0 <= k < |picks| && picks[k] == j;
      assert picks'[k] == j;
    }
    assert picks'[|picks|] == i;
    assert forall k | 0 <= k < |picks| :: entries[..i][picks[k]] == entries[..i + 1][picks[k]];
  }

  /** Goroutines complete in any order; a failed outbox read is skipped. */
  method ReadBigVOutboxesConcurrently(store: Store, bigVs: set<int>, down: set<int>, cursor: int, fetch: nat)
    returns (all: seq<Entry>, ghost order: seq<int>)
    ensures (set a | a in order) == bigVs - down
    ensures all == Pulled(store.outboxes, order, cursor, fetch)
    ensures Distinct(order)
  {
    all, order := [], [];
    var running := bigVs;
    while running != {}
      invariant running <= bigVs && (set a | a in order) == bigVs - running - down && Distinct(order)
      invariant all == Pulled(store.outboxes, order, cursor, fetch)
      decreases running
    {
      ghost var some := AnyElement(running);
      var authorID :| authorID in running;
      if authorID !in down {
        var entries := store.ReadOutbox(authorID, cursor, fetch);
        all := all + entries;
        assert (set a | a in order + [authorID]) == (set a | a in order) + {authorID};
        assert forall i | 0 <= i < |order| :: order[i] in (set a | a in order);
        order := order + [authorID];
      }
      running := running - {authorID};
    }
  }

  /** `bigVs` is None when the relation lookup fails; `catalogue` holds the visible videos with
      their authors; a failed like lookup gives the empty set. */
  method GetFollowingFeed(store: Store, userID: int, cursor: int, inboxDown: bool, bigVs: Option<set<int>>,
                          down: set<int>, catalogue: Option<map<int, int>>, liked: set<int>)
    returns (result: Option<FeedPage>, ghost entries: seq<Entry>, ghost order: seq<int>, ghost picks: seq<int>)
    ensures result.None? <==> inboxDown || bigVs.None? || catalogue.None?
    ensures result.Some? ==>
              && Distinct(order) && (set a | a in order) == bigVs.value - down
              && IsMerged(entries, Page(Of(store.inboxes, userID), cursor, 3 * PAGE_SIZE)
                                   + Pulled(store.outboxes, order, cursor, 3 * PAGE_SIZE), 10)
              && IsPageOf(result.value, entries, picks, catalogue.value, liked)
  {
    entries, order, picks := [], [], [];
    var fetch := PAGE_SIZE * 3;
    if inboxDown { return None, [], [], []; }
    var inbox := store.ReadInbox(userID, cursor, fetch);
    if bigVs.None? { return None, [], [], []; }
    var pulled;
    pulled, order := ReadBigVOutboxesConcurrently(store, bigVs.value, down, cursor, fetch);
    var merged := MergeDedupe(inbox, pulled, PAGE_SIZE);
    entries := merged;
    result, picks := ShowPage(merged, catalogue, liked);
  }

  /** The page shown for the merged entries: next cursor, visible videos, the reader's likes. */
  method ShowPage(entries: seq<Entry>, catalogue: Option<map<int, int>>, liked: set<int>)
    returns (result: Option<FeedPage>, ghost picks: seq<int>)
    requires InOrder(entries, NotLower) && DistinctBy(entries, IdOf)
    ensures result.None? <==> catalogue.None?
    ensures result.Some? ==> IsPageOf(result.value, entries, picks, catalogue.value, liked)
  {
    var next := 0;
    if |entries| == PAGE_SIZE {
      next := entries[|entries| - 1].score;
    }
    if catalogue.None? { return None, []; }
    var videos;
    videos, picks := BatchGetVisible(entries, catalogue.value);
    videos := MarkLiked(videos, liked);
    ShownInOrder(videos, entries, picks, catalogue.value, liked);
    result := Some(FeedPage(videos, next));
  }

  method BatchGetVisible(entries: seq<Entry>, catalogue: map<int, int>)
    returns (videos: seq<VideoVO>, ghost picks: seq<int>)
    ensures ShowsPicks(videos, entries, picks, catalogue, {})
    ensures forall v | v in videos :: v.videoID in catalogue && v == VideoVO(v.videoID, catalogue[v.videoID], false)
  {
    videos, picks := [], [];
    for i := 0 to |entries|
      invariant ShowsPicks(videos, entries[..i], picks, catalogue, {})
    {
      PickNext(videos, entries, picks, catalogue, {}, i);
      var id := entries[i].id;
      if id in catalogue {
        videos, picks := videos + [VideoVO(id, catalogue[id], false)], picks + [i];
      }
    }
    assert entries[..|entries|] == entries;
  }

  method MarkLiked(plain: seq<VideoVO>, liked: set<int>) returns (videos: seq<VideoVO>)
    ensures |videos| == |plain|
    ensures forall j | 0 <= j < |videos| :: videos[j] == plain[j].(liked := plain[j].videoID in liked)
  {
    videos := plain;
    for i := 0 to |videos|
      invariant |videos| == |plain|
      invariant forall j | 0 <= j < |videos| :: videos[j] ==
                  if j < i then plain[j].(liked := plain[j].videoID in liked) else plain[j]
    {
      videos := videos[i := videos[i].(liked := videos[i].videoID in liked)];
    }
  }
}
