/** The push/pull feed against the pull model: publishing, outbox appends, fan-out deliveries and
    trims interleave freely, and following the feed's cursor returns what Store.FollowingFeed does. */
module FeedRefinement {
  import opened Collections
  import opened RankedSet
  import opened Paging
  import opened FeedStore
  import opened FeedService
  import ST = Store

  datatype Video = Video(author: int, ts: int)

  /** `appended` and `delivered` record which outbox appends and inbox pushes have happened. */
  datatype System = System(
    videos: map<int, Video>,
    following: set<(int, int)>,
    appended: set<int>,
    delivered: set<(int, int)>,
    inboxes: map<int, ZSet>,
    outboxes: map<int, ZSet>)

  datatype Step =
    | Follow(user: int, author: int)
    | Create(vid: int, author: int, ts: int)
    | Append(vid: int)
    | Deliver(user: int, vid: int)
    | TrimInbox(user: int)

  const INIT: System := System(map[], {}, {}, {}, map[], map[])

  /** Follows precede publishes, IDs and publish times grow together, pushes go to followers. */
  ghost predicate Enabled(s: System, step: Step) {
    match step
    case Follow(u, a) => u != a && forall v | v in s.videos :: s.videos[v].author != a
    case Create(vid, a, ts) => vid > 0 && ts > 0 && forall v | v in s.videos :: v < vid && s.videos[v].ts < ts
    case Append(vid) => vid in s.videos
    case Deliver(u, vid) => vid in s.appended && vid in s.videos && (u, s.videos[vid].author) in s.following
    case TrimInbox(u) => true
  }

  ghost function Apply(s: System, step: Step): System {
    if !Enabled(s, step) then s else
    match step
    case Follow(u, a) => s.(following := s.following + {(u, a)})
    case Create(vid, a, ts) => s.(videos := s.videos[vid := Video(a, ts)])
    case Append(vid) =>
      var v := s.videos[vid];
      s.(appended := s.appended + {vid},
         outboxes := s.outboxes[v.author := Push(Of(s.outboxes, v.author), vid, v.ts)])
    case Deliver(u, vid) =>
      s.(delivered := s.delivered + {(u, vid)},
         inboxes := s.inboxes[u := ZAdd(Of(s.inboxes, u), vid, s.videos[vid].ts)])
    case TrimInbox(u) => s.(inboxes := s.inboxes[u := ZTrim(Of(s.inboxes, u), TIMELINE_MAX)])
  }

  ghost function Run(s: System, steps: seq<Step>): System {
    if steps == [] then s else Apply(Run(s, steps[..|steps| - 1]), steps[|steps| - 1])
  }

  // ---------------- what the timelines hold ----------------

  function DeliveredTo(s: System, u: int): ZSet {
    map v | v in s.videos && (u, v) in s.delivered :: s.videos[v].ts
  }

  function AppendedBy(s: System, a: int): ZSet {
    map v | v in s.videos && v in s.appended && s.videos[v].author == a :: s.videos[v].ts
  }

  /** The pull model: all videos of the user's followees. */
  function Pull(s: System, u: int): ZSet {
    map v | v in s.videos && (u, s.videos[v].author) in s.following :: s.videos[v].ts
  }

  ghost predicate OrderedVideos(s: System) {
    && (forall v | v in s.videos :: v > 0 && s.videos[v].ts > 0)
    && (forall v, w | v in s.videos && w in s.videos && v < w :: s.videos[v].ts < s.videos[w].ts)
  }

  ghost predicate Inv(s: System) {
    && OrderedVideos(s)
    && (forall v | v in s.appended :: v in s.videos)
    && (forall p | p in s.delivered :: p.1 in s.appended && (p.0, s.videos[p.1].author) in s.following)
    && (forall u :: HoldsNewest(Of(s.inboxes, u), DeliveredTo(s, u)))
    && (forall a :: Of(s.outboxes, a) == Top(AppendedBy(s, a), TIMELINE_MAX))
  }

  lemma SameDeliveries(s: System, s': System)
    requires s.videos == s'.videos && s.delivered == s'.delivered
    ensures forall u :: DeliveredTo(s', u) == DeliveredTo(s, u)
  {
  }

  lemma AppendOutbox(s: System, vid: int, a: int)
    requires vid in s.videos && Of(s.outboxes, a) == Top(AppendedBy(s, a), TIMELINE_MAX)
    ensures var s' := Apply(s, Append(vid)); Of(s'.outboxes, a) == Top(AppendedBy(s', a), TIMELINE_MAX)
  {
    var s' := Apply(s, Append(vid));
    var v, d := s.videos[vid], AppendedBy(s, a);
    if a == v.author {
      assert AppendedBy(s', a) == ZAdd(d, vid, v.ts);
      PushIntoTop(d, vid, v.ts);
    } else {
      assert AppendedBy(s', a) == d;
    }
  }

  lemma AppendKeepsInv(s: System, vid: int)
    requires Inv(s) && vid in s.videos
    ensures Inv(Apply(s, Append(vid)))
  {
    var s' := Apply(s, Append(vid));
    SameDeliveries(s, s');
    forall a
      ensures Of(s'.outboxes, a) == Top(AppendedBy(s', a), TIMELINE_MAX)
    {
      AppendOutbox(s, vid, a);
    }
  }

  lemma DeliverInbox(s: System, u: int, vid: int, w: int)
    requires vid in s.videos && HoldsNewest(Of(s.inboxes, w), DeliveredTo(s, w))
    ensures var s' := Apply(s, Deliver(u, vid)); HoldsNewest(Of(s'.inboxes, w), DeliveredTo(s', w))
  {
    var s' := Apply(s, Deliver(u, vid));
    var d := DeliveredTo(s, w);
    if w == u && Enabled(s, Deliver(u, vid)) {
      assert DeliveredTo(s', w) == ZAdd(d, vid, s.videos[vid].ts);
      AddKeepsTop(d, Of(s.inboxes, w), vid, s.videos[vid].ts, TIMELINE_MAX);
    } else {
      assert DeliveredTo(s', w) == d;
    }
  }

  lemma SameAppends(s: System, s': System)
    requires s.videos == s'.videos && s.appended == s'.appended
    ensures forall a :: AppendedBy(s', a) == AppendedBy(s, a)
  {
  }

  lemma DeliverKeepsInv(s: System, u: int, vid: int)
    requires Inv(s) && Enabled(s, Deliver(u, vid))
    ensures Inv(Apply(s, Deliver(u, vid)))
  {
    var s' := Apply(s, Deliver(u, vid));
    forall w
      ensures HoldsNewest(Of(s'.inboxes, w), DeliveredTo(s', w))
    {
      DeliverInbox(s, u, vid, w);
    }
    SameAppends(s, s');
  }

  lemma TrimKeepsInv(s: System, u: int)
    requires Inv(s)
    ensures Inv(Apply(s, TrimInbox(u)))
  {
    var s' := Apply(s, TrimInbox(u));
    forall w
      ensures HoldsNewest(Of(s'.inboxes, w), DeliveredTo(s', w))
    {
      var d := DeliveredTo(s, w);
      assert DeliveredTo(s', w) == d;
      TrimKeepsTop(Of(s.inboxes, w), TIMELINE_MAX);
      Sandwich(d, Of(s.inboxes, w), TIMELINE_MAX);
    }
    SameAppends(s, s');
  }

  lemma FollowKeepsInv(s: System, u: int, a: int)
    requires Inv(s)
    ensures Inv(Apply(s, Follow(u, a)))
  {
    SameDeliveries(s, Apply(s, Follow(u, a)));
    SameAppends(s, Apply(s, Follow(u, a)));
  }

  lemma CreateOrdered(s: System, vid: int, a: int, ts: int)
    requires OrderedVideos(s)
    ensures OrderedVideos(Apply(s, Create(vid, a, ts)))
  {
  }

  /** A new video is in no timeline yet. */
  lemma CreateTimelines(s: System, vid: int, a: int, ts: int)
    requires Inv(s)
    ensures forall u :: DeliveredTo(Apply(s, Create(vid, a, ts)), u) == DeliveredTo(s, u)
    ensures forall b :: AppendedBy(Apply(s, Create(vid, a, ts)), b) == AppendedBy(s, b)
  {
    var s' := Apply(s, Create(vid, a, ts));
    if s' != s {
      assert vid !in s.videos && forall p | p in s.delivered :: p.1 in s.videos;
    }
    forall u
      ensures DeliveredTo(s', u) == DeliveredTo(s, u)
    {
    }
    forall b
      ensures AppendedBy(s', b) == AppendedBy(s, b)
    {
    }
  }

  lemma CreateKeepsInv(s: System, vid: int, a: int, ts: int)
    requires Inv(s)
    ensures Inv(Apply(s, Create(vid, a, ts)))
  {
    CreateOrdered(s, vid, a, ts);
    CreateTimelines(s, vid, a, ts);
  }

  lemma {:induction false} RunKeepsInv(steps: seq<Step>)
    ensures Inv(Run(INIT, steps))
  {
    if steps == [] {
      forall z: ZSet | z == map[]
        ensures Top(z, TIMELINE_MAX) == map[]
      {
      }
      assert forall u :: DeliveredTo(INIT, u) == map[] && AppendedBy(INIT, u) == map[];
    } else {
      var s, step := Run(INIT, steps[..|steps| - 1]), steps[|steps| - 1];
      RunKeepsInv(steps[..|steps| - 1]);
      if Enabled(s, step) {
        match step {
          case Append(vid) => AppendKeepsInv(s, vid);
          case Deliver(u, vid) => DeliverKeepsInv(s, u, vid);
          case TrimInbox(u) => TrimKeepsInv(s, u);
          case Follow(u, a) => FollowKeepsInv(s, u, a);
          case Create(vid, a, ts) => CreateKeepsInv(s, vid, a, ts);
        }
      }
    }
  }

  // ---------------- later states ----------------

  /** The state after the first k steps, or after all when there are fewer. */
  ghost function StateAt(steps: seq<Step>, k: nat): System {
    Run(INIT, Take(steps, k))
  }

  lemma InvAt(steps: seq<Step>, k: nat)
    ensures Inv(StateAt(steps, k))
  {
    RunKeepsInv(Take(steps, k));
  }

  function Followees(s: System, u: int): set<int> {
    set p | p in s.following && p.0 == u :: p.1
  }

  /** Every video has reached its author's outbox and all follower inboxes. */
  ghost predicate Settled(s: System) {
    forall v | v in s.videos ::
      v in s.appended && forall u | (u, s.videos[v].author) in s.following :: (u, v) in s.delivered
  }

  /** Nothing is lost from s to t, and whatever is new is newer than all of s. */
  ghost predicate Later(s: System, t: System) {
    && (forall v | v in s.videos :: v in t.videos && t.videos[v] == s.videos[v])
    && (forall v, w | v in t.videos && v !in s.videos && w in s.videos :: w < v && s.videos[w].ts < t.videos[v].ts)
    && s.appended <= t.appended && s.delivered <= t.delivered
    && s.following <= t.following
    && (forall p, v | p in t.following && p !in s.following && v in s.videos :: s.videos[v].author != p.1)
  }

  lemma StepLater(s: System, step: Step)
    ensures Later(s, Apply(s, step))
  {
  }

  lemma LaterTrans(s: System, t: System, r: System)
    requires Later(s, t) && Later(t, r)
    ensures Later(s, r)
  {
    forall v, w | v in r.videos && v !in s.videos && w in s.videos
      ensures w < v && s.videos[w].ts < r.videos[v].ts
    {
      assert w in t.videos;
      if v in t.videos {
        assert t.videos[v] == r.videos[v];
      }
    }
    forall p, v | p in r.following && p !in s.following && v in s.videos
      ensures s.videos[v].author != p.1
    {
      assert v in t.videos && t.videos[v] == s.videos[v];
    }
  }

  lemma {:induction false} LaterAt(steps: seq<Step>, i: nat, j: nat)
    requires i <= j <= |steps|
    ensures Later(StateAt(steps, i), StateAt(steps, j))
    decreases j
  {
    if i < j {
      LaterAt(steps, i, j - 1);
      assert Take(steps, j) == steps[..j] && Take(steps, j - 1) == steps[..j][..j - 1];
      StepLater(StateAt(steps, j - 1), steps[j - 1]);
      LaterTrans(StateAt(steps, i), StateAt(steps, j - 1), StateAt(steps, j));
    }
  }

  /** The followees' videos of s stay, and what comes to them later is newer than all of them. */
  lemma PullGrows(s: System, t: System, u: int)
    requires Inv(s) && Inv(t) && Later(s, t)
    ensures GrowsAbove(Pull(s, u), Pull(t, u))
  {
  }

  lemma PullOrdered(s: System, u: int)
    requires Inv(s)
    ensures DistinctScores(Pull(s, u)) && PositiveScores(Pull(s, u))
  {
    forall v, w | v in Pull(s, u) && w in Pull(s, u) && v != w
      ensures Pull(s, u)[v] != Pull(s, u)[w]
    {
      assert v < w || w < v;
    }
  }

  // ---------------- one page read ----------------

  /** One page read: the inbox is read after `start` steps, each big-V outbox after its own number
      of steps, completing in `order`, and the page is merged after `end` steps. */
  datatype Read = Read(
    start: nat, bigVs: set<int>, pulledAt: map<int, nat>, order: seq<int>, end: nat, page: seq<Entry>)

  predicate Timed(r: Read, steps: nat) {
    && r.start <= r.end <= steps
    && r.pulledAt.Keys == r.bigVs
    && forall a | a in r.pulledAt :: r.start <= r.pulledAt[a] <= r.end
  }

  ghost function InboxRead(steps: seq<Step>, r: Read, u: int): ZSet {
    Of(StateAt(steps, r.start).inboxes, u)
  }

  /** What each outbox held when it was read. */
  ghost function OutboxesRead(steps: seq<Step>, r: Read): map<int, ZSet> {
    map a | a in r.pulledAt :: Of(StateAt(steps, r.pulledAt[a]).outboxes, a)
  }

  /** r is a page read by u from the cursor: the big-V authors are some of u's followees, all
      outbox reads succeed, and the page is what the service merges. */
  ghost predicate IsRead(steps: seq<Step>, r: Read, u: int, cursor: int) {
    && Timed(r, |steps|)
    && r.bigVs <= Followees(StateAt(steps, r.end), u)
    && (set a | a in r.order) == r.bigVs
    && IsMerged(r.page, Page(InboxRead(steps, r, u), cursor, 3 * PAGE_SIZE)
                        + Pulled(OutboxesRead(steps, r), r.order, cursor, 3 * PAGE_SIZE), PAGE_SIZE)
  }

  lemma {:induction false} PulledSame(boxes: map<int, ZSet>, boxes': map<int, ZSet>, order: seq<int>,
                                      cursor: int, fetch: nat)
    requires forall i | 0 <= i < |order| :: Of(boxes, order[i]) == Of(boxes', order[i])
    ensures Pulled(boxes, order, cursor, fetch) == Pulled(boxes', order, cursor, fetch)
  {
    if order != [] {
      PulledSame(boxes, boxes', order[..|order| - 1], cursor, fetch);
    }
  }

  /** A call of the service that nothing interleaves with is such a read. */
  lemma UninterruptedRead(steps: seq<Step>, k: nat, bigVs: set<int>, order: seq<int>, page: seq<Entry>,
                          u: int, cursor: int)
    requires k <= |steps| && bigVs <= Followees(StateAt(steps, k), u) && (set a | a in order) == bigVs
    requires IsMerged(page, Page(Of(StateAt(steps, k).inboxes, u), cursor, 3 * PAGE_SIZE)
                            + Pulled(StateAt(steps, k).outboxes, order, cursor, 3 * PAGE_SIZE), PAGE_SIZE)
    ensures IsRead(steps, Read(k, bigVs, map a | a in bigVs :: k, order, k, page), u, cursor)
  {
    var r := Read(k, bigVs, map a | a in bigVs :: k, order, k, page);
    forall i | 0 <= i < |order|
      ensures Of(StateAt(steps, k).outboxes, order[i]) == Of(OutboxesRead(steps, r), order[i])
    {
      assert order[i] in (set a | a in order);
    }
    PulledSame(StateAt(steps, k).outboxes, OutboxesRead(steps, r), order, cursor, 3 * PAGE_SIZE);
  }

  /** The union of what the read finds in the inbox and in the outboxes. */
  ghost function Seen(steps: seq<Step>, r: Read, u: int): ZSet {
    var t := StateAt(steps, r.end);
    map v | v in t.videos && (v in InboxRead(steps, r, u)
                              || exists a :: a in r.bigVs && v in Of(OutboxesRead(steps, r), a)) :: t.videos[v].ts
  }

  lemma InboxWithin(s: System, t: System, u: int)
    requires Inv(s) && Inv(t) && Later(s, t)
    ensures SubMap(Of(s.inboxes, u), Pull(t, u))
  {
    assert HoldsNewest(Of(s.inboxes, u), DeliveredTo(s, u));
    forall v | v in Of(s.inboxes, u)
      ensures v in Pull(t, u) && Of(s.inboxes, u)[v] == t.videos[v].ts
    {
      assert v in DeliveredTo(s, u) && (u, v) in s.delivered;
    }
  }

  lemma OutboxWithin(s: System, t: System, a: int)
    requires Inv(s) && Later(s, t)
    ensures forall v | v in Of(s.outboxes, a) ::
              v in t.videos && t.videos[v].author == a && Of(s.outboxes, a)[v] == t.videos[v].ts
  {
    assert Of(s.outboxes, a) == Top(AppendedBy(s, a), TIMELINE_MAX);
  }

  /** Every outbox read holds videos of its author, as they are known at the end. */
  lemma OutboxesWithin(steps: seq<Step>, r: Read, a: int)
    requires Timed(r, |steps|) && a in r.bigVs
    ensures var t, z := StateAt(steps, r.end), Of(OutboxesRead(steps, r), a);
            forall v | v in z :: v in t.videos && t.videos[v].author == a && z[v] == t.videos[v].ts
  {
    InvAt(steps, r.pulledAt[a]);
    LaterAt(steps, r.pulledAt[a], r.end);
    OutboxWithin(StateAt(steps, r.pulledAt[a]), StateAt(steps, r.end), a);
  }

  lemma SeenWithinPull(steps: seq<Step>, r: Read, u: int)
    requires Timed(r, |steps|) && r.bigVs <= Followees(StateAt(steps, r.end), u)
    ensures SubMap(InboxRead(steps, r, u), Pull(StateAt(steps, r.end), u))
    ensures SubMap(Seen(steps, r, u), Pull(StateAt(steps, r.end), u))
  {
    var z, t := Seen(steps, r, u), StateAt(steps, r.end);
    InvAt(steps, r.start);
    InvAt(steps, r.end);
    LaterAt(steps, r.start, r.end);
    InboxWithin(StateAt(steps, r.start), t, u);
    forall v | v in z && v !in InboxRead(steps, r, u)
      ensures v in Pull(t, u)
    {
      var a :| a in r.bigVs && v in Of(OutboxesRead(steps, r), a);
      OutboxesWithin(steps, r, a);
      assert a in Followees(t, u);
    }
  }

  /** The lists agree on every score, so the read's page is the page of `Seen`, and all of it are
      followees' videos. */
  lemma SeenIsUnion(steps: seq<Step>, r: Read, u: int)
    requires Timed(r, |steps|) && r.bigVs <= Followees(StateAt(steps, r.end), u)
    ensures var z := Seen(steps, r, u);
            && IsUnion(z, InboxRead(steps, r, u), OutboxesRead(steps, r), r.bigVs)
            && SubMap(z, Pull(StateAt(steps, r.end), u)) && DistinctScores(z) && PositiveScores(z)
  {
    var z, t := Seen(steps, r, u), StateAt(steps, r.end);
    InvAt(steps, r.end);
    SeenWithinPull(steps, r, u);
    forall a | a in r.bigVs
      ensures SubMap(Of(OutboxesRead(steps, r), a), z)
    {
      OutboxesWithin(steps, r, a);
    }
    PullOrdered(t, u);
  }

  /** Whatever the order in which the outbox reads complete and whatever happens between them, the
      merged page is the page of `Seen`, and the next cursor is 0 exactly for a short page. */
  lemma ReaderPage(steps: seq<Step>, r: Read, u: int, cursor: int)
    requires IsRead(steps, r, u, cursor)
    ensures r.page == Page(Seen(steps, r, u), cursor, PAGE_SIZE)
    ensures NextCursor(r.page) == 0 <==> |r.page| < PAGE_SIZE
    ensures NextCursor(r.page) != 0 ==> NextCursor(r.page) == LastScore(r.page)
  {
    var z := Seen(steps, r, u);
    SeenIsUnion(steps, r, u);
    PageExact(r.page, InboxRead(steps, r, u), OutboxesRead(steps, r), r.order, cursor, 3 * PAGE_SIZE, PAGE_SIZE, z);
    if |r.page| == PAGE_SIZE {
      ListingAt(Listing(Below(z, cursor)), Below(z, cursor), PAGE_SIZE - 1);
    }
  }

  /** From a settled state s on, a read sees the newest n followees' videos of s, as long as no more
      than 2000 - n have come on top, whatever the big-V classification; all else it sees is newer
      than these or older. */
  lemma SeenHolds(steps: seq<Step>, k: nat, r: Read, u: int, n: nat)
    requires Timed(r, |steps|) && k <= r.start && r.bigVs <= Followees(StateAt(steps, r.end), u)
    requires Settled(StateAt(steps, k))
    requires n + |Pull(StateAt(steps, r.end), u).Keys| - |Pull(StateAt(steps, k), u).Keys| <= TIMELINE_MAX
    ensures Holds(Seen(steps, r, u), Top(Pull(StateAt(steps, k), u), n))
  {
    var s, f, t := StateAt(steps, k), StateAt(steps, r.start), StateAt(steps, r.end);
    var p, z := Pull(s, u), Seen(steps, r, u);
    InvAt(steps, k);
    InvAt(steps, r.start);
    InvAt(steps, r.end);
    LaterAt(steps, k, r.start);
    LaterAt(steps, r.start, r.end);
    LaterAt(steps, k, r.end);
    SeenIsUnion(steps, r, u);
    PullOrdered(s, u);
    PullGrows(s, t, u);
    forall v | v in Top(p, n)
      ensures v in z && z[v] == p[v]
    {
      StillInInbox(s, f, t, u, n, v);
    }
    forall m | m in z && m !in Top(p, n)
      ensures Outside(Top(p, n), z[m])
    {
      if m in p {
        BelowTop(p, n, m);
      }
    }
  }

  lemma BelowTop(p: ZSet, n: nat, m: int)
    requires DistinctScores(p) && m in p && m !in Top(p, n)
    ensures Outside(Top(p, n), p[m])
  {
    TopIsAboveRest(p, n, m);
    forall x | x in Top(p, n)
      ensures p[m] < Top(p, n)[x]
    {
      assert x in Above(p, m);
    }
  }

  /** A member of the top n of p stays in the top of d as long as little has come on top. */
  lemma StaysOnTop(p: ZSet, d: ZSet, q: ZSet, n: nat, v: int)
    requires SubMap(p, q) && SubMap(d, q) && v in Top(p, n) && v in d
    requires n + |q.Keys| - |p.Keys| <= TIMELINE_MAX
    ensures v in Top(d, TIMELINE_MAX)
  {
    forall x | x in Above(d, v)
      ensures x in Above(p, v) + (q.Keys - p.Keys)
    {
      assert At(d, x) == At(q, x) && At(d, v) == At(q, v) == At(p, v);
      assert x in p ==> At(p, x) == At(q, x);
    }
    SubsetSize(Above(d, v), Above(p, v) + (q.Keys - p.Keys));
    assert p.Keys <= q.Keys;
    assert |q.Keys - p.Keys| == |q.Keys| - |p.Keys|;
  }

  lemma StillInInbox(s: System, f: System, t: System, u: int, n: nat, v: int)
    requires Inv(s) && Inv(f) && Inv(t) && Settled(s) && Later(s, f) && Later(f, t) && Later(s, t)
    requires n + |Pull(t, u).Keys| - |Pull(s, u).Keys| <= TIMELINE_MAX
    requires v in Top(Pull(s, u), n)
    ensures v in Of(f.inboxes, u)
  {
    var d := DeliveredTo(f, u);
    assert (u, v) in s.delivered;
    forall x | x in d
      ensures x in Pull(t, u) && d[x] == Pull(t, u)[x]
    {
      assert (u, x) in f.delivered;
    }
    PullGrows(s, t, u);
    StaysOnTop(Pull(s, u), d, Pull(t, u), n, v);
    assert HoldsNewest(Of(f.inboxes, u), d);
  }

  // ---------------- paging through the feed ----------------

  /** Successive page reads of u, each from the next cursor of the one before. */
  ghost predicate IsPaging(steps: seq<Step>, rs: seq<Read>, u: int, cursor: int) {
    rs != [] ==>
      && IsRead(steps, rs[0], u, cursor)
      && (|rs| > 1 ==>
            && NextCursor(rs[0].page) != 0
            && rs[0].end <= rs[1].start
            && IsPaging(steps, rs[1..], u, NextCursor(rs[0].page)))
  }

  function PagesOf(rs: seq<Read>): (pages: seq<seq<Entry>>)
    ensures |pages| == |rs|
  {
    seq(|rs|, k requires 0 <= k < |rs| => rs[k].page)
  }

  /** What the reader has collected. */
  function Feed(rs: seq<Read>): seq<Entry> {
    Concat(PagesOf(rs))
  }

  /** The service has answered with next cursor 0. */
  predicate Stopped(rs: seq<Read>) {
    rs != [] && NextCursor(rs[|rs| - 1].page) == 0
  }

  /** The read lies between two moments of the run, and its big-V authors are followees. */
  ghost predicate InSpan(steps: seq<Step>, r: Read, u: int, from: nat, to: nat) {
    && Timed(r, |steps|) && from <= r.start && r.end <= to
    && r.bigVs <= Followees(StateAt(steps, r.end), u)
  }

  ghost function SeenBy(steps: seq<Step>, rs: seq<Read>, u: int): (zs: seq<ZSet>)
    ensures |zs| == |rs|
  {
    seq(|rs|, k requires 0 <= k < |rs| => Seen(steps, rs[k], u))
  }

  function Limits(n: nat): (limits: seq<nat>)
    ensures |limits| == n
  {
    seq(n, _ => PAGE_SIZE)
  }

  lemma {:induction false} PagingTimed(steps: seq<Step>, rs: seq<Read>, u: int, cursor: int)
    requires IsPaging(steps, rs, u, cursor)
    ensures forall k | 0 <= k < |rs| :: InSpan(steps, rs[k], u, rs[0].start, rs[|rs| - 1].end)
    decreases |rs|
  {
    if |rs| > 1 {
      var rest := rs[1..];
      PagingTimed(steps, rest, u, NextCursor(rs[0].page));
      assert rest[0] == rs[1] && rest[|rest| - 1] == rs[|rs| - 1];
      forall k | 0 <= k < |rs|
        ensures InSpan(steps, rs[k], u, rs[0].start, rs[|rs| - 1].end)
      {
        assert InSpan(steps, rest[0], u, rest[0].start, rest[|rest| - 1].end);
        if k > 0 {
          assert InSpan(steps, rest[k - 1], u, rest[0].start, rest[|rest| - 1].end);
        }
      }
    }
  }

  predicate CursorFits(page: seq<Entry>) {
    |page| <= PAGE_SIZE && (|page| < PAGE_SIZE <==> NextCursor(page) == 0)
  }

  /** A page is short exactly when its next cursor is 0. */
  lemma {:induction false} PagingCursors(steps: seq<Step>, rs: seq<Read>, u: int, cursor: int)
    requires IsPaging(steps, rs, u, cursor)
    ensures forall k | 0 <= k < |rs| :: CursorFits(rs[k].page)
    decreases |rs|
  {
    if rs != [] {
      ReaderPage(steps, rs[0], u, cursor);
      assert CursorFits(rs[0].page);
      if |rs| > 1 {
        PagingCursors(steps, rs[1..], u, NextCursor(rs[0].page));
        assert forall k | 0 < k < |rs| :: rs[k] == rs[1..][k - 1];
      }
    }
  }

  lemma {:induction false} PagingGoesOn(steps: seq<Step>, rs: seq<Read>, u: int, cursor: int)
    requires IsPaging(steps, rs, u, cursor)
    ensures forall k | 0 <= k < |rs| - 1 :: NextCursor(rs[k].page) != 0
    decreases |rs|
  {
    if |rs| > 1 {
      PagingGoesOn(steps, rs[1..], u, NextCursor(rs[0].page));
      assert forall k | 0 < k < |rs| :: rs[k] == rs[1..][k - 1];
    }
  }

  lemma ReadTails(steps: seq<Step>, rs: seq<Read>, u: int)
    requires |rs| > 0
    ensures SeenBy(steps, rs, u)[1..] == SeenBy(steps, rs[1..], u)
    ensures Limits(|rs|)[1..] == Limits(|rs| - 1) && PagesOf(rs)[1..] == PagesOf(rs[1..])
  {
  }

  /** Chaining NextCursor is following the cursor through what the reads see. */
  lemma {:induction false} PagingFollows(steps: seq<Step>, rs: seq<Read>, u: int, cursor: int)
    requires IsPaging(steps, rs, u, cursor)
    ensures Follows(SeenBy(steps, rs, u), Limits(|rs|), cursor, PagesOf(rs))
    decreases |rs|
  {
    if rs != [] {
      ReaderPage(steps, rs[0], u, cursor);
      if |rs| > 1 {
        PagingFollows(steps, rs[1..], u, NextCursor(rs[0].page));
        ReadTails(steps, rs, u);
      }
      FollowsOn(SeenBy(steps, rs, u), Limits(|rs|), cursor, PagesOf(rs));
    }
  }

  /** The system when the first read begins. */
  ghost function Before(steps: seq<Step>, rs: seq<Read>): System
    requires rs != []
  {
    StateAt(steps, rs[0].start)
  }

  /** The system when the last page is merged. */
  ghost function After(steps: seq<Step>, rs: seq<Read>): System
    requires rs != []
  {
    StateAt(steps, rs[|rs| - 1].end)
  }

  /** A paging run of u from the newest on, begun when all tasks had been handled. */
  ghost predicate PagesThrough(steps: seq<Step>, rs: seq<Read>, u: int) {
    rs != [] && IsPaging(steps, rs, u, 0) && Settled(Before(steps, rs))
  }

  lemma SeenLater(steps: seq<Step>, rs: seq<Read>, u: int, k: nat)
    requires IsPaging(steps, rs, u, 0) && k < |rs|
    ensures var z, t := Seen(steps, rs[k], u), After(steps, rs);
            && PositiveScores(z) && SubMap(z, Pull(t, u))
            && |Pull(StateAt(steps, rs[k].end), u).Keys| <= |Pull(t, u).Keys|
    ensures GrowsAbove(Pull(Before(steps, rs), u), Pull(StateAt(steps, rs[k].end), u))
    ensures Timed(rs[k], |steps|) && rs[0].start <= rs[k].start
    ensures rs[k].bigVs <= Followees(StateAt(steps, rs[k].end), u)
  {
    var t := After(steps, rs);
    PagingTimed(steps, rs, u, 0);
    assert InSpan(steps, rs[k], u, rs[0].start, rs[|rs| - 1].end);
    SeenIsUnion(steps, rs[k], u);
    InvAt(steps, rs[0].start);
    InvAt(steps, rs[k].end);
    InvAt(steps, rs[|rs| - 1].end);
    LaterAt(steps, rs[k].end, rs[|rs| - 1].end);
    LaterAt(steps, rs[0].start, rs[k].end);
    PullGrows(StateAt(steps, rs[k].end), t, u);
    PullGrows(Before(steps, rs), StateAt(steps, rs[k].end), u);
    SubsetSize(Pull(StateAt(steps, rs[k].end), u).Keys, Pull(t, u).Keys);
  }

  lemma FeedDescends(steps: seq<Step>, rs: seq<Read>, u: int)
    requires rs != [] && IsPaging(steps, rs, u, 0)
    ensures Descending(Feed(rs)) && Agrees(Feed(rs), Pull(After(steps, rs), u))
  {
    var zs, p := SeenBy(steps, rs, u), Pull(After(steps, rs), u);
    forall k | 0 <= k < |zs|
      ensures PositiveScores(zs[k]) && SubMap(zs[k], p)
    {
      SeenLater(steps, rs, u, k);
    }
    PagingFollows(steps, rs, u, 0);
    PagesDescend(zs, Limits(|rs|), 0, PagesOf(rs));
  }

  lemma FirstPageFirst(rs: seq<Read>)
    requires rs != [] && (rs[0].page == [] ==> |rs| == 1)
    ensures rs[0].page == [] ==> Feed(rs) == []
    ensures rs[0].page != [] ==> Feed(rs) != [] && Feed(rs)[0] == rs[0].page[0]
  {
    var pages := PagesOf(rs);
    assert pages[0] == rs[0].page;
    assert |rs| == 1 ==> Concat(pages[1..]) == [];
  }

  /** The newest entry of all is among what the first read sees. */
  lemma FirstEntry(steps: seq<Step>, r: Read, u: int)
    requires IsRead(steps, r, u, 0) && r.page != []
    ensures var e, p := r.page[0], Pull(StateAt(steps, r.end), u); e.id in p && p[e.id] == e.score
  {
    ReaderPage(steps, r, u, 0);
    SeenIsUnion(steps, r, u);
    PageCut(Seen(steps, r, u), PAGE_SIZE);
    assert r.page[0] in r.page;
  }

  /** Nothing published after the first read shows up: it would lie above the first entry. */
  lemma FeedPredates(steps: seq<Step>, rs: seq<Read>, u: int)
    requires rs != [] && IsPaging(steps, rs, u, 0)
    ensures Agrees(Feed(rs), Pull(StateAt(steps, rs[0].end), u))
  {
    var s, t := StateAt(steps, rs[0].end), After(steps, rs);
    var feed, p, q := Feed(rs), Pull(s, u), Pull(t, u);
    FeedDescends(steps, rs, u);
    PagingTimed(steps, rs, u, 0);
    assert InSpan(steps, rs[|rs| - 1], u, rs[0].start, rs[|rs| - 1].end);
    InvAt(steps, rs[0].end);
    InvAt(steps, rs[|rs| - 1].end);
    LaterAt(steps, rs[0].end, rs[|rs| - 1].end);
    PullGrows(s, t, u);
    assert rs[0].page == [] ==> NextCursor(rs[0].page) == 0;
    FirstPageFirst(rs);
    if feed != [] {
      FirstEntry(steps, rs[0], u);
      forall e | e in feed
        ensures e.id in p && p[e.id] == e.score
      {
        var i :| 0 <= i < |feed| && feed[i] == e;
        assert i > 0 ==> Lower(e, feed[0]);
      }
    }
  }

  lemma UnstoppedFull(steps: seq<Step>, rs: seq<Read>, u: int)
    requires IsPaging(steps, rs, u, 0) && rs != [] && !Stopped(rs)
    ensures |Feed(rs)| == PAGE_SIZE * |rs|
  {
    PagingCursors(steps, rs, u, 0);
    PagingGoesOn(steps, rs, u, 0);
    forall k | 0 <= k < |rs|
      ensures |PagesOf(rs)[k]| == PAGE_SIZE
    {
      assert CursorFits(rs[k].page);
    }
    ConcatFull(PagesOf(rs), PAGE_SIZE);
  }

  /** In any run, whatever is published between and during the reads: the reader gets followees'
      videos only, each once, newest first, none newer than the first page read, and the service
      stops by the time it has returned as many full pages as those videos fill. */
  lemma FeedKeepsOrder(steps: seq<Step>, rs: seq<Read>, u: int)
    requires rs != [] && IsPaging(steps, rs, u, 0)
    ensures var p := Pull(StateAt(steps, rs[0].end), u);
            && Descending(Feed(rs)) && Agrees(Feed(rs), p) && |Feed(rs)| <= |p.Keys|
            && (!Stopped(rs) ==> PAGE_SIZE * |rs| <= |p.Keys|)
  {
    FeedDescends(steps, rs, u);
    FeedPredates(steps, rs, u);
    DescendingSize(Feed(rs), Pull(StateAt(steps, rs[0].end), u));
    if !Stopped(rs) {
      UnstoppedFull(steps, rs, u);
    }
  }

  /** The newest n videos that the followees had when paging began come out in order, without gap
      or repetition, and all of them by the time the service stops, as long as no more than
      2000 - n new ones arrive meanwhile. */
  lemma FeedShowsNewest(steps: seq<Step>, rs: seq<Read>, u: int, n: nat)
    requires PagesThrough(steps, rs, u)
    requires n + |Pull(After(steps, rs), u).Keys| - |Pull(Before(steps, rs), u).Keys| <= TIMELINE_MAX
    ensures var p := Pull(Before(steps, rs), u);
            && Within(Feed(rs), Top(p, n)) <= Take(Listing(p), n)
            && (Stopped(rs) ==> Within(Feed(rs), Top(p, n)) == Take(Listing(p), n))
  {
    var zs, p := SeenBy(steps, rs, u), Pull(Before(steps, rs), u);
    InvAt(steps, rs[0].start);
    PullOrdered(Before(steps, rs), u);
    forall k | 0 <= k < |zs|
      ensures PositiveScores(zs[k]) && Holds(Below(zs[k], 0), Top(p, n))
    {
      SeenLater(steps, rs, u, k);
      SeenHolds(steps, rs[0].start, rs[k], u, n);
    }
    PagingFollows(steps, rs, u, 0);
    PagingCursors(steps, rs, u, 0);
    PagesHold(zs, Limits(|rs|), 0, PagesOf(rs), Top(p, n));
    TakeIsTop(Listing(p), p, n);
    ListingUnique(Take(Listing(p), n), Listing(Top(p, n)), Top(p, n));
  }

  lemma FirstSeesOld(steps: seq<Step>, r: Read, u: int)
    requires Timed(r, |steps|) && r.bigVs <= Followees(StateAt(steps, r.end), u)
    requires StateAt(steps, r.end).videos == StateAt(steps, r.start).videos
    ensures SubMap(Seen(steps, r, u), Pull(StateAt(steps, r.start), u))
  {
    SeenIsUnion(steps, r, u);
    LaterAt(steps, r.start, r.end);
  }

  /** Following NextCursor from 0 until it is 0 returns the pull model's feed, each video once,
      newest first, whatever the big-V classifications: nothing may be published during the first
      page read, anything in between and later. */
  lemma FeedIsPullModel(steps: seq<Step>, rs: seq<Read>, u: int)
    requires PagesThrough(steps, rs, u) && |Pull(After(steps, rs), u).Keys| <= TIMELINE_MAX
    requires StateAt(steps, rs[0].end).videos == Before(steps, rs).videos
    ensures Feed(rs) <= Listing(Pull(Before(steps, rs), u))
    ensures Stopped(rs) ==> Feed(rs) == Listing(Pull(Before(steps, rs), u))
  {
    var zs, p := SeenBy(steps, rs, u), Pull(Before(steps, rs), u);
    InvAt(steps, rs[0].start);
    PullOrdered(Before(steps, rs), u);
    TopOfSmall(p, |p.Keys|);
    forall k | 0 <= k < |zs|
      ensures PositiveScores(zs[k]) && GrowsAbove(p, zs[k])
    {
      SeenLater(steps, rs, u, k);
      SeenHolds(steps, rs[0].start, rs[k], u, |p.Keys|);
      SeenIsUnion(steps, rs[k], u);
    }
    FirstSeesOld(steps, rs[0], u);
    PagingFollows(steps, rs, u, 0);
    PagingCursors(steps, rs, u, 0);
    PagesAreListing(zs, Limits(|rs|), PagesOf(rs), p);
  }

  // ---------------- against Store.FollowingFeed ----------------

  /** Store.FollowingFeed ranks the same videos by ID. */
  function PullById(s: System, u: int): ZSet {
    map v | v in Pull(s, u) :: v
  }

  function IdsOf(entries: seq<Entry>): seq<int> {
    seq(|entries|, i requires 0 <= i < |entries| => entries[i].id)
  }

  lemma SameOrderById(s: System, u: int)
    requires Inv(s)
    ensures IdsOf(Listing(Pull(s, u))) == IdsOf(Listing(PullById(s, u)))
    ensures DistinctScores(PullById(s, u)) && PositiveScores(PullById(s, u))
  {
    var p, q := Pull(s, u), PullById(s, u);
    var a := Listing(p);
    var b := seq(|a|, i requires 0 <= i < |a| => Entry(a[i].id, a[i].id));
    forall i | 0 <= i < |a|
      ensures a[i].id in p && p[a[i].id] == a[i].score
    {
      ListingAt(a, p, i);
    }
    forall i, j | 0 <= i < j < |b|
      ensures Lower(b[j], b[i])
    {
      ListingAt(a, p, i);
      assert Lower(a[j], a[i]);
      assert s.videos[a[i].id].ts == a[i].score && s.videos[a[j].id].ts == a[j].score;
    }
    forall v | v in q
      ensures At(q, v) in b
    {
      var i := ListingIndex(a, p, v);
      assert b[i] == At(q, v);
    }
    ListingUnique(b, Listing(q), q);
    assert IdsOf(a) == IdsOf(b);
  }

  /** The in-memory store holds the same videos and follows. */
  ghost predicate SameContent(s: System, d: ST.Data) {
    && (forall v :: v in d.videos <==> v in s.videos)
    && (forall v | v in s.videos :: d.videos[v].authorID == s.videos[v].author)
    && (forall u, a :: a in ST.SetOf(d.following, u) <==> (u, a) in s.following)
  }

  lemma StoreSelectsPull(s: System, d: ST.Data, u: int)
    requires SameContent(s, d)
    ensures ST.Selected(d, ST.FollowedBy(u)) == PullById(s, u)
  {
    forall v
      ensures v in ST.Selected(d, ST.FollowedBy(u)) <==> v in PullById(s, u)
    {
    }
  }

  /** The push/pull feed and Store.FollowingFeed, each paged to its end and each with publishing
      going on meanwhile, return the same videos in the same order, whatever big-V sets and page
      limits are in use. */
  lemma FeedRefinesFollowingFeed(steps: seq<Step>, rs: seq<Read>, u: int,
                                 ops: seq<ST.Op>, later: seq<seq<ST.Op>>, limits: seq<int>, pages: seq<seq<ST.Video>>)
    requires PagesThrough(steps, rs, u) && |Pull(After(steps, rs), u).Keys| <= TIMELINE_MAX
    requires StateAt(steps, rs[0].end).videos == Before(steps, rs).videos
    requires SameContent(Before(steps, rs), ST.Run(ST.EMPTY, ops))
    requires |later| == |limits| == |pages| > 0 && later[0] == []
    requires ST.Browses(ST.States(ST.Run(ST.EMPTY, ops), later), limits, 0, ST.FollowedBy(u), pages)
    requires ST.SameFollows(ST.Run(ST.EMPTY, ops), ST.FollowedBy(u), later)
    requires Stopped(rs) && Finished(pages, ST.Clamped(limits))
    ensures IdsOf(Feed(rs)) == ST.VideoIds(Concat(pages))
  {
    var s, d := Before(steps, rs), ST.Run(ST.EMPTY, ops);
    FeedIsPullModel(steps, rs, u);
    InvAt(steps, rs[0].start);
    SameOrderById(s, u);
    StoreSelectsPull(s, d, u);
    ST.PagesUnderGrowth(ops, later, limits, ST.FollowedBy(u), pages);
    assert ST.VideoIds(Concat(pages)) == IdsOf(ST.EntriesOf(Concat(pages)));
  }
}
