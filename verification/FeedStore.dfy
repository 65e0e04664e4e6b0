/** Bounded inboxes and outboxes: add, then trim to the newest 2000 (internal/feed/store.go). */
module FeedStore {
  import opened Collections
  import opened RankedSet

  const TIMELINE_MAX: nat := 2000

  function ZAdd(z: ZSet, member: int, score: int): ZSet {
    z[member := score]
  }

  /** Ascending rank of a member, as ZRANK reports it. */
  function RankOf(z: ZSet, m: int): nat
    requires m in z
  {
    |set x | x in z && Lower(At(z, x), At(z, m))|
  }

  /** ZREMRANGEBYRANK key 0 -(max+1): drops every rank from 0 up to |z| - (max+1). */
  function ZTrim(z: ZSet, max: nat): ZSet {
    map m | m in z && !(RankOf(z, m) <= |z.Keys| - (max + 1)) :: z[m]
  }

  /** Trimming by ascending rank keeps exactly the highest-ranked `max` members. */
  lemma TrimKeepsTop(z: ZSet, max: nat)
    ensures ZTrim(z, max) == Top(z, max)
  {
    forall m | m in z
      ensures RankOf(z, m) + |Above(z, m)| + 1 == |z.Keys|
    {
      var under := set x | x in z && Lower(At(z, x), At(z, m));
      forall x | x in z
        ensures x == m || x in under || x in Above(z, m)
        ensures !(x in under && x in Above(z, m))
      {
        LowerTotal(At(z, x), At(z, m));
      }
      LowerTotal(At(z, m), At(z, m));
      assert z.Keys == under + Above(z, m) + {m};
    }
  }

  function Push(z: ZSet, member: int, score: int): ZSet {
    ZTrim(ZAdd(z, member, score), TIMELINE_MAX)
  }

  /** Adding to a list that holds at least the top n keeps at least the top n. */
  lemma AddKeepsTop(d: ZSet, z: ZSet, member: int, score: int, n: nat)
    requires SubMap(Top(d, n), z) && SubMap(z, d)
    requires member in d ==> d[member] == score
    ensures SubMap(Top(ZAdd(d, member, score), n), ZAdd(z, member, score))
    ensures SubMap(ZAdd(z, member, score), ZAdd(d, member, score))
  {
    var d' := ZAdd(d, member, score);
    forall m | m in Top(d', n) && m != member
      ensures m in Top(d, n)
    {
      forall x | x in Above(d, m)
        ensures x in Above(d', m)
      {
        assert At(d, x) == At(d', x) && At(d, m) == At(d', m);
      }
      SubsetSize(Above(d, m), Above(d', m));
    }
  }

  /** Pushing into a trimmed list equals trimming the list of everything ever pushed. */
  lemma PushIntoTop(d: ZSet, member: int, score: int)
    requires member in d ==> d[member] == score
    ensures Push(Top(d, TIMELINE_MAX), member, score) == Top(ZAdd(d, member, score), TIMELINE_MAX)
  {
    var top := Top(d, TIMELINE_MAX);
    AddKeepsTop(d, top, member, score, TIMELINE_MAX);
    TrimKeepsTop(ZAdd(top, member, score), TIMELINE_MAX);
    Sandwich(ZAdd(d, member, score), ZAdd(top, member, score), TIMELINE_MAX);
  }

  /** Pushing a video again changes nothing: retried fan-out tasks are harmless. */
  lemma PushIdempotent(z: ZSet, member: int, score: int)
    ensures Push(Push(z, member, score), member, score) == Push(z, member, score)
  {
    var d := ZAdd(z, member, score);
    var top := Top(d, TIMELINE_MAX);
    TrimKeepsTop(d, TIMELINE_MAX);
    var again := ZAdd(top, member, score);
    TrimKeepsTop(again, TIMELINE_MAX);
    Sandwich(d, again, TIMELINE_MAX);
  }

  // ---------------- one timeline, commands of many workers interleaved ----------------

  datatype Command = Add(video: int) | Trim

  /** `delivered` remembers every video ever added. */
  datatype Timeline = Timeline(box: ZSet, delivered: ZSet)

  function Exec(t: Timeline, c: Command, publishedAt: int -> int): Timeline {
    match c
    case Add(v) => Timeline(ZAdd(t.box, v, publishedAt(v)), ZAdd(t.delivered, v, publishedAt(v)))
    case Trim => Timeline(ZTrim(t.box, TIMELINE_MAX), t.delivered)
  }

  function ExecAll(cs: seq<Command>, publishedAt: int -> int): Timeline {
    if cs == [] then Timeline(map[], map[])
    else Exec(ExecAll(cs[..|cs| - 1], publishedAt), cs[|cs| - 1], publishedAt)
  }

  function Added(cs: seq<Command>): set<int> {
    set c | c in cs && c.Add? :: c.video
  }

  /** The box lies between the newest 2000 of all deliveries and all of them. */
  predicate HoldsNewest(box: ZSet, all: ZSet) {
    SubMap(Top(all, TIMELINE_MAX), box) && SubMap(box, all)
  }

  lemma CommandKeepsNewest(t: Timeline, c: Command, publishedAt: int -> int)
    requires HoldsNewest(t.box, t.delivered) && forall v | v in t.delivered :: t.delivered[v] == publishedAt(v)
    ensures var t' := Exec(t, c, publishedAt);
            && HoldsNewest(t'.box, t'.delivered)
            && (c.Trim? ==> t'.box == Top(t'.delivered, TIMELINE_MAX))
  {
    match c {
      case Add(v) =>
        AddKeepsTop(t.delivered, t.box, v, publishedAt(v), TIMELINE_MAX);
      case Trim =>
        TrimKeepsTop(t.box, TIMELINE_MAX);
        Sandwich(t.delivered, t.box, TIMELINE_MAX);
    }
  }

  /** The distinct videos delivered so far, each with its publish time. */
  function Deliveries(cs: seq<Command>, publishedAt: int -> int): ZSet {
    map v | v in Added(cs) :: publishedAt(v)
  }

  lemma {:induction false} DeliveredAll(cs: seq<Command>, publishedAt: int -> int)
    ensures ExecAll(cs, publishedAt).delivered == Deliveries(cs, publishedAt)
  {
    if cs != [] {
      var init, c := cs[..|cs| - 1], cs[|cs| - 1];
      DeliveredAll(init, publishedAt);
      assert cs == init + [c];
      assert Added(cs) == if c.Add? then Added(init) + {c.video} else Added(init);
      if c.Add? {
        assert Deliveries(cs, publishedAt) == Deliveries(init, publishedAt)[c.video := publishedAt(c.video)];
      }
    } else {
      assert Added(cs) == {};
      assert Deliveries(cs, publishedAt) == map[];
    }
  }

  predicate JustTrimmed(cs: seq<Command>) {
    cs != [] && cs[|cs| - 1] == Trim
  }

  /** Whatever the interleaving, the box lies between the newest 2000 deliveries and all of
      them, and right after a trim it is exactly the newest 2000. */
  lemma {:induction false} TimelineHoldsNewest(cs: seq<Command>, publishedAt: int -> int)
    ensures var box, all := ExecAll(cs, publishedAt).box, Deliveries(cs, publishedAt);
            && HoldsNewest(box, all)
            && (JustTrimmed(cs) ==> box == Top(all, TIMELINE_MAX))
    decreases |cs|
  {
    DeliveredAll(cs, publishedAt);
    if cs != [] {
      var init, c := cs[..|cs| - 1], cs[|cs| - 1];
      DeliveredAll(init, publishedAt);
      TimelineHoldsNewest(init, publishedAt);
      CommandKeepsNewest(ExecAll(init, publishedAt), c, publishedAt);
    }
  }

  /** Order, duplication and interleaving of deliveries do not matter once the box is trimmed. */
  lemma DeliveryOrderIrrelevant(cs: seq<Command>, ds: seq<Command>, publishedAt: int -> int)
    requires Added(cs) == Added(ds) && JustTrimmed(cs) && JustTrimmed(ds)
    ensures ExecAll(cs, publishedAt).box == ExecAll(ds, publishedAt).box
  {
    TimelineHoldsNewest(cs, publishedAt);
    TimelineHoldsNewest(ds, publishedAt);
  }

  // ---------------- the store object ----------------

  function Of(boxes: map<int, ZSet>, key: int): ZSet {
    if key in boxes then boxes[key] else map[]
  }

  /** The box of u after the video went to each of `ids`. */
  function Pushed(boxes: map<int, ZSet>, ids: seq<int>, u: int, videoID: int, tsMilli: int): ZSet {
    if u in ids then Push(Of(boxes, u), videoID, tsMilli) else Of(boxes, u)
  }

  /** Pushing to one more follower, who may be a repetition. */
  lemma PushNext(b0: map<int, ZSet>, b1: map<int, ZSet>, ids: seq<int>, uid: int, videoID: int, tsMilli: int)
    requires forall u :: Of(b1, u) == Pushed(b0, ids, u, videoID, tsMilli)
    ensures var added := b1[uid := ZAdd(Of(b1, uid), videoID, tsMilli)];
            forall u :: Of(added[uid := ZTrim(Of(added, uid), TIMELINE_MAX)], u)
                        == Pushed(b0, ids + [uid], u, videoID, tsMilli)
  {
    var added := b1[uid := ZAdd(Of(b1, uid), videoID, tsMilli)];
    forall u
      ensures Of(added[uid := ZTrim(Of(added, uid), TIMELINE_MAX)], u) == Pushed(b0, ids + [uid], u, videoID, tsMilli)
    {
      assert Of(b1, u) == Pushed(b0, ids, u, videoID, tsMilli);
      if u == uid {
        PushIdempotent(Of(b0, uid), videoID, tsMilli);
      }
    }
  }

  class Store {
    var inboxes: map<int, ZSet>
    var outboxes: map<int, ZSet>

    constructor ()
      ensures inboxes == map[] && outboxes == map[]
    {
      inboxes, outboxes := map[], map[];
    }

    /** MULTI/EXEC: the add and the trim are one step; on a failure neither happens. */
    method AppendToOutbox(authorID: int, videoID: int, tsMilli: int, execFails: bool) returns (err: bool)
      modifies this
      ensures err == execFails && inboxes == old(inboxes)
      ensures outboxes == if err then old(outboxes)
                          else old(outboxes)[authorID := Push(Of(old(outboxes), authorID), videoID, tsMilli)]
    {
      err := execFails;
      if !err {
        var box := ZAdd(Of(outboxes, authorID), videoID, tsMilli);
        outboxes := outboxes[authorID := ZTrim(box, TIMELINE_MAX)];
      }
    }

    /** One pipeline for a page of followers. */
    method BatchPushToInbox(followerIDs: seq<int>, videoID: int, tsMilli: int, execFails: bool) returns (err: bool)
      modifies this
      ensures err == execFails && outboxes == old(outboxes)
      ensures err ==> inboxes == old(inboxes)
      ensures !err ==> forall u :: Of(inboxes, u) == Pushed(old(inboxes), followerIDs, u, videoID, tsMilli)
    {
      err := execFails;
      if err { return; }
      for i := 0 to |followerIDs|
        invariant outboxes == old(outboxes)
        invariant forall u :: Of(inboxes, u) == Pushed(old(inboxes), followerIDs[..i], u, videoID, tsMilli)
      {
        var uid := followerIDs[i];
        PushNext(old(inboxes), inboxes, followerIDs[..i], uid, videoID, tsMilli);
        assert followerIDs[..i + 1] == followerIDs[..i] + [uid];
        inboxes := inboxes[uid := ZAdd(Of(inboxes, uid), videoID, tsMilli)];
        inboxes := inboxes[uid := ZTrim(Of(inboxes, uid), TIMELINE_MAX)];
      }
      assert followerIDs[..|followerIDs|] == followerIDs;
    }

    method ReadInbox(userID: int, cursor: int, limit: nat) returns (entries: seq<Entry>)
      ensures entries == Page(Of(inboxes, userID), cursor, limit)
    {
      entries := ReadByScore(Of(inboxes, userID), cursor, limit);
    }

    method ReadOutbox(authorID: int, cursor: int, limit: nat) returns (entries: seq<Entry>)
      ensures entries == Page(Of(outboxes, authorID), cursor, limit)
    {
      entries := ReadByScore(Of(outboxes, authorID), cursor, limit);
    }
  }

  /** ZREVRANGEBYSCORE with an open upper bound at the cursor, none for cursor 0. */
  method ReadByScore(z: ZSet, cursor: int, limit: nat) returns (out: seq<Entry>)
    ensures out == Page(z, cursor, limit)
  {
    var range := Below(z, cursor);
    var todo := range.Keys;
    out := [];
    while todo != {}
      invariant todo <= range.Keys
      invariant IsListing(out, map m | m in range && m !in todo :: range[m])
      decreases todo
    {
      ghost var some := AnyElement(todo);
      var m :| m in todo;
      InsertListing(out, map k | k in range && k !in todo :: range[k], At(range, m));
      out := Insert(out, At(range, m));
      assert (map k | k in range && k !in todo - {m} :: range[k])
          == (map k | k in range && k !in todo :: range[k])[m := range[m]];
      todo := todo - {m};
    }
    assert (map m | m in range && m !in todo :: range[m]) == range;
    ListingUnique(out, Listing(range), range);
    out := Take(out, limit);
  }
}
