/** Paging through followers and pushing a video to each (internal/feed/fanout.go). */
module Fanout {
  import opened Collections
  import opened RankedSet
  import opened FeedStore
  import opened Followers

  const FANOUT_BATCH_SIZE: nat := 500

  datatype FanoutTask = FanoutTask(authorID: int, videoID: int, tsMilli: int)

  /** What a run has pushed after the pages it read from views(0), views(1), ... */
  ghost predicate Covers(pushed: seq<int>, views: nat -> set<int>, pages: nat, cursor: int) {
    && Ascending(pushed)
    && (forall u | u in pushed :: u <= cursor && exists k: nat :: k < pages && u in views(k))
    && (forall u | 0 < u <= cursor && (forall k: nat | k < pages :: u in views(k)) :: u in pushed)
  }

  /** One page extends the coverage up to its next cursor, or to everybody when it is the last. */
  lemma PageCovers(pushed: seq<int>, views: nat -> set<int>, pages: nat, cursor: int, limit: nat,
                   ids: seq<int>, next: int, bound: nat)
    requires 0 <= cursor <= bound && Covers(pushed, views, pages, cursor)
    requires forall u | u in views(pages) :: 0 < u <= bound
    requires IsFollowerPage(views(pages), cursor, limit, ids, next)
    ensures next != 0 ==> cursor < next <= bound && Covers(pushed + ids, views, pages + 1, next)
    ensures next == 0 ==> Covers(pushed + ids, views, pages + 1, bound)
  {
    var rest := After(views(pages), cursor);
    assert forall u | u in ids :: u in rest && u > cursor;
    assert forall i | 0 <= i < |ids| :: ids[i] in ids;
    assert forall i | 0 <= i < |pushed| :: pushed[i] in pushed;
    var top := if next == 0 then bound else next;
    forall u | u in pushed + ids
      ensures u <= top && exists k: nat :: k < pages + 1 && u in views(k)
    {
      if u in pushed {
        var k: nat :| k < pages && u in views(k);
      }
    }
    forall u | 0 < u <= top && (forall k: nat | k < pages + 1 :: u in views(k))
      ensures u in pushed + ids
    {
      assert u in views(pages);
      if u > cursor {
        assert u in rest;
      }
    }
  }

  class FanoutPublisher {
    const feedStore: Store?
    var queue: seq<FanoutTask>

    constructor (feedStore: Store?)
      ensures this.feedStore == feedStore && queue == []
    {
      this.feedStore := feedStore;
      queue := [];
    }

    /** Outbox entry and fan-out task carry one timestamp; a failed append publishes no task. */
    method PublishFanout(authorID: int, videoID: int, tsMilli: int, now: int, appendFails: bool, publishFails: bool)
      modifies this`queue, feedStore
      ensures var ts := if tsMilli <= 0 then now else tsMilli;
              && (feedStore != null ==> feedStore.inboxes == old(feedStore.inboxes))
              && (feedStore != null ==>
                    feedStore.outboxes ==
                    if appendFails then old(feedStore.outboxes)
                    else old(feedStore.outboxes)[authorID := Push(Of(old(feedStore.outboxes), authorID), videoID, ts)])
              && queue == if (feedStore != null && appendFails) || publishFails then old(queue)
                          else old(queue) + [FanoutTask(authorID, videoID, ts)]
    {
      var ts := tsMilli;
      if ts <= 0 {
        ts := now;
      }
      if feedStore != null {
        var err := feedStore.AppendToOutbox(authorID, videoID, ts, appendFails);
        if err { return; }
      }
      if !publishFails {
        queue := queue + [FanoutTask(authorID, videoID, ts)];
      }
    }
  }

  class FanoutWorker {
    const store: Store

    constructor (store: Store)
      ensures this.store == store
    {
      this.store := store;
    }

    /** views(k) is the follower set when the k-th page is read: follows and unfollows may happen
        between pages, new users do not appear. Either call may fail; the bus then retries. */
    method Handle(t: FanoutTask, views: nat -> set<int>, listFails: nat -> bool, pushFails: nat -> bool,
                  ghost bound: nat)
      returns (err: bool, ghost pushed: seq<int>, ghost pages: nat)
      requires forall k: nat, u | u in views(k) :: 0 < u <= bound
      modifies store
      ensures Ascending(pushed) && forall u | u in pushed :: exists k: nat :: k < pages && u in views(k)
      ensures !err ==> forall u | (forall k: nat | k < pages :: u in views(k)) :: u in pushed
      ensures !err ==> pages > 0
      ensures forall u :: Of(store.inboxes, u) == Pushed(old(store.inboxes), pushed, u, t.videoID, t.tsMilli)
      ensures store.outboxes == old(store.outboxes)
    {
      pushed, pages := [], 0;
      var page: nat := 0;
      var cursor := 0;
      while true
        invariant page == pages && 0 <= cursor <= bound && Covers(pushed, views, pages, cursor)
        invariant forall u :: Of(store.inboxes, u) == Pushed(old(store.inboxes), pushed, u, t.videoID, t.tsMilli)
        invariant store.outboxes == old(store.outboxes)
        decreases bound - cursor
      {
        if listFails(page) { return true, pushed, pages; }
        var ids, next := ListFollowers(views(page), cursor, FANOUT_BATCH_SIZE);
        PageCovers(pushed, views, pages, cursor, FANOUT_BATCH_SIZE, ids, next, bound);
        if |ids| > 0 {
          ghost var before := store.inboxes;
          var failed := store.BatchPushToInbox(ids, t.videoID, t.tsMilli, pushFails(page));
          if failed { return true, pushed, pages; }
          PushedMore(old(store.inboxes), before, store.inboxes, pushed, ids, t.videoID, t.tsMilli);
        }
        assert ids == [] ==> pushed + ids == pushed;
        pushed, pages := pushed + ids, pages + 1;
        page := page + 1;
        if next == 0 {
          return false, pushed, pages;
        }
        cursor := next;
      }
    }
  }

  lemma PushedMore(b0: map<int, ZSet>, b1: map<int, ZSet>, b2: map<int, ZSet>, pushed: seq<int>,
                   ids: seq<int>, v: int, ts: int)
    requires forall u :: Of(b1, u) == Pushed(b0, pushed, u, v, ts)
    requires forall u :: Of(b2, u) == Pushed(b1, ids, u, v, ts)
    ensures forall u :: Of(b2, u) == Pushed(b0, pushed + ids, u, v, ts)
  {
    forall u
      ensures Of(b2, u) == Pushed(b0, pushed + ids, u, v, ts)
    {
      PushIdempotent(Of(b0, u), v, ts);
      assert Of(b1, u) == Pushed(b0, pushed, u, v, ts);
      assert Of(b2, u) == Pushed(b1, ids, u, v, ts);
    }
  }
}
