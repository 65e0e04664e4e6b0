/** The write side of the feed on the machine: publishing and fan-out are runs of its steps, and once
    they are done for every video the timelines are settled. */
module FeedWrites {
  import opened Collections
  import opened RankedSet
  import opened FeedStore
  import opened FeedRefinement
  import F = Fanout

  /** The store holds the timelines of the machine's state s. */
  ghost predicate Shows(store: Store, s: System)
    reads store
  {
    && (forall u :: Of(store.inboxes, u) == Of(s.inboxes, u))
    && (forall a :: Of(store.outboxes, a) == Of(s.outboxes, a))
  }

  /** The commands of one fan-out, follower by follower. */
  function PushSteps(pushed: seq<int>, vid: int): seq<Step> {
    if pushed == [] then []
    else
      var u := pushed[|pushed| - 1];
      PushSteps(pushed[..|pushed| - 1], vid) + [Deliver(u, vid)] + [TrimInbox(u)]
  }

  lemma RunNext(s: System, steps: seq<Step>, step: Step)
    ensures Run(s, steps + [step]) == Apply(Run(s, steps), step)
  {
    assert (steps + [step])[..|steps|] == steps;
  }

  ghost predicate CanPush(s: System, pushed: seq<int>, vid: int) {
    && vid in s.videos && vid in s.appended
    && forall i | 0 <= i < |pushed| :: (pushed[i], s.videos[vid].author) in s.following
  }

  /** t is s after vid has gone to each of `pushed`. */
  ghost predicate HasPushed(s: System, t: System, pushed: seq<int>, vid: int)
    requires vid in s.videos
  {
    && t.videos == s.videos && t.following == s.following && t.appended == s.appended && t.outboxes == s.outboxes
    && t.delivered == s.delivered + (set u | u in pushed :: (u, vid))
    && forall u :: Of(t.inboxes, u) == Pushed(s.inboxes, pushed, u, vid, s.videos[vid].ts)
  }

  lemma PushOne(s: System, t: System, pushed: seq<int>, uid: int, vid: int)
    requires CanPush(s, pushed + [uid], vid) && HasPushed(s, t, pushed, vid)
    ensures HasPushed(s, Apply(Apply(t, Deliver(uid, vid)), TrimInbox(uid)), pushed + [uid], vid)
  {
    assert (pushed + [uid])[|pushed|] == uid;
    PushNext(s.inboxes, t.inboxes, pushed, uid, vid, s.videos[vid].ts);
    assert (set u | u in pushed + [uid] :: (u, vid)) == (set u | u in pushed :: (u, vid)) + {(uid, vid)};
  }

  lemma {:induction false} PushRun(s: System, pushed: seq<int>, vid: int)
    requires CanPush(s, pushed, vid)
    ensures HasPushed(s, Run(s, PushSteps(pushed, vid)), pushed, vid)
    decreases |pushed|
  {
    if pushed != [] {
      var init, last := pushed[..|pushed| - 1], pushed[|pushed| - 1];
      PushRun(s, init, vid);
      RunNext(s, PushSteps(init, vid), Deliver(last, vid));
      RunNext(s, PushSteps(init, vid) + [Deliver(last, vid)], TrimInbox(last));
      assert pushed == init + [last];
      PushOne(s, Run(s, PushSteps(init, vid)), init, last, vid);
    }
  }

  /** The video has reached its author's outbox and every follower's inbox. */
  ghost predicate VideoSettled(s: System, vid: int) {
    && vid in s.videos && vid in s.appended
    && forall u | (u, s.videos[vid].author) in s.following :: (u, vid) in s.delivered
  }

  /** The outbox write of a publish is the machine's append; the task carries the same timestamp. */
  method RunPublish(publisher: F.FanoutPublisher, authorID: int, vid: int, tsMilli: int, now: int,
                    appendFails: bool, publishFails: bool, ghost s: System)
    requires publisher.feedStore != null && Shows(publisher.feedStore, s)
    requires vid in s.videos && s.videos[vid] == Video(authorID, if tsMilli <= 0 then now else tsMilli)
    modifies publisher`queue, publisher.feedStore
    ensures Shows(publisher.feedStore, if appendFails then s else Apply(s, Append(vid)))
    ensures publisher.queue == if appendFails || publishFails then old(publisher.queue)
                               else old(publisher.queue) + [F.FanoutTask(authorID, vid, s.videos[vid].ts)]
  {
    ghost var before := publisher.feedStore.outboxes;
    publisher.PublishFanout(authorID, vid, tsMilli, now, appendFails, publishFails);
    forall a
      ensures Of(publisher.feedStore.outboxes, a) == Of((if appendFails then s else Apply(s, Append(vid))).outboxes, a)
    {
      assert Of(before, a) == Of(s.outboxes, a);
    }
  }

  /** A fan-out run, failing or not, is the machine's run of the pushes it made; one that does not
      fail settles the video. */
  method RunHandle(worker: F.FanoutWorker, t: F.FanoutTask, views: nat -> set<int>,
                   listFails: nat -> bool, pushFails: nat -> bool, ghost bound: nat, ghost s: System)
    returns (err: bool, ghost pushed: seq<int>)
    requires Shows(worker.store, s) && t.videoID in s.appended
    requires t.videoID in s.videos && s.videos[t.videoID] == Video(t.authorID, t.tsMilli)
    requires forall k: nat, u :: u in views(k) <==> (u, t.authorID) in s.following
    requires forall k: nat, u | u in views(k) :: 0 < u <= bound
    modifies worker.store
    ensures Shows(worker.store, Run(s, PushSteps(pushed, t.videoID)))
    ensures !err ==> VideoSettled(Run(s, PushSteps(pushed, t.videoID)), t.videoID)
  {
    ghost var pages;
    err, pushed, pages := worker.Handle(t, views, listFails, pushFails, bound);
    forall i | 0 <= i < |pushed|
      ensures (pushed[i], t.authorID) in s.following
    {
      assert pushed[i] in pushed;
    }
    PushRun(s, pushed, t.videoID);
    AllPushed(s, pushed, t.videoID);
    assert !err ==> forall u | (u, t.authorID) in s.following :: u in views(0) && u in pushed;
  }

  lemma AllPushed(s: System, pushed: seq<int>, vid: int)
    requires CanPush(s, pushed, vid)
    ensures (forall u | (u, s.videos[vid].author) in s.following :: u in pushed) ==>
              VideoSettled(Run(s, PushSteps(pushed, vid)), vid)
  {
    PushRun(s, pushed, vid);
  }

  // ---------------- settled in the end ----------------

  /** The step was taken, and had its effect, at some moment of the run. */
  ghost predicate Done(steps: seq<Step>, step: Step) {
    exists k :: 0 <= k < |steps| && steps[k] == step && Enabled(StateAt(steps, k), step)
  }

  lemma DoneStays(steps: seq<Step>, step: Step) returns (k: nat)
    requires Done(steps, step)
    ensures k <= |steps| && k > 0 && StateAt(steps, k) == Apply(StateAt(steps, k - 1), step)
    ensures Enabled(StateAt(steps, k - 1), step) && Later(StateAt(steps, k), StateAt(steps, |steps|))
  {
    var i :| 0 <= i < |steps| && steps[i] == step && Enabled(StateAt(steps, i), step);
    k := i + 1;
    assert Take(steps, k) == steps[..k] && steps[..k][..i] == Take(steps, i);
    LaterAt(steps, k, |steps|);
  }

  /** In any interleaving of any number of publishers and workers, with retries and repetitions: once
      each video's outbox write and its push to each follower have been done, the state is settled. */
  lemma TasksDoneSettle(steps: seq<Step>)
    requires var t := StateAt(steps, |steps|);
             forall v | v in t.videos ::
               && Done(steps, Append(v))
               && forall u | (u, t.videos[v].author) in t.following :: Done(steps, Deliver(u, v))
    ensures Settled(StateAt(steps, |steps|))
  {
    var t := StateAt(steps, |steps|);
    forall v | v in t.videos
      ensures VideoSettled(t, v)
    {
      var k := DoneStays(steps, Append(v));
      forall u | (u, t.videos[v].author) in t.following
        ensures (u, v) in t.delivered
      {
        var j := DoneStays(steps, Deliver(u, v));
      }
    }
  }
}
