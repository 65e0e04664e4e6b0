/** Worker runs that handle the published messages in a chosen order, and what they say about the
    records: whether a record must repeat the pair's last event. */
module LikeReplays {
  import opened Collections
  import opened LikeEvents
  import opened LikeRepo
  import opened LikeWorker
  import SB = StreamBus
  import LM = LikeMachine
  import LP = LikePairs

  // ---------------- a run for every order ----------------

  function PublishAll(es: seq<LikeEvent>): seq<Step> {
    seq(|es|, i requires 0 <= i < |es| => OnBus(SB.Publish(Event(es[i]))))
  }

  function DeliverAll(n: nat): seq<Step> {
    seq(n, _ => OnBus(SB.Deliver))
  }

  function ConsumeAll(order: seq<nat>): seq<Step> {
    seq(|order|, i requires 0 <= i < |order| => Consume(order[i], false, false))
  }

  /** Everything is published, the first k messages are read, those in `order` are handled. */
  ghost predicate Stage(w: Worker, es: seq<LikeEvent>, k: nat, order: seq<nat>) {
    && w.bus.published == Payloads(es) && |w.bus.entries| == |w.bus.status| == |w.bus.runs| == |es|
    && (forall i | 0 <= i < |es| :: w.bus.entries[i] == SB.Entry(i, Event(es[i]), 0))
    && (forall i: nat | i < |es| :: w.bus.status[i] ==
          if i in order then SB.RanOk else if i < k then SB.Delivered else SB.Waiting)
    && w.bus.read == k && w.bus.successes == order
    && w.writes == WrittenBy(es, order)
  }

  /** The events that handling the messages in this order writes. */
  function WrittenBy(es: seq<LikeEvent>, order: seq<int>): seq<LikeEvent> {
    if order == [] then []
    else
      var n := order[|order| - 1];
      WrittenBy(es, order[..|order| - 1]) + if 0 <= n < |es| && Recorded(es[n]) then [es[n]] else []
  }

  lemma RunNext(steps: seq<Step>, step: Step, maxRetry: nat)
    ensures Run(steps + [step], maxRetry) == Apply(Run(steps, maxRetry), step, maxRetry)
  {
    assert (steps + [step])[..|steps|] == steps;
  }

  lemma PublishStage(w: Worker, es: seq<LikeEvent>, e: LikeEvent, maxRetry: nat)
    requires Stage(w, es, 0, [])
    ensures Stage(Apply(w, OnBus(SB.Publish(Event(e))), maxRetry), es + [e], 0, [])
  {
    assert Payloads(es + [e]) == Payloads(es) + [Event(e)];
  }

  lemma {:induction false} AfterPublish(es: seq<LikeEvent>, maxRetry: nat)
    ensures Stage(Run(PublishAll(es), maxRetry), es, 0, [])
  {
    if es == [] {
      assert PublishAll(es) == [];
    } else {
      var init, last := es[..|es| - 1], es[|es| - 1];
      AfterPublish(init, maxRetry);
      assert PublishAll(es) == PublishAll(init) + [OnBus(SB.Publish(Event(last)))];
      RunNext(PublishAll(init), OnBus(SB.Publish(Event(last))), maxRetry);
      PublishStage(Run(PublishAll(init), maxRetry), init, last, maxRetry);
      assert es == init + [last];
    }
  }

  lemma DeliverStage(w: Worker, es: seq<LikeEvent>, k: nat, maxRetry: nat)
    requires Stage(w, es, k, []) && k < |es|
    ensures Stage(Apply(w, OnBus(SB.Deliver), maxRetry), es, k + 1, [])
  {
  }

  lemma {:induction false} AfterDeliver(es: seq<LikeEvent>, k: nat, maxRetry: nat)
    requires k <= |es|
    ensures Stage(Run(PublishAll(es) + DeliverAll(k), maxRetry), es, k, [])
  {
    if k == 0 {
      AfterPublish(es, maxRetry);
      assert PublishAll(es) + DeliverAll(0) == PublishAll(es);
    } else {
      AfterDeliver(es, k - 1, maxRetry);
      var before := PublishAll(es) + DeliverAll(k - 1);
      RunNext(before, OnBus(SB.Deliver), maxRetry);
      assert before + [OnBus(SB.Deliver)] == PublishAll(es) + DeliverAll(k);
      DeliverStage(Run(before, maxRetry), es, k - 1, maxRetry);
    }
  }

  lemma ConsumeStage(w: Worker, es: seq<LikeEvent>, order: seq<nat>, n: nat, maxRetry: nat)
    requires Stage(w, es, |es|, order) && n < |es| && n !in order
    ensures Stage(Apply(w, Consume(n, false, false), maxRetry), es, |es|, order + [n])
  {
    assert SB.Enabled(w.bus, SB.Handle(n, true));
    assert (order + [n])[..|order|] == order;
    assert w.writes + [] == w.writes;
  }

  /** Publish all, read all, then handle in the given order. */
  function Replay(es: seq<LikeEvent>, order: seq<nat>): seq<Step> {
    PublishAll(es) + DeliverAll(|es|) + ConsumeAll(order)
  }

  lemma ReplayNext(es: seq<LikeEvent>, order: seq<nat>, n: nat, maxRetry: nat)
    ensures Run(Replay(es, order + [n]), maxRetry)
            == Apply(Run(Replay(es, order), maxRetry), Consume(n, false, false), maxRetry)
  {
    assert Replay(es, order) + [Consume(n, false, false)] == Replay(es, order + [n]);
    RunNext(Replay(es, order), Consume(n, false, false), maxRetry);
  }

  lemma {:induction false} AfterReplay(es: seq<LikeEvent>, order: seq<nat>, maxRetry: nat)
    requires Distinct(order) && forall i | 0 <= i < |order| :: order[i] < |es|
    ensures Stage(Run(Replay(es, order), maxRetry), es, |es|, order)
    decreases |order|
  {
    if order == [] {
      AfterDeliver(es, |es|, maxRetry);
      assert Replay(es, order) == PublishAll(es) + DeliverAll(|es|);
    } else {
      var init, last := order[..|order| - 1], order[|order| - 1];
      AfterReplay(es, init, maxRetry);
      assert order == init + [last];
      ReplayNext(es, init, last, maxRetry);
      ConsumeStage(Run(Replay(es, init), maxRetry), es, init, last, maxRetry);
    }
  }

  // ---------------- one message first ----------------

  /** j before all others below n. */
  function FirstOf(n: nat, j: nat): seq<nat>
    requires j < n
  {
    [j] + seq(n - 1, i requires 0 <= i < n - 1 => if i < j then i else i + 1)
  }

  lemma FirstOfAll(n: nat, j: nat)
    requires j < n
    ensures Distinct(FirstOf(n, j)) && forall i | 0 <= i < |FirstOf(n, j)| :: FirstOf(n, j)[i] < n
    ensures forall k: nat | k < n :: k in FirstOf(n, j)
  {
    var order := FirstOf(n, j);
    forall k: nat | k < n
      ensures k in order
    {
      assert order[if k == j then 0 else if k < j then k + 1 else k] == k;
    }
  }

  lemma {:induction false} FirstWritten(es: seq<LikeEvent>, order: seq<int>)
    requires order != [] && 0 <= order[0] < |es| && Recorded(es[order[0]])
    ensures WrittenBy(es, order) != [] && WrittenBy(es, order)[0] == es[order[0]]
    decreases |order|
  {
    if |order| > 1 {
      FirstWritten(es, order[..|order| - 1]);
    } else {
      assert WrittenBy(es, order[..0]) == [];
    }
  }

  lemma {:induction false} FirstWrite(es: seq<LikeEvent>, p: (int, int))
    requires es != [] && Recorded(es[0]) && Key(es[0]) == p
    ensures WritesTo(es, p) != [] && WritesTo(es, p)[0] == WriteOf(es[0])
    decreases |es|
  {
    if |es| > 1 {
      FirstWrite(es[..|es| - 1], p);
    } else {
      assert WritesTo(es[..0], p) == [];
    }
  }

  /** Handling every message persists the events. */
  lemma ReplayPersists(es: seq<LikeEvent>, order: seq<nat>, maxRetry: nat)
    requires Distinct(order) && (forall i | 0 <= i < |order| :: order[i] < |es|)
    requires forall k: nat | k < |es| :: k in order
    ensures Persists(Replay(es, order), maxRetry, es)
    ensures Run(Replay(es, order), maxRetry).writes == WrittenBy(es, order)
  {
    AfterReplay(es, order, maxRetry);
    var w := Run(Replay(es, order), maxRetry);
    assert |w.bus.published| == |es|;
    forall n: nat | n < |es|
      ensures n in w.bus.successes
    {
      assert n in order;
    }
  }

  /** An event with the greatest timestamp of its pair, handled first, stays. */
  lemma FirstStays(w: Worker, es: seq<LikeEvent>, e: LikeEvent)
    requires RecordsFollow(w) && WritesFollow(w) && AllHandled(w) && w.bus.published == Payloads(es)
    requires Recorded(e) && w.writes != [] && w.writes[0] == e
    requires forall c | c in WritesTo(es, Key(e)) :: c.ts <= e.tsMilli
    ensures RowOf(w.records, Key(e)) == Row(Record(WriteOf(e).liked, e.tsMilli))
  {
    var p := Key(e);
    FirstWrite(w.writes, p);
    var ws := WritesTo(w.writes, p);
    forall c | c in ws
      ensures c.ts <= e.tsMilli
    {
      WritesSame(w, es, p, c);
    }
    assert ws == [ws[0]] + ws[1..];
    FirstArrivalStays(ws[1..], WriteOf(e));
  }

  lemma ReplayFirst(es: seq<LikeEvent>, j: nat, maxRetry: nat) returns (steps: seq<Step>)
    requires maxRetry > 0 && j < |es| && Recorded(es[j])
    requires forall c | c in WritesTo(es, Key(es[j])) :: c.ts <= es[j].tsMilli
    ensures Persists(steps, maxRetry, es)
    ensures RowOf(Run(steps, maxRetry).records, Key(es[j])) == Row(Record(WriteOf(es[j]).liked, es[j].tsMilli))
  {
    var order := FirstOf(|es|, j);
    steps := Replay(es, order);
    FirstOfAll(|es|, j);
    ReplayPersists(es, order, maxRetry);
    RunConsistent(steps, maxRetry);
    FirstWritten(es, order);
    FirstStays(Run(steps, maxRetry), es, es[j]);
  }

  // ---------------- when the record must agree ----------------

  /** In all runs that handle these events, whatever the retries and the order, the record says what
      the pair's last event says, if and only if its newest timestamps all belong to events saying that. */
  lemma RecordTellsLastIff(es: seq<LikeEvent>, maxRetry: nat, p: (int, int))
    requires maxRetry > 0
    ensures (WritesTo(es, p) != [] ==> NewestSayLast(WritesTo(es, p)))
            <==> forall steps | Persists(steps, maxRetry, es) ::
                   Liked(RowOf(Run(steps, maxRetry).records, p)) == LP.LastLiked(es, p)
  {
    var ws := WritesTo(es, p);
    if ws != [] ==> NewestSayLast(ws) {
      forall steps | Persists(steps, maxRetry, es)
        ensures Liked(RowOf(Run(steps, maxRetry).records, p)) == LP.LastLiked(es, p)
      {
        RecordTellsLast(steps, maxRetry, es, p);
      }
    } else {
      var a :| a in ws && (forall c | c in ws :: c.ts <= a.ts) && a.liked != ws[|ws| - 1].liked;
      var j := WriterOf(es, p, a);
      LastWrite(es, p);
      var steps := ReplayFirst(es, j, maxRetry);
      assert Persists(steps, maxRetry, es) && Liked(RowOf(Run(steps, maxRetry).records, p)) == a.liked;
    }
  }

  lemma WriterOf(es: seq<LikeEvent>, p: (int, int), a: Write) returns (j: nat)
    requires a in WritesTo(es, p)
    ensures j < |es| && Recorded(es[j]) && Key(es[j]) == p && WriteOf(es[j]) == a
  {
    WritesToIn(es, p, a);
    var e :| e in es && a in WritesOf(e, p);
    j :| 0 <= j < |es| && es[j] == e;
  }

  /** The record agrees with the gate in all worker runs that handle a careful pair's events if and
      only if the pair's newest timestamps all belong to events saying what its last one says. */
  lemma RecordMatchesGateIff(aggregated: bool, likes: seq<LM.Step>, maxRetry: nat, p: (int, int))
    requires LP.CarefulRun(aggregated, likes, p) && !LP.Busy(LM.Run(LM.Init(aggregated), likes).calls, p)
    requires maxRetry > 0
    ensures var s := LM.Run(LM.Init(aggregated), likes);
            (WritesTo(s.events, p) != [] ==> NewestSayLast(WritesTo(s.events, p)))
            <==> forall steps | Persists(steps, maxRetry, s.events) ::
                   Liked(RowOf(Run(steps, maxRetry).records, p)) == (p in s.gate)
  {
    LP.GateFollowsEvents(aggregated, likes, p);
    RecordTellsLastIff(LM.Run(LM.Init(aggregated), likes).events, maxRetry, p);
  }

  /** A like and, after it has finished, an unlike by the same user within one millisecond, handled
      in the order of publishing: the gate no longer holds the pair, and the record stays liked,
      because the first arrival stays. */
  lemma EqualStampsDisagree(u: int, v: int, now: int, maxRetry: nat) returns (likes: seq<LM.Step>, steps: seq<Step>)
    requires maxRetry > 0
    ensures var s := LM.Run(LM.Init(true), likes);
            && (u, v) !in s.gate && !LP.InProgress(s.calls, (u, v))
            && s.events == [LikeEvent(u, v, Action.Like, now), LikeEvent(u, v, Action.Unlike, now)]
            && Persists(steps, maxRetry, s.events)
            && RowOf(Run(steps, maxRetry).records, (u, v)) == Row(Record(true, now))
  {
    likes := LP.LikeThenUnlike(u, v, now, now);
    var es := [LikeEvent(u, v, Action.Like, now), LikeEvent(u, v, Action.Unlike, now)];
    forall c | c in WritesTo(es, (u, v))
      ensures c.ts <= now
    {
      var j := WriterOf(es, (u, v), c);
    }
    steps := ReplayFirst(es, 0, maxRetry);
  }
}
