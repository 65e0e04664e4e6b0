/** The like worker: single-event batches driven by the retrying stream (cmd/likeworker/main.go),
    and the pipeline from a user's like to the persisted snapshot. */
module LikeWorker {
  import opened Collections
  import opened LikeEvents
  import opened LikeRepo
  import SB = StreamBus
  import LM = LikeMachine
  import LP = LikePairs
  import LC = LikeCounters

  datatype Payload = Event(event: LikeEvent) | Garbage

  /** The event whose effects a payload has, if any: payloads that do not parse and unknown
      actions are acknowledged without effect. */
  predicate Counts(p: Payload) {
    p.Event? && Recorded(p.event)
  }

  function WeightOf(p: Payload, v: int): int {
    if Counts(p) && p.event.videoID == v then DeltaOf(p.event.action) else 0
  }

  predicate HandlerOk(p: Payload, upsertFails: bool, applyFails: bool) {
    Counts(p) ==> !upsertFails && !applyFails
  }

  function Key(e: LikeEvent): (int, int) { (e.userID, e.videoID) }

  function WriteOf(e: LikeEvent): Write { Write(e.tsMilli, e.action == Action.Like) }

  function RecordsAfter(rs: Records, p: Payload, upsertFails: bool): Records {
    if Counts(p) && !upsertFails then rs[Key(p.event) := Upsert(RowOf(rs, Key(p.event)), WriteOf(p.event)).record]
    else rs
  }

  function StatsAfter(st: Stats, p: Payload, upsertFails: bool, applyFails: bool): Stats {
    if Counts(p) && HandlerOk(p, upsertFails, applyFails)
    then st[p.event.videoID := Clamp(Get(st, p.event.videoID), DeltaOf(p.event.action))] else st
  }

  /** The subscription handler does to the repository exactly what the two functions say. */
  method HandlePayload(consumer: Consumer, p: Payload, upsertFails: bool, applyFails: bool) returns (err: bool)
    requires forall v :: Get(consumer.repo.stats, v) >= 0
    modifies consumer.repo
    ensures err == !HandlerOk(p, upsertFails, applyFails)
    ensures forall k :: RowOf(consumer.repo.records, k)
                        == RowOf(RecordsAfter(old(consumer.repo.records), p, upsertFails), k)
    ensures forall v :: Get(consumer.repo.stats, v)
                        == Get(StatsAfter(old(consumer.repo.stats), p, upsertFails, applyFails), v)
  {
    match p {
      case Garbage => return false;
      case Event(e) =>
        ghost var done;
        ghost var rs := old(consumer.repo.records);
        err, done := consumer.HandleBatch([e], _ => upsertFails, applyFails);
        OneEvent(e);
        assert done == if Recorded(e) && upsertFails then 0 else 1;
        forall k
          ensures UpsertFrom(RowOf(rs, k), WritesTo([e][..done], k))
                  == RowOf(RecordsAfter(rs, Event(e), upsertFails), k)
        {
          OneRecord(rs, e, upsertFails, k);
        }
    }
  }

  lemma OneRecord(rs: Records, e: LikeEvent, upsertFails: bool, k: (int, int))
    ensures UpsertFrom(RowOf(rs, k), WritesTo([e][..if Recorded(e) && upsertFails then 0 else 1], k))
            == RowOf(RecordsAfter(rs, Event(e), upsertFails), k)
  {
    OneEvent(e);
    assert [e][..0] == [] && [e][..1] == [e];
    assert |WritesOf(e, k)| == 1 ==> WritesOf(e, k)[..0] == [];
  }

  lemma OneEvent(e: LikeEvent)
    ensures forall k :: WritesTo([e], k) == WritesOf(e, k) && WritesTo([], k) == []
    ensures forall v :: NetLikes([e], v) == if e.videoID == v then DeltaOf(e.action) else 0
  {
    assert [e][..0] == [];
  }

  // ---------------- the worker on the bus ----------------

  /** `writes` records the record writes that went through, in order. */
  datatype Worker = Worker(bus: SB.Bus<Payload>, records: Records, stats: Stats, writes: seq<LikeEvent>)

  datatype Step =
    | OnBus(step: SB.Step<Payload>)
    | Consume(id: nat, upsertFails: bool, applyFails: bool)

  const INIT: Worker := Worker(SB.Init(), map[], map[], [])

  /** Every bus command but the handler runs on its own; the handler's effects are those of HandlePayload. */
  function Apply(w: Worker, step: Step, maxRetry: nat): Worker {
    match step
    case OnBus(s) => if s.Handle? || s.Ignore? then w else w.(bus := SB.Apply(w.bus, s, maxRetry))
    case Consume(id, upsertFails, applyFails) =>
      if !SB.Enabled(w.bus, SB.Handle(id, true)) then w else
      var p := w.bus.entries[id].payload;
      var ok := HandlerOk(p, upsertFails, applyFails);
      Worker(SB.Apply(w.bus, SB.Handle(id, ok), maxRetry),
             RecordsAfter(w.records, p, upsertFails),
             StatsAfter(w.stats, p, upsertFails, applyFails),
             if Counts(p) && !upsertFails then w.writes + [p.event] else w.writes)
  }

  function Run(steps: seq<Step>, maxRetry: nat): Worker {
    if steps == [] then INIT else Apply(Run(steps[..|steps| - 1], maxRetry), steps[|steps| - 1], maxRetry)
  }

  /** The deltas that the successful messages carry for v, in the order of their success. */
  function Applied(published: seq<Payload>, successes: seq<int>, v: int): seq<int> {
    if successes == [] then []
    else
      var n := successes[|successes| - 1];
      Applied(published, successes[..|successes| - 1], v)
      + (if 0 <= n < |published| && Counts(published[n]) && published[n].event.videoID == v
         then [WeightOf(published[n], v)] else [])
  }

  lemma {:induction false} AppliedStable(published: seq<Payload>, p: Payload, successes: seq<int>, v: int)
    requires forall i | 0 <= i < |successes| :: successes[i] < |published|
    ensures Applied(published + [p], successes, v) == Applied(published, successes, v)
  {
    if successes != [] {
      AppliedStable(published, p, successes[..|successes| - 1], v);
    }
  }

  ghost predicate StatsFollow(w: Worker) {
    forall v :: Get(w.stats, v) == Stored(Applied(w.bus.published, w.bus.successes, v))
  }

  ghost predicate RecordsFollow(w: Worker) {
    forall k :: RowOf(w.records, k) == UpsertAll(WritesTo(w.writes, k))
  }

  /** Only published events are written, and those of all successful messages are. */
  ghost predicate WritesFollow(w: Worker) {
    && (forall i | 0 <= i < |w.bus.successes| :: 0 <= w.bus.successes[i] < |w.bus.published|)
    && (forall e | e in w.writes :: Event(e) in w.bus.published)
    && (forall n | n in w.bus.successes && Counts(w.bus.published[n]) :: w.bus.published[n].event in w.writes)
  }

  ghost predicate Consistent(w: Worker, maxRetry: nat) {
    SB.Inv(w.bus, maxRetry) && StatsFollow(w) && RecordsFollow(w) && WritesFollow(w)
  }

  lemma BusKeepsInv(b: SB.Bus<Payload>, s: SB.Step<Payload>, maxRetry: nat)
    requires maxRetry > 0 && SB.Inv(b, maxRetry)
    ensures SB.Inv(SB.Apply(b, s, maxRetry), maxRetry)
  {
    SB.ShapeKept(b, s, maxRetry);
    SB.CarrierKept(b, s, maxRetry);
    SB.RunsKept(b, s, maxRetry);
    SB.LettersKept(b, s, maxRetry);
    SB.SuccessesKept(b, s, maxRetry);
  }

  lemma BusStepConsistent(w: Worker, s: SB.Step<Payload>, maxRetry: nat)
    requires maxRetry > 0 && Consistent(w, maxRetry)
    ensures Consistent(Apply(w, OnBus(s), maxRetry), maxRetry)
  {
    if !s.Handle? {
      BusKeepsInv(w.bus, s, maxRetry);
      var w' := Apply(w, OnBus(s), maxRetry);
      assert w'.bus.successes == w.bus.successes;
      if s.Publish? {
        assert w'.bus.published == w.bus.published + [s.payload];
        PublishFollows(w, s.payload, w');
      } else {
        assert w'.bus.published == w.bus.published;
      }
    }
  }

  lemma PublishFollows(w: Worker, p: Payload, w': Worker)
    requires StatsFollow(w) && WritesFollow(w)
    requires w'.bus.published == w.bus.published + [p] && w'.bus.successes == w.bus.successes
    requires w'.stats == w.stats && w'.writes == w.writes
    ensures StatsFollow(w') && WritesFollow(w')
  {
    forall v
      ensures Applied(w'.bus.published, w.bus.successes, v) == Applied(w.bus.published, w.bus.successes, v)
    {
      AppliedStable(w.bus.published, p, w.bus.successes, v);
    }
    forall n | n in w.bus.successes
      ensures 0 <= n < |w.bus.published| && w'.bus.published[n] == w.bus.published[n]
    {
    }
  }

  lemma AppliedNext(published: seq<Payload>, successes: seq<int>, n: int, v: int)
    requires 0 <= n < |published|
    ensures var ds := Applied(published, successes, v);
            Applied(published, successes + [n], v)
            == if Counts(published[n]) && published[n].event.videoID == v then ds + [WeightOf(published[n], v)] else ds
  {
    assert (successes + [n])[..|successes|] == successes;
    assert Applied(published, successes, v) + [] == Applied(published, successes, v);
  }

  lemma StoredNext(ds: seq<int>, d: int)
    ensures Stored(ds + [d]) == Clamp(Stored(ds), d) && Sum(ds + [d]) == Sum(ds) + d
  {
    assert (ds + [d])[..|ds|] == ds;
  }

  lemma ConsumeStats(st: Stats, published: seq<Payload>, successes: seq<int>, n: int,
                     upsertFails: bool, applyFails: bool, v: int)
    requires 0 <= n < |published| && Get(st, v) == Stored(Applied(published, successes, v))
    ensures var ok := HandlerOk(published[n], upsertFails, applyFails);
            Get(StatsAfter(st, published[n], upsertFails, applyFails), v)
            == Stored(Applied(published, if ok then successes + [n] else successes, v))
  {
    var ds := Applied(published, successes, v);
    AppliedNext(published, successes, n, v);
    StoredNext(ds, WeightOf(published[n], v));
  }

  lemma ConsumeRecords(rs: Records, writes: seq<LikeEvent>, p: Payload, upsertFails: bool, k: (int, int))
    requires RowOf(rs, k) == UpsertAll(WritesTo(writes, k))
    ensures RowOf(RecordsAfter(rs, p, upsertFails), k)
            == UpsertAll(WritesTo(if Counts(p) && !upsertFails then writes + [p.event] else writes, k))
  {
    if Counts(p) && !upsertFails {
      var ws, e := WritesTo(writes, k), p.event;
      assert (writes + [e])[..|writes|] == writes;
      assert WritesTo(writes + [e], k) == ws + WritesOf(e, k);
      if Key(e) == k {
        assert (ws + [WriteOf(e)])[..|ws|] == ws;
        assert UpsertAll(ws + [WriteOf(e)]) == Upsert(UpsertAll(ws), WriteOf(e));
      } else {
        assert ws + [] == ws;
      }
    }
  }

  lemma ConsumeFollows(w: Worker, w': Worker, n: int, upsertFails: bool, applyFails: bool)
    requires WritesFollow(w) && 0 <= n < |w.bus.published| && w'.bus.published == w.bus.published
    requires var p := w.bus.published[n];
             && w'.bus.successes == (if HandlerOk(p, upsertFails, applyFails)
                                     then w.bus.successes + [n] else w.bus.successes)
             && w'.writes == (if Counts(p) && !upsertFails then w.writes + [p.event] else w.writes)
    ensures WritesFollow(w')
  {
    assert Counts(w.bus.published[n]) ==> Event(w.bus.published[n].event) == w.bus.published[n];
  }

  lemma ConsumeConsistent(w: Worker, id: nat, upsertFails: bool, applyFails: bool, maxRetry: nat)
    requires maxRetry > 0 && Consistent(w, maxRetry)
    ensures Consistent(Apply(w, Consume(id, upsertFails, applyFails), maxRetry), maxRetry)
  {
    if SB.Enabled(w.bus, SB.Handle(id, true)) {
      var w' := Apply(w, Consume(id, upsertFails, applyFails), maxRetry);
      var n, p := w.bus.entries[id].lineage, w.bus.entries[id].payload;
      BusKeepsInv(w.bus, SB.Handle(id, HandlerOk(p, upsertFails, applyFails)), maxRetry);
      assert p == w.bus.published[n];
      ConsumeFollows(w, w', n, upsertFails, applyFails);
      forall v
        ensures Get(w'.stats, v) == Stored(Applied(w'.bus.published, w'.bus.successes, v))
      {
        ConsumeStats(w.stats, w.bus.published, w.bus.successes, n, upsertFails, applyFails, v);
      }
      forall k
        ensures RowOf(w'.records, k) == UpsertAll(WritesTo(w'.writes, k))
      {
        ConsumeRecords(w.records, w.writes, p, upsertFails, k);
      }
    }
  }

  lemma {:induction false} RunConsistent(steps: seq<Step>, maxRetry: nat)
    requires maxRetry > 0
    ensures Consistent(Run(steps, maxRetry), maxRetry)
    decreases |steps|
  {
    if steps == [] {
      SB.RunKeepsInv<Payload>([], maxRetry);
    } else {
      RunConsistent(steps[..|steps| - 1], maxRetry);
      match steps[|steps| - 1] {
        case OnBus(s) => BusStepConsistent(Run(steps[..|steps| - 1], maxRetry), s, maxRetry);
        case Consume(id, u, a) => ConsumeConsistent(Run(steps[..|steps| - 1], maxRetry), id, u, a, maxRetry);
      }
    }
  }

  /** However often a message is retried and in whatever order, the snapshot is the clamped sum of
      the deltas of the handled messages, each taken once; a message that is not handled adds none. */
  lemma SnapshotOfRun(steps: seq<Step>, maxRetry: nat, v: int)
    requires maxRetry > 0
    ensures var w := Run(steps, maxRetry);
            && Get(w.stats, v) == Stored(Applied(w.bus.published, w.bus.successes, v))
            && (forall i, j | 0 <= i < j < |w.bus.successes| :: w.bus.successes[i] != w.bus.successes[j])
            && (forall n :: n in w.bus.successes <==> SB.HandledOk(w.bus, n))
  {
    RunConsistent(steps, maxRetry);
  }

  /** Every append to the stream and the dead-letter queue succeeds. */
  predicate Lossless(steps: seq<Step>) {
    forall i | 0 <= i < |steps| && steps[i].OnBus? :: SB.KeepsAll(steps[i].step)
  }

  lemma {:induction false} WorkerLosesNothing(steps: seq<Step>, maxRetry: nat)
    requires maxRetry > 0 && Lossless(steps)
    ensures SB.NothingLost(Run(steps, maxRetry).bus)
    decreases |steps|
  {
    if steps != [] {
      var w, step := Run(steps[..|steps| - 1], maxRetry), steps[|steps| - 1];
      WorkerLosesNothing(steps[..|steps| - 1], maxRetry);
      RunConsistent(steps[..|steps| - 1], maxRetry);
      match step {
        case OnBus(s) => SB.StepLosesNothing(w.bus, s, maxRetry);
        case Consume(id, upsertFails, applyFails) =>
          SB.StepLosesNothing(w.bus, SB.Handle(id, true), maxRetry);
          SB.StepLosesNothing(w.bus, SB.Handle(id, false), maxRetry);
      }
    }
  }

  /** Once the queue has drained with all appends succeeding, every message either had its delta
      applied, exactly once, or is in the dead-letter queue after exactly maxRetry attempts. */
  lemma AppliedOrDead(steps: seq<Step>, maxRetry: nat, n: nat)
    requires maxRetry > 0 && Lossless(steps) && n < |Run(steps, maxRetry).bus.published|
    requires forall id: nat | id < |Run(steps, maxRetry).bus.entries| :: id in Run(steps, maxRetry).bus.acked
    ensures var b := Run(steps, maxRetry).bus;
            && (n in b.successes <==> !exists k :: SB.DeadLettered(b, n, k, maxRetry))
            && (forall i, j | 0 <= i < j < |b.successes| :: b.successes[i] != b.successes[j])
  {
    RunConsistent(steps, maxRetry);
    WorkerLosesNothing(steps, maxRetry);
    SB.HandledOrDead(Run(steps, maxRetry).bus, maxRetry, n);
  }

  // ---------------- against what was published ----------------

  /** The deltas of the first n published messages that are in `handled`. */
  function RangeSum(published: seq<Payload>, handled: set<int>, n: nat, v: int): int
    requires n <= |published|
  {
    if n == 0 then 0
    else RangeSum(published, handled, n - 1, v) + (if n - 1 in handled then WeightOf(published[n - 1], v) else 0)
  }

  lemma {:induction false} RangeSumAdd(published: seq<Payload>, handled: set<int>, m: int, n: nat, v: int)
    requires n <= |published| && m !in handled && 0 <= m < |published|
    ensures RangeSum(published, handled + {m}, n, v)
            == RangeSum(published, handled, n, v) + (if m < n then WeightOf(published[m], v) else 0)
  {
    if n > 0 {
      RangeSumAdd(published, handled, m, n - 1, v);
    }
  }

  lemma {:induction false} RangeSumNone(published: seq<Payload>, n: nat, v: int)
    requires n <= |published|
    ensures RangeSum(published, {}, n, v) == 0
  {
    if n > 0 {
      RangeSumNone(published, n - 1, v);
    }
  }

  /** Order does not matter to the sum of what was handled. */
  lemma {:induction false} AppliedSum(published: seq<Payload>, successes: seq<int>, v: int)
    requires forall i | 0 <= i < |successes| :: 0 <= successes[i] < |published|
    requires forall i, j | 0 <= i < j < |successes| :: successes[i] != successes[j]
    ensures Sum(Applied(published, successes, v)) == RangeSum(published, Elements(successes), |published|, v)
  {
    if successes == [] {
      assert Elements(successes) == {};
      RangeSumNone(published, |published|, v);
    } else {
      var init, last := successes[..|successes| - 1], successes[|successes| - 1];
      assert init + [last] == successes;
      AppliedGrows(published, init, last, v);
      AppliedSum(published, init, v);
      NewestSuccess(successes);
      assert last !in Elements(init);
      RangeSumAdd(published, Elements(init), last, |published|, v);
    }
  }

  function Elements(s: seq<int>): set<int> {
    set n | n in s
  }

  lemma NewestSuccess(successes: seq<int>)
    requires successes != [] && forall i, j | 0 <= i < j < |successes| :: successes[i] != successes[j]
    ensures var init, last := successes[..|successes| - 1], successes[|successes| - 1];
            last !in init && Elements(successes) == Elements(init) + {last}
  {
    var init, last := successes[..|successes| - 1], successes[|successes| - 1];
    assert successes == init + [last];
  }

  lemma AppliedGrows(published: seq<Payload>, successes: seq<int>, n: int, v: int)
    requires 0 <= n < |published|
    ensures Sum(Applied(published, successes + [n], v))
            == Sum(Applied(published, successes, v)) + WeightOf(published[n], v)
  {
    var ds := Applied(published, successes, v);
    AppliedNext(published, successes, n, v);
    StoredNext(ds, WeightOf(published[n], v));
  }

  function Payloads(es: seq<LikeEvent>): seq<Payload> {
    seq(|es|, i requires 0 <= i < |es| => Event(es[i]))
  }

  lemma {:induction false} RangeSumAll(es: seq<LikeEvent>, handled: set<int>, n: nat, v: int)
    requires n <= |es| && forall i | 0 <= i < n :: i in handled
    ensures RangeSum(Payloads(es), handled, n, v) == NetLikes(es[..n], v)
  {
    if n > 0 {
      RangeSumAll(es, handled, n - 1, v);
      assert es[..n][..n - 1] == es[..n - 1];
    }
  }

  ghost predicate AllHandled(w: Worker) {
    forall n | 0 <= n < |w.bus.published| :: n in w.bus.successes
  }

  /** From the gate to the database: when the aggregator has drained, every publish went through
      and every message was handled, the snapshot is at least the number of users holding the
      video, and exactly that when no prefix of the applied deltas was negative. */
  lemma SnapshotCoversHolders(likes: seq<LM.Step>, steps: seq<Step>, maxRetry: nat, v: int)
    requires maxRetry > 0 && v >= 0
    requires LM.Drained(LM.Run(LM.Init(true), likes)) && Get(LM.Run(LM.Init(true), likes).dropped, v) == 0
    requires Run(steps, maxRetry).bus.published == Payloads(LM.Run(LM.Init(true), likes).events)
    requires AllHandled(Run(steps, maxRetry))
    ensures var s, w := LM.Run(LM.Init(true), likes), Run(steps, maxRetry);
            var ds := Applied(w.bus.published, w.bus.successes, v);
            && LC.ClampedCount(s.counters, v) == LM.Holders(s.gate, v) <= Get(w.stats, v)
            && (Get(w.stats, v) == LM.Holders(s.gate, v) <==> forall k | 0 <= k <= |ds| :: Sum(ds[..k]) >= 0)
  {
    var s, w := LM.Run(LM.Init(true), likes), Run(steps, maxRetry);
    RunConsistent(steps, maxRetry);
    LM.AggregatorNeverRollsBack(likes);
    LM.DrainedCount(true, likes, v);
    AppliedSum(w.bus.published, w.bus.successes, v);
    RangeSumAll(s.events, Elements(w.bus.successes), |s.events|, v);
    assert s.events[..|s.events|] == s.events;
    LC.CountIsHomeCounter(s.counters, v) by { LM.RunHomeOnly(true, likes); }
    SnapshotBound(Applied(w.bus.published, w.bus.successes, v));
  }

  lemma {:induction false} WritesToIn(es: seq<LikeEvent>, k: (int, int), x: Write)
    ensures x in WritesTo(es, k) <==> exists e :: e in es && x in WritesOf(e, k)
  {
    if es != [] {
      var init, last := es[..|es| - 1], es[|es| - 1];
      assert es == init + [last];
      WritesToIn(init, k, x);
      if exists e :: e in es && x in WritesOf(e, k) {
        var e :| e in es && x in WritesOf(e, k);
        assert e in init || e == last;
      }
      if exists e :: e in init && x in WritesOf(e, k) {
        var e :| e in init && x in WritesOf(e, k);
        assert e in es;
      }
    }
  }

  /** When all messages are handled, the writes done are those of the published events. */
  lemma WritesAreEvents(w: Worker, es: seq<LikeEvent>, e: LikeEvent)
    requires WritesFollow(w) && AllHandled(w) && w.bus.published == Payloads(es)
    ensures e in w.writes ==> e in es
    ensures e in es && Recorded(e) ==> e in w.writes
  {
    if e in w.writes {
      assert Event(e) in w.bus.published;
      var i :| 0 <= i < |es| && w.bus.published[i] == Event(e);
      assert es[i] == e;
    }
    if e in es {
      var i :| 0 <= i < |es| && es[i] == e;
      assert i in w.bus.successes && w.bus.published[i] == Event(e);
    }
  }

  lemma WritesSame(w: Worker, es: seq<LikeEvent>, k: (int, int), x: Write)
    requires WritesFollow(w) && AllHandled(w) && w.bus.published == Payloads(es)
    ensures x in WritesTo(es, k) <==> x in WritesTo(w.writes, k)
  {
    WritesToIn(es, k, x);
    WritesToIn(w.writes, k, x);
    if e :| e in es && x in WritesOf(e, k) {
      WritesAreEvents(w, es, e);
    }
    if e :| e in w.writes && x in WritesOf(e, k) {
      WritesAreEvents(w, es, e);
    }
  }

  /** Once all messages are handled, each record is what the published events determine, whenever
      its latest events agree: retries, duplicates and reordering leave no trace. */
  lemma RecordsConverge(steps: seq<Step>, maxRetry: nat, es: seq<LikeEvent>, k: (int, int))
    requires maxRetry > 0 && AllHandled(Run(steps, maxRetry))
    requires Run(steps, maxRetry).bus.published == Payloads(es) && LatestAgree(WritesTo(es, k))
    ensures RowOf(Run(steps, maxRetry).records, k) == UpsertAll(WritesTo(es, k))
  {
    var w := Run(steps, maxRetry);
    RunConsistent(steps, maxRetry);
    forall x
      ensures x in WritesTo(es, k) <==> x in WritesTo(w.writes, k)
    {
      WritesSame(w, es, k, x);
    }
    OrderIrrelevantIff(WritesTo(es, k));
    assert SameWrites(WritesTo(es, k), WritesTo(w.writes, k));
  }

  // ---------------- records against the gate ----------------

  lemma {:induction false} LastWrite(es: seq<LikeEvent>, p: (int, int))
    ensures var ws := WritesTo(es, p); LP.LastLiked(es, p) == (ws != [] && ws[|ws| - 1].liked)
  {
    if es != [] {
      LastWrite(es[..|es| - 1], p);
    }
  }

  /** All of these events were published and all their messages are handled. */
  ghost predicate Persists(steps: seq<Step>, maxRetry: nat, es: seq<LikeEvent>) {
    Run(steps, maxRetry).bus.published == Payloads(es) && AllHandled(Run(steps, maxRetry))
  }

  /** Whatever the order in which the messages are handled, the record says what the pair's last
      event says, provided that its newest timestamps all belong to events saying that. */
  lemma RecordTellsLast(steps: seq<Step>, maxRetry: nat, es: seq<LikeEvent>, p: (int, int))
    requires maxRetry > 0 && Persists(steps, maxRetry, es)
    requires WritesTo(es, p) != [] ==> NewestSayLast(WritesTo(es, p))
    ensures Liked(RowOf(Run(steps, maxRetry).records, p)) <==> LP.LastLiked(es, p)
  {
    var w, ws := Run(steps, maxRetry), WritesTo(es, p);
    LastWrite(es, p);
    RunConsistent(steps, maxRetry);
    forall x
      ensures x in ws <==> x in WritesTo(w.writes, p)
    {
      WritesSame(w, es, p, x);
    }
    if ws == [] {
      EmptyWrites(WritesTo(w.writes, p));
    } else {
      LastSticks(ws, WritesTo(w.writes, p));
    }
  }

  /** From the gate to the record: when no call of the pair is past its gate, its calls did not
      overlap, its rollbacks and publishes got through and all messages are handled, the record
      says liked exactly when the user's set holds the video, provided that the pair's newest
      timestamps all belong to events saying what the last one says. */
  lemma RecordMatchesGate(aggregated: bool, likes: seq<LM.Step>, steps: seq<Step>, maxRetry: nat, p: (int, int))
    requires LP.CarefulRun(aggregated, likes, p) && !LP.Busy(LM.Run(LM.Init(aggregated), likes).calls, p)
    requires maxRetry > 0 && Persists(steps, maxRetry, LM.Run(LM.Init(aggregated), likes).events)
    requires var ws := WritesTo(LM.Run(LM.Init(aggregated), likes).events, p); ws != [] ==> NewestSayLast(ws)
    ensures Liked(RowOf(Run(steps, maxRetry).records, p)) <==> p in LM.Run(LM.Init(aggregated), likes).gate
  {
    LP.GateFollowsEvents(aggregated, likes, p);
    RecordTellsLast(steps, maxRetry, LM.Run(LM.Init(aggregated), likes).events, p);
  }
}
