/** A topic on a Redis stream: consumer group, retry by re-appending, dead-letter queue (pkg/mq/mq.go). */
module StreamBus {
  /** What has become of a stream entry: not yet read; read; there was no handler for it; its handler
      succeeded or failed; after a failure it was appended again, dead-lettered, or lost because
      that append failed. */
  datatype Status = Waiting | Delivered | Ignored | RanOk | RanErr | Requeued | Dead | Lost

  /** `lineage` numbers the Publish call an entry goes back to. */
  datatype Entry<P> = Entry(lineage: nat, payload: P, attempts: nat)

  datatype DeadLetter<P> = DeadLetter(payload: P, attempts: nat, source: nat)

  /** `entries` is the append-only stream, `read` the group's position in it. `published`, `runs`
      and `successes` record, per lineage, the payload, the handler runs so far, and the order of
      the successful ones. */
  datatype Bus<P> = Bus(
    entries: seq<Entry<P>>,
    status: seq<Status>,
    read: nat,
    acked: set<nat>,
    dlq: seq<DeadLetter<P>>,
    published: seq<P>,
    runs: seq<nat>,
    successes: seq<int>)

  datatype Step<P> =
    | Publish(payload: P)
    | Deliver
    | Ignore(id: nat)
    | Handle(id: nat, ok: bool)
    | Settle(id: nat, appendFails: bool)
    | Ack(id: nat)

  function Init<P>(): Bus<P> {
    Bus([], [], 0, {}, [], [], [], [])
  }

  predicate At<P>(b: Bus<P>, id: int, status: Status) {
    0 <= id < |b.entries| && id < |b.status| && b.status[id] == status
  }

  /** Nothing is left to do but the acknowledgement. */
  predicate Over(s: Status) { s in {Ignored, RanOk, Requeued, Dead, Lost} }

  predicate Enabled<P>(b: Bus<P>, step: Step<P>) {
    match step
    case Publish(_) => true
    case Deliver => At(b, b.read, Waiting)
    case Ignore(id) => At(b, id, Delivered)
    case Handle(id, _) => At(b, id, Delivered) && b.entries[id].lineage < |b.runs|
    case Settle(id, _) => At(b, id, RanErr)
    case Ack(id) => id < |b.entries| && id < |b.status| && Over(b.status[id]) && id !in b.acked
  }

  /** XREADGROUP hands out several entries at once; that is as many Deliver steps. */
  function Apply<P>(b: Bus<P>, step: Step<P>, maxRetry: nat): Bus<P> {
    if !Enabled(b, step) then b else
    match step
    case Publish(p) => Append(b, Entry(|b.published|, p, 0)).(published := b.published + [p], runs := b.runs + [0])
    case Deliver => b.(status := b.status[b.read := Delivered], read := b.read + 1)
    case Ignore(id) => b.(status := b.status[id := Ignored])
    case Handle(id, ok) =>
      var n := b.entries[id].lineage;
      b.(status := b.status[id := if ok then RanOk else RanErr],
         runs := b.runs[n := b.runs[n] + 1],
         successes := if ok then b.successes + [n] else b.successes)
    case Settle(id, appendFails) =>
      var e := b.entries[id];
      if appendFails then b.(status := b.status[id := Lost])
      else if e.attempts + 1 >= maxRetry then
        b.(status := b.status[id := Dead], dlq := b.dlq + [DeadLetter(e.payload, e.attempts + 1, id)])
      else Append(b.(status := b.status[id := Requeued]), e.(attempts := e.attempts + 1))
    case Ack(id) => b.(acked := b.acked + {id})
  }

  function Append<P>(b: Bus<P>, e: Entry<P>): Bus<P> {
    b.(entries := b.entries + [e], status := b.status + [Waiting])
  }

  function Run<P>(b: Bus<P>, steps: seq<Step<P>>, maxRetry: nat): Bus<P> {
    if steps == [] then b else Apply(Run(b, steps[..|steps| - 1], maxRetry), steps[|steps| - 1], maxRetry)
  }

  // ---------------- invariant ----------------

  /** The entry that currently carries lineage n. */
  predicate Carries<P>(b: Bus<P>, id: int, n: int) {
    0 <= id < |b.entries| && id < |b.status| && b.entries[id].lineage == n && b.status[id] != Requeued
  }

  ghost predicate Shape<P>(b: Bus<P>, maxRetry: nat) {
    && |b.status| == |b.entries| && |b.runs| == |b.published| && b.read <= |b.entries|
    && (forall id | 0 <= id < |b.entries| ::
          && b.entries[id].lineage < |b.published|
          && b.entries[id].payload == b.published[b.entries[id].lineage]
          && b.entries[id].attempts < maxRetry
          && (b.status[id] == Waiting <==> id >= b.read))
    && (forall id | id in b.acked :: id < |b.entries| && Over(b.status[id]))
  }

  ghost predicate HasCarrier<P>(b: Bus<P>, n: int) {
    exists id :: Carries(b, id, n)
  }

  ghost predicate OneCarrier<P>(b: Bus<P>) {
    && (forall n | 0 <= n < |b.published| :: HasCarrier(b, n))
    && (forall i, j, n | Carries(b, i, n) && Carries(b, j, n) :: i == j)
  }

  predicate Ran(s: Status) { s in {RanOk, RanErr, Dead, Lost} }

  ghost predicate RunsCounted<P>(b: Bus<P>) {
    forall id, n | Carries(b, id, n) && 0 <= n < |b.runs| ::
      b.runs[n] == b.entries[id].attempts + (if Ran(b.status[id]) then 1 else 0)
  }

  /** Letter k was written for a dead entry, with its payload, after exactly maxRetry attempts. */
  ghost predicate LetterOk<P>(b: Bus<P>, k: int, maxRetry: nat) {
    && 0 <= k < |b.dlq|
    && At(b, b.dlq[k].source, Dead)
    && b.dlq[k].payload == b.entries[b.dlq[k].source].payload
    && b.dlq[k].attempts == b.entries[b.dlq[k].source].attempts + 1 == maxRetry
  }

  ghost predicate HasLetter<P>(b: Bus<P>, id: int) {
    exists k :: 0 <= k < |b.dlq| && b.dlq[k].source == id
  }

  ghost predicate Letters<P>(b: Bus<P>, maxRetry: nat) {
    && (forall k | 0 <= k < |b.dlq| :: LetterOk(b, k, maxRetry))
    && (forall i, j | 0 <= i < j < |b.dlq| :: b.dlq[i].source != b.dlq[j].source)
    && (forall id | At(b, id, Dead) :: HasLetter(b, id))
  }

  ghost predicate Successes<P>(b: Bus<P>) {
    && (forall i, j | 0 <= i < j < |b.successes| :: b.successes[i] != b.successes[j])
    && (forall n :: n in b.successes <==> HandledOk(b, n))
  }

  /** The entry that carries lineage n has been handled. */
  ghost predicate HandledOk<P>(b: Bus<P>, n: int) {
    exists id :: Carries(b, id, n) && b.status[id] == RanOk
  }

  ghost predicate Inv<P>(b: Bus<P>, maxRetry: nat) {
    Shape(b, maxRetry) && OneCarrier(b) && RunsCounted(b) && Letters(b, maxRetry) && Successes(b)
  }

  lemma ShapeKept<P>(b: Bus<P>, step: Step<P>, maxRetry: nat)
    requires maxRetry > 0 && Shape(b, maxRetry)
    ensures Shape(Apply(b, step, maxRetry), maxRetry)
  {
  }

  lemma CarrierKept<P>(b: Bus<P>, step: Step<P>, maxRetry: nat)
    requires Inv(b, maxRetry)
    ensures OneCarrier(Apply(b, step, maxRetry))
  {
    var b' := Apply(b, step, maxRetry);
    if Enabled(b, step) {
      forall n | 0 <= n < |b'.published|
        ensures HasCarrier(b', n)
      {
        if n < |b.published| {
          assert HasCarrier(b, n);
          var id :| Carries(b, id, n);
          if b'.status[id] == Requeued {
            assert Carries(b', |b.entries|, n);
          } else {
            assert Carries(b', id, n);
          }
        } else {
          assert Carries(b', |b.entries|, n);
        }
      }
      assert step.Settle? ==> Carries(b, step.id, b.entries[step.id].lineage);
      forall i, j, n | Carries(b', i, n) && Carries(b', j, n)
        ensures i == j
      {
        assert i < |b.entries| ==> Carries(b, i, n);
        assert j < |b.entries| ==> Carries(b, j, n);
      }
    }
  }

  lemma RunsKept<P>(b: Bus<P>, step: Step<P>, maxRetry: nat)
    requires Inv(b, maxRetry)
    ensures RunsCounted(Apply(b, step, maxRetry))
  {
    var b' := Apply(b, step, maxRetry);
    if Enabled(b, step) {
      forall id, n | Carries(b', id, n) && 0 <= n < |b'.runs|
        ensures b'.runs[n] == b'.entries[id].attempts + (if Ran(b'.status[id]) then 1 else 0)
      {
        if id < |b.entries| {
          assert Carries(b, id, n);
          if step.Handle? && b.entries[step.id].lineage == n {
            assert Carries(b, step.id, n);
          }
        } else if step.Settle? {
          assert Carries(b, step.id, n);
        }
      }
    }
  }

  lemma LetterOkKept<P>(b: Bus<P>, step: Step<P>, maxRetry: nat, k: nat)
    requires Shape(b, maxRetry) && LetterOk(b, k, maxRetry)
    ensures LetterOk(Apply(b, step, maxRetry), k, maxRetry)
  {
  }

  lemma DeadKept<P>(b: Bus<P>, step: Step<P>, maxRetry: nat, id: nat)
    requires Shape(b, maxRetry) && (At(b, id, Dead) ==> HasLetter(b, id))
    ensures At(Apply(b, step, maxRetry), id, Dead) ==> HasLetter(Apply(b, step, maxRetry), id)
  {
    var b' := Apply(b, step, maxRetry);
    if At(b', id, Dead) {
      if At(b, id, Dead) {
        var k :| 0 <= k < |b.dlq| && b.dlq[k].source == id;
        assert b'.dlq[k].source == id;
      } else {
        assert b'.dlq[|b.dlq|].source == id;
      }
    }
  }

  lemma LettersKept<P>(b: Bus<P>, step: Step<P>, maxRetry: nat)
    requires Inv(b, maxRetry)
    ensures Letters(Apply(b, step, maxRetry), maxRetry)
  {
    var b' := Apply(b, step, maxRetry);
    if Enabled(b, step) {
      forall k | 0 <= k < |b.dlq|
        ensures LetterOk(b', k, maxRetry) && LetterOk(b, k, maxRetry)
      {
        LetterOkKept(b, step, maxRetry, k);
      }
      forall i, j | 0 <= i < j < |b'.dlq|
        ensures b'.dlq[i].source != b'.dlq[j].source
      {
        assert LetterOk(b, i, maxRetry);
      }
      forall id: nat | At(b', id, Dead)
        ensures HasLetter(b', id)
      {
        DeadKept(b, step, maxRetry, id);
      }
    }
  }

  lemma HandledOkKept<P>(b: Bus<P>, step: Step<P>, maxRetry: nat, n: int)
    requires |b.status| == |b.entries| && Enabled(b, step)
    ensures var b' := Apply(b, step, maxRetry);
            HandledOk(b', n) <==> HandledOk(b, n) || (step.Handle? && step.ok && b.entries[step.id].lineage == n)
  {
    var b' := Apply(b, step, maxRetry);
    if id :| Carries(b, id, n) && b.status[id] == RanOk {
      assert Carries(b', id, n) && b'.status[id] == RanOk;
    }
    if step.Handle? && step.ok && b.entries[step.id].lineage == n {
      assert Carries(b', step.id, n) && b'.status[step.id] == RanOk;
    }
    if id :| Carries(b', id, n) && b'.status[id] == RanOk {
      assert Carries(b, id, n);
    }
  }

  lemma SuccessesKept<P>(b: Bus<P>, step: Step<P>, maxRetry: nat)
    requires Inv(b, maxRetry)
    ensures Successes(Apply(b, step, maxRetry))
  {
    var b' := Apply(b, step, maxRetry);
    if Enabled(b, step) {
      forall n
        ensures n in b'.successes <==> HandledOk(b', n)
      {
        HandledOkKept(b, step, maxRetry, n);
      }
      if step.Handle? && step.ok {
        assert Carries(b, step.id, b.entries[step.id].lineage);
        assert !HandledOk(b, b.entries[step.id].lineage);
      }
    }
  }

  lemma {:induction false} RunKeepsInv<P>(steps: seq<Step<P>>, maxRetry: nat)
    requires maxRetry > 0
    ensures Inv(Run(Init(), steps, maxRetry), maxRetry)
    decreases |steps|
  {
    if steps != [] {
      var init, step := steps[..|steps| - 1], steps[|steps| - 1];
      RunKeepsInv(init, maxRetry);
      var b := Run(Init<P>(), init, maxRetry);
      ShapeKept(b, step, maxRetry);
      CarrierKept(b, step, maxRetry);
      RunsKept(b, step, maxRetry);
      LettersKept(b, step, maxRetry);
      SuccessesKept(b, step, maxRetry);
    }
  }

  /** Every published message has exactly one current entry, so it is in exactly one place:
      waiting, being handled, handled, dead-lettered, lost to a failed append, or ignored for want
      of a handler. Its handler has
      run at most maxRetry times, and a dead letter carries exactly maxRetry attempts. */
  lemma OnePlace<P>(steps: seq<Step<P>>, maxRetry: nat, n: nat)
    requires maxRetry > 0 && n < |Run(Init<P>(), steps, maxRetry).published|
    ensures var b := Run(Init<P>(), steps, maxRetry);
            && |b.runs| == |b.published| && b.runs[n] <= maxRetry
            && (exists id :: Carries(b, id, n) && forall j | Carries(b, j, n) :: j == id)
            && (n in b.successes <==> HandledOk(b, n))
            && (forall k | 0 <= k < |b.dlq| && Carries(b, b.dlq[k].source, n) ::
                  b.dlq[k].attempts == maxRetry == b.runs[n] && b.dlq[k].payload == b.published[n] && n !in b.successes)
  {
    var b := Run(Init<P>(), steps, maxRetry);
    RunKeepsInv(steps, maxRetry);
    assert HasCarrier(b, n);
    var id :| Carries(b, id, n);
    assert forall j | Carries(b, j, n) :: j == id;
    forall k | 0 <= k < |b.dlq| && Carries(b, b.dlq[k].source, n)
      ensures b.dlq[k].attempts == maxRetry == b.runs[n] && b.dlq[k].payload == b.published[n] && n !in b.successes
    {
      assert LetterOk(b, k, maxRetry);
    }
  }

  /** Every append succeeds and every topic read has a handler. */
  predicate Lossless<P>(steps: seq<Step<P>>) {
    forall i | 0 <= i < |steps| :: KeepsAll(steps[i])
  }

  predicate KeepsAll<P>(step: Step<P>) {
    !step.Ignore? && (step.Settle? ==> !step.appendFails)
  }

  ghost predicate NothingLost<P>(b: Bus<P>) {
    forall id :: !At(b, id, Lost) && !At(b, id, Ignored)
  }

  lemma StepLosesNothing<P>(b: Bus<P>, step: Step<P>, maxRetry: nat)
    requires |b.entries| == |b.status| && NothingLost(b) && KeepsAll(step)
    ensures NothingLost(Apply(b, step, maxRetry))
  {
    var b' := Apply(b, step, maxRetry);
    forall id
      ensures !At(b', id, Lost) && !At(b', id, Ignored)
    {
      assert !At(b, id, Lost) && !At(b, id, Ignored);
    }
  }

  lemma {:induction false} RunLosesNothing<P>(steps: seq<Step<P>>, maxRetry: nat)
    requires maxRetry > 0 && Lossless(steps)
    ensures NothingLost(Run(Init(), steps, maxRetry))
    decreases |steps|
  {
    if steps != [] {
      RunLosesNothing(steps[..|steps| - 1], maxRetry);
      RunKeepsInv(steps[..|steps| - 1], maxRetry);
      StepLosesNothing(Run(Init<P>(), steps[..|steps| - 1], maxRetry), steps[|steps| - 1], maxRetry);
    }
  }

  /** Letter k is the dead letter of message n: its payload, after exactly maxRetry attempts. */
  ghost predicate DeadLettered<P>(b: Bus<P>, n: nat, k: int, maxRetry: nat) {
    && 0 <= k < |b.dlq| && n < |b.published|
    && Carries(b, b.dlq[k].source, n)
    && b.dlq[k].payload == b.published[n] && b.dlq[k].attempts == maxRetry
  }

  /** When every entry is acknowledged and nothing was lost, each message was either handled, and
      then once, or dead-lettered. */
  lemma HandledOrDead<P>(b: Bus<P>, maxRetry: nat, n: nat)
    requires Inv(b, maxRetry) && NothingLost(b) && n < |b.published|
    requires forall id: nat | id < |b.entries| :: id in b.acked
    ensures n in b.successes <==> !exists k :: DeadLettered(b, n, k, maxRetry)
  {
    assert HasCarrier(b, n);
    var id :| Carries(b, id, n);
    assert id in b.acked && !At(b, id, Lost) && !At(b, id, Ignored);
    if b.status[id] == Dead {
      assert HasLetter(b, id);
      var k :| 0 <= k < |b.dlq| && b.dlq[k].source == id;
      assert LetterOk(b, k, maxRetry);
      assert DeadLettered(b, n, k, maxRetry);
    } else {
      forall k | 0 <= k < |b.dlq|
        ensures b.dlq[k].source != id
      {
        assert LetterOk(b, k, maxRetry);
      }
    }
  }

  /** With appends succeeding, a drained queue has handled or dead-lettered every message. */
  lemma DrainedSettlesAll<P>(steps: seq<Step<P>>, maxRetry: nat, n: nat)
    requires maxRetry > 0 && Lossless(steps) && n < |Run(Init<P>(), steps, maxRetry).published|
    requires var b := Run(Init<P>(), steps, maxRetry); forall id: nat | id < |b.entries| :: id in b.acked
    ensures var b := Run(Init<P>(), steps, maxRetry);
            n in b.successes <==> !exists k :: DeadLettered(b, n, k, maxRetry)
  {
    RunKeepsInv(steps, maxRetry);
    RunLosesNothing(steps, maxRetry);
    HandledOrDead(Run(Init<P>(), steps, maxRetry), maxRetry, n);
  }

  // ---------------- the queue drains ----------------

  /** Commands still ahead of an entry and of the entries it may give rise to. */
  function Remaining<P>(b: Bus<P>, id: nat, maxRetry: nat): int
    requires id < |b.entries| && id < |b.status|
  {
    var left := 4 * (maxRetry - b.entries[id].attempts);
    match b.status[id]
    case Waiting => left
    case Delivered => left - 1
    case RanErr => left - 2
    case _ => if id in b.acked then 0 else 1
  }

  function Work<P>(b: Bus<P>, n: nat, maxRetry: nat): int
    requires n <= |b.entries| && n <= |b.status|
  {
    if n == 0 then 0 else Work(b, n - 1, maxRetry) + Remaining(b, n - 1, maxRetry)
  }

  function TotalWork<P>(b: Bus<P>, maxRetry: nat): int
    requires |b.entries| == |b.status|
  {
    Work(b, |b.entries|, maxRetry)
  }

  /** Only entry id differs between b and c, below n. */
  lemma {:induction false} WorkChange<P>(b: Bus<P>, c: Bus<P>, n: nat, id: nat, maxRetry: nat)
    requires n <= |b.entries| == |b.status| && n <= |c.entries| == |c.status| && id < |b.entries| && id < |c.entries|
    requires forall i: nat | i < n && i != id :: Remaining(c, i, maxRetry) == Remaining(b, i, maxRetry)
    ensures Work(c, n, maxRetry) == Work(b, n, maxRetry)
              + (if id < n then Remaining(c, id, maxRetry) - Remaining(b, id, maxRetry) else 0)
  {
    if n > 0 {
      WorkChange(b, c, n - 1, id, maxRetry);
    }
  }

  lemma {:induction false} WorkBound<P>(b: Bus<P>, n: nat, maxRetry: nat)
    requires Shape(b, maxRetry) && n <= |b.entries|
    ensures Work(b, n, maxRetry) >= 0
    ensures Work(b, n, maxRetry) == 0 <==> forall i: nat | i < n :: i in b.acked
  {
    if n > 0 {
      WorkBound(b, n - 1, maxRetry);
      assert b.status[n - 1] in {Waiting, Delivered, RanErr} ==>
          n - 1 !in b.acked && Remaining(b, n - 1, maxRetry) >= 1;
    }
  }

  /** A requeued entry has less ahead of it than the failed one had. */
  lemma SettleUsesWork<P>(b: Bus<P>, id: nat, appendFails: bool, maxRetry: nat)
    requires maxRetry > 0 && Shape(b, maxRetry) && Enabled(b, Settle(id, appendFails))
    ensures TotalWork(Apply(b, Settle(id, appendFails), maxRetry), maxRetry) < TotalWork(b, maxRetry)
  {
    var c := Apply(b, Settle(id, appendFails), maxRetry);
    WorkChange(b, c, |b.entries|, id, maxRetry);
    assert id !in b.acked;
  }

  /** Every effective step other than a publish uses up work. */
  lemma StepUsesWork<P>(b: Bus<P>, step: Step<P>, maxRetry: nat)
    requires maxRetry > 0 && Shape(b, maxRetry) && Enabled(b, step) && !step.Publish?
    ensures Shape(Apply(b, step, maxRetry), maxRetry)
    ensures TotalWork(Apply(b, step, maxRetry), maxRetry) < TotalWork(b, maxRetry)
  {
    ShapeKept(b, step, maxRetry);
    if step.Settle? {
      SettleUsesWork(b, step.id, step.appendFails, maxRetry);
    } else {
      WorkChange(b, Apply(b, step, maxRetry), |b.entries|, if step.Deliver? then b.read else step.id, maxRetry);
    }
  }

  lemma {:induction false} WorkLeft<P>(b: Bus<P>, n: nat, maxRetry: nat) returns (id: nat)
    requires Shape(b, maxRetry) && n <= |b.entries| && Work(b, n, maxRetry) > 0
    ensures id < n && id !in b.acked
  {
    if Remaining(b, n - 1, maxRetry) > 0 {
      id := n - 1;
    } else {
      id := WorkLeft(b, n - 1, maxRetry);
    }
  }

  /** While work is left, some step is possible. */
  lemma WorkProceeds<P>(b: Bus<P>, maxRetry: nat) returns (step: Step<P>)
    requires Shape(b, maxRetry) && TotalWork(b, maxRetry) > 0
    ensures !step.Publish? && Enabled(b, step)
  {
    var id := WorkLeft(b, |b.entries|, maxRetry);
    match b.status[id] {
      case Waiting => step := Deliver;
      case Delivered => step := Handle(id, true);
      case RanErr => step := Settle(id, false);
      case _ => step := Ack(id);
    }
  }

  predicate Effective<P>(b: Bus<P>, steps: seq<Step<P>>, maxRetry: nat) {
    steps != [] ==>
      && Effective(b, steps[..|steps| - 1], maxRetry)
      && !steps[|steps| - 1].Publish?
      && Enabled(Run(b, steps[..|steps| - 1], maxRetry), steps[|steps| - 1])
  }

  /** Without new publishes at most TotalWork further steps are possible; a bus that can do no
      more has acknowledged every entry. */
  lemma {:induction false} QueueDrains<P>(b: Bus<P>, steps: seq<Step<P>>, maxRetry: nat)
    requires maxRetry > 0 && Shape(b, maxRetry) && Effective(b, steps, maxRetry)
    ensures var c := Run(b, steps, maxRetry);
            && Shape(c, maxRetry)
            && |steps| + TotalWork(c, maxRetry) <= TotalWork(b, maxRetry)
            && ((forall step: Step<P> | !step.Publish? :: !Enabled(c, step)) ==>
                  forall id: nat | id < |c.entries| :: id in c.acked)
    decreases |steps|
  {
    var c := Run(b, steps, maxRetry);
    if steps != [] {
      QueueDrains(b, steps[..|steps| - 1], maxRetry);
      StepUsesWork(Run(b, steps[..|steps| - 1], maxRetry), steps[|steps| - 1], maxRetry);
    }
    WorkBound(c, |c.entries|, maxRetry);
    if TotalWork(c, maxRetry) > 0 {
      var step := WorkProceeds(c, maxRetry);
      assert Enabled(c, step);
    }
  }

  // ---------------- the bus object ----------------

  type Retries = n: nat | n > 0 witness 1

  class RedisStreamBus<P> {
    const maxRetry: Retries
    var rdb: Bus<P>

    constructor (maxRetry: int)
      ensures this.maxRetry == (if maxRetry <= 0 then 3 else maxRetry) && rdb == Init()
    {
      this.maxRetry := if maxRetry <= 0 then 3 else maxRetry;
      rdb := Init();
    }

    method PublishMessage(payload: P, appendFails: bool) returns (err: bool)
      modifies this
      ensures err == appendFails
      ensures rdb == if err then old(rdb) else Apply(old(rdb), Publish(payload), maxRetry)
      ensures !err ==>
                && rdb.published == old(rdb).published + [payload]
                && rdb.entries == old(rdb).entries + [Entry(|old(rdb).published|, payload, 0)]
                && rdb.status == old(rdb).status + [Waiting] && rdb.runs == old(rdb).runs + [0]
                && rdb.read == old(rdb).read && rdb.acked == old(rdb).acked
                && rdb.dlq == old(rdb).dlq && rdb.successes == old(rdb).successes
    {
      err := appendFails;
      if err { return; }
      var n := |rdb.published|;
      rdb := Append(rdb, Entry(n, payload, 0)).(published := rdb.published + [payload], runs := rdb.runs + [0]);
    }

    /** One delivered message: handler, then append or dead letter, then acknowledgement; without a
        handler only the acknowledgement. */
    method HandleMessage(id: nat, reply: Reply, appendFails: bool)
      requires Shape(rdb, maxRetry) && At(rdb, id, Delivered)
      modifies this
      ensures rdb == Handled(old(rdb), id, reply, appendFails, maxRetry)
    {
      if reply == NoHandler {
        rdb := rdb.(status := rdb.status[id := Ignored]);
      } else {
        RunHandler(id, reply == Success);
        if reply == Failure {
          Retry(id, appendFails);
        }
      }
      rdb := rdb.(acked := rdb.acked + {id});
    }

    /** The handler itself, and what the histories record of it. */
    method RunHandler(id: nat, ok: bool)
      requires Shape(rdb, maxRetry) && At(rdb, id, Delivered)
      modifies this
      ensures rdb == Apply(old(rdb), Handle(id, ok), maxRetry)
    {
      var n := rdb.entries[id].lineage;
      rdb := rdb.(runs := rdb.runs[n := rdb.runs[n] + 1], status := rdb.status[id := if ok then RanOk else RanErr]);
      if ok {
        rdb := rdb.(successes := rdb.successes + [n]);
      }
    }

    /** After a failure: the dead-letter queue when the attempts are used up, the stream again otherwise. */
    method Retry(id: nat, appendFails: bool)
      requires At(rdb, id, RanErr)
      modifies this
      ensures rdb == Apply(old(rdb), Settle(id, appendFails), maxRetry)
    {
      var e := rdb.entries[id];
      if appendFails {
        rdb := rdb.(status := rdb.status[id := Lost]);
      } else if e.attempts + 1 >= maxRetry {
        rdb := rdb.(status := rdb.status[id := Dead], dlq := rdb.dlq + [DeadLetter(e.payload, e.attempts + 1, id)]);
      } else {
        rdb := Append(rdb.(status := rdb.status[id := Requeued]), Entry(e.lineage, e.payload, e.attempts + 1));
      }
    }

    /** XREADGROUP with count 10. */
    method ReadNew() returns (first: nat)
      requires Shape(rdb, maxRetry)
      modifies this
      ensures Shape(rdb, maxRetry) && first == old(rdb.read) && rdb.entries == old(rdb.entries)
      ensures rdb.read == if |rdb.entries| < first + 10 then |rdb.entries| else first + 10
      ensures AllDelivered(rdb, first, rdb.read)
      ensures TotalWork(rdb, maxRetry) <= TotalWork(old(rdb), maxRetry) - (rdb.read - first)
    {
      first := rdb.read;
      while rdb.read < |rdb.entries| && rdb.read < first + 10
        invariant Shape(rdb, maxRetry) && first <= rdb.read <= first + 10 && rdb.entries == old(rdb.entries)
        invariant AllDelivered(rdb, first, rdb.read)
        invariant TotalWork(rdb, maxRetry) <= TotalWork(old(rdb), maxRetry) - (rdb.read - first)
        decreases |rdb.entries| - rdb.read
      {
        DeliverNext(rdb, first, maxRetry);
        rdb := rdb.(status := rdb.status[rdb.read := Delivered], read := rdb.read + 1);
      }
    }

    /** One round of runTopic: up to ten new entries are read, then each is handled, settled by its
        outcome and acknowledged. */
    method PollTopic(replies: nat -> Reply, appendFails: nat -> bool)
      requires Shape(rdb, maxRetry)
      modifies this
      ensures Shape(rdb, maxRetry)
      ensures rdb.read == if |old(rdb.entries)| < old(rdb.read) + 10 then |old(rdb.entries)| else old(rdb.read) + 10
      ensures SettledRange(old(rdb), rdb, old(rdb.read), rdb.read, replies, appendFails, maxRetry)
      ensures old(rdb.read) < |old(rdb.entries)| ==> TotalWork(rdb, maxRetry) < TotalWork(old(rdb), maxRetry)
    {
      var first := ReadNew();
      var end := rdb.read;
      for i := first to end
        invariant Shape(rdb, maxRetry) && rdb.read == end && AllDelivered(rdb, i, end)
        invariant SettledRange(old(rdb), rdb, first, i, replies, appendFails, maxRetry)
        invariant TotalWork(rdb, maxRetry) <= TotalWork(old(rdb), maxRetry) - (end - first)
      {
        HandledUsesWork(rdb, i, replies(i), appendFails(i), maxRetry);
        SettleNext(old(rdb), rdb, first, i, end, replies, appendFails, maxRetry);
        HandleMessage(i, replies(i), appendFails(i));
      }
    }
  }

  predicate AllDelivered<P>(b: Bus<P>, from: nat, to: nat) {
    forall id: nat | from <= id < to :: At(b, id, Delivered)
  }

  /** What the handler of a message says, if there is one. */
  datatype Reply = NoHandler | Success | Failure

  /** What becomes of an entry that is handled. */
  function Fate(attempts: nat, reply: Reply, appendFails: bool, maxRetry: nat): Status {
    match reply
    case NoHandler => Ignored
    case Success => RanOk
    case Failure => if appendFails then Lost else if attempts + 1 >= maxRetry then Dead else Requeued
  }

  /** Between b and c the entries from..to were settled by their outcomes and acknowledged. */
  ghost predicate SettledRange<P>(b: Bus<P>, c: Bus<P>, from: nat, to: nat, replies: nat -> Reply,
                                  appendFails: nat -> bool, maxRetry: nat)
  {
    && b.entries <= c.entries && to <= |b.entries|
    && forall id: nat | from <= id < to ::
         id in c.acked && At(c, id, Fate(b.entries[id].attempts, replies(id), appendFails(id), maxRetry))
  }

  lemma SettleNext<P>(b: Bus<P>, c: Bus<P>, from: nat, i: nat, end: nat, replies: nat -> Reply,
                      appendFails: nat -> bool, maxRetry: nat)
    requires Shape(c, maxRetry) && from <= i < end <= |b.entries| && AllDelivered(c, i, end)
    requires SettledRange(b, c, from, i, replies, appendFails, maxRetry)
    ensures var d := Handled(c, i, replies(i), appendFails(i), maxRetry);
            && d.read == c.read && AllDelivered(d, i + 1, end)
            && SettledRange(b, d, from, i + 1, replies, appendFails, maxRetry)
  {
    var d := Handled(c, i, replies(i), appendFails(i), maxRetry);
    HandledElsewhere(c, i, replies(i), appendFails(i), maxRetry);
    forall id: nat | from <= id < i + 1
      ensures id in d.acked && At(d, id, Fate(b.entries[id].attempts, replies(id), appendFails(id), maxRetry))
    {
      if id < i {
        assert At(c, id, Fate(b.entries[id].attempts, replies(id), appendFails(id), maxRetry));
      }
    }
  }

  lemma DeliverNext<P>(b: Bus<P>, first: nat, maxRetry: nat)
    requires maxRetry > 0 && Shape(b, maxRetry) && first <= b.read < |b.entries| && AllDelivered(b, first, b.read)
    ensures var c := Apply(b, Deliver, maxRetry);
            && c == b.(status := b.status[b.read := Delivered], read := b.read + 1)
            && Shape(c, maxRetry) && AllDelivered(c, first, b.read + 1)
            && TotalWork(c, maxRetry) < TotalWork(b, maxRetry)
  {
    var c := Apply(b, Deliver, maxRetry);
    StepUsesWork(b, Deliver, maxRetry);
    forall id: nat | first <= id < b.read + 1
      ensures At(c, id, Delivered)
    {
      assert id < b.read ==> At(b, id, Delivered);
    }
  }

  /** Handling one entry settles it by its outcome and leaves the others alone. */
  lemma HandledElsewhere<P>(b: Bus<P>, id: nat, reply: Reply, appendFails: bool, maxRetry: nat)
    requires Shape(b, maxRetry) && At(b, id, Delivered)
    ensures var c := Handled(b, id, reply, appendFails, maxRetry);
            && c.read == b.read && c.acked == b.acked + {id} && b.entries <= c.entries
            && At(c, id, Fate(b.entries[id].attempts, reply, appendFails, maxRetry))
            && forall j, s | At(b, j, s) && j != id :: At(c, j, s)
  {
  }

  /** The commands of one handled message. */
  function Handled<P>(b: Bus<P>, id: nat, reply: Reply, appendFails: bool, maxRetry: nat): Bus<P> {
    var b1 := Apply(b, if reply == NoHandler then Ignore(id) else Handle(id, reply == Success), maxRetry);
    Apply(Apply(b1, Settle(id, appendFails), maxRetry), Ack(id), maxRetry)
  }

  /** What one handled message changes: one more run, and a success recorded, a letter written, or
      the payload appended again with one more attempt; then the acknowledgement. */
  lemma HandledMeans<P>(b: Bus<P>, id: nat, reply: Reply, appendFails: bool, maxRetry: nat)
    requires Shape(b, maxRetry) && At(b, id, Delivered)
    ensures var c, e := Handled(b, id, reply, appendFails, maxRetry), b.entries[id];
            var stored, last := reply == Failure && !appendFails, e.attempts + 1 >= maxRetry;
            && c.acked == b.acked + {id} && c.read == b.read && c.published == b.published
            && c.runs == (if reply == NoHandler then b.runs else b.runs[e.lineage := b.runs[e.lineage] + 1])
            && c.successes == b.successes + (if reply == Success then [e.lineage] else [])
            && c.dlq == b.dlq + (if stored && last then [DeadLetter(e.payload, e.attempts + 1, id)] else [])
            && c.entries == b.entries + (if stored && !last then [Entry(e.lineage, e.payload, e.attempts + 1)] else [])
  {
  }

  lemma HandledUsesWork<P>(b: Bus<P>, id: nat, reply: Reply, appendFails: bool, maxRetry: nat)
    requires maxRetry > 0 && Shape(b, maxRetry) && At(b, id, Delivered)
    ensures var c := Handled(b, id, reply, appendFails, maxRetry);
            Shape(c, maxRetry) && id in c.acked && TotalWork(c, maxRetry) < TotalWork(b, maxRetry)
  {
    var step: Step<P> := if reply == NoHandler then Ignore(id) else Handle(id, reply == Success);
    StepUsesWork(b, step, maxRetry);
    var b1 := Apply(b, step, maxRetry);
    if reply == Failure {
      StepUsesWork(b1, Settle(id, appendFails), maxRetry);
    }
    var b2 := Apply(b1, Settle(id, appendFails), maxRetry);
    StepUsesWork(b2, Ack(id), maxRetry);
  }
}
