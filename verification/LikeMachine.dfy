/** Any number of like and unlike calls and flushes, interleaved command by command. */
module LikeMachine {
  import opened Collections
  import opened LikeKeys
  import opened LikeCounters
  import opened LikeEvents

  /** Where a call stands: about to hit the gate; past it and not yet counted; its counter command
      failed and its rollback is due; counted and not yet published; finished. */
  datatype Phase = Ready | Gated | Undo | Counted | Done

  datatype Call = Call(liking: bool, uid: int, vid: int, phase: Phase)

  /** `skew` accumulates what ineffective rollbacks leave behind and `dropped` what failed
      publishes do; both only record history. */
  datatype State = State(
    aggregated: bool,
    gate: set<(int, int)>,
    counters: Counters,
    deltas: Deltas,
    batches: seq<Deltas>,
    calls: seq<Call>,
    events: seq<LikeEvent>,
    skew: map<int, int>,
    dropped: map<int, int>)

  datatype Step =
    | Begin(liking: bool, uid: int, vid: int)
    | Gate(i: nat, fails: bool)
    | Count(i: nat, fails: bool)
    | Rollback(i: nat, fails: bool)
    | Emit(i: nat, fails: bool, now: int)
    | Swap
    | ExecOk(k: nat)
    | ExecErr(k: nat)

  function Init(aggregated: bool): State {
    State(aggregated, {}, map[], map[], [], [], [], map[], map[])
  }

  function Sign(c: Call): int { if c.liking then 1 else -1 }

  function Pair(c: Call): (int, int) { (c.uid, c.vid) }

  function EventOf(c: Call, now: int): LikeEvent {
    LikeEvent(c.uid, c.vid, if c.liking then Action.Like else Action.Unlike, now)
  }

  /** SADD by a like, SREM by an unlike. */
  function Mark(gate: set<(int, int)>, p: (int, int), present: bool): set<(int, int)> {
    if present then gate + {p} else gate - {p}
  }

  function Apply(s: State, step: Step): State {
    match step
    case Begin(liking, uid, vid) => s.(calls := s.calls + [Call(liking, uid, vid, Ready)])
    case Gate(i, fails) =>
      if i < |s.calls| && s.calls[i].phase == Ready then
        var c := s.calls[i];
        if fails || ((Pair(c) in s.gate) == c.liking) then s.(calls := s.calls[i := c.(phase := Done)])
        else s.(gate := Mark(s.gate, Pair(c), c.liking), calls := s.calls[i := c.(phase := Gated)])
      else s
    case Count(i, fails) =>
      if i < |s.calls| && s.calls[i].phase == Gated then
        var c := s.calls[i];
        if s.aggregated then s.(deltas := Bump(s.deltas, c.vid, Sign(c)), calls := s.calls[i := c.(phase := Counted)])
        else if fails then s.(calls := s.calls[i := c.(phase := Undo)])
        else s.(counters := Bump(s.counters, HomeKey(c.vid), Sign(c)), calls := s.calls[i := c.(phase := Counted)])
      else s
    case Rollback(i, fails) =>
      if i < |s.calls| && s.calls[i].phase == Undo then
        var c := s.calls[i];
        s.(gate := AfterRollback(s.gate, c, fails),
           calls := s.calls[i := c.(phase := Done)],
           skew := if Ineffective(s.gate, c, fails) then Bump(s.skew, c.vid, Sign(c)) else s.skew)
      else s
    case Emit(i, fails, now) =>
      if i < |s.calls| && s.calls[i].phase == Counted then
        var c := s.calls[i];
        s.(calls := s.calls[i := c.(phase := Done)],
           events := if fails then s.events else s.events + [EventOf(c, now)],
           dropped := if fails then Bump(s.dropped, c.vid, Sign(c)) else s.dropped)
      else s
    case Swap =>
      if s.deltas.Keys == {} then s else s.(deltas := map[], batches := s.batches + [s.deltas])
    case ExecOk(k) =>
      if k < |s.batches| then s.(counters := ApplyBatch(s.counters, s.batches[k]), batches := Without(s.batches, k))
      else s
    case ExecErr(k) =>
      if k < |s.batches| then s.(deltas := Merge(s.deltas, s.batches[k]), batches := Without(s.batches, k)) else s
  }

  function Without<T>(s: seq<T>, k: nat): seq<T>
    requires k < |s|
  {
    s[..k] + s[k + 1..]
  }

  function Run(s: State, steps: seq<Step>): State {
    if steps == [] then s else Apply(Run(s, steps[..|steps| - 1]), steps[|steps| - 1])
  }

  /** One call from start to end with nothing in between. */
  function Solo(s: State, liking: bool, uid: int, vid: int,
                gateFails: bool, countFails: bool, rollbackFails: bool, publishFails: bool, now: int): State {
    var i := |s.calls|;
    var s1 := Apply(Apply(s, Begin(liking, uid, vid)), Gate(i, gateFails));
    Apply(Apply(Apply(s1, Count(i, countFails)), Rollback(i, rollbackFails)), Emit(i, publishFails, now))
  }

  function SoloSteps(i: nat, liking: bool, uid: int, vid: int, gateFails: bool, countFails: bool,
                     rollbackFails: bool, publishFails: bool, now: int): seq<Step> {
    [Begin(liking, uid, vid), Gate(i, gateFails), Count(i, countFails), Rollback(i, rollbackFails),
     Emit(i, publishFails, now)]
  }

  lemma RunFive(s0: State, steps: seq<Step>, more: seq<Step>)
    requires |more| == 5
    ensures Run(s0, steps + more)
            == Apply(Apply(Apply(Apply(Apply(Run(s0, steps), more[0]), more[1]), more[2]), more[3]), more[4])
  {
    RunSnoc(s0, steps, more[0]);
    RunSnoc(s0, steps + [more[0]], more[1]);
    RunSnoc(s0, steps + [more[0]] + [more[1]], more[2]);
    RunSnoc(s0, steps + [more[0]] + [more[1]] + [more[2]], more[3]);
    RunSnoc(s0, steps + [more[0]] + [more[1]] + [more[2]] + [more[3]], more[4]);
    assert steps + [more[0]] + [more[1]] + [more[2]] + [more[3]] + [more[4]] == steps + more;
  }

  lemma SoloIsRun(s0: State, steps: seq<Step>, liking: bool, uid: int, vid: int, gateFails: bool, countFails: bool,
                  rollbackFails: bool, publishFails: bool, now: int)
    ensures var s := Run(s0, steps);
            var more := SoloSteps(|s.calls|, liking, uid, vid, gateFails, countFails, rollbackFails, publishFails, now);
            Run(s0, steps + more) == Solo(s, liking, uid, vid, gateFails, countFails, rollbackFails, publishFails, now)
  {
    RunFive(s0, steps, SoloSteps(|Run(s0, steps).calls|, liking, uid, vid, gateFails, countFails, rollbackFails,
                                 publishFails, now));
  }

  function WithCall(s: State, c: Call): State {
    s.(calls := s.calls + [c])
  }

  lemma LastCall(calls: seq<Call>, c: Call, d: Call)
    ensures (calls + [c])[|calls|] == c && (calls + [c])[|calls| := d] == calls + [d]
  {
  }

  lemma GateAlone(s: State, c: Call, fails: bool)
    requires c.phase == Ready
    ensures Apply(WithCall(s, c), Gate(|s.calls|, fails)) ==
              if fails || ((Pair(c) in s.gate) == c.liking) then WithCall(s, c.(phase := Done))
              else WithCall(s.(gate := Mark(s.gate, Pair(c), c.liking)), c.(phase := Gated))
  {
    LastCall(s.calls, c, c.(phase := Done));
    LastCall(s.calls, c, c.(phase := Gated));
  }

  lemma CountAlone(s: State, c: Call, fails: bool)
    ensures Apply(WithCall(s, c), Count(|s.calls|, fails)) ==
              if c.phase != Gated then WithCall(s, c)
              else if s.aggregated then WithCall(s.(deltas := Bump(s.deltas, c.vid, Sign(c))), c.(phase := Counted))
              else if fails then WithCall(s, c.(phase := Undo))
              else WithCall(s.(counters := Bump(s.counters, HomeKey(c.vid), Sign(c))), c.(phase := Counted))
  {
    LastCall(s.calls, c, c.(phase := Undo));
    LastCall(s.calls, c, c.(phase := Counted));
  }

  lemma RollbackAlone(s: State, c: Call, fails: bool)
    ensures Apply(WithCall(s, c), Rollback(|s.calls|, fails)) ==
              if c.phase != Undo then WithCall(s, c)
              else WithCall(s.(gate := AfterRollback(s.gate, c, fails),
                               skew := if Ineffective(s.gate, c, fails) then Bump(s.skew, c.vid, Sign(c)) else s.skew),
                            c.(phase := Done))
  {
    LastCall(s.calls, c, c.(phase := Done));
  }

  lemma EmitAlone(s: State, c: Call, fails: bool, now: int)
    ensures Apply(WithCall(s, c), Emit(|s.calls|, fails, now)) ==
              if c.phase != Counted then WithCall(s, c)
              else WithCall(s.(events := if fails then s.events else s.events + [EventOf(c, now)],
                               dropped := if fails then Bump(s.dropped, c.vid, Sign(c)) else s.dropped),
                            c.(phase := Done))
  {
    LastCall(s.calls, c, c.(phase := Done));
  }

  lemma SoloBlocked(s: State, liking: bool, uid: int, vid: int,
                    gateFails: bool, countFails: bool, rollbackFails: bool, publishFails: bool, now: int)
    requires gateFails || (((uid, vid) in s.gate) == liking)
    ensures Solo(s, liking, uid, vid, gateFails, countFails, rollbackFails, publishFails, now)
            == WithCall(s, Call(liking, uid, vid, Done))
  {
    var done := Call(liking, uid, vid, Done);
    GateAlone(s, Call(liking, uid, vid, Ready), gateFails);
    CountAlone(s, done, countFails);
    RollbackAlone(s, done, rollbackFails);
    EmitAlone(s, done, publishFails, now);
  }

  /** What such a call does to the shared state. */
  lemma SoloEffect(s: State, liking: bool, uid: int, vid: int,
                   gateFails: bool, countFails: bool, rollbackFails: bool, publishFails: bool, now: int)
    ensures var s' := Solo(s, liking, uid, vid, gateFails, countFails, rollbackFails, publishFails, now);
            var c := Call(liking, uid, vid, Done);
            var due := (Pair(c) in s.gate) != liking;
            var err := gateFails || (due && !s.aggregated && countFails);
            var changed := due && !err;
            && s'.gate == (if changed || (err && !gateFails && rollbackFails)
                           then Mark(s.gate, Pair(c), liking) else s.gate)
            && s'.counters == (if changed && !s.aggregated then Bump(s.counters, HomeKey(vid), Sign(c)) else s.counters)
            && s'.deltas == (if changed && s.aggregated then Bump(s.deltas, vid, Sign(c)) else s.deltas)
            && s'.events == (if changed && !publishFails then s.events + [EventOf(c, now)] else s.events)
            && s'.aggregated == s.aggregated && s'.batches == s.batches && s'.calls == s.calls + [c]
  {
    var c := Call(liking, uid, vid, Ready);
    if gateFails || (Pair(c) in s.gate) == liking {
      SoloBlocked(s, liking, uid, vid, gateFails, countFails, rollbackFails, publishFails, now);
    } else {
      GateAlone(s, c, gateFails);
      var t := s.(gate := Mark(s.gate, Pair(c), liking));
      SoloGated(s, t, c.(phase := Gated), countFails, rollbackFails, publishFails, now);
    }
  }

  /** The part of a call behind the gate. */
  lemma SoloGated(s: State, t: State, c: Call, countFails: bool, rollbackFails: bool, publishFails: bool, now: int)
    requires c.phase == Gated && (Pair(c) in s.gate) != c.liking && t == s.(gate := Mark(s.gate, Pair(c), c.liking))
    ensures var i := |s.calls|;
            var s' := Apply(Apply(Apply(WithCall(t, c), Count(i, countFails)), Rollback(i, rollbackFails)),
                            Emit(i, publishFails, now));
            var counted := s.aggregated || !countFails;
            && s'.gate == (if counted || rollbackFails then t.gate else s.gate)
            && s'.counters == (if counted && !s.aggregated
                               then Bump(s.counters, HomeKey(c.vid), Sign(c)) else s.counters)
            && s'.deltas == (if s.aggregated then Bump(s.deltas, c.vid, Sign(c)) else s.deltas)
            && s'.events == (if counted && !publishFails then s.events + [EventOf(c, now)] else s.events)
            && s'.aggregated == s.aggregated && s'.batches == s.batches && s'.calls == s.calls + [c.(phase := Done)]
  {
    CountAlone(t, c, countFails);
    if s.aggregated {
      var r := t.(deltas := Bump(t.deltas, c.vid, Sign(c)));
      RollbackAlone(r, c.(phase := Counted), rollbackFails);
      EmitAlone(r, c.(phase := Counted), publishFails, now);
    } else if countFails {
      RollbackAlone(t, c.(phase := Undo), rollbackFails);
      assert Mark(t.gate, Pair(c), !c.liking) == s.gate;
      var r := t.(gate := AfterRollback(t.gate, c, rollbackFails),
                  skew := if Ineffective(t.gate, c, rollbackFails) then Bump(t.skew, c.vid, Sign(c)) else t.skew);
      EmitAlone(r, c.(phase := Done), publishFails, now);
    } else {
      var r := t.(counters := Bump(t.counters, HomeKey(c.vid), Sign(c)));
      RollbackAlone(r, c.(phase := Counted), rollbackFails);
      EmitAlone(r, c.(phase := Counted), publishFails, now);
    }
  }

  // ---------------- conservation ----------------

  /** How many users' sets hold the video. */
  function Holders(gate: set<(int, int)>, v: int): nat {
    |HoldersOf(gate, v)|
  }

  function HoldersOf(gate: set<(int, int)>, v: int): set<(int, int)> {
    set p | p in gate && p.1 == v
  }

  function InFlight(batches: seq<Deltas>, v: int): int {
    if batches == [] then 0 else Get(batches[0], v) + InFlight(batches[1..], v)
  }

  /** Likes minus unlikes of v among the calls in the given phases. */
  function Waiting(calls: seq<Call>, v: int, phases: set<Phase>): int {
    if calls == [] then 0
    else Weight(calls[0], v, phases) + Waiting(calls[1..], v, phases)
  }

  function Weight(c: Call, v: int, phases: set<Phase>): int {
    if c.vid == v && c.phase in phases then Sign(c) else 0
  }

  lemma {:induction false} WaitingUpdate(calls: seq<Call>, i: nat, c: Call, v: int, phases: set<Phase>)
    requires i < |calls|
    ensures Waiting(calls[i := c], v, phases)
            == Waiting(calls, v, phases) - Weight(calls[i], v, phases) + Weight(c, v, phases)
  {
    if i == 0 {
      assert calls[i := c][1..] == calls[1..];
    } else {
      assert calls[i := c][1..] == calls[1..][i - 1 := c];
      WaitingUpdate(calls[1..], i - 1, c, v, phases);
    }
  }

  lemma {:induction false} WaitingAppend(calls: seq<Call>, c: Call, v: int, phases: set<Phase>)
    ensures Waiting(calls + [c], v, phases) == Waiting(calls, v, phases) + Weight(c, v, phases)
  {
    if calls != [] {
      assert (calls + [c])[1..] == calls[1..] + [c];
      WaitingAppend(calls[1..], c, v, phases);
    }
  }

  lemma {:induction false} InFlightAppend(batches: seq<Deltas>, b: Deltas, v: int)
    ensures InFlight(batches + [b], v) == InFlight(batches, v) + Get(b, v)
  {
    if batches != [] {
      assert (batches + [b])[1..] == batches[1..] + [b];
      InFlightAppend(batches[1..], b, v);
    }
  }

  lemma {:induction false} InFlightWithout(batches: seq<Deltas>, k: nat, v: int)
    requires k < |batches|
    ensures InFlight(Without(batches, k), v) == InFlight(batches, v) - Get(batches[k], v)
  {
    if k == 0 {
      assert Without(batches, k) == batches[1..];
    } else {
      assert Without(batches, k)[1..] == Without(batches[1..], k - 1);
      InFlightWithout(batches[1..], k - 1, v);
    }
  }

  lemma AddHolder(gate: set<(int, int)>, p: (int, int), v: int)
    requires p !in gate
    ensures Holders(gate + {p}, v) == Holders(gate, v) + (if p.1 == v then 1 else 0)
  {
    if p.1 == v {
      assert HoldersOf(gate + {p}, v) == HoldersOf(gate, v) + {p};
    } else {
      assert HoldersOf(gate + {p}, v) == HoldersOf(gate, v);
    }
  }

  lemma MarkHolders(gate: set<(int, int)>, p: (int, int), present: bool, v: int)
    requires (p in gate) != present
    ensures Holders(Mark(gate, p, present), v) == Holders(gate, v) + (if p.1 != v then 0 else if present then 1 else -1)
  {
    if present {
      AddHolder(gate, p, v);
    } else {
      AddHolder(gate - {p}, p, v);
      assert gate - {p} + {p} == gate;
    }
  }

  const UNCOUNTED: set<Phase> := {Gated, Undo}
  const UNPUBLISHED: set<Phase> := {Counted}

  /** What has been counted, wherever it is on its way to Redis. */
  function CountedTotal(s: State, v: int): int {
    Raw(s.counters, v) + Get(s.deltas, v) + InFlight(s.batches, v)
  }

  /** Every user holding v is accounted for: in Redis, pending, in flight, or in a call past the
      gate; ineffective rollbacks are the only leak. */
  predicate Conserved(s: State, v: int) {
    && Holders(s.gate, v) == CountedTotal(s, v) + Waiting(s.calls, v, UNCOUNTED) + Get(s.skew, v)
    && CountedTotal(s, v) == NetLikes(s.events, v) + Waiting(s.calls, v, UNPUBLISHED) + Get(s.dropped, v)
  }

  lemma BeginConserves(s: State, step: Step, v: int)
    requires Conserved(s, v) && step.Begin?
    ensures Conserved(Apply(s, step), v)
  {
    WaitingAppend(s.calls, Call(step.liking, step.uid, step.vid, Ready), v, UNCOUNTED);
    WaitingAppend(s.calls, Call(step.liking, step.uid, step.vid, Ready), v, UNPUBLISHED);
  }

  /** A call moving on shifts its weight between the gate and the two waiting groups. */
  lemma PhaseChange(calls: seq<Call>, i: nat, phase: Phase, v: int)
    requires i < |calls|
    ensures var c := calls[i];
            var calls' := calls[i := c.(phase := phase)];
            && Waiting(calls', v, UNCOUNTED) == Waiting(calls, v, UNCOUNTED)
                 + Shift(c, phase, v, UNCOUNTED)
            && Waiting(calls', v, UNPUBLISHED) == Waiting(calls, v, UNPUBLISHED)
                 + Shift(c, phase, v, UNPUBLISHED)
  {
    var c := calls[i];
    WaitingUpdate(calls, i, c.(phase := phase), v, UNCOUNTED);
    WaitingUpdate(calls, i, c.(phase := phase), v, UNPUBLISHED);
  }

  function Shift(c: Call, phase: Phase, v: int, phases: set<Phase>): int {
    if c.vid != v then 0
    else (if phase in phases then Sign(c) else 0) - (if c.phase in phases then Sign(c) else 0)
  }

  lemma GateConserves(s: State, i: nat, fails: bool, v: int)
    requires Conserved(s, v)
    ensures Conserved(Apply(s, Gate(i, fails)), v)
  {
    if i < |s.calls| && s.calls[i].phase == Ready {
      var c := s.calls[i];
      PhaseChange(s.calls, i, Done, v);
      PhaseChange(s.calls, i, Gated, v);
      if (Pair(c) in s.gate) != c.liking {
        MarkHolders(s.gate, Pair(c), c.liking, v);
      }
    }
  }

  /** Counting moves a call's weight into the aggregator or the counter, unless the command fails. */
  lemma CountTotal(s: State, i: nat, fails: bool, v: int)
    requires i < |s.calls| && s.calls[i].phase == Gated
    ensures var c := s.calls[i];
            CountedTotal(Apply(s, Count(i, fails)), v)
            == CountedTotal(s, v) + if c.vid == v && (s.aggregated || !fails) then Sign(c) else 0
  {
  }

  lemma CountConserves(s: State, i: nat, fails: bool, v: int)
    requires Conserved(s, v)
    ensures Conserved(Apply(s, Count(i, fails)), v)
  {
    if i < |s.calls| && s.calls[i].phase == Gated {
      PhaseChange(s.calls, i, if s.aggregated || !fails then Counted else Undo, v);
      CountTotal(s, i, fails, v);
    }
  }

  lemma RollbackConserves(s: State, i: nat, fails: bool, v: int)
    requires Conserved(s, v)
    ensures Conserved(Apply(s, Rollback(i, fails)), v)
  {
    if i < |s.calls| && s.calls[i].phase == Undo {
      var c := s.calls[i];
      PhaseChange(s.calls, i, Done, v);
      RollbackGate(s.gate, c, fails, v);
    }
  }

  function AfterRollback(gate: set<(int, int)>, c: Call, fails: bool): set<(int, int)> {
    if fails then gate else Mark(gate, Pair(c), !c.liking)
  }

  predicate Ineffective(gate: set<(int, int)>, c: Call, fails: bool) {
    fails || (Pair(c) in gate) != c.liking
  }

  lemma RollbackGate(gate: set<(int, int)>, c: Call, fails: bool, v: int)
    ensures Holders(AfterRollback(gate, c, fails), v) == Holders(gate, v)
              - (if Ineffective(gate, c, fails) || c.vid != v then 0 else Sign(c))
  {
    if !Ineffective(gate, c, fails) {
      MarkHolders(gate, Pair(c), !c.liking, v);
    } else if !fails {
      assert Mark(gate, Pair(c), !c.liking) == gate;
    }
  }

  lemma EmitConserves(s: State, i: nat, fails: bool, now: int, v: int)
    requires Conserved(s, v)
    ensures Conserved(Apply(s, Emit(i, fails, now)), v)
  {
    if i < |s.calls| && s.calls[i].phase == Counted {
      var c := s.calls[i];
      PhaseChange(s.calls, i, Done, v);
      NetLikesAppend(s.events, EventOf(c, now), v);
    }
  }

  lemma SwapConserves(s: State, v: int)
    requires Conserved(s, v)
    ensures Conserved(Apply(s, Swap), v)
  {
    InFlightAppend(s.batches, s.deltas, v);
  }

  lemma ExecOkConserves(s: State, k: nat, v: int)
    requires Conserved(s, v)
    ensures Conserved(Apply(s, ExecOk(k)), v)
  {
    if k < |s.batches| {
      InFlightWithout(s.batches, k, v);
      ApplyBatchAt(s.counters, s.batches[k], HomeKey(v));
    }
  }

  /** A failed flush puts its batch back into whatever has accumulated meanwhile. */
  lemma ExecErrConserves(s: State, k: nat, v: int)
    requires Conserved(s, v)
    ensures Conserved(Apply(s, ExecErr(k)), v)
  {
    if k < |s.batches| {
      InFlightWithout(s.batches, k, v);
    }
  }

  lemma {:induction false} RunConserves(aggregated: bool, steps: seq<Step>, v: int)
    ensures Conserved(Run(Init(aggregated), steps), v)
    decreases |steps|
  {
    if steps == [] {
      assert (set p | p in Init(aggregated).gate && p.1 == v) == {};
    } else {
      var init, step := steps[..|steps| - 1], steps[|steps| - 1];
      RunConserves(aggregated, init, v);
      var s := Run(Init(aggregated), init);
      match step {
        case Begin(_, _, _) => BeginConserves(s, step, v);
        case Gate(i, fails) => GateConserves(s, i, fails, v);
        case Count(i, fails) => CountConserves(s, i, fails, v);
        case Rollback(i, fails) => RollbackConserves(s, i, fails, v);
        case Emit(i, fails, now) => EmitConserves(s, i, fails, now, v);
        case Swap => SwapConserves(s, v);
        case ExecOk(k) => ExecOkConserves(s, k, v);
        case ExecErr(k) => ExecErrConserves(s, k, v);
      }
    }
  }

  // ---------------- once everything has drained ----------------

  predicate Drained(s: State) {
    s.batches == [] && s.deltas.Keys == {} && forall i | 0 <= i < |s.calls| :: s.calls[i].phase == Done
  }

  /** None of v's calls is in one of the phases. */
  predicate Quiet(calls: seq<Call>, v: int, phases: set<Phase>) {
    forall i | 0 <= i < |calls| && calls[i].vid == v :: calls[i].phase !in phases
  }

  lemma {:induction false} NoneWaiting(calls: seq<Call>, v: int, phases: set<Phase>)
    requires Quiet(calls, v, phases)
    ensures Waiting(calls, v, phases) == 0
  {
    if calls != [] {
      NoneWaiting(calls[1..], v, phases);
    }
  }

  lemma StepHomeOnly(s: State, step: Step)
    requires HomeOnly(s.counters)
    ensures HomeOnly(Apply(s, step).counters)
  {
    match step {
      case Count(_, _) =>
      case ExecOk(_) =>
      case _ =>
        assert Apply(s, step).counters == s.counters;
    }
  }

  lemma {:induction false} RunHomeOnly(aggregated: bool, steps: seq<Step>)
    ensures HomeOnly(Run(Init(aggregated), steps).counters)
    decreases |steps|
  {
    if steps != [] {
      RunHomeOnly(aggregated, steps[..|steps| - 1]);
      StepHomeOnly(Run(Init(aggregated), steps[..|steps| - 1]), steps[|steps| - 1]);
    }
  }

  /** When nothing is under way, the shard sum is the number of users holding the video exactly
      when no rollback of the video's calls went astray on balance. */
  lemma DrainedCount(aggregated: bool, steps: seq<Step>, v: int)
    requires Drained(Run(Init(aggregated), steps)) && v >= 0
    ensures var s := Run(Init(aggregated), steps);
            && (ShardSum(s.counters, v, COUNTER_SHARDS) == Holders(s.gate, v) <==> Get(s.skew, v) == 0)
            && (Get(s.skew, v) == 0 ==> ClampedCount(s.counters, v) == Holders(s.gate, v))
            && Raw(s.counters, v) == NetLikes(s.events, v) + Get(s.dropped, v)
  {
    var s := Run(Init(aggregated), steps);
    RunConserves(aggregated, steps, v);
    RunHomeOnly(aggregated, steps);
    CountIsHomeCounter(s.counters, v);
    NoneWaiting(s.calls, v, UNCOUNTED);
    NoneWaiting(s.calls, v, UNPUBLISHED);
  }

  // ---------------- aggregator mode: no discipline needed ----------------

  predicate NothingToUndo(s: State) {
    s.aggregated && s.skew == map[] && forall i | 0 <= i < |s.calls| :: s.calls[i].phase != Undo
  }

  lemma StepNeverRollsBack(s: State, step: Step)
    requires NothingToUndo(s)
    ensures NothingToUndo(Apply(s, step))
  {
    match step {
      case Begin(_, _, _) =>
      case Gate(_, _) =>
      case Count(_, _) =>
      case Rollback(_, _) =>
      case Emit(_, _, _) =>
      case _ =>
        assert Apply(s, step).calls == s.calls;
    }
  }

  lemma {:induction false} AggregatorNeverRollsBack(steps: seq<Step>)
    ensures NothingToUndo(Run(Init(true), steps))
    decreases |steps|
  {
    if steps != [] {
      AggregatorNeverRollsBack(steps[..|steps| - 1]);
      StepNeverRollsBack(Run(Init(true), steps[..|steps| - 1]), steps[|steps| - 1]);
    }
  }

  /** With the aggregator, whatever the interleaving and however many flushes fail, the count is
      exact once everything has drained, and the clamp does nothing. */
  lemma AggregatorCountsExactly(steps: seq<Step>, v: int)
    requires Drained(Run(Init(true), steps)) && v >= 0
    ensures var s := Run(Init(true), steps);
            ShardSum(s.counters, v, COUNTER_SHARDS) == Holders(s.gate, v) == ClampedCount(s.counters, v)
  {
    AggregatorNeverRollsBack(steps);
    DrainedCount(true, steps, v);
  }

  // ---------------- direct mode: calls on one pair must not overlap ----------------

  predicate Active(c: Call) { c.phase != Done }

  /** No call begins while another on the same (user, video) is under way, and rollback commands get through. */
  predicate Disciplined(steps: seq<Step>) {
    steps == [] ||
    var init, step := steps[..|steps| - 1], steps[|steps| - 1];
    && Disciplined(init)
    && (step.Begin? ==> forall c | c in Run(Init(false), init).calls && Active(c) :: Pair(c) != (step.uid, step.vid))
    && (step.Rollback? ==> !step.fails)
  }

  /** No two active calls share a pair, and a call past the gate still finds there what it wrote. */
  predicate Marks(calls: seq<Call>, gate: set<(int, int)>) {
    && (forall i, j | 0 <= i < j < |calls| && Active(calls[i]) && Active(calls[j]) :: Pair(calls[i]) != Pair(calls[j]))
    && (forall i | 0 <= i < |calls| && calls[i].phase in UNCOUNTED :: (Pair(calls[i]) in gate) == calls[i].liking)
  }

  predicate OwnMarks(s: State) {
    !s.aggregated && s.skew == map[] && s.deltas == map[] && s.batches == [] && Marks(s.calls, s.gate)
  }

  lemma MarksMove(calls: seq<Call>, gate: set<(int, int)>, i: nat, phase: Phase, gate': set<(int, int)>)
    requires Marks(calls, gate) && i < |calls| && Active(calls[i])
    requires forall p | p != Pair(calls[i]) :: p in gate' <==> p in gate
    requires phase in UNCOUNTED ==> (Pair(calls[i]) in gate') == calls[i].liking
    ensures Marks(calls[i := calls[i].(phase := phase)], gate')
  {
  }

  lemma BeginKeepsMarks(s: State, c: Call)
    requires OwnMarks(s) && c.phase == Ready
    requires forall k | k in s.calls && Active(k) :: Pair(k) != Pair(c)
    ensures Marks(s.calls + [c], s.gate)
  {
    assert forall i | 0 <= i < |s.calls| :: s.calls[i] in s.calls;
  }

  lemma RollbackKeepsMarks(s: State, i: nat)
    requires OwnMarks(s)
    ensures OwnMarks(Apply(s, Rollback(i, false)))
  {
    var s' := Apply(s, Rollback(i, false));
    if i < |s.calls| && s.calls[i].phase == Undo {
      MarksMove(s.calls, s.gate, i, Done, s'.gate);
    }
  }

  lemma GateKeepsMarks(s: State, i: nat, fails: bool)
    requires OwnMarks(s)
    ensures OwnMarks(Apply(s, Gate(i, fails)))
  {
    var s' := Apply(s, Gate(i, fails));
    if i < |s.calls| && s.calls[i].phase == Ready {
      MarksMove(s.calls, s.gate, i, s'.calls[i].phase, s'.gate);
    }
  }

  lemma CountOrEmitKeepsMarks(s: State, step: Step)
    requires OwnMarks(s) && (step.Count? || step.Emit?)
    ensures OwnMarks(Apply(s, step))
  {
    var s' := Apply(s, step);
    if s' != s {
      MarksMove(s.calls, s.gate, step.i, s'.calls[step.i].phase, s'.gate);
    }
  }

  lemma StepKeepsMarks(s: State, step: Step)
    requires OwnMarks(s)
    requires step.Begin? ==> forall c | c in s.calls && Active(c) :: Pair(c) != (step.uid, step.vid)
    requires step.Rollback? ==> !step.fails
    ensures OwnMarks(Apply(s, step))
  {
    match step {
      case Begin(liking, uid, vid) => BeginKeepsMarks(s, Call(liking, uid, vid, Ready));
      case Gate(i, fails) => GateKeepsMarks(s, i, fails);
      case Rollback(i, _) => RollbackKeepsMarks(s, i);
      case Count(_, _) => CountOrEmitKeepsMarks(s, step);
      case Emit(_, _, _) => CountOrEmitKeepsMarks(s, step);
      case _ =>
    }
  }

  lemma {:induction false} DisciplineKeepsMarks(steps: seq<Step>)
    requires Disciplined(steps)
    ensures OwnMarks(Run(Init(false), steps))
    decreases |steps|
  {
    if steps != [] {
      var init, step := steps[..|steps| - 1], steps[|steps| - 1];
      DisciplineKeepsMarks(init);
      StepKeepsMarks(Run(Init(false), init), step);
    }
  }

  /** A failing call's rollback puts the gate back to what the call found there and touches no
      other pair and no counter. */
  lemma RollbackRestores(steps: seq<Step>, i: nat)
    requires Disciplined(steps) && i < |Run(Init(false), steps).calls| && Run(Init(false), steps).calls[i].phase == Undo
    ensures var s := Run(Init(false), steps);
            var s', c := Apply(s, Rollback(i, false)), s.calls[i];
            && (Pair(c) in s.gate) == c.liking && (Pair(c) in s'.gate) == !c.liking
            && (forall p | p != Pair(c) :: p in s'.gate <==> p in s.gate)
            && s'.counters == s.counters && s'.skew == s.skew == map[]
  {
    DisciplineKeepsMarks(steps);
  }

  /** Without overlap, direct mode counts exactly whenever no call of the video is between its
      gate and its counter, whatever goes on for other videos. */
  lemma DirectCountsExactly(steps: seq<Step>, v: int)
    requires Disciplined(steps) && Quiet(Run(Init(false), steps).calls, v, UNCOUNTED) && v >= 0
    ensures var s := Run(Init(false), steps);
            ShardSum(s.counters, v, COUNTER_SHARDS) == Holders(s.gate, v) == ClampedCount(s.counters, v)
  {
    var s := Run(Init(false), steps);
    DisciplineKeepsMarks(steps);
    RunConserves(false, steps, v);
    RunHomeOnly(false, steps);
    CountIsHomeCounter(s.counters, v);
    NoneWaiting(s.calls, v, UNCOUNTED);
  }

  lemma RunSnoc(s: State, steps: seq<Step>, step: Step)
    ensures Run(s, steps + [step]) == Apply(Run(s, steps), step)
  {
    assert (steps + [step])[..|steps|] == steps;
  }

  lemma StepMode(s: State, step: Step)
    ensures Apply(s, step).aggregated == s.aggregated
  {
  }

  lemma {:induction false} RunMode(aggregated: bool, steps: seq<Step>)
    ensures Run(Init(aggregated), steps).aggregated == aggregated
  {
    if steps != [] {
      RunMode(aggregated, steps[..|steps| - 1]);
      StepMode(Run(Init(aggregated), steps[..|steps| - 1]), steps[|steps| - 1]);
    }
  }

  // ---------------- and overlapping calls do miscount ----------------

  /** Two opposite calls on one pair, the nth and the next: the second slips in between the first
      one's gate and its rollback. */
  function OverlapSteps(n: nat, liking: bool, uid: int, vid: int): seq<Step> {
    [Begin(liking, uid, vid), Begin(!liking, uid, vid), Gate(n, false), Gate(n + 1, false),
     Count(n, true), Count(n + 1, false), Rollback(n, false), Emit(n + 1, false, 0)]
  }

  function Opposite(c: Call): Call { c.(liking := !c.liking) }

  /** The two calls after k of the steps. */
  function OverlapCalls(c: Call, k: nat): seq<Call> {
    var first := c.(phase := if k < 3 then Ready else if k < 5 then Gated else if k < 7 then Undo else Done);
    var second := Opposite(c).(phase := if k < 4 then Ready else if k < 6 then Gated
                                        else if k < 8 then Counted else Done);
    if k == 0 then [] else if k == 1 then [first] else [first, second]
  }

  /** The state after k of the steps. */
  function OverlapState(s: State, c: Call, k: nat): State {
    s.(gate := if k == 3 then Mark(s.gate, Pair(c), c.liking) else s.gate,
       counters := if k < 6 then s.counters else Bump(s.counters, HomeKey(c.vid), -Sign(c)),
       calls := s.calls + OverlapCalls(c, k),
       skew := if k < 7 then s.skew else Bump(s.skew, c.vid, Sign(c)),
       events := if k < 8 then s.events else s.events + [EventOf(Opposite(c), 0)])
  }

  lemma LastTwo(calls: seq<Call>, c: Call, d: Call, e: Call)
    ensures (calls + [c, d])[|calls|] == c && (calls + [c, d])[|calls| + 1] == d
    ensures (calls + [c, d])[|calls| := e] == calls + [e, d]
    ensures (calls + [c, d])[|calls| + 1 := e] == calls + [c, e]
  {
  }

  predicate CanOverlap(s: State, c: Call) {
    !s.aggregated && c.phase == Ready && (Pair(c) in s.gate) != c.liking
  }

  lemma OverlapBegins(s: State, c: Call, k: nat)
    requires CanOverlap(s, c) && k < 2
    ensures Apply(OverlapState(s, c, k), OverlapSteps(|s.calls|, c.liking, c.uid, c.vid)[k])
            == OverlapState(s, c, k + 1)
  {
    assert s.calls + OverlapCalls(c, 0) == s.calls;
    assert s.calls + [c] + [Opposite(c)] == s.calls + [c, Opposite(c)];
  }

  /** Both calls pass the gate, and leave it as it was. */
  lemma OverlapGates(s: State, c: Call, k: nat)
    requires CanOverlap(s, c) && 2 <= k < 4
    ensures Apply(OverlapState(s, c, k), OverlapSteps(|s.calls|, c.liking, c.uid, c.vid)[k])
            == OverlapState(s, c, k + 1)
  {
    var g, d := c.(phase := Gated), Opposite(c);
    LastTwo(s.calls, c, d, g);
    LastTwo(s.calls, g, d, d.(phase := Gated));
    assert Mark(Mark(s.gate, Pair(c), c.liking), Pair(c), !c.liking) == s.gate;
  }

  lemma OverlapCounts(s: State, c: Call, k: nat)
    requires CanOverlap(s, c) && 4 <= k < 6
    ensures Apply(OverlapState(s, c, k), OverlapSteps(|s.calls|, c.liking, c.uid, c.vid)[k])
            == OverlapState(s, c, k + 1)
  {
    var g, d := c.(phase := Gated), Opposite(c).(phase := Gated);
    LastTwo(s.calls, g, d, c.(phase := Undo));
    LastTwo(s.calls, c.(phase := Undo), d, d.(phase := Counted));
  }

  /** The rollback finds nothing of its own to take back. */
  lemma OverlapEnds(s: State, c: Call, k: nat)
    requires CanOverlap(s, c) && 6 <= k < 8
    ensures Apply(OverlapState(s, c, k), OverlapSteps(|s.calls|, c.liking, c.uid, c.vid)[k])
            == OverlapState(s, c, k + 1)
  {
    var u, d := c.(phase := Undo), Opposite(c).(phase := Counted);
    LastTwo(s.calls, u, d, c.(phase := Done));
    LastTwo(s.calls, c.(phase := Done), d, d.(phase := Done));
    assert Mark(s.gate, Pair(c), !c.liking) == s.gate;
  }

  lemma {:induction false} OverlapRun(s0: State, steps: seq<Step>, c: Call, k: nat)
    requires k <= 8 && CanOverlap(Run(s0, steps), c)
    ensures var s := Run(s0, steps);
            Run(s0, steps + OverlapSteps(|s.calls|, c.liking, c.uid, c.vid)[..k]) == OverlapState(s, c, k)
  {
    var s := Run(s0, steps);
    var more := OverlapSteps(|s.calls|, c.liking, c.uid, c.vid);
    if k == 0 {
      assert steps + more[..0] == steps && s.calls + OverlapCalls(c, 0) == s.calls;
    } else {
      OverlapRun(s0, steps, c, k - 1);
      RunSnoc(s0, steps + more[..k - 1], more[k - 1]);
      assert steps + more[..k] == steps + more[..k - 1] + [more[k - 1]];
      if k <= 2 {
        OverlapBegins(s, c, k - 1);
      } else if k <= 4 {
        OverlapGates(s, c, k - 1);
      } else if k <= 6 {
        OverlapCounts(s, c, k - 1);
      } else {
        OverlapEnds(s, c, k - 1);
      }
    }
  }

  /** From every drained direct-mode state whose count is right, and for every pair, overlapping
      calls drain to a wrong count: gate and holders are as before, the shard sum is off by one. */
  lemma OverlapMiscounts(steps: seq<Step>, u: int, v: int)
    requires Drained(Run(Init(false), steps)) && v >= 0
    requires var s := Run(Init(false), steps); ShardSum(s.counters, v, COUNTER_SHARDS) == Holders(s.gate, v)
    ensures var s := Run(Init(false), steps);
            var liking := (u, v) !in s.gate;
            var s' := Run(Init(false), steps + OverlapSteps(|s.calls|, liking, u, v));
            && Drained(s') && s'.gate == s.gate
            && ShardSum(s'.counters, v, COUNTER_SHARDS) == Holders(s'.gate, v) - (if liking then 1 else -1)
  {
    var s := Run(Init(false), steps);
    var c := Call((u, v) !in s.gate, u, v, Ready);
    var more := OverlapSteps(|s.calls|, c.liking, u, v);
    RunMode(false, steps);
    OverlapRun(Init(false), steps, c, 8);
    assert more[..8] == more;
    RunHomeOnly(false, steps);
    RunHomeOnly(false, steps + more);
    CountIsHomeCounter(s.counters, v);
    CountIsHomeCounter(OverlapState(s, c, 8).counters, v);
    OverlapDrains(s, c);
  }

  lemma OverlapDrains(s: State, c: Call)
    requires Drained(s)
    ensures Drained(OverlapState(s, c, 8))
  {
  }
}
