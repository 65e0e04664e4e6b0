/** One (user, video) pair in the like pipeline: its gate and its events. */
module LikePairs {
  import opened LikeEvents
  import opened LikeMachine

  const PAST_GATE: set<Phase> := {Gated, Undo, Counted}

  predicate Speaks(e: LikeEvent, p: (int, int)) {
    (e.userID, e.videoID) == p && e.action != Action.Other
  }

  /** Whether the last event of the pair is a like. */
  function LastLiked(es: seq<LikeEvent>, p: (int, int)): bool {
    if es == [] then false
    else
      var e := es[|es| - 1];
      if Speaks(e, p) then e.action == Action.Like else LastLiked(es[..|es| - 1], p)
  }

  lemma LastLikedAppend(es: seq<LikeEvent>, e: LikeEvent, p: (int, int))
    ensures LastLiked(es + [e], p) == if Speaks(e, p) then e.action == Action.Like else LastLiked(es, p)
  {
    assert (es + [e])[..|es|] == es;
  }

  /** The step leaves the pair's calls alone: no second call begins while one is under way, its
      rollbacks get through and its events are published. */
  predicate Careful(s: State, step: Step, p: (int, int)) {
    match step
    case Begin(_, uid, vid) => (uid, vid) == p ==> !InProgress(s.calls, p)
    case Rollback(i, fails) => i < |s.calls| && Pair(s.calls[i]) == p ==> !fails
    case Emit(i, fails, _) => i < |s.calls| && Pair(s.calls[i]) == p ==> !fails
    case _ => true
  }

  predicate InProgress(calls: seq<Call>, p: (int, int)) {
    exists i :: 0 <= i < |calls| && Pair(calls[i]) == p && Active(calls[i])
  }

  predicate CarefulRun(aggregated: bool, steps: seq<Step>, p: (int, int)) {
    steps != [] ==>
      && CarefulRun(aggregated, steps[..|steps| - 1], p)
      && Careful(Run(Init(aggregated), steps[..|steps| - 1]), steps[|steps| - 1], p)
  }

  /** A call of the pair is past its gate and not finished. */
  predicate Busy(calls: seq<Call>, p: (int, int)) {
    exists i :: 0 <= i < |calls| && Pair(calls[i]) == p && calls[i].phase in PAST_GATE
  }

  /** Of the pair's calls at most one is under way. */
  predicate Alone(calls: seq<Call>, p: (int, int)) {
    forall i, j | 0 <= i < j < |calls| && Pair(calls[i]) == p && Active(calls[i]) && Active(calls[j]) ::
      Pair(calls[j]) != p
  }

  /** A call past the gate has changed it and not yet been heard of; otherwise the gate holds the
      pair exactly when its last event is a like. */
  predicate PairKept(s: State, p: (int, int)) {
    && Alone(s.calls, p)
    && (forall i | 0 <= i < |s.calls| && Pair(s.calls[i]) == p && s.calls[i].phase in PAST_GATE ::
          (p in s.gate) == s.calls[i].liking != LastLiked(s.events, p))
    && (!Busy(s.calls, p) ==> (p in s.gate) == LastLiked(s.events, p))
  }

  /** A call of the pair moves on: no other one is past the gate. */
  lemma OwnMove(calls: seq<Call>, i: nat, phase: Phase, p: (int, int))
    requires Alone(calls, p) && i < |calls| && Active(calls[i]) && Pair(calls[i]) == p
    ensures var calls' := calls[i := calls[i].(phase := phase)];
            && Alone(calls', p)
            && (forall j | 0 <= j < |calls| && j != i && Pair(calls[j]) == p :: calls[j].phase !in PAST_GATE)
            && (Busy(calls', p) <==> phase in PAST_GATE)
  {
    var calls' := calls[i := calls[i].(phase := phase)];
    assert Pair(calls'[i]) == p && calls'[i].phase == phase;
    forall j | 0 <= j < |calls| && j != i && Pair(calls[j]) == p
      ensures calls[j].phase !in PAST_GATE && calls'[j] == calls[j]
    {
      assert !Active(calls[j]);
    }
  }

  /** A call of another pair moves on. */
  lemma OtherMove(calls: seq<Call>, i: nat, phase: Phase, p: (int, int))
    requires Alone(calls, p) && i < |calls| && Active(calls[i]) && Pair(calls[i]) != p
    ensures var calls' := calls[i := calls[i].(phase := phase)];
            && Alone(calls', p)
            && (forall j | 0 <= j < |calls| && Pair(calls'[j]) == p :: calls'[j] == calls[j])
            && (Busy(calls', p) <==> Busy(calls, p))
  {
    var calls' := calls[i := calls[i].(phase := phase)];
    assert forall j | 0 <= j < |calls| && j != i :: calls'[j] == calls[j];
    if j :| 0 <= j < |calls| && Pair(calls[j]) == p && calls[j].phase in PAST_GATE {
      assert calls'[j] == calls[j];
    }
  }

  lemma OthersKeepPair(s: State, s': State, i: nat, phase: Phase, p: (int, int))
    requires PairKept(s, p) && i < |s.calls| && Active(s.calls[i]) && Pair(s.calls[i]) != p
    requires s'.calls == s.calls[i := s.calls[i].(phase := phase)]
    requires (p in s'.gate <==> p in s.gate) && LastLiked(s'.events, p) == LastLiked(s.events, p)
    ensures PairKept(s', p)
  {
    OtherMove(s.calls, i, phase, p);
  }

  /** The pair's own call has moved to a phase that fits gate and events. */
  lemma OwnKeepsPair(s: State, s': State, i: nat, phase: Phase, p: (int, int))
    requires PairKept(s, p) && i < |s.calls| && Active(s.calls[i]) && Pair(s.calls[i]) == p
    requires s'.calls == s.calls[i := s.calls[i].(phase := phase)]
    requires phase in PAST_GATE ==> (p in s'.gate) == s.calls[i].liking != LastLiked(s'.events, p)
    requires phase !in PAST_GATE ==> (p in s'.gate) == LastLiked(s'.events, p)
    ensures PairKept(s', p)
  {
    OwnMove(s.calls, i, phase, p);
  }

  lemma NotBusy(s: State, i: nat, p: (int, int))
    requires Alone(s.calls, p) && i < |s.calls| && s.calls[i].phase == Ready && Pair(s.calls[i]) == p
    ensures !Busy(s.calls, p)
  {
    OwnMove(s.calls, i, Ready, p);
    assert s.calls[i := s.calls[i].(phase := Ready)] == s.calls;
  }

  lemma BeginKeepsPair(s: State, step: Step, p: (int, int))
    requires PairKept(s, p) && step.Begin? && Careful(s, step, p)
    ensures PairKept(Apply(s, step), p)
  {
    var s' := Apply(s, step);
    assert forall i | 0 <= i < |s.calls| :: s'.calls[i] == s.calls[i];
    if i :| 0 <= i < |s.calls| && Pair(s.calls[i]) == p && s.calls[i].phase in PAST_GATE {
      assert s'.calls[i] == s.calls[i];
    }
  }

  lemma GateKeepsOwn(s: State, i: nat, fails: bool, p: (int, int))
    requires PairKept(s, p) && i < |s.calls| && s.calls[i].phase == Ready && Pair(s.calls[i]) == p
    ensures PairKept(Apply(s, Gate(i, fails)), p)
  {
    var s' := Apply(s, Gate(i, fails));
    NotBusy(s, i, p);
    OwnKeepsPair(s, s', i, s'.calls[i].phase, p);
  }

  lemma GateKeepsPair(s: State, i: nat, fails: bool, p: (int, int))
    requires PairKept(s, p)
    ensures PairKept(Apply(s, Gate(i, fails)), p)
  {
    if i < |s.calls| && s.calls[i].phase == Ready {
      if Pair(s.calls[i]) == p {
        GateKeepsOwn(s, i, fails, p);
      } else {
        var s' := Apply(s, Gate(i, fails));
        OthersKeepPair(s, s', i, s'.calls[i].phase, p);
      }
    }
  }

  lemma CountKeepsPair(s: State, i: nat, fails: bool, p: (int, int))
    requires PairKept(s, p)
    ensures PairKept(Apply(s, Count(i, fails)), p)
  {
    var s' := Apply(s, Count(i, fails));
    if i < |s.calls| && s.calls[i].phase == Gated {
      if Pair(s.calls[i]) == p {
        OwnKeepsPair(s, s', i, s'.calls[i].phase, p);
      } else {
        OthersKeepPair(s, s', i, s'.calls[i].phase, p);
      }
    }
  }

  lemma RollbackKeepsPair(s: State, i: nat, fails: bool, p: (int, int))
    requires PairKept(s, p) && Careful(s, Rollback(i, fails), p)
    ensures PairKept(Apply(s, Rollback(i, fails)), p)
  {
    var s' := Apply(s, Rollback(i, fails));
    if i < |s.calls| && s.calls[i].phase == Undo {
      if Pair(s.calls[i]) == p {
        OwnKeepsPair(s, s', i, s'.calls[i].phase, p);
      } else {
        OthersKeepPair(s, s', i, s'.calls[i].phase, p);
      }
    }
  }

  lemma EmitKeepsPair(s: State, i: nat, fails: bool, now: int, p: (int, int))
    requires PairKept(s, p) && Careful(s, Emit(i, fails, now), p)
    ensures PairKept(Apply(s, Emit(i, fails, now)), p)
  {
    var s' := Apply(s, Emit(i, fails, now));
    if i < |s.calls| && s.calls[i].phase == Counted {
      LastLikedAppend(s.events, EventOf(s.calls[i], now), p);
      if Pair(s.calls[i]) == p {
        OwnKeepsPair(s, s', i, s'.calls[i].phase, p);
      } else {
        OthersKeepPair(s, s', i, s'.calls[i].phase, p);
      }
    }
  }

  /** In either mode, in every run that is careful about the pair, whatever goes on elsewhere: when
      none of its calls is past its gate, the gate holds the pair exactly when its last event is a
      like. */
  lemma {:induction false} GateFollowsEvents(aggregated: bool, steps: seq<Step>, p: (int, int))
    requires CarefulRun(aggregated, steps, p)
    ensures PairKept(Run(Init(aggregated), steps), p)
    decreases |steps|
  {
    if steps != [] {
      var s, step := Run(Init(aggregated), steps[..|steps| - 1]), steps[|steps| - 1];
      GateFollowsEvents(aggregated, steps[..|steps| - 1], p);
      match step {
        case Begin(_, _, _) => BeginKeepsPair(s, step, p);
        case Gate(i, fails) => GateKeepsPair(s, i, fails, p);
        case Count(i, fails) => CountKeepsPair(s, i, fails, p);
        case Rollback(i, fails) => RollbackKeepsPair(s, i, fails, p);
        case Emit(i, fails, now) => EmitKeepsPair(s, i, fails, now, p);
        case _ => OtherStepsKeepPair(s, step, p);
      }
    }
  }

  lemma OtherStepsKeepPair(s: State, step: Step, p: (int, int))
    requires PairKept(s, p) && (step.Swap? || step.ExecOk? || step.ExecErr?)
    ensures PairKept(Apply(s, step), p)
  {
    var s' := Apply(s, step);
    assert s'.calls == s.calls && s'.gate == s.gate && s'.events == s.events;
  }

  lemma FirstLike(u: int, v: int, now: int) returns (steps: seq<Step>)
    ensures var s := Run(Init(true), steps);
            && s.gate == {(u, v)} && s.calls == [Call(true, u, v, Done)] && s.aggregated
            && s.events == [LikeEvent(u, v, Action.Like, now)]
  {
    steps := SoloSteps(0, true, u, v, false, false, false, false, now);
    SoloIsRun(Init(true), [], true, u, v, false, false, false, false, now);
    assert [] + steps == steps;
    SoloEffect(Init(true), true, u, v, false, false, false, false, now);
  }

  /** One call after the other, nothing failing. */
  lemma LikeThenUnlike(u: int, v: int, t1: int, t2: int) returns (steps: seq<Step>)
    ensures var s := Run(Init(true), steps);
            && (u, v) !in s.gate && !InProgress(s.calls, (u, v))
            && s.events == [LikeEvent(u, v, Action.Like, t1), LikeEvent(u, v, Action.Unlike, t2)]
  {
    var first := FirstLike(u, v, t1);
    steps := first + SoloSteps(1, false, u, v, false, false, false, false, t2);
    SoloIsRun(Init(true), first, false, u, v, false, false, false, false, t2);
    SoloEffect(Run(Init(true), first), false, u, v, false, false, false, false, t2);
  }
}
