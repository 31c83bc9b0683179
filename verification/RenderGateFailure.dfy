/** What still reaches the terminal once the gate has failed: at most the one marker whose frame had already
    passed its check, and nothing published afterwards. */
module RenderGateFailure {
  import opened Options
  import opened RenderGate
  import opened RenderGateTheorems

  // The marker of a frame that has seen the gate ACTIVE and only has to append.
  function Cleared(pc: Pc): Option<Mark> {
    match pc
    case Rend(Unlock(ThenDeliver(mark))) => Some(mark)
    case Mrk(Deliver(mark)) => Some(mark)
    case _ => None
  }

  // The marker the permit holder has cleared.
  function InFlight(s: State): Option<Mark> { Cleared(At(s.pcs, s.permit)) }

  function Tail(m: Option<Mark>): seq<Mark> { if m.Some? then [m.value] else [] }

  // What a step through a failed gate does to the terminal: nothing, append the marker in flight, or lose it.
  ghost predicate Delivers(s: State, s': State) {
    s.gate.GateFailed? ==>
      || (s'.appended == s.appended && InFlight(s') in {InFlight(s), None})
      || (InFlight(s).Some? && s'.appended == s.appended + Tail(InFlight(s)) && InFlight(s').None?)
  }

  lemma RenderDelivers(s: State, t: nat, pc: RenderPc, c: Choice)
    requires Here(s, t) && s.pcs[t] == Rend(pc)
    ensures Delivers(s, RenderStep(s, t, pc, c))
  {
  }

  lemma MarkerDelivers(s: State, t: nat, pc: MarkerPc, c: Choice)
    requires Here(s, t) && s.pcs[t] == Mrk(pc)
    ensures Delivers(s, MarkerStep(s, t, pc, c))
  {
  }

  lemma LifeDelivers(s: State, t: nat, pc: LifePc, c: Choice)
    requires Here(s, t) && s.pcs[t] == Life(pc)
    ensures Delivers(s, LifeStep(s, t, pc, c))
  {
  }

  lemma StepDelivers(s: State, t: nat, c: Choice)
    requires Inv(s) && t < |s.pcs|
    ensures Delivers(s, Step(s, t, c))
  {
    assert Here(s, t);
    match s.pcs[t]
    case Rest =>
      var s' := Step(s, t, c);
      assert At(s'.pcs, s'.permit) == At(s.pcs, s.permit);
    case Rend(pc) => RenderDelivers(s, t, pc, c);
    case Mrk(pc) => MarkerDelivers(s, t, pc, c);
    case Life(pc) => LifeDelivers(s, t, pc, c);
  }

  lemma RunDelivers(run: seq<State>, i: nat)
    requires Run(run) && i + 1 < |run|
    ensures Delivers(run[i], run[i + 1])
  {
    RunKeepsInv(run, i);
    assert StepAt(run, i);
    var t: nat, c: Choice :| t < |run[i].pcs| && run[i + 1] == Step(run[i], t, c);
    StepDelivers(run[i], t, c);
  }

  /** After FAILED the terminal gets at most one more marker, and only the one that was cleared and in flight
      when the gate failed. */
  lemma {:induction false} OnlyInFlightIsAppended(run: seq<State>, i: nat, j: nat)
    requires Run(run) && i <= j < |run| && run[i].gate.GateFailed?
    ensures || (run[j].appended == run[i].appended && InFlight(run[j]) in {InFlight(run[i]), None})
            || (InFlight(run[i]).Some? && run[j].appended == run[i].appended + Tail(InFlight(run[i]))
                && InFlight(run[j]).None?)
    decreases j
  {
    if i < j {
      OnlyInFlightIsAppended(run, i, j - 1);
      RunForward(run, i, j - 1);
      RunDelivers(run, j - 1);
    }
  }

  // ---------------------------------------------------------------- published too late

  lemma {:induction false} PublishedIncrease(run: seq<State>, i: nat)
    requires Run(run) && i < |run|
    ensures Increasing(run[i].published)
  {
    if i > 0 {
      PublishedIncrease(run, i - 1);
      RunKeepsInv(run, i - 1);
      assert StepAt(run, i - 1);
      var t: nat, c: Choice :| t < |run[i - 1].pcs| && run[i] == Step(run[i - 1], t, c);
      StepPublishes(run[i - 1], t, c);
    }
  }

  lemma StepPublishes(s: State, t: nat, c: Choice)
    requires MarkInv(s) && t < |s.pcs| && Increasing(s.published)
    ensures Increasing(Step(s, t, c).published)
  {
    if s.pcs[t] == Rend(InState(FrameEnd)) {
      assert Step(s, t, c) == PublishStep(s, t, c);
    } else {
      assert Step(s, t, c).published == s.published;
    }
  }

  /** A marker published after the gate failed never reaches the terminal. */
  lemma PublishedTooLateIsNeverAppended(run: seq<State>, i: nat, j: nat, k: nat)
    requires Run(run) && i <= j < |run| && run[i].gate.GateFailed?
    requires |run[i].published| <= k < |run[j].published|
    ensures run[j].published[k] !in run[j].appended
  {
    OnlyInFlightIsAppended(run, i, j);
    RunKeepsInv(run, i);
    RunForward(run, i, j);
    PublishedIncrease(run, j);
    var before, m := run[i].published, run[j].published[k];
    forall x | x in before ensures x != m {
      var a :| 0 <= a < |before| && before[a] == x;
      assert run[j].published[a] == x && Before(run[j].published[a], run[j].published[k]);
    }
  }

  // ---------------------------------------------------------------- a witness

  function Last(run: seq<State>): State
    requires |run| > 0
  {
    run[|run| - 1]
  }

  lemma Extend(run: seq<State>, t: nat, c: Choice) returns (run': seq<State>)
    requires Run(run) && t < |Last(run).pcs|
    ensures Run(run') && run' == run + [Step(Last(run), t, c)]
  {
    run' := run + [Step(Last(run), t, c)];
    forall i: nat | i + 1 < |run'| ensures StepAt(run', i) {
      if i + 1 < |run| {
        assert StepAt(run, i);
        assert run'[i] == run[i] && run'[i + 1] == run[i + 1];
      } else {
        assert run'[i] == Last(run) && run'[i + 1] == Step(run'[i], t, c);
      }
    }
  }

  function Doing(op: Op): Choice { Choice(op, false, WithMarker, true, false) }

  const MARK := Mark(1, 1)

  const START := State([Rest, Rest], GateIdle, false, None, Unstarted, None, 0, [], [])

  const CONNECTED := START.(session := Connected(Publisher(1, 0, false)), sessions := 1)

  // Thread 0 has published and seen the gate ACTIVE.
  const CLEARED := CONNECTED.(pcs := [Rend(Unlock(ThenDeliver(MARK))), Rest], gate := GateActive, mutex := Some(0),
                              permit := Some(0), session := Connected(Publisher(1, 1, false)), published := [MARK])

  // ... then thread 1 lost the exchange and stored FAILED.
  const FAILED := CLEARED.(pcs := [Rend(Unlock(ThenDeliver(MARK))), Rend(StorePending)], gate := GateFailed)

  const APPENDED := FAILED.(pcs := [Mrk(DropMarker), Rend(StorePending)], mutex := None, appended := [MARK])

  lemma Connect() returns (run: seq<State>)
    ensures Run(run) && Last(run) == CONNECTED
  {
    var go := Doing(Create);
    run := [START];
    assert Init(START) && Run(run);
    run := Extend(run, 0, go);
    run := Extend(run, 0, go);
    run := Extend(run, 0, go);
    run := Extend(run, 0, go);
  }

  lemma Clear(run0: seq<State>) returns (run: seq<State>)
    requires Run(run0) && Last(run0) == CONNECTED
    ensures Run(run) && Last(run) == CLEARED
  {
    var go := Doing(RenderFrame);
    run := Extend(run0, 0, go);
    run := Extend(run, 0, go);
    run := Extend(run, 0, go);
    run := Extend(run, 0, go);
    run := Extend(run, 0, go);
  }

  lemma Collide(run0: seq<State>) returns (run: seq<State>)
    requires Run(run0) && Last(run0) == CLEARED
    ensures Run(run) && Last(run) == FAILED
  {
    var go := Doing(RenderFrame);
    run := Extend(run0, 1, go);
    run := Extend(run, 1, go);
    run := Extend(run, 1, go);
  }

  /** Two threads suffice: the gate fails between one frame's check and its append, and the marker is appended
      through the failed gate. */
  lemma AppendedThroughFailedGate() returns (run: seq<State>, i: nat)
    ensures Run(run) && i < |run| && run[i].gate.GateFailed? && run[i].appended == []
    ensures Last(run) == APPENDED && Last(run).gate.GateFailed? && Last(run).appended == [MARK]
  {
    run := Connect();
    run := Clear(run);
    run := Collide(run);
    i := |run| - 1;
    run := Extend(run, 0, Doing(RenderFrame));
    run := Extend(run, 0, Doing(RenderFrame));
  }
}
