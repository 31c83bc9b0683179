/** What every interleaving of the gate's steps keeps. */
module RenderGateTheorems {
  import opened Options
  import opened RenderGate

  // ---------------------------------------------------------------- permits and the mutex

  // What the ownership invariant says about one thread.
  ghost predicate Here(s: State, t: nat) {
    && t < |s.pcs|
    && (HasPermit(s.pcs[t]) <==> s.permit == Some(t))
    && (HasMutex(s.pcs[t]) <==> s.mutex == Some(t))
    && (s.gate.GateIdle? ==> s.permit.None?)
    && (s.gate.GateActive? ==> s.permit.Some?)
  }

  // A thread takes a free permit or mutex or gives up its own; FAILED is never left.
  ghost predicate Moves(s: State, s': State, t: nat)
    requires t < |s.pcs|
  {
    && |s'.pcs| == |s.pcs| && s'.pcs == s.pcs[t := s'.pcs[t]]
    && Here(s', t)
    && (s'.permit == s.permit || (s.permit in {None, Some(t)} && s'.permit in {None, Some(t)}))
    && (s'.mutex == s.mutex || (s.mutex in {None, Some(t)} && s'.mutex in {None, Some(t)}))
    && (s.gate.GateFailed? ==> s'.gate.GateFailed?)
  }

  lemma MovesKeepOwners(s: State, s': State, t: nat)
    requires t < |s.pcs| && OwnerInv(s) && Moves(s, s', t)
    ensures OwnerInv(s')
  {
    forall u | 0 <= u < |s'.pcs|
      ensures HasPermit(s'.pcs[u]) <==> s'.permit == Some(u)
      ensures HasMutex(s'.pcs[u]) <==> s'.mutex == Some(u)
    {
      if u != t { assert Here(s, u); }
    }
  }

  lemma RenderMoves(s: State, t: nat, pc: RenderPc, c: Choice)
    requires Here(s, t) && s.pcs[t] == Rend(pc)
    ensures Moves(s, RenderStep(s, t, pc, c), t)
  {
  }

  lemma MarkerMoves(s: State, t: nat, pc: MarkerPc, c: Choice)
    requires Here(s, t) && s.pcs[t] == Mrk(pc)
    ensures Moves(s, MarkerStep(s, t, pc, c), t)
  {
  }

  lemma LifeMoves(s: State, t: nat, pc: LifePc, c: Choice)
    requires Here(s, t) && s.pcs[t] == Life(pc)
    ensures Moves(s, LifeStep(s, t, pc, c), t)
  {
  }

  // ---------------------------------------------------------------- markers

  lemma PublishMarks(s: State, t: nat, c: Choice)
    requires Here(s, t) && s.pcs[t] == Rend(InState(FrameEnd)) && MarkInv(s)
    ensures MarkInv(PublishStep(s, t, c))
  {
  }

  lemma RenderMarks(s: State, t: nat, pc: RenderPc, c: Choice)
    requires Here(s, t) && s.pcs[t] == Rend(pc) && pc != InState(FrameEnd) && MarkInv(s)
    ensures MarkInv(RenderStep(s, t, pc, c))
  {
  }

  lemma MarkerMarks(s: State, t: nat, pc: MarkerPc, c: Choice)
    requires Here(s, t) && s.pcs[t] == Mrk(pc) && MarkInv(s)
    ensures MarkInv(MarkerStep(s, t, pc, c))
  {
  }

  lemma LifeMarks(s: State, t: nat, pc: LifePc, c: Choice)
    requires Here(s, t) && s.pcs[t] == Life(pc) && MarkInv(s)
    ensures MarkInv(LifeStep(s, t, pc, c))
  {
  }

  // ---------------------------------------------------------------- failures stay on record

  ghost predicate RecordMove(s: State, s': State, t: nat)
    requires t < |s.pcs| && t < |s'.pcs|
  {
    && (InShutdown(At(s'.pcs, s'.mutex)) ==> s'.session.Done?)
    && (At(s'.pcs, s'.mutex) == Mrk(DeliverClear) ==> s'.session.Failed?)
    && (At(s'.pcs, s'.permit) == Rend(StoreFailedToo) ==> s'.pending || Dead(s'))
    && (Dead(s) ==> Dead(s'))
    && (s.pending ==> s'.pending || Dead(s'))
    && (s.pcs[t] == Rend(StorePending) ==> s'.pending)
    && (s'.gate.GateFailed? && !s.gate.GateFailed? ==> s'.pending || Dead(s') || s'.pcs[t] == Rend(StorePending))
  }

  lemma RecordMoveKeeps(s: State, s': State, t: nat)
    requires t < |s.pcs| && RecordInv(s) && Moves(s, s', t) && RecordMove(s, s', t)
    ensures RecordInv(s')
  {
    if s'.gate.GateFailed? && !s'.pending && !Dead(s') && s.gate.GateFailed? {
      var u :| 0 <= u < |s.pcs| && s.pcs[u] == Rend(StorePending);
      assert s'.pcs[u] == Rend(StorePending);
    }
  }

  lemma PublishRecords(s: State, t: nat, c: Choice)
    requires Here(s, t) && s.pcs[t] == Rend(InState(FrameEnd)) && RecordInv(s)
    ensures var s' := PublishStep(s, t, c); |s'.pcs| == |s.pcs| && RecordMove(s, s', t)
  {
  }

  lemma RenderRecords(s: State, t: nat, pc: RenderPc, c: Choice)
    requires Here(s, t) && s.pcs[t] == Rend(pc) && pc != InState(FrameEnd) && RecordInv(s)
    ensures var s' := RenderStep(s, t, pc, c); |s'.pcs| == |s.pcs| && RecordMove(s, s', t)
  {
  }

  lemma MarkerRecords(s: State, t: nat, pc: MarkerPc, c: Choice)
    requires Here(s, t) && s.pcs[t] == Mrk(pc) && RecordInv(s)
    ensures var s' := MarkerStep(s, t, pc, c); |s'.pcs| == |s.pcs| && RecordMove(s, s', t)
  {
  }

  lemma LifeRecords(s: State, t: nat, pc: LifePc, c: Choice)
    requires Here(s, t) && s.pcs[t] == Life(pc) && RecordInv(s)
    ensures var s' := LifeStep(s, t, pc, c); |s'.pcs| == |s.pcs| && RecordMove(s, s', t)
  {
  }

  // ---------------------------------------------------------------- after a failure

  predicate MayPublish(pc: Pc) {
    pc.Rend? && (pc.render == TryState(FrameEnd) || pc.render == InState(FrameEnd))
  }

  // Markers that can still be published through a failed gate: the one permit out at the time.
  function Budget(s: State): nat { if MayPublish(At(s.pcs, s.permit)) then 1 else 0 }

  ghost predicate Spends(s: State, s': State) {
    && s.published <= s'.published
    && (s.gate.GateFailed? ==> |s'.published| + Budget(s') <= |s.published| + Budget(s))
  }

  lemma RenderSpends(s: State, t: nat, pc: RenderPc, c: Choice)
    requires Here(s, t) && s.pcs[t] == Rend(pc)
    ensures Spends(s, RenderStep(s, t, pc, c))
  {
  }

  lemma MarkerSpends(s: State, t: nat, pc: MarkerPc, c: Choice)
    requires Here(s, t) && s.pcs[t] == Mrk(pc)
    ensures Spends(s, MarkerStep(s, t, pc, c))
  {
  }

  lemma LifeSpends(s: State, t: nat, pc: LifePc, c: Choice)
    requires Here(s, t) && s.pcs[t] == Life(pc)
    ensures Spends(s, LifeStep(s, t, pc, c))
  {
  }

  // ---------------------------------------------------------------- every step, every run

  // The three facts later states inherit.
  ghost predicate Forward(s: State, s': State) {
    && (s.gate.GateFailed? ==> s'.gate.GateFailed?)
    && (Dead(s) ==> Dead(s'))
    && Spends(s, s')
  }

  lemma RestStep(s: State, t: nat, op: Op)
    requires Inv(s) && t < |s.pcs| && s.pcs[t] == Rest
    ensures var s' := s.Go(t, Entry(op)); Inv(s') && Forward(s, s')
  {
    var s' := s.Go(t, Entry(op));
    assert Here(s, t);
    assert At(s'.pcs, s'.permit) == At(s.pcs, s.permit) && At(s'.pcs, s'.mutex) == At(s.pcs, s.mutex);
    MovesKeepOwners(s, s', t);
    RecordMoveKeeps(s, s', t);
  }

  /** Any step of any thread keeps the invariant. */
  lemma StepKeepsInv(s: State, t: nat, c: Choice)
    requires Inv(s) && t < |s.pcs|
    ensures Inv(Step(s, t, c)) && Forward(s, Step(s, t, c))
  {
    var s' := Step(s, t, c);
    assert Here(s, t);
    match s.pcs[t]
    case Rest => RestStep(s, t, c.op);
    case Rend(pc) =>
      RenderMoves(s, t, pc, c); RenderSpends(s, t, pc, c);
      if pc == InState(FrameEnd) {
        PublishMarks(s, t, c); PublishRecords(s, t, c);
      } else {
        RenderMarks(s, t, pc, c); RenderRecords(s, t, pc, c);
      }
      MovesKeepOwners(s, s', t);
      RecordMoveKeeps(s, s', t);
    case Mrk(pc) =>
      MarkerMoves(s, t, pc, c); MarkerMarks(s, t, pc, c); MarkerRecords(s, t, pc, c); MarkerSpends(s, t, pc, c);
      MovesKeepOwners(s, s', t);
      RecordMoveKeeps(s, s', t);
    case Life(pc) =>
      LifeMoves(s, t, pc, c); LifeMarks(s, t, pc, c); LifeRecords(s, t, pc, c); LifeSpends(s, t, pc, c);
      MovesKeepOwners(s, s', t);
      RecordMoveKeeps(s, s', t);
  }

  lemma {:induction false} RunKeepsInv(run: seq<State>, i: nat)
    requires Run(run) && i < |run|
    ensures Inv(run[i])
  {
    if i > 0 {
      RunKeepsInv(run, i - 1);
      RunStep(run, i - 1);
    }
  }

  lemma RunStep(run: seq<State>, i: nat)
    requires Run(run) && i + 1 < |run| && Inv(run[i])
    ensures Inv(run[i + 1]) && Forward(run[i], run[i + 1])
  {
    assert StepAt(run, i);
    var t: nat, c: Choice :| t < |run[i].pcs| && run[i + 1] == Step(run[i], t, c);
    StepKeepsInv(run[i], t, c);
  }

  lemma {:induction false} RunForward(run: seq<State>, i: nat, j: nat)
    requires Run(run) && i <= j < |run|
    ensures Forward(run[i], run[j])
  {
    if i < j {
      RunForward(run, i, j - 1);
      RunKeepsInv(run, j - 1);
      RunStep(run, j - 1);
    }
  }

  /** At most one render permit is live, whatever the number of threads and their interleaving. */
  lemma AtMostOnePermit(run: seq<State>, i: nat, t: nat, u: nat)
    requires Run(run) && i < |run| && t < |run[i].pcs| && u < |run[i].pcs|
    requires HasPermit(run[i].pcs[t]) && HasPermit(run[i].pcs[u])
    ensures t == u
  {
    RunKeepsInv(run, i);
    assert Here(run[i], t) && Here(run[i], u);
  }

  /** FAILED is absorbing, and at most one more marker is published after it. */
  lemma FailedGateIsAbsorbing(run: seq<State>, i: nat, j: nat)
    requires Run(run) && i <= j < |run| && run[i].gate.GateFailed?
    ensures run[j].gate.GateFailed?
    ensures run[i].published <= run[j].published && |run[j].published| <= |run[i].published| + 1
  {
    RunForward(run, i, j);
  }

  /** The markers appended to the terminal are published ones, with strictly increasing revisions within a
      session and sessions in order. */
  lemma AppendedMarkersIncrease(run: seq<State>, i: nat, a: nat, b: nat)
    requires Run(run) && i < |run| && a < b < |run[i].appended|
    ensures run[i].appended[a] in run[i].published && run[i].appended[b] in run[i].published
    ensures run[i].appended[a].id <= run[i].appended[b].id
    ensures run[i].appended[a].id == run[i].appended[b].id ==> run[i].appended[a].rev < run[i].appended[b].rev
  {
    RunKeepsInv(run, i);
    assert Before(run[i].appended[a], run[i].appended[b]);
  }

  /** A session state that reached Failed never becomes Connected again, nor restartable. */
  lemma FailedSessionNeverReconnects(run: seq<State>, i: nat, j: nat)
    requires Run(run) && i <= j < |run| && run[i].session.Failed?
    ensures run[j].session.Failed? || run[j].session.Done?
  {
    RunForward(run, i, j);
  }

  /** Once the gate has failed, the failure is known: the session is dead, the pending flag is up for the
      lifecycle code, or a thread is about to raise it. */
  lemma FailureStaysOnRecord(run: seq<State>, i: nat)
    requires Run(run) && i < |run| && run[i].gate.GateFailed?
    ensures Recorded(run[i])
  {
    RunKeepsInv(run, i);
  }
}
