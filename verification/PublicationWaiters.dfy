/** Exactly when a readiness waiter is left behind for good: when the worker is past a write that fails.  In every
    other state the run can go on so that its gate is closed. */
module PublicationWaiters {
  import opened Options
  import opened Publication
  import opened PublicationLocks
  import opened PublicationInvariant
  import opened PublicationSteps
  import opened PublicationTheorems
  import opened PublicationProgress

  // ---------------------------------------------------------------- a write that fails

  predicate ClosesOnFailure(from: CloseFrom) {
    match from
    case AfterFailedWrite(w) => !w.Single?
    case ByUser => false
    case ByWorker(failed) => failed
  }

  // The worker on its way out after a failed write of a pair.
  predicate OnTheWayOut(pc: Pc) {
    match pc
    case Wr(p) => p.WriteRel? && !p.w.Single? && !p.ok
    case Cl(p) => !p.FailC? && ClosesOnFailure(p.from)
    case Wk(p) => p.WFailed? || p == WDone(true)
    case _ => false
  }

  predicate Writing(pc: Pc) { pc.Wr? && pc.wr.WriteOut? && !pc.wr.w.Single? }

  /** The worker's write has failed, or it is about to write to a socket that is closed. */
  predicate Doomed(s: State) {
    |s.pcs| > 0 && (OnTheWayOut(s.pcs[0]) || (Writing(s.pcs[0]) && !s.client.socket))
  }

  // ---------------------------------------------------------------- steps of the other threads

  // The worker is where it was, gates only grow in number and a closed socket stays closed.
  ghost predicate Apart(s: State, s': State) {
    && |s'.pcs| == |s.pcs| > 0 && s'.pcs[0] == s.pcs[0]
    && s.queue.gates <= s'.queue.gates
    && (s'.client.socket ==> s.client.socket)
  }

  lemma PubApart(s: State, t: nat, pc: PubPc)
    requires 0 < t < |s.pcs|
    ensures Apart(s, PubStep(s, t, pc))
  {
  }

  lemma PrepApart(s: State, t: nat, pc: PrepPc, c: Choice)
    requires 0 < t < |s.pcs|
    ensures Apart(s, PrepStep(s, t, pc, c))
  {
  }

  lemma DirApart(s: State, t: nat, pc: DirPc)
    requires 0 < t < |s.pcs|
    ensures Apart(s, DirStep(s, t, pc))
  {
  }

  lemma WriteApart(s: State, t: nat, pc: WritePc, c: Choice)
    requires 0 < t < |s.pcs|
    ensures Apart(s, WriteStep(s, t, pc, c))
  {
  }

  lemma CloseApart(s: State, t: nat, pc: ClosePc)
    requires 0 < t < |s.pcs|
    ensures Apart(s, CloseStep(s, t, pc))
  {
  }

  lemma LifeApart(s: State, t: nat, pc: LifePc, c: Choice)
    requires 0 < t < |s.pcs|
    ensures Apart(s, LifeStep(s, t, pc, c))
  {
  }

  lemma ReadyApart(s: State, t: nat, pc: ReadyPc)
    requires Here(s, t) && t > 0 && s.pcs[t] == Rdy(pc) && s.queue.started
    ensures Apart(s, ReadyStep(s, t, pc))
  {
  }

  lemma StepApart(s: State, t: nat, c: Choice, s': State)
    requires Here(s, t) && t > 0 && s.queue.started && s' == Step(s, t, c)
    ensures Apart(s, s')
  {
    match s.pcs[t]
    case Idle =>
    case Pub(pc) => PubApart(s, t, pc);
    case Pre(pc) => PrepApart(s, t, pc, c);
    case Dir(pc) => DirApart(s, t, pc);
    case Wr(pc) => WriteApart(s, t, pc, c);
    case Cl(pc) => CloseApart(s, t, pc);
    case Lif(pc) => LifeApart(s, t, pc, c);
    case Rdy(pc) => ReadyApart(s, t, pc);
  }

  // ---------------------------------------------------------------- left behind

  lemma DoomedWorkerStep(s: State, c: Choice, s': State)
    requires Here(s, 0) && Doomed(s) && s' == Step(s, 0, c)
    ensures Doomed(s') && s'.queue.gates == s.queue.gates
  {
    match s.pcs[0]
    case Wr(pc) => assert OnTheWayOut(WriteStep(s, 0, pc, c).pcs[0]);
    case Cl(pc) => assert OnTheWayOut(CloseStep(s, 0, pc).pcs[0]);
    case Wk(pc) => assert OnTheWayOut(WorkStep(s, 0, pc).pcs[0]);
  }

  lemma DoomedStep(s: State, t: nat, c: Choice, s': State)
    requires Here(s, 0) && Here(s, t) && s.queue.started && Doomed(s) && s' == Step(s, t, c)
    ensures Doomed(s') && s.queue.gates <= s'.queue.gates
  {
    if t == 0 { DoomedWorkerStep(s, c, s'); } else { StepApart(s, t, c, s'); }
  }

  lemma StillBlocked(s: State, t: nat, c: Choice, s': State, u: nat, gate: nat)
    requires t < |s.pcs| && u > 0 && Blocked(s, u, gate) && s' == Step(s, t, c) && s.queue.gates <= s'.queue.gates
    ensures Blocked(s', u, gate)
  {
    if t != u { OthersStay(s, t, c, u); } else { assert ReadyStep(s, u, DropWait(gate)) == s; }
  }

  lemma NextStaysDoomed(run: seq<State>, i: nat, u: nat, gate: nat)
    requires Run(run) && i + 1 < |run| && Doomed(run[i]) && Blocked(run[i], u, gate)
    ensures Doomed(run[i + 1]) && Blocked(run[i + 1], u, gate)
  {
    RunKeepsInv(run, i);
    assert StepAt(run, i);
    var t: nat, c: Choice :| t < |run[i].pcs| && run[i + 1] == Step(run[i], t, c);
    InvHere(run[i], 0);
    InvHere(run[i], t);
    InvHere(run[i], u);
    DoomedStep(run[i], t, c, run[i + 1]);
    StillBlocked(run[i], t, c, run[i + 1], u, gate);
  }

  /** A waiter that is blocked when the worker is past a failed write is blocked for ever. */
  lemma {:induction false} LeftBehindForGood(run: seq<State>, i: nat, j: nat, t: nat, gate: nat)
    requires Run(run) && i <= j < |run| && Doomed(run[i]) && Blocked(run[i], t, gate)
    ensures Doomed(run[j]) && Blocked(run[j], t, gate)
  {
    if i < j {
      LeftBehindForGood(run, i, j - 1, t, gate);
      NextStaysDoomed(run, j - 1, t, gate);
    }
  }
}
