/** Who can move while others wait: the worker while a Shutdown or a readiness waiter waits for it. */
module PublicationProgress {
  import opened Options
  import opened Publication
  import opened PublicationLocks
  import opened PublicationInvariant
  import opened PublicationSteps
  import opened PublicationTheorems

  predicate Stopped(s: State) { |s.pcs| > 0 && s.pcs[0].Wk? && s.pcs[0].work.WDone? }

  // ---------------------------------------------------------------- the worker's next step

  // Nothing to do yet: the queue is open and empty.
  predicate Starved(s: State) {
    |s.pcs| > 0 && s.pcs[0] == Wk(WRecv) && s.queue.jobs == [] && !s.queue.jobsClosed
  }

  lemma WorkerMoves(s: State)
    requires |s.pcs| > 0 && IsWorker(s.pcs[0]) && CanProceed(s, 0)
    requires s.pcs[0] != Wk(WNone) && !Stopped(s) && !Starved(s)
    ensures Step(s, 0, SMOOTH) != s
  {
    match s.pcs[0]
    case Wr(pc) => assert WriteStep(s, 0, pc, SMOOTH).pcs[0] != Wr(pc);
    case Cl(pc) => assert CloseStep(s, 0, pc).pcs[0] != Cl(pc);
    case Wk(pc) => assert WorkStep(s, 0, pc).pcs[0] != Wk(pc);
  }

  /** A worker that is neither stopped nor out of work can take its next step, or it waits for a lock and some
      thread inside a critical section can take its own. */
  lemma WorkerCanMove(run: seq<State>, i: nat) returns (u: nat)
    requires Run(run) && i < |run| && run[i].queue.started && !Stopped(run[i]) && !Starved(run[i])
    ensures u < |run[i].pcs| && (u == 0 || HoldsSomething(run[i].pcs[u])) && Step(run[i], u, SMOOTH) != run[i]
  {
    RunKeepsInv(run, i);
    InvHere(run[i], 0);
    if CanProceed(run[i], 0) {
      WorkerMoves(run[i]);
      u := 0;
    } else {
      u := SomeHolderCanMove(run, i, 0);
    }
  }

  // ---------------------------------------------------------------- Shutdown

  predicate PastShut(pc: Pc) { pc == Lif(ShutWait) || pc == Lif(QRel(true)) }

  // A Shutdown that has given up the lock, or is about to, left the queue closed.
  ghost predicate ShutInv(s: State) {
    forall t | 0 <= t < |s.pcs| && PastShut(s.pcs[t]) :: s.queue.closed
  }

  // A step moves its own thread, and the worker when the queue is built.
  lemma OthersStay(s: State, t: nat, c: Choice, u: nat)
    requires t < |s.pcs| && u < |s.pcs| && u != t && u != 0
    ensures |Step(s, t, c).pcs| == |s.pcs| && Step(s, t, c).pcs[u] == s.pcs[u]
  {
    match s.pcs[t]
    case Idle =>
    case Pub(pc) =>
    case Pre(pc) =>
    case Dir(pc) =>
    case Wr(pc) =>
    case Cl(pc) =>
    case Lif(pc) =>
    case Rdy(pc) =>
    case Wk(pc) =>
  }

  lemma PubNotShut(s: State, t: nat, pc: PubPc)
    requires t < |s.pcs|
    ensures !PastShut(PubStep(s, t, pc).pcs[t]) || PubStep(s, t, pc).pcs[t] == s.pcs[t]
  {
  }

  lemma PrepNotShut(s: State, t: nat, pc: PrepPc, c: Choice)
    requires t < |s.pcs|
    ensures !PastShut(PrepStep(s, t, pc, c).pcs[t]) || PrepStep(s, t, pc, c).pcs[t] == s.pcs[t]
  {
  }

  lemma ClientNotShut(s: State, t: nat, c: Choice)
    requires t < |s.pcs| && (s.pcs[t].Dir? || s.pcs[t].Wr? || s.pcs[t].Cl? || s.pcs[t].Idle?)
    ensures !PastShut(Step(s, t, c).pcs[t])
  {
    match s.pcs[t]
    case Dir(pc) => assert !PastShut(DirStep(s, t, pc).pcs[t]);
    case Wr(pc) => assert !PastShut(WriteStep(s, t, pc, c).pcs[t]);
    case Cl(pc) => assert !PastShut(CloseStep(s, t, pc).pcs[t]);
    case Idle =>
  }

  lemma ReadyNotShut(s: State, t: nat, pc: ReadyPc)
    requires t < |s.pcs| && t != 0
    ensures !PastShut(ReadyStep(s, t, pc).pcs[t]) || ReadyStep(s, t, pc).pcs[t] == s.pcs[t]
  {
  }

  lemma WorkNotShut(s: State, t: nat, pc: WorkPc)
    requires t < |s.pcs|
    ensures !PastShut(WorkStep(s, t, pc).pcs[t]) || WorkStep(s, t, pc).pcs[t] == s.pcs[t]
  {
  }

  lemma LifeReachesShut(s: State, t: nat, pc: LifePc, c: Choice)
    requires Here(s, t) && s.pcs[t] == Lif(pc) && ChannelInv(s) && (PastShut(s.pcs[t]) ==> s.queue.closed)
    ensures PastShut(LifeStep(s, t, pc, c).pcs[t]) ==> LifeStep(s, t, pc, c).queue.closed
  {
  }

  lemma ReachesShut(s: State, t: nat, c: Choice, s': State)
    requires Here(s, t) && ChannelInv(s) && ShutInv(s) && t != 0 && |s'.pcs| == |s.pcs| && s' == Step(s, t, c)
    ensures PastShut(s'.pcs[t]) ==> s'.queue.closed
  {
    match s.pcs[t]
    case Pub(pc) => PubNotShut(s, t, pc);
    case Pre(pc) => PrepNotShut(s, t, pc, c);
    case Lif(pc) => LifeReachesShut(s, t, pc, c);
    case Rdy(pc) => ReadyNotShut(s, t, pc);
    case Wk(pc) => WorkNotShut(s, t, pc);
    case _ => ClientNotShut(s, t, c);
  }

  lemma StepKeepsShutInv(s: State, t: nat, c: Choice, s': State)
    requires Inv(s) && ShutInv(s) && t < |s.pcs| && s' == Step(s, t, c)
    ensures ShutInv(s')
  {
    StepKeepsInv(s, t, c);
    InvHere(s, t);
    StepForward(s, t, c);
    forall u | 0 <= u < |s'.pcs| && PastShut(s'.pcs[u]) ensures s'.queue.closed {
      InvHere(s', u);
      if u == t { ReachesShut(s, t, c, s'); } else { OthersStay(s, t, c, u); }
    }
  }

  lemma NextKeepsShutInv(run: seq<State>, i: nat)
    requires Run(run) && i + 1 < |run| && ShutInv(run[i])
    ensures ShutInv(run[i + 1])
  {
    RunKeepsInv(run, i);
    assert StepAt(run, i);
    var t: nat, c: Choice :| t < |run[i].pcs| && run[i + 1] == Step(run[i], t, c);
    StepKeepsShutInv(run[i], t, c, run[i + 1]);
  }

  lemma {:induction false} RunKeepsShutInv(run: seq<State>, i: nat)
    requires Run(run) && i < |run|
    ensures ShutInv(run[i])
  {
    if i > 0 {
      RunKeepsShutInv(run, i - 1);
      NextKeepsShutInv(run, i - 1);
    }
  }

  /** While a Shutdown waits for the worker, it can return because the worker has stopped, or the worker can take
      its next step, or a thread inside a critical section can. */
  lemma ShutdownIsNotStuck(run: seq<State>, i: nat, t: nat) returns (u: nat)
    requires Run(run) && i < |run| && t < |run[i].pcs| && run[i].pcs[t] == Lif(ShutWait)
    ensures u < |run[i].pcs| && Step(run[i], u, SMOOTH) != run[i]
    ensures if Stopped(run[i]) then u == t else u == 0 || HoldsSomething(run[i].pcs[u])
  {
    var s := run[i];
    RunKeepsInv(run, i);
    RunKeepsShutInv(run, i);
    InvHere(s, t);
    InvHere(s, 0);
    assert s.queue.closed;
    if Stopped(s) {
      u := t;
      assert Step(s, u, SMOOTH).pcs[t] == Idle;
    } else if Starved(s) {
      u := s.locks.q.value;
      InvHere(s, u);
      HolderMoves(s, u);
    } else {
      u := WorkerCanMove(run, i);
    }
  }

  // ---------------------------------------------------------------- readiness waiters

  // The worker between receiving a job and passing its signal.
  predicate InSignal(pc: Pc) { pc.Wk? && (pc.work.WSignalQ? || pc.work.WSignal? || pc.work.WSignalGate?) }

  // Blocked on a readiness gate that is open.
  predicate Blocked(s: State, t: nat, gate: nat) {
    t < |s.pcs| && s.pcs[t] == Rdy(DropWait(gate)) && gate < |s.queue.gates| && s.queue.gates[gate]
  }

  /** A waiter blocked on a readiness gate waits for a worker that still has a job to receive or is passing its
      signal.  Unless the worker stopped on a transport failure, it or a thread inside a critical section can
      move; a worker that drained the queue leaves nobody behind. */
  lemma NoWaiterLeftBehind(run: seq<State>, i: nat, t: nat, gate: nat) returns (u: nat)
    requires Run(run) && i < |run| && Blocked(run[i], t, gate)
    ensures run[i].queue.jobs != [] || InSignal(run[i].pcs[0])
    ensures Stopped(run[i]) ==> run[i].pcs[0] == Wk(WDone(true)) && run[i].queue.jobs != []
    ensures !Stopped(run[i]) ==>
              u < |run[i].pcs| && (u == 0 || HoldsSomething(run[i].pcs[u])) && Step(run[i], u, SMOOTH) != run[i]
  {
    var s := run[i];
    RunKeepsInv(run, i);
    InvHere(s, t);
    assert Open(s.queue.gates);
    if s.locks.q.Some? { InvHere(s, s.locks.q.value); }
    u := 0;
    if !Stopped(s) { u := WorkerCanMove(run, i); }
  }
}
