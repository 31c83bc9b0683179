/** A readiness waiter whose worker is not past a failed write can still be served: a schedule that leads there. */
module PublicationRescue {
  import opened Options
  import opened Publication
  import opened PublicationLocks
  import opened PublicationInvariant
  import opened PublicationSteps
  import opened PublicationTheorems
  import opened PublicationProgress
  import opened PublicationWaiters

  // ---------------------------------------------------------------- a connected client has an open socket

  predicate Closing(pc: Pc) { pc.Cl? && (pc.cl.CloseReg? || pc.cl.CloseSock?) }

  ghost predicate SocketInv(s: State) {
    && (s.client.conn ==> s.client.socket)
    && forall u | 0 <= u < |s.pcs| && Closing(s.pcs[u]) :: !s.client.conn
  }

  // What a step does to the connection.
  ghost predicate Wired(s: State, s': State, t: nat)
    requires t < |s.pcs|
  {
    && t < |s'.pcs| && (s'.client.conn ==> s.client.conn)
    && (s'.client.socket == s.client.socket || (Closing(s.pcs[t]) && !s'.client.socket))
    && (Closing(s'.pcs[t]) ==> Closing(s.pcs[t]) || !s'.client.conn)
  }

  lemma PubWired(s: State, t: nat, pc: PubPc)
    requires t < |s.pcs|
    ensures Wired(s, PubStep(s, t, pc), t)
  {
  }

  lemma PrepWired(s: State, t: nat, pc: PrepPc, c: Choice)
    requires t < |s.pcs|
    ensures Wired(s, PrepStep(s, t, pc, c), t)
  {
  }

  lemma WriteWired(s: State, t: nat, pc: WritePc, c: Choice)
    requires t < |s.pcs|
    ensures Wired(s, WriteStep(s, t, pc, c), t)
  {
  }

  lemma CloseWired(s: State, t: nat, pc: ClosePc)
    requires t < |s.pcs| && s.pcs[t] == Cl(pc)
    ensures Wired(s, CloseStep(s, t, pc), t)
  {
  }

  lemma LifeWired(s: State, t: nat, pc: LifePc, c: Choice)
    requires t < |s.pcs|
    ensures Wired(s, LifeStep(s, t, pc, c), t)
  {
  }

  lemma ReadyWired(s: State, t: nat, pc: ReadyPc)
    requires t < |s.pcs|
    ensures Wired(s, ReadyStep(s, t, pc), t)
  {
  }

  lemma WorkWired(s: State, t: nat, pc: WorkPc)
    requires t < |s.pcs|
    ensures Wired(s, WorkStep(s, t, pc), t)
  {
  }

  lemma StepWired(s: State, t: nat, c: Choice, s': State)
    requires t < |s.pcs| && s' == Step(s, t, c)
    ensures Wired(s, s', t)
  {
    match s.pcs[t]
    case Idle =>
    case Pub(pc) => PubWired(s, t, pc);
    case Pre(pc) => PrepWired(s, t, pc, c);
    case Dir(pc) => assert Wired(s, DirStep(s, t, pc), t);
    case Wr(pc) => WriteWired(s, t, pc, c);
    case Cl(pc) => CloseWired(s, t, pc);
    case Lif(pc) => LifeWired(s, t, pc, c);
    case Rdy(pc) => ReadyWired(s, t, pc);
    case Wk(pc) => WorkWired(s, t, pc);
  }

  lemma WorkerStays(s: State, t: nat, c: Choice)
    requires 0 < t < |s.pcs|
    ensures |Step(s, t, c).pcs| == |s.pcs|
    ensures Step(s, t, c).pcs[0] == s.pcs[0] || Step(s, t, c).pcs[0] == Wk(WRecv)
  {
    match s.pcs[t]
    case Idle =>
    case Pub(pc) =>
    case Pre(pc) =>
    case Dir(pc) =>
    case Wr(pc) =>
    case Cl(pc) =>
    case Lif(pc) =>
    case Rdy(pc) =>
    case Wk(pc) =>
  }

  lemma StepKeepsSocketInv(s: State, t: nat, c: Choice, s': State)
    requires t < |s.pcs| == |s'.pcs| && s' == Step(s, t, c) && SocketInv(s)
    ensures SocketInv(s')
  {
    StepWired(s, t, c, s');
    forall u | 0 <= u < |s'.pcs| && Closing(s'.pcs[u]) ensures !s'.client.conn {
      if u != t {
        if u == 0 { WorkerStays(s, t, c); } else { OthersStay(s, t, c, u); }
        assert Closing(s.pcs[u]);
      }
    }
  }

  lemma NextKeepsSocketInv(run: seq<State>, i: nat)
    requires Run(run) && i + 1 < |run| && SocketInv(run[i])
    ensures SocketInv(run[i + 1])
  {
    NextForward(run, i);
    assert StepAt(run, i);
    var t: nat, c: Choice :| t < |run[i].pcs| && run[i + 1] == Step(run[i], t, c);
    StepKeepsSocketInv(run[i], t, c, run[i + 1]);
  }

  lemma {:induction false} RunKeepsSocketInv(run: seq<State>, i: nat)
    requires Run(run) && i < |run|
    ensures SocketInv(run[i])
  {
    if i > 0 {
      RunKeepsSocketInv(run, i - 1);
      NextKeepsSocketInv(run, i - 1);
    }
  }

  // ---------------------------------------------------------------- how far threads are from giving up their locks

  function RestPub(pc: PubPc): nat {
    match pc
    case PubQ(_) => 0
    case PubP(_) => 17
    case PubCheck(_) => 16
    case PubAdmit(_, _) => 5
    case PubFull => 4
    case PubSetRev(_) => 3
    case PubGate => 3
    case PubRetP(_) => 2
    case PubRetQ(_) => 1
  }

  function RestPrep(pc: PrepPc): nat {
    match pc
    case Prep(_) => 15
    case PrepCollect(_, _) => 14
    case PrepLeaf(_, _) => 13
    case Validate(_, _) => 12
  }

  function RestDir(pc: DirPc): nat {
    match pc
    case DirP => 0
    case DirCheck => 16
    case DirAdmit(_) => 2
    case DirRet(_) => 1
  }

  function RestWrite(pc: WritePc): nat {
    match pc
    case PairW(_, _) => 11
    case SendW(_, _) => 0
    case WriteC(w) => if w.TreeOf? then 10 else 8
    case WriteOut(w) => if w.TreeOf? then 9 else 7
    case WriteRel(_, _) => 3
  }

  function RestClose(pc: ClosePc): nat {
    if pc.FailC? || !pc.from.AfterFailedWrite? then 0
    else match pc
      case CloseC(_) => 6
      case CloseReg(_, _) => 5
      case CloseSock(_, _) => 4
      case FailC(_) => 0
  }

  function RestLife(pc: LifePc): nat {
    match pc
    case QFail(_) => 3
    case QFailClose => 2
    case Shut => 3
    case ShutClose => 2
    case QRel(_) => 1
    case _ => 0
  }

  function RestReady(pc: ReadyPc): nat {
    match pc
    case BusyP => 4
    case BusyC => 3
    case BusyRelP => 2
    case BusyRelQ => 1
    case NewC(_) => 2
    case NewRel(_, _) => 1
    case _ => 0
  }

  // Steps until a thread other than the worker holds no lock, when all goes well.
  function Rest(pc: Pc): nat {
    match pc
    case Idle => 0
    case Pub(p) => RestPub(p)
    case Pre(p) => RestPrep(p)
    case Dir(p) => RestDir(p)
    case Wr(p) => RestWrite(p)
    case Cl(p) => RestClose(p)
    case Lif(p) => RestLife(p)
    case Rdy(p) => RestReady(p)
    case Wk(_) => 0
  }

  lemma PubRests(s: State, u: nat, pc: PubPc)
    requires Here(s, u) && s.pcs[u] == Pub(pc) && !pc.PubQ? && CanProceed(s, u)
    ensures Rest(PubStep(s, u, pc).pcs[u]) < Rest(s.pcs[u])
  {
  }

  lemma PrepRests(s: State, u: nat, pc: PrepPc)
    requires Here(s, u) && s.pcs[u] == Pre(pc) && CanProceed(s, u)
    ensures Rest(PrepStep(s, u, pc, SMOOTH).pcs[u]) < Rest(s.pcs[u])
  {
  }

  lemma WriteRests(s: State, u: nat, pc: WritePc)
    requires Here(s, u) && u > 0 && s.pcs[u] == Wr(pc) && HoldsSomething(s.pcs[u]) && CanProceed(s, u)
    ensures Rest(WriteStep(s, u, pc, SMOOTH).pcs[u]) < Rest(s.pcs[u])
  {
  }

  lemma ClientRests(s: State, u: nat, s': State)
    requires Here(s, u) && u > 0 && HoldsSomething(s.pcs[u]) && CanProceed(s, u) && (s.pcs[u].Dir? || s.pcs[u].Cl?)
    requires s' == Step(s, u, SMOOTH) && |s'.pcs| == |s.pcs|
    ensures Rest(s'.pcs[u]) < Rest(s.pcs[u])
  {
    match s.pcs[u]
    case Dir(pc) => assert Rest(DirStep(s, u, pc).pcs[u]) < RestDir(pc);
    case Cl(pc) => assert Rest(CloseStep(s, u, pc).pcs[u]) < RestClose(pc);
  }

  lemma QueueRests(s: State, u: nat, s': State)
    requires Here(s, u) && u > 0 && HoldsSomething(s.pcs[u]) && CanProceed(s, u) && (s.pcs[u].Lif? || s.pcs[u].Rdy?)
    requires s' == Step(s, u, SMOOTH) && |s'.pcs| == |s.pcs|
    ensures Rest(s'.pcs[u]) < Rest(s.pcs[u])
  {
    match s.pcs[u]
    case Lif(pc) => assert Rest(LifeStep(s, u, pc, SMOOTH).pcs[u]) < RestLife(pc);
    case Rdy(pc) => assert Rest(ReadyStep(s, u, pc).pcs[u]) < RestReady(pc);
  }

  // A thread inside a critical section that waits for no lock comes closer to its end.
  lemma HolderRests(s: State, u: nat, s': State)
    requires Here(s, u) && u > 0 && HoldsSomething(s.pcs[u]) && CanProceed(s, u)
    requires s' == Step(s, u, SMOOTH) && |s'.pcs| == |s.pcs|
    ensures Rest(s'.pcs[u]) < Rest(s.pcs[u])
  {
    match s.pcs[u]
    case Pub(pc) => PubRests(s, u, pc);
    case Pre(pc) => PrepRests(s, u, pc);
    case Wr(pc) => WriteRests(s, u, pc);
    case Lif(_) => QueueRests(s, u, s');
    case Rdy(_) => QueueRests(s, u, s');
    case _ => ClientRests(s, u, s');
  }

  // All threads but the worker together.
  function Total(pcs: seq<Pc>): nat {
    if |pcs| <= 1 then 0 else Rest(pcs[|pcs| - 1]) + Total(pcs[..|pcs| - 1])
  }

  lemma {:induction false} TotalFalls(a: seq<Pc>, b: seq<Pc>, u: nat)
    requires |a| == |b| && 0 < u < |a| && Rest(b[u]) < Rest(a[u]) && forall i | 0 < i < |a| && i != u :: b[i] == a[i]
    ensures Total(b) < Total(a)
  {
    var n := |a| - 1;
    if u == n {
      TotalSame(a[..n], b[..n]);
    } else {
      TotalFalls(a[..n], b[..n], u);
    }
  }

  lemma {:induction false} TotalSame(a: seq<Pc>, b: seq<Pc>)
    requires |a| == |b| && forall i | 0 < i < |a| :: b[i] == a[i]
    ensures Total(b) == Total(a)
  {
    if |a| > 1 { TotalSame(a[..|a| - 1], b[..|b| - 1]); }
  }

  // ---------------------------------------------------------------- the worker's way to its next signal

  // Steps until the worker closes the gate, when all goes well.
  function Distance(pc: Pc): Option<nat> {
    match pc
    case Wk(p) => (match p
      case WSignalGate(_) => Some(1)
      case WSignal(_) => Some(2)
      case WSignalQ(_) => Some(3)
      case WRecv => Some(4)
      case WComplete(_) => Some(5)
      case WSignalRel(_) => Some(12)
      case _ => None)
    case Wr(p) => (match p
      case WriteRel(w, ok) => if w.CommitOf? && ok then Some(6) else None
      case WriteOut(w) => if w.CommitOf? then Some(7) else if w.TreeOf? then Some(9) else None
      case WriteC(w) => if w.CommitOf? then Some(8) else if w.TreeOf? then Some(10) else None
      case PairW(_, _) => Some(11)
      case SendW(_, _) => None)
    case _ => None
  }

  // A worker that is not past a failed write is on that way while somebody waits.
  lemma OnTheWay(s: State)
    requires Inv(s) && !Doomed(s) && s.queue.started && (s.queue.jobs != [] || InSignal(s.pcs[0]))
    ensures Distance(s.pcs[0]).Some?
  {
    InvHere(s, 0);
    assert !PhaseOf(s.pcs[0]).Ending?;
    match s.pcs[0]
    case Wr(pc) =>
    case Cl(pc) =>
    case Wk(pc) =>
  }

  // The worker's step brings it closer, or closes the gate.
  ghost predicate Closer(s: State, s': State, gate: nat)
    requires |s.pcs| > 0 && Distance(s.pcs[0]).Some?
  {
    || (gate < |s'.queue.gates| && !s'.queue.gates[gate])
    || (|s'.pcs| == |s.pcs| && s'.queue.gates == s.queue.gates && !Doomed(s')
        && Distance(s'.pcs[0]).Some? && Distance(s'.pcs[0]).value < Distance(s.pcs[0]).value)
  }

  lemma WriteCloser(s: State, pc: WritePc, s': State, gate: nat)
    requires Here(s, 0) && s.pcs[0] == Wr(pc) && CanProceed(s, 0) && !Doomed(s) && Distance(s.pcs[0]).Some?
    requires SocketInv(s) && s' == WriteStep(s, 0, pc, SMOOTH)
    ensures Closer(s, s', gate)
  {
  }

  lemma WorkCloser(s: State, pc: WorkPc, s': State, gate: nat)
    requires Here(s, 0) && s.pcs[0] == Wk(pc) && CanProceed(s, 0) && Distance(s.pcs[0]).Some?
    requires gate < |s.queue.gates| && gate == |s.queue.gates| - 1 && s.queue.gates[gate]
    requires s.queue.jobs != [] || InSignal(s.pcs[0])
    requires pc.WSignal? ==> s.queue.saturated
    requires s' == WorkStep(s, 0, pc)
    ensures Closer(s, s', gate)
  {
  }

  lemma WorkerComesCloser(s: State, t: nat, gate: nat, s': State)
    requires Inv(s) && SocketInv(s) && Blocked(s, t, gate) && !Doomed(s) && CanProceed(s, 0)
    requires Distance(s.pcs[0]).Some? && (s.queue.jobs != [] || InSignal(s.pcs[0])) && s' == Step(s, 0, SMOOTH)
    ensures Closer(s, s', gate)
  {
    InvHere(s, 0);
    match s.pcs[0]
    case Wr(pc) => WriteCloser(s, pc, s', gate);
    case Wk(pc) => WorkCloser(s, pc, s', gate);
  }

  // ---------------------------------------------------------------- the schedule

  // What holds while a waiter waits and nothing has failed.
  ghost predicate Waiting(s: State, t: nat, gate: nat) {
    && Inv(s) && SocketInv(s) && Blocked(s, t, gate) && !Doomed(s)
    && t > 0 && s.queue.started && (s.queue.jobs != [] || InSignal(s.pcs[0])) && Distance(s.pcs[0]).Some?
  }

  lemma WaitingFacts(run: seq<State>, t: nat, gate: nat)
    requires Run(run) && Blocked(Last(run), t, gate) && !Doomed(Last(run))
    ensures Waiting(Last(run), t, gate)
  {
    var i := |run| - 1;
    var u := NoWaiterLeftBehind(run, i, t, gate);
    RunKeepsInv(run, i);
    RunKeepsSocketInv(run, i);
    InvHere(run[i], t);
    OnTheWay(run[i]);
  }

  // Nearer to the worker's next signal, or as near and with less in its way.
  predicate Nearer(s: State, s': State)
    requires |s.pcs| > 0 && |s'.pcs| > 0 && Distance(s.pcs[0]).Some?
  {
    Distance(s'.pcs[0]).Some? &&
    var d, d' := Distance(s.pcs[0]).value, Distance(s'.pcs[0]).value;
    d' < d || (d' == d && Total(s'.pcs) < Total(s.pcs))
  }

  ghost predicate Served(s: State, gate: nat) { gate < |s.queue.gates| && !s.queue.gates[gate] }

  ghost predicate Advances(s: State, s': State, t: nat, gate: nat)
    requires |s.pcs| > 0 && Distance(s.pcs[0]).Some?
  {
    Served(s', gate) || (|s'.pcs| > 0 && Blocked(s', t, gate) && !Doomed(s') && Nearer(s, s'))
  }

  lemma WorkerAdvances(s: State, t: nat, gate: nat, s': State)
    requires Waiting(s, t, gate) && CanProceed(s, 0) && s' == Step(s, 0, SMOOTH)
    ensures Advances(s, s', t, gate)
  {
    WorkerComesCloser(s, t, gate, s');
    OthersStay(s, 0, SMOOTH, t);
  }

  lemma HolderAdvances(s: State, t: nat, gate: nat, u: nat, s': State)
    requires Waiting(s, t, gate) && !CanProceed(s, 0)
    requires 0 < u < |s.pcs| && HoldsSomething(s.pcs[u]) && CanProceed(s, u) && s' == Step(s, u, SMOOTH)
    ensures Advances(s, s', t, gate)
  {
    InvHere(s, u);
    StepApart(s, u, SMOOTH, s');
    StillBlocked(s, u, SMOOTH, s', t, gate);
    HolderRests(s, u, s');
    forall i | 0 < i < |s.pcs| && i != u ensures s'.pcs[i] == s.pcs[i] { OthersStay(s, u, SMOOTH, i); }
    TotalFalls(s.pcs, s'.pcs, u);
  }

  lemma Advance(run: seq<State>, t: nat, gate: nat) returns (run': seq<State>)
    requires Run(run) && Blocked(Last(run), t, gate) && !Doomed(Last(run))
    ensures Waiting(Last(run), t, gate)
    ensures Continues(run, run') && Advances(Last(run), Last(run'), t, gate)
  {
    WaitingFacts(run, t, gate);
    var s := Last(run);
    if CanProceed(s, 0) {
      run' := Extend(run, 0, SMOOTH);
      WorkerAdvances(s, t, gate, Last(run'));
    } else {
      var u := HolderCanProceed(s, 0);
      run' := Extend(run, u, SMOOTH);
      HolderAdvances(s, t, gate, u, Last(run'));
    }
  }

  function DistanceOf(s: State): nat {
    if |s.pcs| > 0 && Distance(s.pcs[0]).Some? then Distance(s.pcs[0]).value else 0
  }

  /** From any reachable state in which a waiter is blocked and the worker is not past a failed write, the run can
      go on so that the waiter's gate is closed. */
  lemma {:induction false} CanBeServed(run: seq<State>, t: nat, gate: nat) returns (run': seq<State>)
    requires Run(run) && Blocked(Last(run), t, gate) && !Doomed(Last(run))
    ensures Continues(run, run') && Served(Last(run'), gate)
    decreases DistanceOf(Last(run)), Total(Last(run).pcs)
  {
    var next := Advance(run, t, gate);
    if Served(Last(next), gate) {
      run' := next;
    } else {
      run' := CanBeServed(next, t, gate);
    }
  }

  /** A blocked waiter stays blocked however the run goes on exactly when the worker is past a failed write. */
  lemma LeftBehindExactly(run: seq<State>, t: nat, gate: nat)
    requires Run(run) && Blocked(Last(run), t, gate)
    ensures (forall run' :: Continues(run, run') ==> Blocked(Last(run'), t, gate)) <==> Doomed(Last(run))
  {
    if Doomed(Last(run)) {
      forall run' | Continues(run, run') ensures Blocked(Last(run'), t, gate) {
        assert run'[|run| - 1] == Last(run);
        LeftBehindForGood(run', |run| - 1, |run'| - 1, t, gate);
      }
    } else {
      var served := CanBeServed(run, t, gate);
      assert Continues(run, served) && !Blocked(Last(served), t, gate);
    }
  }
}
