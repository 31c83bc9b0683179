/** Lock ownership in the publication protocol: which thread holds what, who waits for whom. */
module PublicationLocks {
  import opened Options
  import opened Publication

  datatype Held = Held(q: bool, p: bool, w: bool, c: bool, r: bool)

  const NOTHING := Held(false, false, false, false, false)
  const JUST_Q := Held(true, false, false, false, false)
  const JUST_P := Held(false, true, false, false, false)
  const Q_AND_P := Held(true, true, false, false, false)

  function CallerHolds(k: Caller): Held { Held(k.Queued?, true, false, false, false) }

  function HoldsPub(pc: PubPc): Held {
    match pc
    case PubQ(_) => NOTHING
    case PubP(_) => JUST_Q
    case PubSetRev(_) => Held(true, true, false, true, false)
    case PubRetQ(_) => JUST_Q
    case _ => Q_AND_P
  }

  function HoldsPrep(pc: PrepPc): Held {
    match pc
    case Prep(k) => CallerHolds(k)
    case PrepCollect(k, _) => Held(k.Queued?, true, false, true, false)
    case PrepLeaf(k, _) => Held(k.Queued?, true, false, true, true)
    case Validate(k, _) => CallerHolds(k)
  }

  function HoldsDir(pc: DirPc): Held { if pc.DirP? then NOTHING else JUST_P }

  predicate DirectWrite(w: Write) { !w.Single? && w.owner.Publisher? }

  function WriterHolds(w: Write): Held { Held(false, DirectWrite(w), true, false, false) }

  function HoldsWrite(pc: WritePc): Held {
    match pc
    case PairW(owner, _) => if owner.Publisher? then JUST_P else NOTHING
    case SendW(_, _) => NOTHING
    case WriteC(w) => WriterHolds(w)
    case WriteOut(w) => WriterHolds(w)
    case WriteRel(w, _) => WriterHolds(w)
  }

  function CloserHolds(from: CloseFrom): Held {
    if from.AfterFailedWrite? then WriterHolds(from.w) else NOTHING
  }

  function HoldsClose(pc: ClosePc): Held { if pc.FailC? then NOTHING else CloserHolds(pc.from) }

  function HoldsLife(pc: LifePc): Held {
    match pc
    case QFail(_) => JUST_Q
    case QFailClose => JUST_Q
    case Shut => JUST_Q
    case ShutClose => JUST_Q
    case QRel(_) => JUST_Q
    case _ => NOTHING
  }

  function HoldsReady(pc: ReadyPc): Held {
    match pc
    case BusyP => JUST_Q
    case BusyC => Q_AND_P
    case BusyRelP => Q_AND_P
    case BusyRelQ => JUST_Q
    case NewC(_) => JUST_P
    case NewRel(_, _) => JUST_P
    case _ => NOTHING
  }

  function HoldsWork(pc: WorkPc): Held {
    match pc
    case WSignal(_) => JUST_Q
    case WSignalGate(_) => JUST_Q
    case WSignalRel(_) => JUST_Q
    case _ => NOTHING
  }

  // The locks a thread holds at a program counter.
  function Holds(pc: Pc): Held {
    match pc
    case Idle => NOTHING
    case Pub(p) => HoldsPub(p)
    case Pre(p) => HoldsPrep(p)
    case Dir(p) => HoldsDir(p)
    case Wr(p) => HoldsWrite(p)
    case Cl(p) => HoldsClose(p)
    case Lif(p) => HoldsLife(p)
    case Rdy(p) => HoldsReady(p)
    case Wk(p) => HoldsWork(p)
  }

  ghost predicate Agrees(h: Held, locks: Locks, t: nat) {
    && (h.q <==> locks.q == Some(t))
    && (h.p <==> locks.p == Some(t))
    && (h.w <==> locks.w == Some(t))
    && (h.c <==> locks.c == Some(t))
    && (h.r <==> locks.r == Some(t))
  }

  predicate OwnerBelow(o: Option<nat>, n: nat) { o.Some? ==> o.value < n }

  ghost predicate LockInv(s: State) {
    && (forall t | 0 <= t < |s.pcs| :: Agrees(Holds(s.pcs[t]), s.locks, t))
    && OwnerBelow(s.locks.q, |s.pcs|) && OwnerBelow(s.locks.p, |s.pcs|) && OwnerBelow(s.locks.w, |s.pcs|)
    && OwnerBelow(s.locks.c, |s.pcs|) && OwnerBelow(s.locks.r, |s.pcs|)
  }

  // A thread touches a lock only by taking it when free or giving up its own.
  predicate OwnMove(o: Option<nat>, o': Option<nat>, t: nat) {
    o' == o || ((o == None || o == Some(t)) && (o' == None || o' == Some(t)))
  }

  ghost predicate Moves(s: State, s': State, t: nat)
    requires t < |s.pcs|
  {
    && |s'.pcs| == |s.pcs|
    && s'.pcs == s.pcs[t := s'.pcs[t]]
    && OwnMove(s.locks.q, s'.locks.q, t) && OwnMove(s.locks.p, s'.locks.p, t) && OwnMove(s.locks.w, s'.locks.w, t)
    && OwnMove(s.locks.c, s'.locks.c, t) && OwnMove(s.locks.r, s'.locks.r, t)
    && Agrees(Holds(s'.pcs[t]), s'.locks, t)
  }

  lemma MovesKeepLocks(s: State, s': State, t: nat)
    requires t < |s.pcs| && LockInv(s) && Moves(s, s', t)
    ensures LockInv(s')
  {
    forall u | 0 <= u < |s'.pcs|
      ensures Agrees(Holds(s'.pcs[u]), s'.locks, u)
    {
      if u != t { assert Agrees(Holds(s.pcs[u]), s.locks, u); }
    }
  }

  // ---------------------------------------------------------------- who waits for whom

  datatype Lock = QueueMu | PublishMu | WriteMu | ClientMu | RegistryMu

  // The acquisition order.
  function Rank(l: Lock): nat {
    match l
    case QueueMu => 0
    case PublishMu => 1
    case WriteMu => 2
    case ClientMu => 3
    case RegistryMu => 4
  }

  function Has(h: Held, l: Lock): bool {
    match l
    case QueueMu => h.q
    case PublishMu => h.p
    case WriteMu => h.w
    case ClientMu => h.c
    case RegistryMu => h.r
  }

  function Owner(locks: Locks, l: Lock): Option<nat> {
    match l
    case QueueMu => locks.q
    case PublishMu => locks.p
    case WriteMu => locks.w
    case ClientMu => locks.c
    case RegistryMu => locks.r
  }

  function WantsPub(pc: PubPc): Option<Lock> {
    match pc
    case PubQ(nb) => if nb then None else Some(QueueMu)
    case PubP(nb) => if nb then None else Some(PublishMu)
    case PubAdmit(nb, _) => if nb then None else Some(ClientMu)
    case _ => None
  }

  function WantsPrep(pc: PrepPc): Option<Lock> {
    match pc
    case Prep(k) => if k.Queued? && k.nonBlocking then None else Some(ClientMu)
    case PrepCollect(_, _) => Some(RegistryMu)
    case _ => None
  }

  function WantsDir(pc: DirPc): Option<Lock> {
    match pc
    case DirP => Some(PublishMu)
    case DirCheck => Some(ClientMu)
    case DirAdmit(_) => Some(ClientMu)
    case DirRet(_) => None
  }

  function WantsWrite(pc: WritePc): Option<Lock> {
    match pc
    case PairW(_, _) => Some(WriteMu)
    case SendW(_, _) => Some(WriteMu)
    case WriteC(_) => Some(ClientMu)
    case _ => None
  }

  function WantsClose(pc: ClosePc): Option<Lock> {
    match pc
    case CloseC(_) => Some(ClientMu)
    case CloseReg(_, _) => Some(RegistryMu)
    case CloseSock(_, _) => None
    case FailC(_) => Some(ClientMu)
  }

  function WantsLife(pc: LifePc): Option<Lock> {
    match pc
    case LogC => Some(ClientMu)
    case QFailQ(_) => Some(QueueMu)
    case ShutQ => Some(QueueMu)
    case _ => None
  }

  function WantsReady(pc: ReadyPc): Option<Lock> {
    match pc
    case BusyQ => Some(QueueMu)
    case BusyP => Some(PublishMu)
    case BusyC => Some(ClientMu)
    case NewP(_) => Some(PublishMu)
    case NewC(_) => Some(ClientMu)
    case _ => None
  }

  function WantsWork(pc: WorkPc): Option<Lock> {
    match pc
    case WSignalQ(_) => Some(QueueMu)
    case WComplete(_) => Some(ClientMu)
    case WEndQ => Some(QueueMu)
    case _ => None
  }

  // The lock a thread is about to take with a blocking Lock(); TryLock never waits.
  function Wants(pc: Pc): Option<Lock> {
    match pc
    case Idle => None
    case Pub(p) => WantsPub(p)
    case Pre(p) => WantsPrep(p)
    case Dir(p) => WantsDir(p)
    case Wr(p) => WantsWrite(p)
    case Cl(p) => WantsClose(p)
    case Lif(p) => WantsLife(p)
    case Rdy(p) => WantsReady(p)
    case Wk(p) => WantsWork(p)
  }

  // Locks are taken in increasing rank only.
  lemma AcquisitionOrder(pc: Pc, m: Lock)
    requires Wants(pc).Some? && Has(Holds(pc), m)
    ensures Rank(m) < Rank(Wants(pc).value)
  {
  }

  predicate Finished(pc: Pc) { pc.Wk? && pc.work.WDone? }

  // Thread t cannot move before thread u does: u holds the lock t wants, or t is a Shutdown waiting for
  // the worker u to stop.
  predicate WaitsFor(s: State, t: nat, u: nat)
    requires t < |s.pcs| && |s.pcs| > 0
  {
    || (Wants(s.pcs[t]).Some? && Owner(s.locks, Wants(s.pcs[t]).value) == Some(u))
    || (s.pcs[t] == Lif(ShutWait) && u == 0 && !Finished(s.pcs[0]))
  }

  ghost predicate WaitCycle(s: State, ts: seq<nat>) {
    && |ts| > 0 && |s.pcs| > 0
    && (forall i | 0 <= i < |ts| :: ts[i] < |s.pcs|)
    && (forall i | 0 <= i < |ts| - 1 :: WaitsFor(s, ts[i], ts[i + 1]))
    && WaitsFor(s, ts[|ts| - 1], ts[0])
  }

  // The thread waited for is not a Shutdown; if it waits for a lock, that lock ranks higher.
  lemma WaitClimbs(s: State, t: nat, u: nat)
    requires LockInv(s) && |s.pcs| > 0 && s.pcs[0] != Lif(ShutWait)
    requires t < |s.pcs| && u < |s.pcs| && WaitsFor(s, t, u)
    ensures s.pcs[u] != Lif(ShutWait)
    ensures Wants(s.pcs[t]).Some? && Wants(s.pcs[u]).Some? && s.pcs[t] != Lif(ShutWait) ==>
              Rank(Wants(s.pcs[t]).value) < Rank(Wants(s.pcs[u]).value)
  {
    assert Agrees(Holds(s.pcs[u]), s.locks, u);
    if s.pcs[t] != Lif(ShutWait) && Wants(s.pcs[u]).Some? {
      AcquisitionOrder(s.pcs[u], Wants(s.pcs[t]).value);
    }
  }

  // Along a chain of waiting threads that starts with a wait for a lock, every thread waits for a lock and
  // the ranks climb.
  lemma {:induction false} RanksClimb(s: State, ts: seq<nat>, k: nat)
    requires LockInv(s) && |s.pcs| > 0 && s.pcs[0] != Lif(ShutWait) && k < |ts|
    requires forall i | 0 <= i < |ts| :: ts[i] < |s.pcs|
    requires forall i | 0 <= i < k :: WaitsFor(s, ts[i], ts[i + 1])
    requires s.pcs[ts[0]] != Lif(ShutWait) && Wants(s.pcs[ts[0]]).Some?
    requires Wants(s.pcs[ts[k]]).Some? || s.pcs[ts[k]] == Lif(ShutWait)
    ensures s.pcs[ts[k]] != Lif(ShutWait) && Wants(s.pcs[ts[k]]).Some?
    ensures Rank(Wants(s.pcs[ts[0]]).value) + k <= Rank(Wants(s.pcs[ts[k]]).value)
  {
    if k > 0 {
      assert WaitsFor(s, ts[k - 1], ts[k]);
      RanksClimb(s, ts, k - 1);
      WaitClimbs(s, ts[k - 1], ts[k]);
    }
  }

  lemma NoWaitCycle(s: State, ts: seq<nat>)
    requires LockInv(s) && |s.pcs| > 0 && s.pcs[0] != Lif(ShutWait)
    ensures !WaitCycle(s, ts)
  {
    if WaitCycle(s, ts) {
      var k := |ts| - 1;
      WaitClimbs(s, ts[k], ts[0]);
      assert |ts| > 1 ==> WaitsFor(s, ts[0], ts[0 + 1]);
      RanksClimb(s, ts, k);
    }
  }

  // ---------------------------------------------------------------- some holder can always move

  predicate HoldsSomething(pc: Pc) { Holds(pc) != NOTHING }

  predicate CanProceed(s: State, t: nat)
    requires t < |s.pcs|
  {
    Wants(s.pcs[t]).Some? ==> Owner(s.locks, Wants(s.pcs[t]).value).None?
  }

  // Following the owners from any waiting thread ends at a thread that waits for no held lock.
  lemma {:induction false} HolderCanProceed(s: State, t: nat) returns (u: nat)
    requires LockInv(s) && t < |s.pcs| && !CanProceed(s, t)
    ensures u < |s.pcs| && HoldsSomething(s.pcs[u]) && CanProceed(s, u)
    decreases 5 - Rank(Wants(s.pcs[t]).value)
  {
    u := Owner(s.locks, Wants(s.pcs[t]).value).value;
    assert Agrees(Holds(s.pcs[u]), s.locks, u);
    if !CanProceed(s, u) {
      AcquisitionOrder(s.pcs[u], Wants(s.pcs[t]).value);
      u := HolderCanProceed(s, u);
    }
  }
}
