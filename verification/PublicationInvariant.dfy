/** The inductive invariant of the publication protocol. */
module PublicationInvariant {
  import opened Options
  import opened Publication
  import opened PublicationLocks

  // ---------------------------------------------------------------- the wire, seen as semantic frames

  predicate IsSemantic(f: Frame) { f.Full? || f.Commit? }

  // The tree and commit frames of a stream, in order.
  function Semantic(wire: seq<Frame>): seq<Frame> {
    if wire == [] then []
    else
      var rest := Semantic(wire[..|wire| - 1]);
      if IsSemantic(wire[|wire| - 1]) then rest + [wire[|wire| - 1]] else rest
  }

  // full(1), commit(1), full(2), commit(2), ...
  function Nth(i: nat): Frame {
    if i % 2 == 0 then Full(i / 2 + 1) else Commit(i / 2 + 1)
  }

  ghost predicate InOrder(frames: seq<Frame>) {
    forall i | 0 <= i < |frames| :: frames[i] == Nth(i)
  }

  // A tree is followed by nothing but its own commit, whole or cut short.
  ghost predicate Paired(wire: seq<Frame>) {
    forall i | 0 <= i < |wire| - 1 && wire[i].Full? ::
      wire[i + 1] == Commit(wire[i].rev) || wire[i + 1] == Fragment(Commit(wire[i].rev))
  }

  ghost predicate FragmentLast(wire: seq<Frame>) {
    forall i | 0 <= i < |wire| && wire[i].Fragment? :: i == |wire| - 1
  }

  // Every fatal frame stands after exactly `n` semantic frames.
  ghost predicate FatalAfter(wire: seq<Frame>, n: int) {
    forall i | 0 <= i < |wire| && wire[i] == Fatal :: |Semantic(wire[..i])| == n
  }

  // ---------------------------------------------------------------- shapes of program counters

  predicate WorkersWrite(w: Write) {
    if w.Single? then w.frame == Fatal else w.owner.Worker?
  }

  predicate WorkersClose(from: CloseFrom) {
    match from
    case AfterFailedWrite(w) => WorkersWrite(w)
    case ByUser => false
    case ByWorker(_) => true
  }

  predicate IsWorkerWrite(pc: WritePc) {
    match pc
    case PairW(owner, _) => owner.Worker?
    case SendW(f, _) => f == Fatal
    case WriteC(w) => WorkersWrite(w)
    case WriteOut(w) => WorkersWrite(w)
    case WriteRel(w, _) => WorkersWrite(w)
  }

  predicate IsWorkerClose(pc: ClosePc) {
    if pc.FailC? then pc.frame == Fatal else WorkersClose(pc.from)
  }

  // The program counters only the worker visits.
  predicate IsWorker(pc: Pc) {
    match pc
    case Wr(p) => IsWorkerWrite(p)
    case Cl(p) => IsWorkerClose(p)
    case Wk(_) => true
    case _ => false
  }

  predicate SingleFrame(f: Frame, closing: bool) {
    f == Record || f == Report || (f == Fatal && closing)
  }

  predicate WriteOk(w: Write) { w.Single? ==> SingleFrame(w.frame, w.closing) }

  predicate WritePcOk(pc: WritePc) {
    match pc
    case PairW(_, _) => true
    case SendW(f, closing) => SingleFrame(f, closing)
    case WriteC(w) => WriteOk(w)
    case WriteOut(w) => WriteOk(w)
    case WriteRel(w, ok) => WriteOk(w) && (w.TreeOf? ==> !ok)
  }

  predicate ClosePcOk(pc: ClosePc) {
    if pc.FailC? then SingleFrame(pc.frame, true)
    else pc.from.AfterFailedWrite? ==> WriteOk(pc.from.w)
  }

  predicate PcOk(pc: Pc) {
    match pc
    case Wr(p) => WritePcOk(p)
    case Cl(p) => ClosePcOk(p)
    case Rdy(p) => p.NewP? || p.NewC? || p.NewRel? || p.NewStart? ==> p.cap > 0
    case _ => true
  }

  // The call that won the right to build the queue.
  predicate NewOwner(pc: Pc) { pc.Rdy? && (pc.ready.NewStart? || (pc.ready.NewRel? && pc.ready.ok)) }

  // Program counters of operations on an existing queue.
  predicate NeedsQueue(pc: Pc) {
    match pc
    case Pub(_) => true
    case Pre(p) => p.k.Queued?
    case Lif(p) => !p.LogC?
    case Rdy(p) => p.DropLoad? || p.DropWait?
    case _ => false
  }

  ghost predicate PcInv(pc: Pc, t: nat, started: bool, queued: bool) {
    && PcOk(pc)
    && (IsWorker(pc) <==> t == 0)
    && (NeedsQueue(pc) ==> started)
    && (NewOwner(pc) ==> queued && !started)
  }

  ghost predicate ShapeInv(s: State) {
    && |s.pcs| > 0
    && (forall t | 0 <= t < |s.pcs| :: PcInv(s.pcs[t], t, s.queue.started, s.client.queued))
    && (forall t, u | 0 <= t < |s.pcs| && 0 <= u < |s.pcs| && NewOwner(s.pcs[t]) && NewOwner(s.pcs[u]) :: t == u)
    && (s.pcs[0] == Wk(WNone) <==> !s.queue.started)
    && (s.queue.started ==> s.client.queued)
  }

  // ---------------------------------------------------------------- who holds a lock

  function At(pcs: seq<Pc>, owner: Option<nat>): Pc {
    if owner.Some? && owner.value < |pcs| then pcs[owner.value] else Idle
  }

  function QHolder(s: State): Pc { At(s.pcs, s.locks.q) }
  function PHolder(s: State): Pc { At(s.pcs, s.locks.p) }
  function WHolder(s: State): Pc { At(s.pcs, s.locks.w) }

  // ---------------------------------------------------------------- the queue's channels and gates

  predicate AboutToClose(pc: Pc) { pc.Lif? && (pc.life.QFailClose? || pc.life.ShutClose?) }

  predicate Admitting(pc: Pc) { pc.Pre? || (pc.Pub? && pc.pub.PubAdmit?) }

  ghost predicate ChannelInv(s: State) {
    var q := QHolder(s);
    && !s.hist.panicked
    && (AboutToClose(q) <==> s.queue.closed && !s.queue.jobsClosed)
    && (s.queue.jobsClosed ==> s.queue.closed)
    && (Admitting(q) ==> !s.queue.closed)
  }

  // The revision a queued call was admitted under and has not yet returned.
  function Pending(pc: Pc): Option<int> {
    match pc
    case Pub(PubSetRev(rev)) => Some(rev)
    case Pub(PubRetP(Marker(rev))) => Some(rev)
    case Pub(PubRetQ(Marker(rev))) => Some(rev)
    case _ => None
  }

  ghost predicate MarkerInv(s: State) {
    match Pending(QHolder(s))
    case Some(rev) => s.hist.admitted == s.hist.markers + [rev]
    case None => s.hist.admitted == s.hist.markers
  }

  ghost predicate OnlyLastOpen(gates: seq<bool>) {
    forall i | 0 <= i < |gates| - 1 :: !gates[i]
  }

  predicate Open(gates: seq<bool>) { |gates| > 0 && gates[|gates| - 1] }

  // The worker has received a job and not yet passed its signal.
  predicate Signalling(pc: Pc) { pc.Wk? && (pc.work.WSignalQ? || pc.work.WSignal?) }

  ghost predicate GateInv(s: State)
    requires |s.pcs| > 0
  {
    var q := QHolder(s);
    && OnlyLastOpen(s.queue.gates)
    && (s.queue.started <==> |s.queue.gates| > 0)
    && (if q == Pub(PubGate) then s.queue.saturated && !Open(s.queue.gates)
        else if q.Wk? && q.work.WSignalGate? then !s.queue.saturated && Open(s.queue.gates)
        else s.queue.saturated <==> Open(s.queue.gates))
    && (s.queue.saturated || q == Pub(PubFull) ==> s.queue.jobs != [] || Signalling(s.pcs[0]))
  }

  // ---------------------------------------------------------------- revisions and jobs

  // The revision a thread prepared and not yet published.
  function PreparedRev(pc: Pc): Option<int> {
    match pc
    case Pre(PrepCollect(_, rev)) => Some(rev)
    case Pre(PrepLeaf(_, rev)) => Some(rev)
    case Pre(Validate(_, rev)) => Some(rev)
    case Pub(PubAdmit(_, rev)) => Some(rev)
    case Pub(PubSetRev(rev)) => Some(rev)
    case Dir(DirAdmit(rev)) => Some(rev)
    case Wr(p) => WritingRev(p)
    case Cl(p) => if !p.FailC? && p.from.AfterFailedWrite? then WriteRev(p.from.w) else None
    case _ => None
  }

  function WriteRev(w: Write): Option<int> { if w.Single? then None else Some(w.rev) }

  function WritingRev(pc: WritePc): Option<int> {
    match pc
    case PairW(_, rev) => Some(rev)
    case SendW(_, _) => None
    case WriteC(w) => WriteRev(w)
    case WriteOut(w) => WriteRev(w)
    case WriteRel(w, _) => WriteRev(w)
  }

  ghost predicate RevisionInv(s: State) {
    var p := PHolder(s);
    && (PreparedRev(p).Some? ==> PreparedRev(p).value == s.client.revision + 1)
    && (s.queue.started ==>
          s.hist.r0 + |s.hist.admitted|
          == s.client.revision + if p.Pub? && p.pub.PubSetRev? then 1 else 0)
  }

  // What the worker is doing with the revision it received last.
  datatype Phase = NotStarted | Between | OnTree(rev: int) | OnCommit(rev: int) | Finished(rev: int) | Ending | Broken

  function PairPhase(w: Write): Phase {
    match w
    case TreeOf(_, rev) => OnTree(rev)
    case CommitOf(_, rev) => OnCommit(rev)
    case Single(_, _) => Ending
  }

  function WritePhase(pc: WritePc): Phase {
    match pc
    case PairW(_, rev) => OnTree(rev)
    case SendW(_, _) => Ending
    case WriteC(w) => PairPhase(w)
    case WriteOut(w) => PairPhase(w)
    case WriteRel(w, ok) => if w.CommitOf? && ok then Finished(w.rev) else PairPhase(w)
  }

  function ClosePhase(pc: ClosePc): Phase {
    if pc.FailC? then Ending
    else match pc.from
      case AfterFailedWrite(w) => PairPhase(w)
      case ByUser => Ending
      case ByWorker(failed) => if failed then Broken else Ending
  }

  function WorkPhase(pc: WorkPc): Phase {
    match pc
    case WNone => NotStarted
    case WRecv => Between
    case WSignalQ(rev) => OnTree(rev)
    case WSignal(rev) => OnTree(rev)
    case WSignalGate(rev) => OnTree(rev)
    case WSignalRel(rev) => OnTree(rev)
    case WComplete(rev) => Finished(rev)
    case WFailed => Broken
    case WEndQ => Ending
    case WDone(failed) => if failed then Broken else Ending
  }

  function PhaseOf(pc: Pc): Phase {
    match pc
    case Wr(p) => WritePhase(p)
    case Cl(p) => ClosePhase(p)
    case Wk(p) => WorkPhase(p)
    case _ => NotStarted
  }

  ghost predicate Consecutive(revs: seq<int>, first: int) {
    forall i | 0 <= i < |revs| :: revs[i] == first + i
  }

  ghost predicate JobsInv(s: State)
    requires |s.pcs| > 0
  {
    && s.hist.taken <= |s.hist.admitted|
    && Consecutive(s.hist.admitted, s.hist.r0 + 1)
    && s.queue.jobs == s.hist.admitted[s.hist.taken..]
    && |s.queue.jobs| <= s.queue.capacity
    && (if s.queue.started then s.queue.capacity > 0
        else s.hist.admitted == [] && !s.queue.closed)
    && (PhaseOf(s.pcs[0]).Ending? ==> s.queue.jobsClosed && s.queue.jobs == [])
  }

  // How many tree and commit frames have been passed to the connection when the worker is in a phase.
  ghost predicate PhaseInv(ph: Phase, h: History, conn: bool) {
    var last := h.r0 + h.taken;
    match ph
    case NotStarted => true
    case Between => h.handled == 2 * last
    case OnTree(rev) => rev == last && h.handled == 2 * last - 2
    case OnCommit(rev) => rev == last && h.handled == 2 * last - 1
    case Finished(rev) => rev == last && h.handled == 2 * last
    case Ending => h.handled == 2 * last
    case Broken => h.handled <= 2 * last && !conn
  }

  ghost predicate WorkerInv(s: State)
    requires |s.pcs| > 0
  {
    PhaseInv(PhaseOf(s.pcs[0]), s.hist, s.client.conn)
  }

  // The phase of a direct Client.Publish; a call that is not past its preparation has none.
  function DirectPhase(pc: Pc): Phase {
    match pc
    case Pre(p) => if p.k.Direct? && !p.Prep? then OnTree(p.rev) else NotStarted
    case Dir(DirAdmit(rev)) => Finished(rev)
    case Wr(p) => WritePhase(p)
    case Cl(p) => ClosePhase(p)
    case _ => NotStarted
  }

  ghost predicate DirectInv(s: State) {
    var ph := DirectPhase(PHolder(s));
    if ph.NotStarted? then
      && (PHolder(s) == Pre(Prep(Direct)) ==> !s.client.queued)
      && (s.queue.started || s.hist.handled <= 2 * s.client.revision + 2)
      && (!s.queue.started && (s.client.conn || s.client.queued) ==> s.hist.handled == 2 * s.client.revision)
    else
      && !s.client.queued
      && (match ph
          case OnTree(_) => s.hist.handled == 2 * s.client.revision
          case OnCommit(_) => s.hist.handled == 2 * s.client.revision + 1
          case Finished(_) => s.hist.handled == 2 * s.client.revision + 2
          case _ => false)
  }

  // ---------------------------------------------------------------- the wire

  // The write in progress failed; its thread still holds writeMu and has not closed the client yet.
  predicate Failing(pc: Pc) { pc.Cl? && pc.cl.CloseC? }

  predicate CommitNext(pc: Pc, rev: int) {
    pc.Wr? && (pc.wr.WriteC? || pc.wr.WriteOut?) && pc.wr.w.CommitOf? && pc.wr.w.rev == rev
  }

  // The stream ends at a frame boundary and, unless a commit is about to follow, at a pair boundary.
  ghost predicate Clean(h: History, w: Pc) {
    && |Semantic(h.wire)| == h.handled
    && (h.wire != [] ==>
          var last := h.wire[|h.wire| - 1];
          !last.Fragment? && (last.Full? ==> CommitNext(w, last.rev)))
  }

  // The write has failed and the client is closed.
  predicate FailedWrite(pc: Pc) {
    (pc.Cl? && !pc.cl.CloseC?) || (pc.Wr? && pc.wr.WriteRel? && !pc.wr.ok)
  }

  ghost predicate WireInv(s: State) {
    var w := WHolder(s);
    && InOrder(Semantic(s.hist.wire))
    && |Semantic(s.hist.wire)| <= s.hist.handled
    && Paired(s.hist.wire)
    && FragmentLast(s.hist.wire)
    && (s.client.conn && !Failing(w) ==> Clean(s.hist, w))
    && (w.Wr? && w.wr.WriteOut? ==> Clean(s.hist, w))
    && (FailedWrite(w) ==> !s.client.conn)
  }

  ghost predicate FatalInv(s: State) {
    && FatalAfter(s.hist.wire, 2 * (s.hist.r0 + |s.hist.admitted|))
    && (Fatal in s.hist.wire ==> s.queue.jobsClosed)
  }

  ghost predicate Inv(s: State) {
    && LockInv(s) && ShapeInv(s) && ChannelInv(s) && MarkerInv(s) && GateInv(s)
    && RevisionInv(s) && JobsInv(s) && WorkerInv(s) && DirectInv(s) && WireInv(s) && FatalInv(s)
  }
}
