/** The asynchronous semantic publication protocol of the Go client as a step system.

    Any number of threads run the client's and the queue's operations.  Acquiring a lock, a channel
    operation, an access to an atomic and a socket write are steps of their own; a critical section that
    takes no further lock and touches only what its lock protects is one step.  Thread 0 is the worker. */
module Publication {
  import opened Options

  // ---------------------------------------------------------------- what travels on the wire

  // `Fatal` is the typed error the worker sends for `PublicationQueue.Fail`; `Report` any other error
  // frame; `Record` a log record.  `Fragment` is what a failed write left of a frame.
  datatype Frame = Full(rev: int) | Commit(rev: int) | Record | Report | Fatal | Fragment(of: Frame)

  datatype Outcome =
    | Marker(rev: int) | NoSession | Busy | WorkerFailed | QueueClosed | QueueFull | Invalid
    | OwnedByQueue | WriteFailed

  // ---------------------------------------------------------------- program counters

  // Who runs preparePublicationMode: a queued call (blocking or try) or a direct Client.Publish.
  datatype Caller = Queued(nonBlocking: bool) | Direct

  // Who runs writePublication.
  datatype PairOwner = Worker | Publisher

  // The frame writeEncodedFrame is working on.  `closing`: the sender closes the client afterwards.
  datatype Write =
    | TreeOf(owner: PairOwner, rev: int)
    | CommitOf(owner: PairOwner, rev: int)
    | Single(frame: Frame, closing: bool)

  datatype CloseFrom = AfterFailedWrite(w: Write) | ByUser | ByWorker(transportFailed: bool)

  // PublicationQueue.Publish and TryPublish
  datatype PubPc =
    | PubQ(nonBlocking: bool) | PubP(nonBlocking: bool) | PubCheck(nonBlocking: bool)
    | PubAdmit(nonBlocking: bool, rev: int) | PubSetRev(rev: int) | PubFull | PubGate
    | PubRetP(out: Outcome) | PubRetQ(out: Outcome)

  // preparePublicationMode
  datatype PrepPc =
    | Prep(k: Caller) | PrepCollect(k: Caller, rev: int) | PrepLeaf(k: Caller, rev: int) | Validate(k: Caller, rev: int)

  // Client.Publish
  datatype DirPc = DirP | DirCheck | DirAdmit(rev: int) | DirRet(out: Outcome)

  // writePublication, send and writeEncodedFrame
  datatype WritePc =
    | PairW(owner: PairOwner, rev: int) | SendW(frame: Frame, closing: bool)
    | WriteC(w: Write) | WriteOut(w: Write) | WriteRel(w: Write, ok: bool)

  // Client.Close and Client.Fail
  datatype ClosePc =
    | CloseC(from: CloseFrom) | CloseReg(from: CloseFrom, had: bool) | CloseSock(from: CloseFrom, had: bool)
    | FailC(frame: Frame)

  // Client.Log, PublicationQueue.Fail and Shutdown
  datatype LifePc =
    | LogC
    | QFailQ(code: bool) | QFail(code: bool) | QFailClose
    | ShutQ | Shut | ShutClose | QRel(wait: bool) | ShutWait

  // ReadyAfterBusy, ReadyAfterDrop and NewPublicationQueue
  datatype ReadyPc =
    | BusyQ | BusyP | BusyC | BusyRelP | BusyRelQ
    | DropLoad | DropWait(gate: nat)
    | NewP(cap: nat) | NewC(cap: nat) | NewRel(cap: nat, ok: bool) | NewStart(cap: nat)

  // PublicationQueue.run
  datatype WorkPc =
    | WNone | WRecv | WSignalQ(rev: int) | WSignal(rev: int) | WSignalGate(rev: int) | WSignalRel(rev: int)
    | WComplete(rev: int) | WFailed | WEndQ | WDone(transportFailed: bool)

  datatype Pc =
    | Idle | Pub(pub: PubPc) | Pre(pre: PrepPc) | Dir(dir: DirPc) | Wr(wr: WritePc) | Cl(cl: ClosePc)
    | Lif(life: LifePc) | Rdy(ready: ReadyPc) | Wk(work: WorkPc)

  // ---------------------------------------------------------------- state

  // The owner of each lock: queue mu, publishMu, writeMu, client mu and the provider registry's leaf lock.
  datatype Locks = Locks(q: Option<nat>, p: Option<nat>, w: Option<nat>, c: Option<nat>, r: Option<nat>)

  datatype Client = Client(
    conn: bool,          // c.conn != nil && !c.closed
    socket: bool,        // the descriptor itself is open
    revision: int,
    queued: bool)        // c.queuedPublisher

  datatype Queue = Queue(
    started: bool,
    capacity: nat,
    jobs: seq<int>,
    jobsClosed: bool,
    closed: bool,
    failed: bool,
    fatalCode: bool,     // q.fatalCode != ""
    saturated: bool,
    gates: seq<bool>,    // every readiness gate made so far, true while open; the last one is current
    drops: nat)

  datatype History = History(
    panicked: bool,      // a send on or a close of a closed channel
    r0: int,             // the revision the queue took over at
    admitted: seq<int>,  // revisions sent into the jobs channel
    taken: nat,          // how many of them the worker received
    handled: nat,        // tree and commit frames for which writeEncodedFrame returned nil
    markers: seq<int>,   // markers returned by queued calls
    wire: seq<Frame>)

  datatype State = State(pcs: seq<Pc>, locks: Locks, client: Client, queue: Queue, hist: History) {

    function Go(t: nat, pc: Pc): State
      requires t < |pcs|
    {
      this.(pcs := pcs[t := pc])
    }
  }

  ghost predicate Init(s: State) {
    && |s.pcs| > 0 && s.pcs[0] == Wk(WNone)
    && (forall t | 0 < t < |s.pcs| :: s.pcs[t] == Idle)
    && s.locks == Locks(None, None, None, None, None)
    && s.client == Client(true, true, 0, false)
    && s.queue == Queue(false, 0, [], false, false, false, false, false, [], 0)
    && s.hist == History(false, 0, [], 0, 0, [], [])
  }

  datatype Call =
    | CallPublish(nonBlocking: bool) | CallDirect | CallLog | CallClientFail | CallReaderError | CallClose
    | CallQueueFail(code: bool) | CallShutdown | CallReadyAfterBusy | CallReadyAfterDrop | CallNew(cap: nat)

  // What the environment decides: which call an idle thread makes, whether a snapshot validates, a record
  // is within budget or a write succeeds, and whether a failed write left bytes behind.
  datatype Choice = Choice(call: Call, good: bool, fragment: bool)

  function Entry(started: bool, call: Call): Pc {
    match call
    case CallPublish(nb) => if started then Pub(PubQ(nb)) else Idle
    case CallDirect => Dir(DirP)
    case CallLog => Lif(LogC)
    case CallClientFail => Cl(FailC(Report))
    case CallReaderError => Wr(SendW(Report, true))
    case CallClose => Cl(CloseC(ByUser))
    case CallQueueFail(code) => if started then Lif(QFailQ(code)) else Idle
    case CallShutdown => if started then Lif(ShutQ) else Idle
    case CallReadyAfterBusy => if started then Rdy(BusyQ) else Idle
    case CallReadyAfterDrop => if started then Rdy(DropLoad) else Idle
    case CallNew(cap) => if cap > 0 then Rdy(NewP(cap)) else Idle
  }

  // ---------------------------------------------------------------- the steps
  // A thread that has to wait leaves the state as it is.

  function PubStep(s: State, t: nat, pc: PubPc): State
    requires t < |s.pcs|
  {
    match pc
    case PubQ(nb) =>
      if s.locks.q.None? then s.(locks := s.locks.(q := Some(t))).Go(t, Pub(PubP(nb)))
      else if nb then s.Go(t, Idle) else s
    case PubP(nb) =>
      if s.locks.p.None? then s.(locks := s.locks.(p := Some(t))).Go(t, Pub(PubCheck(nb)))
      else if nb then s.Go(t, Pub(PubRetQ(Busy))) else s
    case PubCheck(nb) =>
      if s.queue.failed then s.Go(t, Pub(PubRetP(WorkerFailed)))
      else if s.queue.closed then s.Go(t, Pub(PubRetP(QueueClosed)))
      else s.Go(t, Pre(Prep(Queued(nb))))
    case PubAdmit(nb, rev) => AdmitStep(s, t, nb, rev)
    case PubSetRev(rev) =>
      s.(client := s.client.(revision := rev), locks := s.locks.(c := None)).Go(t, Pub(PubRetP(Marker(rev))))
    case PubFull =>
      var q := s.queue.(drops := s.queue.drops + 1);
      if q.saturated then s.(queue := q).Go(t, Pub(PubRetP(QueueFull)))
      else s.(queue := q.(saturated := true)).Go(t, Pub(PubGate))
    case PubGate =>
      s.(queue := s.queue.(gates := s.queue.gates + [true])).Go(t, Pub(PubRetP(QueueFull)))
    case PubRetP(out) => s.(locks := s.locks.(p := None)).Go(t, Pub(PubRetQ(out)))
    case PubRetQ(out) =>
      s.(hist := if out.Marker? then s.hist.(markers := s.hist.markers + [out.rev]) else s.hist,
         locks := s.locks.(q := None)).Go(t, Idle)
  }

  // The admission: client mu, the liveness check, the revision recheck and the non-blocking send.
  function AdmitStep(s: State, t: nat, nb: bool, rev: int): State
    requires t < |s.pcs|
  {
    if s.locks.c.Some? then (if nb then s.Go(t, Pub(PubRetP(Busy))) else s)
    else if !s.client.conn then s.Go(t, Pub(PubRetP(QueueClosed)))
    else if rev != s.client.revision + 1 then s.Go(t, Pub(PubRetP(Busy)))
    else if |s.queue.jobs| < s.queue.capacity then
      s.(locks := s.locks.(c := Some(t)),
         queue := s.queue.(jobs := s.queue.jobs + [rev]),
         hist := s.hist.(admitted := s.hist.admitted + [rev],
                         panicked := s.hist.panicked || s.queue.jobsClosed))
      .Go(t, Pub(PubSetRev(rev)))
    else s.Go(t, Pub(PubFull))
  }

  // Where a call goes once preparation produced no publication.
  function Refuse(k: Caller, out: Outcome): Pc {
    if k.Queued? then Pub(PubRetP(out)) else Dir(DirRet(out))
  }

  function PrepStep(s: State, t: nat, pc: PrepPc, c: Choice): State
    requires t < |s.pcs|
  {
    match pc
    case Prep(k) =>
      if s.locks.c.Some? then
        (if k.Queued? && k.nonBlocking then s.Go(t, Pub(PubRetP(Busy))) else s)
      else if !s.client.conn then s.Go(t, Refuse(k, NoSession))
      else s.(locks := s.locks.(c := Some(t))).Go(t, Pre(PrepCollect(k, s.client.revision + 1)))
    case PrepCollect(k, rev) =>
      if s.locks.r.Some? then s else s.(locks := s.locks.(r := Some(t))).Go(t, Pre(PrepLeaf(k, rev)))
    case PrepLeaf(k, rev) =>
      if c.good then s.(locks := s.locks.(r := None, c := None)).Go(t, Pre(Validate(k, rev)))
      else s.(locks := s.locks.(r := None)).Go(t, Pre(PrepCollect(k, rev)))   // the next provider
    case Validate(k, rev) =>
      if !c.good then s.Go(t, Refuse(k, Invalid))
      else if k.Queued? then s.Go(t, Pub(PubAdmit(k.nonBlocking, rev)))
      else s.Go(t, Wr(PairW(Publisher, rev)))
  }

  function DirStep(s: State, t: nat, pc: DirPc): State
    requires t < |s.pcs|
  {
    match pc
    case DirP => if s.locks.p.Some? then s else s.(locks := s.locks.(p := Some(t))).Go(t, Dir(DirCheck))
    case DirCheck =>
      if s.locks.c.Some? then s
      else if s.client.queued then s.Go(t, Dir(DirRet(OwnedByQueue)))
      else s.Go(t, Pre(Prep(Direct)))
    case DirAdmit(rev) =>
      if s.locks.c.Some? then s
      else s.(client := s.client.(revision := rev)).Go(t, Dir(DirRet(Marker(rev))))
    case DirRet(_) => s.(locks := s.locks.(p := None)).Go(t, Idle)
  }

  function FrameOf(w: Write): Frame {
    match w
    case TreeOf(_, rev) => Full(rev)
    case CommitOf(_, rev) => Commit(rev)
    case Single(f, _) => f
  }

  // writeEncodedFrame returned nil: a tree is followed by its commit, everything else gives up writeMu.
  function Written(s: State, t: nat, w: Write): State
    requires t < |s.pcs|
  {
    match w
    case TreeOf(owner, rev) =>
      s.(hist := s.hist.(handled := s.hist.handled + 1)).Go(t, Wr(WriteC(CommitOf(owner, rev))))
    case CommitOf(_, _) => s.(hist := s.hist.(handled := s.hist.handled + 1)).Go(t, Wr(WriteRel(w, true)))
    case Single(_, _) => s.Go(t, Wr(WriteRel(w, true)))
  }

  // The thread's next program counter once writeMu is released.
  function AfterWrite(w: Write, ok: bool): Pc {
    match w
    case Single(f, closing) =>
      if closing then Cl(CloseC(if f == Fatal then ByWorker(false) else ByUser)) else Idle
    case TreeOf(Worker, _) => Wk(WFailed)
    case CommitOf(Worker, rev) => if ok then Wk(WComplete(rev)) else Wk(WFailed)
    case TreeOf(Publisher, _) => Dir(DirRet(WriteFailed))
    case CommitOf(Publisher, rev) => if ok then Dir(DirAdmit(rev)) else Dir(DirRet(WriteFailed))
  }

  // The socket write: complete, or cut short after some or no bytes, in which case the client is closed.
  function PutStep(s: State, t: nat, w: Write, c: Choice): State
    requires t < |s.pcs|
  {
    if c.good && s.client.socket then
      Written(s.(hist := s.hist.(wire := s.hist.wire + [FrameOf(w)])), t, w)
    else if c.fragment && s.client.socket then
      s.(hist := s.hist.(wire := s.hist.wire + [Fragment(FrameOf(w))])).Go(t, Cl(CloseC(AfterFailedWrite(w))))
    else s.Go(t, Cl(CloseC(AfterFailedWrite(w))))
  }

  function WriteStep(s: State, t: nat, pc: WritePc, c: Choice): State
    requires t < |s.pcs|
  {
    match pc
    case PairW(owner, rev) =>
      if s.locks.w.Some? then s else s.(locks := s.locks.(w := Some(t))).Go(t, Wr(WriteC(TreeOf(owner, rev))))
    case SendW(f, closing) =>
      if s.locks.w.Some? then s else s.(locks := s.locks.(w := Some(t))).Go(t, Wr(WriteC(Single(f, closing))))
    case WriteC(w) =>
      if s.locks.c.Some? then s
      else if s.client.conn then s.Go(t, Wr(WriteOut(w)))   // the connection is captured
      else Written(s, t, w)                                 // no connection: success without writing
    case WriteOut(w) => PutStep(s, t, w, c)
    case WriteRel(w, ok) => s.(locks := s.locks.(w := None)).Go(t, AfterWrite(w, ok))
  }

  function CloseStep(s: State, t: nat, pc: ClosePc): State
    requires t < |s.pcs|
  {
    match pc
    case CloseC(from) =>
      if s.locks.c.Some? then s
      else s.(client := s.client.(conn := false)).Go(t, Cl(CloseReg(from, s.client.conn)))
    case CloseReg(from, had) => if s.locks.r.Some? then s else s.Go(t, Cl(CloseSock(from, had)))
    case CloseSock(from, had) =>
      var s1 := if had then s.(client := s.client.(socket := false)) else s;
      s1.Go(t, match from
               case AfterFailedWrite(w) => Wr(WriteRel(w, false))
               case ByUser => Idle
               case ByWorker(failed) => Wk(WDone(failed)))
    case FailC(f) =>
      if s.locks.c.Some? then s
      else if s.client.conn then s.Go(t, Wr(SendW(f, true)))
      else s.Go(t, Cl(CloseC(if f == Fatal then ByWorker(false) else ByUser)))
  }

  // close(q.jobs); closing a closed channel panics.
  function CloseJobs(s: State): State {
    s.(queue := s.queue.(jobsClosed := true), hist := s.hist.(panicked := s.hist.panicked || s.queue.jobsClosed))
  }

  function LifeStep(s: State, t: nat, pc: LifePc, c: Choice): State
    requires t < |s.pcs|
  {
    match pc
    case LogC =>
      if s.locks.c.Some? then s
      else if s.client.conn && c.good then s.Go(t, Wr(SendW(Record, false))) else s.Go(t, Idle)
    case QFailQ(code) => if s.locks.q.Some? then s else s.(locks := s.locks.(q := Some(t))).Go(t, Lif(QFail(code)))
    case QFail(code) =>
      if s.queue.closed then s.Go(t, Lif(QRel(false)))
      else s.(queue := s.queue.(closed := true, failed := true, fatalCode := code)).Go(t, Lif(QFailClose))
    case QFailClose => CloseJobs(s).Go(t, Lif(QRel(false)))
    case ShutQ => if s.locks.q.Some? then s else s.(locks := s.locks.(q := Some(t))).Go(t, Lif(Shut))
    case Shut =>
      if s.queue.closed then s.Go(t, Lif(QRel(true)))
      else s.(queue := s.queue.(closed := true)).Go(t, Lif(ShutClose))
    case ShutClose => CloseJobs(s).Go(t, Lif(QRel(true)))
    case QRel(wait) => s.(locks := s.locks.(q := None)).Go(t, if wait then Lif(ShutWait) else Idle)
    case ShutWait => if s.pcs[0].Wk? && s.pcs[0].work.WDone? then s.Go(t, Idle) else s
  }

  function ReadyStep(s: State, t: nat, pc: ReadyPc): State
    requires t < |s.pcs|
  {
    match pc
    case BusyQ => if s.locks.q.Some? then s else s.(locks := s.locks.(q := Some(t))).Go(t, Rdy(BusyP))
    case BusyP => if s.locks.p.Some? then s else s.(locks := s.locks.(p := Some(t))).Go(t, Rdy(BusyC))
    case BusyC => if s.locks.c.Some? then s else s.Go(t, Rdy(BusyRelP))
    case BusyRelP => s.(locks := s.locks.(p := None)).Go(t, Rdy(BusyRelQ))
    case BusyRelQ => s.(locks := s.locks.(q := None)).Go(t, Idle)
    case DropLoad => if |s.queue.gates| > 0 then s.Go(t, Rdy(DropWait(|s.queue.gates| - 1))) else s
    case DropWait(g) => if g < |s.queue.gates| && s.queue.gates[g] then s else s.Go(t, Idle)
    case NewP(cap) => if s.locks.p.Some? then s else s.(locks := s.locks.(p := Some(t))).Go(t, Rdy(NewC(cap)))
    case NewC(cap) =>
      if s.locks.c.Some? then s
      else if s.client.conn && !s.client.queued then
        s.(client := s.client.(queued := true)).Go(t, Rdy(NewRel(cap, true)))
      else s.Go(t, Rdy(NewRel(cap, false)))
    case NewRel(cap, ok) => s.(locks := s.locks.(p := None)).Go(t, if ok then Rdy(NewStart(cap)) else Idle)
    case NewStart(cap) =>
      s.(queue := s.queue.(started := true, capacity := cap, gates := [false]),
         hist := s.hist.(r0 := s.client.revision),
         pcs := s.pcs[0 := Wk(WRecv)]).Go(t, Idle)
  }

  function WorkStep(s: State, t: nat, pc: WorkPc): State
    requires t < |s.pcs|
  {
    match pc
    case WNone => s
    case WRecv =>
      if |s.queue.jobs| > 0 then
        s.(queue := s.queue.(jobs := s.queue.jobs[1..]), hist := s.hist.(taken := s.hist.taken + 1))
        .Go(t, Wk(WSignalQ(s.queue.jobs[0])))
      else if s.queue.jobsClosed then s.Go(t, Wk(WEndQ))
      else s
    case WSignalQ(rev) => if s.locks.q.Some? then s else s.(locks := s.locks.(q := Some(t))).Go(t, Wk(WSignal(rev)))
    case WSignal(rev) =>
      if s.queue.saturated then s.(queue := s.queue.(saturated := false)).Go(t, Wk(WSignalGate(rev)))
      else s.Go(t, Wk(WSignalRel(rev)))
    case WSignalGate(rev) =>
      var g := s.queue.gates;
      if |g| > 0 && g[|g| - 1] then
        s.(queue := s.queue.(gates := g[|g| - 1 := false])).Go(t, Wk(WSignalRel(rev)))
      else s.(hist := s.hist.(panicked := true)).Go(t, Wk(WSignalRel(rev)))
    case WSignalRel(rev) => s.(locks := s.locks.(q := None)).Go(t, Wr(PairW(Worker, rev)))
    case WComplete(_) => if s.locks.c.Some? then s else s.Go(t, Wk(WRecv))
    case WFailed => s.(queue := s.queue.(failed := true)).Go(t, Cl(CloseC(ByWorker(true))))
    case WEndQ =>
      if s.locks.q.Some? then s
      else if s.queue.fatalCode then s.Go(t, Cl(FailC(Fatal)))
      else s.Go(t, Cl(CloseC(ByWorker(false))))
    case WDone(_) => s
  }

  function Step(s: State, t: nat, c: Choice): State
    requires t < |s.pcs|
  {
    match s.pcs[t]
    case Idle => s.Go(t, Entry(s.queue.started, c.call))
    case Pub(pc) => PubStep(s, t, pc)
    case Pre(pc) => PrepStep(s, t, pc, c)
    case Dir(pc) => DirStep(s, t, pc)
    case Wr(pc) => WriteStep(s, t, pc, c)
    case Cl(pc) => CloseStep(s, t, pc)
    case Lif(pc) => LifeStep(s, t, pc, c)
    case Rdy(pc) => ReadyStep(s, t, pc)
    case Wk(pc) => WorkStep(s, t, pc)
  }

  // ---------------------------------------------------------------- runs

  ghost predicate Next(s: State, s': State) {
    exists t: nat, c: Choice :: t < |s.pcs| && s' == Step(s, t, c)
  }

  ghost predicate StepAt(run: seq<State>, i: nat)
    requires i + 1 < |run|
  {
    Next(run[i], run[i + 1])
  }

  ghost predicate Run(run: seq<State>) {
    && |run| > 0 && Init(run[0])
    && forall i: nat | i + 1 < |run| :: StepAt(run, i)
  }

  function Last(run: seq<State>): State
    requires |run| > 0
  {
    run[|run| - 1]
  }

  // A run that goes on from `run`.
  ghost predicate Continues(run: seq<State>, run': seq<State>) { Run(run') && run <= run' }

  lemma Extend(run: seq<State>, t: nat, c: Choice) returns (run': seq<State>)
    requires Run(run) && t < |Last(run).pcs|
    ensures Continues(run, run') && Last(run') == Step(Last(run), t, c)
  {
    run' := run + [Step(Last(run), t, c)];
    forall i: nat | i + 1 < |run'| ensures StepAt(run', i) {
      if i + 1 < |run| {
        assert StepAt(run, i) && run'[i] == run[i] && run'[i + 1] == run[i + 1];
      } else {
        assert run'[i] == Last(run) && Next(Last(run), Step(Last(run), t, c));
      }
    }
  }
}
