/** The Ratatui probe's render admission gate and session lifecycle as a step system.

    Any number of render and lifecycle threads run; every access to the admission atomic, to the pending
    flag and to the state mutex is a step of its own.  What a thread does to the session while it holds the
    state mutex is one step. */
module RenderGate {
  import opened Options

  // RENDER_ADMISSION
  datatype Admission = GateIdle | GateActive | GateFailed

  // The publication queue a session owns: which session it belongs to, its last admitted revision and
  // whether transport failure or `fail` has closed it.
  datatype Publisher = Publisher(id: nat, revision: int, failed: bool)

  // The session state behind the mutex.
  datatype Session = Unstarted | Connected(queue: Publisher) | Failed(queue: Publisher) | Done

  // A marker: the session and the revision it names.
  datatype Mark = Mark(id: nat, rev: int)

  // Which hook took the permit: on_frame_end or on_marker_sink_unsupported.
  datatype Hook = FrameEnd | SinkUnsupported

  // What a thread does after giving up the state mutex.
  datatype After = ThenDropPermit | ThenDeliver(mark: Mark) | ThenDropMarker | ThenRest

  // RenderPermit::acquire, on_frame_end and on_marker_sink_unsupported
  datatype RenderPc =
    | Acquire(hook: Hook)
    | StoreFailed            // lost the exchange to ACTIVE, about to store FAILED
    | StorePending           // ... and then to set the pending flag
    | TryState(hook: Hook)   // holding the permit from here on
    | Contended(hook: Hook)  // the state mutex is held elsewhere: set the pending flag
    | StoreFailedToo         // ... and, at a frame's end, store FAILED
    | InState(hook: Hook)    // holding the mutex too
    | CheckGate(mark: Mark)  // published; about to load the gate
    | Unlock(after: After)
    | DropPermit             // Drop for RenderPermit

  // The backend with a marker and its permit, on_marker_write_failed, Drop for FrameMarker,
  // deliver_pending_failure
  datatype MarkerPc =
    | Deliver(mark: Mark)
    | WriteFailedTry | WriteFailedPending | WriteFailedIn
    | DropMarker
    | MarkPending
    | DeliverLoad | DeliverTry | DeliverIn | DeliverClear

  // fail_without_publication, initialize and shutdown
  datatype LifePc =
    | OutsideTry | OutsidePending | OutsideIn
    | InitLock | InitIn
    | ShutLock | ShutIn
    | ShutSwap(queue: Publisher)   // the state was replaced by Done, the queue taken out
    | ShutDrain(queue: Publisher)

  datatype Pc = Rest | Rend(render: RenderPc) | Mrk(marker: MarkerPc) | Life(life: LifePc)

  datatype State = State(
    pcs: seq<Pc>,
    gate: Admission,
    pending: bool,             // SESSION_FAILURE_PENDING
    mutex: Option<nat>,        // the owner of the state mutex
    session: Session,
    // history
    permit: Option<nat>,       // the thread that acquired a permit and has not dropped it
    sessions: nat,             // sessions connected so far
    published: seq<Mark>,      // markers returned by the queue
    appended: seq<Mark>)       // markers whose bytes were appended to the writer
  {
    function Go(t: nat, pc: Pc): State
      requires t < |pcs|
    {
      this.(pcs := pcs[t := pc])
    }
  }

  ghost predicate Init(s: State) {
    && (forall t | 0 <= t < |s.pcs| :: s.pcs[t] == Rest)
    && s == State(s.pcs, GateIdle, false, None, Unstarted, None, 0, [], [])
  }

  datatype Op = RenderFrame | RenderWithoutSink | RenderOutsideGuard | Create | DropLast

  // How the queue answers a publication: a marker, an admission without a marker, or a refusal
  // (invalid snapshot, queue full).
  datatype Answer = WithMarker | WithoutMarker | Refused

  // What the environment decides: the hook an idle thread enters, whether the frame repeats a semantic
  // key, how publication goes, whether an I/O operation (append, connect, drain) succeeds, and whether
  // the transport worker has failed meanwhile.
  datatype Choice = Choice(op: Op, duplicate: bool, answer: Answer, good: bool, workerFailed: bool)

  function Entry(op: Op): Pc {
    match op
    case RenderFrame => Rend(Acquire(FrameEnd))
    case RenderWithoutSink => Rend(Acquire(SinkUnsupported))
    case RenderOutsideGuard => Life(OutsideTry)
    case Create => Life(InitLock)
    case DropLast => Life(ShutLock)
  }

  // client.fail(...) followed by State::Failed.
  function Fail(s: State): State {
    if s.session.Connected? then s.(session := Failed(s.session.queue.(failed := true))) else s
  }

  // The worker thread may have failed at any time before the queue looks at its flag.
  function Observed(q: Publisher, c: Choice): Publisher { q.(failed := q.failed || c.workerFailed) }

  function AcquireStep(s: State, t: nat, hook: Hook): State
    requires t < |s.pcs|
  {
    match s.gate
    case GateIdle => s.(gate := GateActive, permit := Some(t)).Go(t, Rend(TryState(hook)))
    case GateActive => s.Go(t, Rend(StoreFailed))
    case GateFailed => s.Go(t, Rest)
  }

  // Everything on_frame_end does to the session under the mutex: inspect it, refuse a duplicate key, publish.
  function PublishStep(s: State, t: nat, c: Choice): State
    requires t < |s.pcs|
  {
    if !s.session.Connected? then s.Go(t, Rend(Unlock(ThenDropPermit)))
    else
      var q := Observed(s.session.queue, c);
      if c.duplicate || q.failed || c.answer.Refused? then
        Fail(s.(session := Connected(q))).Go(t, Rend(Unlock(ThenDropPermit)))
      else
        var mark := Mark(q.id, q.revision + 1);
        var s1 := s.(session := Connected(q.(revision := mark.rev)));
        if c.answer.WithMarker? then s1.(published := s.published + [mark]).Go(t, Rend(CheckGate(mark)))
        else s1.Go(t, Rend(Unlock(ThenDropPermit)))
  }

  // Drop for RenderPermit and release_successfully: ACTIVE becomes IDLE, FAILED stays.
  function Released(s: State): State {
    s.(gate := if s.gate.GateActive? then GateIdle else s.gate, permit := None)
  }

  function RenderStep(s: State, t: nat, pc: RenderPc, c: Choice): State
    requires t < |s.pcs|
  {
    match pc
    case Acquire(hook) => AcquireStep(s, t, hook)
    case StoreFailed => s.(gate := GateFailed).Go(t, Rend(StorePending))
    case StorePending => s.(pending := true).Go(t, Rest)
    case TryState(hook) =>
      if s.mutex.None? then s.(mutex := Some(t)).Go(t, Rend(InState(hook))) else s.Go(t, Rend(Contended(hook)))
    case Contended(hook) => s.(pending := true).Go(t, if hook.FrameEnd? then Rend(StoreFailedToo) else Rend(DropPermit))
    case StoreFailedToo => s.(gate := GateFailed).Go(t, Rend(DropPermit))
    case InState(FrameEnd) => PublishStep(s, t, c)
    case InState(SinkUnsupported) =>
      (if s.session.Unstarted? then s.(session := Done) else Fail(s)).Go(t, Rend(Unlock(ThenDropPermit)))
    case CheckGate(mark) =>
      if s.gate.GateActive? then s.Go(t, Rend(Unlock(ThenDeliver(mark))))
      else Fail(s).Go(t, Rend(Unlock(ThenDropPermit)))
    case Unlock(after) =>
      s.(mutex := None).Go(t, match after
                              case ThenDropPermit => Rend(DropPermit)
                              case ThenDeliver(mark) => Mrk(Deliver(mark))
                              case ThenDropMarker => Mrk(DropMarker)
                              case ThenRest => Rest)
    case DropPermit => Released(s).Go(t, Rest)
  }

  function MarkerStep(s: State, t: nat, pc: MarkerPc, c: Choice): State
    requires t < |s.pcs|
  {
    match pc
    case Deliver(mark) =>
      if c.good then s.(appended := s.appended + [mark]).Go(t, Mrk(DropMarker)) else s.Go(t, Mrk(WriteFailedTry))
    case WriteFailedTry =>
      if s.mutex.None? then s.(mutex := Some(t)).Go(t, Mrk(WriteFailedIn)) else s.Go(t, Mrk(WriteFailedPending))
    case WriteFailedPending => s.(pending := true).Go(t, Mrk(DropMarker))
    case WriteFailedIn => Fail(s).Go(t, Rend(Unlock(ThenDropMarker)))
    case DropMarker => Released(s).Go(t, if s.gate.GateActive? then Rest else Mrk(MarkPending))
    case MarkPending => s.(pending := true).Go(t, Mrk(DeliverLoad))
    case DeliverLoad => s.Go(t, if s.pending then Mrk(DeliverTry) else Rest)
    case DeliverTry => if s.mutex.None? then s.(mutex := Some(t)).Go(t, Mrk(DeliverIn)) else s.Go(t, Rest)
    case DeliverIn =>
      if s.session.Connected? then Fail(s).Go(t, Mrk(DeliverClear)) else s.Go(t, Rend(Unlock(ThenRest)))
    case DeliverClear => s.(pending := false).Go(t, Rend(Unlock(ThenRest)))
  }

  function LifeStep(s: State, t: nat, pc: LifePc, c: Choice): State
    requires t < |s.pcs|
  {
    match pc
    case OutsideTry =>
      if s.mutex.None? then s.(mutex := Some(t)).Go(t, Life(OutsideIn)) else s.Go(t, Life(OutsidePending))
    case OutsidePending => s.(pending := true).Go(t, Rest)
    case OutsideIn => Fail(s).Go(t, Rend(Unlock(ThenRest)))
    case InitLock => if s.mutex.None? then s.(mutex := Some(t)).Go(t, Life(InitIn)) else s
    case InitIn =>
      if !s.session.Unstarted? then s.Go(t, Rend(Unlock(ThenRest)))
      else if c.good then
        s.(session := Connected(Publisher(s.sessions + 1, 0, false)), sessions := s.sessions + 1)
        .Go(t, Rend(Unlock(ThenRest)))
      else s.(session := Done).Go(t, Rend(Unlock(ThenRest)))
    case ShutLock => if s.mutex.None? then s.(mutex := Some(t)).Go(t, Life(ShutIn)) else s
    case ShutIn =>
      (match s.session
       case Connected(q) => s.(session := Done).Go(t, Life(ShutSwap(q)))
       case Failed(_) => s.(session := Done).Go(t, Rend(Unlock(ThenRest)))
       case Unstarted => s.Go(t, Rend(Unlock(ThenRest)))
       case Done => s.Go(t, Rend(Unlock(ThenRest))))
    case ShutSwap(q) =>
      if s.pending then s.(pending := false).Go(t, Rend(Unlock(ThenRest))) else s.Go(t, Life(ShutDrain(q)))
    case ShutDrain(q) =>
      (if Observed(q, c).failed || !c.good then s else s.(session := Unstarted)).Go(t, Rend(Unlock(ThenRest)))
  }

  function Step(s: State, t: nat, c: Choice): State
    requires t < |s.pcs|
  {
    match s.pcs[t]
    case Rest => s.Go(t, Entry(c.op))
    case Rend(pc) => RenderStep(s, t, pc, c)
    case Mrk(pc) => MarkerStep(s, t, pc, c)
    case Life(pc) => LifeStep(s, t, pc, c)
  }

  // ---------------------------------------------------------------- runs

  ghost predicate StepAt(run: seq<State>, i: nat)
    requires i + 1 < |run|
  {
    exists t: nat, c: Choice :: t < |run[i].pcs| && run[i + 1] == Step(run[i], t, c)
  }

  ghost predicate Run(run: seq<State>) {
    && |run| > 0 && Init(run[0])
    && forall i: nat | i + 1 < |run| :: StepAt(run, i)
  }

  // ---------------------------------------------------------------- the invariant

  // A thread at these program counters owns a RenderPermit (directly or inside a FrameMarker).
  predicate HasPermit(pc: Pc) {
    match pc
    case Rend(p) =>
      (match p
       case Acquire(_) => false
       case StoreFailed => false
       case StorePending => false
       case Unlock(after) => !after.ThenRest?
       case _ => true)
    case Mrk(p) => p.Deliver? || p.WriteFailedTry? || p.WriteFailedPending? || p.WriteFailedIn? || p.DropMarker?
    case _ => false
  }

  predicate HasMutex(pc: Pc) {
    match pc
    case Rend(p) => p.InState? || p.CheckGate? || p.Unlock?
    case Mrk(p) => p.WriteFailedIn? || p.DeliverIn? || p.DeliverClear?
    case Life(p) => p.OutsideIn? || p.InitIn? || p.ShutIn? || p.ShutSwap? || p.ShutDrain?
    case Rest => false
  }

  // The marker a thread has obtained and not yet appended.
  function Carries(pc: Pc): Option<Mark> {
    match pc
    case Rend(CheckGate(mark)) => Some(mark)
    case Rend(Unlock(ThenDeliver(mark))) => Some(mark)
    case Mrk(Deliver(mark)) => Some(mark)
    case _ => None
  }

  predicate Before(a: Mark, b: Mark) { a.id < b.id || (a.id == b.id && a.rev < b.rev) }

  ghost predicate Increasing(marks: seq<Mark>) {
    forall i, j | 0 <= i < j < |marks| :: Before(marks[i], marks[j])
  }

  ghost predicate AllBefore(marks: seq<Mark>, m: Mark) {
    forall i | 0 <= i < |marks| :: Before(marks[i], m)
  }

  ghost predicate OwnerInv(s: State) {
    && (forall t | 0 <= t < |s.pcs| ::
          && (HasPermit(s.pcs[t]) <==> s.permit == Some(t))
          && (HasMutex(s.pcs[t]) <==> s.mutex == Some(t)))
    && (s.gate.GateIdle? ==> s.permit.None?)
    && (s.gate.GateActive? ==> s.permit.Some?)
  }

  function At(pcs: seq<Pc>, owner: Option<nat>): Pc {
    if owner.Some? && owner.value < |pcs| then pcs[owner.value] else Rest
  }

  // The next marker of the live session would come after everything published so far.
  ghost predicate MarkInv(s: State) {
    && (forall m | m in s.published :: m.id <= s.sessions)
    && (s.session.Connected? ==>
          && s.session.queue.id == s.sessions
          && AllBefore(s.published, Mark(s.sessions, s.session.queue.revision + 1)))
    && Increasing(s.appended)
    && (forall m | m in s.appended :: m in s.published)
    && (match Carries(At(s.pcs, s.permit))
        case Some(m) => m in s.published && AllBefore(s.appended, m)
        case None => true)
  }

  // The shutdown that took the queue out has not decided yet what the state becomes.
  predicate InShutdown(pc: Pc) { pc.Life? && (pc.life.ShutSwap? || pc.life.ShutDrain?) }

  // Semantics are over for this process.
  predicate Dead(s: State) {
    s.session.Failed? || (s.session.Done? && !InShutdown(At(s.pcs, s.mutex)))
  }

  // A gate that failed is on record: as a dead session, as the pending flag, or by the thread about to
  // set that flag.
  ghost predicate Recorded(s: State) {
    s.pending || Dead(s) || exists t :: 0 <= t < |s.pcs| && s.pcs[t] == Rend(StorePending)
  }

  ghost predicate RecordInv(s: State) {
    && (InShutdown(At(s.pcs, s.mutex)) ==> s.session.Done?)
    && (At(s.pcs, s.mutex) == Mrk(DeliverClear) ==> s.session.Failed?)
    && (At(s.pcs, s.permit) == Rend(StoreFailedToo) ==> s.pending || Dead(s))
    && (s.gate.GateFailed? ==> Recorded(s))
  }

  ghost predicate Inv(s: State) { OwnerInv(s) && MarkInv(s) && RecordInv(s) }
}
