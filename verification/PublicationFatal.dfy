/** When the queue's fatal frame is sent: only after a Fail with a code, and then always, unless the connection goes
    first. */
module PublicationFatal {
  import opened Options
  import opened Publication
  import opened PublicationLocks
  import opened PublicationInvariant
  import opened PublicationSteps
  import opened PublicationTheorems
  import opened PublicationProgress
  import opened PublicationWaiters

  // The fatal frame is on the wire, whole or cut short.
  predicate Announced(wire: seq<Frame>) { Fatal in wire || Fragment(Fatal) in wire }

  // ---------------------------------------------------------------- the worker's end

  predicate SendsFatal(w: Write) { w.Single? && w.frame == Fatal }

  // What holds at the worker's program counters from its end step on: `fatal` is the queue's fatal code.
  predicate EndOk(pc: Pc, fatal: bool, announced: bool, conn: bool) {
    match pc
    case Wr(p) =>
      (match p
       case SendW(f, _) => f == Fatal ==> fatal
       case WriteC(w) => SendsFatal(w) ==> fatal
       case WriteOut(w) => SendsFatal(w) ==> fatal
       case WriteRel(w, _) => SendsFatal(w) ==> fatal && (announced || !conn)
       case PairW(_, _) => true)
    case Cl(p) =>
      (match p
       case FailC(f) => f == Fatal ==> fatal
       case CloseC(from) =>
         (match from
          case AfterFailedWrite(w) => SendsFatal(w) ==> fatal
          case ByWorker(failed) => !failed && fatal ==> announced || !conn
          case ByUser => true)
       case CloseReg(from, _) => CutOff(from, fatal, conn)
       case CloseSock(from, _) => CutOff(from, fatal, conn))
    case _ => true
  }

  predicate CutOff(from: CloseFrom, fatal: bool, conn: bool) {
    from.AfterFailedWrite? && SendsFatal(from.w) ==> fatal && !conn
  }

  ghost predicate FatalOk(s: State) {
    && |s.pcs| > 0
    && (Announced(s.hist.wire) ==> s.queue.fatalCode)
    && (s.queue.fatalCode ==> s.queue.closed)
    && EndOk(s.pcs[0], s.queue.fatalCode, Announced(s.hist.wire), s.client.conn)
  }

  // ---------------------------------------------------------------- steps of the other threads

  // The worker is where it was or starts, no fatal frame is written, a connection only ends, and a closed queue
  // keeps its fatal code.
  ghost predicate Silent(s: State, s': State) {
    && |s'.pcs| == |s.pcs| > 0 && (s'.pcs[0] == s.pcs[0] || s'.pcs[0] == Wk(WRecv))
    && (Announced(s'.hist.wire) <==> Announced(s.hist.wire))
    && (s'.client.conn ==> s.client.conn)
    && (s.queue.closed ==> s'.queue.closed && s'.queue.fatalCode == s.queue.fatalCode)
    && (s'.queue.fatalCode ==> s'.queue.closed || s.queue.fatalCode)
  }

  lemma SilentKeeps(s: State, s': State)
    requires Inv(s) && FatalOk(s) && Silent(s, s')
    ensures FatalOk(s')
  {
    InvHere(s, 0);
    if !s.queue.closed { assert !PhaseOf(s.pcs[0]).Ending?; }
  }

  lemma PubSilent(s: State, t: nat, pc: PubPc)
    requires 0 < t < |s.pcs|
    ensures Silent(s, PubStep(s, t, pc))
  {
  }

  lemma PrepSilent(s: State, t: nat, pc: PrepPc, c: Choice)
    requires 0 < t < |s.pcs|
    ensures Silent(s, PrepStep(s, t, pc, c))
  {
  }

  lemma DirSilent(s: State, t: nat, pc: DirPc)
    requires 0 < t < |s.pcs|
    ensures Silent(s, DirStep(s, t, pc))
  {
  }

  lemma WriteSilent(s: State, t: nat, pc: WritePc, c: Choice)
    requires Here(s, t) && t > 0 && s.pcs[t] == Wr(pc)
    ensures Silent(s, WriteStep(s, t, pc, c))
  {
  }

  lemma CloseSilent(s: State, t: nat, pc: ClosePc)
    requires Here(s, t) && t > 0 && s.pcs[t] == Cl(pc)
    ensures Silent(s, CloseStep(s, t, pc))
  {
  }

  lemma LifeSilent(s: State, t: nat, pc: LifePc, c: Choice)
    requires 0 < t < |s.pcs|
    ensures Silent(s, LifeStep(s, t, pc, c))
  {
  }

  lemma ReadySilent(s: State, t: nat, pc: ReadyPc)
    requires 0 < t < |s.pcs|
    ensures Silent(s, ReadyStep(s, t, pc))
  {
  }

  lemma StepSilent(s: State, t: nat, c: Choice, s': State)
    requires Here(s, t) && t > 0 && s' == Step(s, t, c)
    ensures Silent(s, s')
  {
    match s.pcs[t]
    case Idle =>
    case Pub(pc) => PubSilent(s, t, pc);
    case Pre(pc) => PrepSilent(s, t, pc, c);
    case Dir(pc) => DirSilent(s, t, pc);
    case Wr(pc) => WriteSilent(s, t, pc, c);
    case Cl(pc) => CloseSilent(s, t, pc);
    case Lif(pc) => LifeSilent(s, t, pc, c);
    case Rdy(pc) => ReadySilent(s, t, pc);
  }

  // ---------------------------------------------------------------- steps of the worker

  lemma WorkerWrites(s: State, pc: WritePc, c: Choice)
    requires Here(s, 0) && s.pcs[0] == Wr(pc) && FatalOk(s)
    ensures FatalOk(WriteStep(s, 0, pc, c))
  {
  }

  lemma WorkerCloses(s: State, pc: ClosePc)
    requires Here(s, 0) && s.pcs[0] == Cl(pc) && FatalOk(s)
    ensures FatalOk(CloseStep(s, 0, pc))
  {
  }

  lemma WorkerWorks(s: State, pc: WorkPc)
    requires Here(s, 0) && s.pcs[0] == Wk(pc) && FatalOk(s)
    ensures FatalOk(WorkStep(s, 0, pc))
  {
  }

  lemma StepKeepsFatalOk(s: State, t: nat, c: Choice, s': State)
    requires Inv(s) && FatalOk(s) && t < |s.pcs| && s' == Step(s, t, c)
    ensures FatalOk(s')
  {
    InvHere(s, t);
    if t > 0 {
      StepSilent(s, t, c, s');
      SilentKeeps(s, s');
    } else {
      match s.pcs[0]
      case Wr(pc) => WorkerWrites(s, pc, c);
      case Cl(pc) => WorkerCloses(s, pc);
      case Wk(pc) => WorkerWorks(s, pc);
    }
  }

  lemma NextKeepsFatalOk(run: seq<State>, i: nat)
    requires Run(run) && i + 1 < |run| && FatalOk(run[i])
    ensures FatalOk(run[i + 1])
  {
    RunKeepsInv(run, i);
    assert StepAt(run, i);
    var t: nat, c: Choice :| t < |run[i].pcs| && run[i + 1] == Step(run[i], t, c);
    StepKeepsFatalOk(run[i], t, c, run[i + 1]);
  }

  lemma {:induction false} RunKeepsFatalOk(run: seq<State>, i: nat)
    requires Run(run) && i < |run|
    ensures FatalOk(run[i])
  {
    if i > 0 {
      RunKeepsFatalOk(run, i - 1);
      NextKeepsFatalOk(run, i - 1);
    }
  }

  /** The fatal frame, whole or in part, is on the wire only after a Fail with a code. */
  lemma FatalOnlyOnFail(run: seq<State>, i: nat)
    requires Run(run) && i < |run| && Announced(run[i].hist.wire)
    ensures run[i].queue.fatalCode
  {
    RunKeepsFatalOk(run, i);
  }

  // ---------------------------------------------------------------- the worker's end takes its course

  // The worker has closed the client at its end, or is about to return from that.
  predicate PastClose(pc: Pc) {
    || pc == Wk(WDone(false))
    || (pc.Cl? && !pc.cl.FailC? && !pc.cl.CloseC? && pc.cl.from == ByWorker(false))
  }

  predicate AtEnd(pc: Pc) { PhaseOf(pc).Ending? }

  // What the worker's own step does on that way.
  ghost predicate OnItsWay(s: State, s': State)
    requires |s.pcs| > 0 && |s'.pcs| > 0
  {
    var pc, pc' := s.pcs[0], s'.pcs[0];
    && (AtEnd(pc) ==> AtEnd(pc'))
    && (PastClose(pc) ==> PastClose(pc'))
    && (PastClose(pc') && !PastClose(pc) ==> pc == Cl(CloseC(ByWorker(false))))
    && (pc == Cl(CloseC(ByWorker(false))) && s'.client.conn != s.client.conn ==> PastClose(pc'))
    && s'.queue.fatalCode == s.queue.fatalCode
  }

  lemma WritesOnItsWay(s: State, pc: WritePc, c: Choice)
    requires Here(s, 0) && s.pcs[0] == Wr(pc)
    ensures |WriteStep(s, 0, pc, c).pcs| > 0 && OnItsWay(s, WriteStep(s, 0, pc, c))
  {
  }

  lemma ClosesOnItsWay(s: State, pc: ClosePc)
    requires Here(s, 0) && s.pcs[0] == Cl(pc)
    ensures |CloseStep(s, 0, pc).pcs| > 0 && OnItsWay(s, CloseStep(s, 0, pc))
  {
  }

  lemma WorksOnItsWay(s: State, pc: WorkPc)
    requires Here(s, 0) && s.pcs[0] == Wk(pc)
    ensures |WorkStep(s, 0, pc).pcs| > 0 && OnItsWay(s, WorkStep(s, 0, pc))
  {
  }

  lemma WorkerEnds(s: State, c: Choice, s': State)
    requires Here(s, 0) && s' == Step(s, 0, c)
    ensures |s'.pcs| > 0 && OnItsWay(s, s')
  {
    match s.pcs[0]
    case Wr(pc) => WritesOnItsWay(s, pc, c);
    case Cl(pc) => ClosesOnItsWay(s, pc);
    case Wk(pc) => WorksOnItsWay(s, pc);
  }

  // What one step of a run does to a worker that exists.
  ghost predicate Course(s: State, s': State) {
    && |s.pcs| == |s'.pcs| > 0
    && (AtEnd(s.pcs[0]) ==> AtEnd(s'.pcs[0]))
    && (PastClose(s.pcs[0]) ==> PastClose(s'.pcs[0]))
    && (PastClose(s'.pcs[0]) && !PastClose(s.pcs[0]) ==> s.pcs[0] == Cl(CloseC(ByWorker(false))))
    && (s.queue.closed ==> s'.queue.fatalCode == s.queue.fatalCode)
  }

  lemma StepCourse(s: State, t: nat, c: Choice, s': State)
    requires Inv(s) && t < |s.pcs| && s' == Step(s, t, c) && |s'.pcs| == |s.pcs|
    ensures Course(s, s')
  {
    InvHere(s, t);
    InvHere(s, 0);
    if t == 0 {
      WorkerEnds(s, c, s');
    } else {
      StepSilent(s, t, c, s');
      if s.queue.started { StepApart(s, t, c, s'); }
    }
  }

  lemma NextCourse(run: seq<State>, i: nat)
    requires Run(run) && i + 1 < |run|
    ensures Course(run[i], run[i + 1])
  {
    RunKeepsInv(run, i);
    NextForward(run, i);
    assert StepAt(run, i);
    var t: nat, c: Choice :| t < |run[i].pcs| && run[i + 1] == Step(run[i], t, c);
    StepCourse(run[i], t, c, run[i + 1]);
  }

  lemma {:induction false} CourseStays(run: seq<State>, i: nat, j: nat)
    requires Run(run) && i <= j < |run|
    ensures |run[i].pcs| == |run[j].pcs| > 0
    ensures AtEnd(run[i].pcs[0]) ==> AtEnd(run[j].pcs[0])
    ensures PastClose(run[i].pcs[0]) ==> PastClose(run[j].pcs[0])
    ensures run[i].queue.closed ==> run[j].queue.fatalCode == run[i].queue.fatalCode
  {
    RunForward(run, i, j);
    if i < j {
      CourseStays(run, i, j - 1);
      RunForward(run, i, j - 1);
      NextCourse(run, j - 1);
    } else {
      RunKeepsInv(run, i);
    }
  }

  // Where the worker closed the client at its end.
  lemma {:induction false} FinalClose(run: seq<State>, j: nat) returns (i: nat)
    requires Run(run) && j < |run| && |run[j].pcs| > 0 && PastClose(run[j].pcs[0])
    ensures i < j && |run[i].pcs| > 0 && run[i].pcs[0] == Cl(CloseC(ByWorker(false)))
    ensures |run[i + 1].pcs| > 0 && PastClose(run[i + 1].pcs[0])
  {
    assert j != 0 by { assert run[0].pcs[0] == Wk(WNone); }
    NextCourse(run, j - 1);
    if PastClose(run[j - 1].pcs[0]) {
      i := FinalClose(run, j - 1);
    } else {
      i := j - 1;
    }
  }

  // ---------------------------------------------------------------- a connection that goes first

  // At step k thread u closes the connection; the worker only after its write of the fatal frame failed.
  ghost predicate CutBy(run: seq<State>, k: nat, u: nat) {
    && k + 1 < |run| && u < |run[k].pcs|
    && run[k].client.conn && !run[k + 1].client.conn
    && (exists c :: run[k + 1] == Step(run[k], u, c))
    && run[k].pcs[u].Cl? && run[k].pcs[u].cl.CloseC?
    && (u == 0 ==> run[k].pcs[u].cl.from.AfterFailedWrite? && SendsFatal(run[k].pcs[u].cl.from.w))
  }

  lemma OnlyCloseCuts(s: State, t: nat, c: Choice)
    requires t < |s.pcs| && s.client.conn && !Step(s, t, c).client.conn
    ensures s.pcs[t].Cl? && s.pcs[t].cl.CloseC?
  {
  }

  lemma {:induction false} Drop(run: seq<State>, e: nat, i: nat) returns (k: nat)
    requires Run(run) && e <= i < |run| && run[e].client.conn && !run[i].client.conn
    ensures e <= k < i && run[k].client.conn && !run[k + 1].client.conn
    decreases i
  {
    if run[i - 1].client.conn {
      k := i - 1;
    } else {
      k := Drop(run, e, i - 1);
    }
  }

  lemma DropIsCut(run: seq<State>, e: nat, k: nat, i: nat) returns (u: nat)
    requires Run(run) && e <= k < i < |run| && run[k].client.conn && !run[k + 1].client.conn
    requires |run[e].pcs| > 0 && AtEnd(run[e].pcs[0]) && |run[i].pcs| > 0 && !PastClose(run[i].pcs[0])
    ensures CutBy(run, k, u)
  {
    assert StepAt(run, k);
    var t: nat, c: Choice :| t < |run[k].pcs| && run[k + 1] == Step(run[k], t, c);
    u := t;
    OnlyCloseCuts(run[k], t, c);
    if t == 0 {
      CourseStays(run, e, k);
      CourseStays(run, k + 1, i);
      RunKeepsInv(run, k);
      InvHere(run[k], 0);
      NextForward(run, k);
      WorkerEnds(run[k], c, run[k + 1]);
      WorkerCut(run[k].pcs[0]);
    }
  }

  lemma WorkerCut(pc: Pc)
    requires AtEnd(pc) && pc.Cl? && pc.cl.CloseC? && IsWorker(pc) && pc != Cl(CloseC(ByWorker(false)))
    ensures pc.cl.from.AfterFailedWrite? && SendsFatal(pc.cl.from.w)
  {
  }

  /** A Fail with a code is announced: if the client was connected when the worker reached its end, the fatal frame
      is on the wire, whole or cut short, once the worker has stopped, or somebody cut the connection in between. */
  lemma FailIsAnnounced(run: seq<State>, e: nat, j: nat)
    requires Run(run) && e <= j < |run| && |run[e].pcs| > 0 && run[e].pcs[0] == Wk(WEndQ) && run[e].client.conn
    requires |run[j].pcs| > 0 && run[j].pcs[0] == Wk(WDone(false)) && run[j].queue.fatalCode
    ensures Announced(run[j].hist.wire) || exists k: nat, u: nat :: e <= k < j && CutBy(run, k, u)
  {
    var i := EndClose(run, e, j);
    if run[i].client.conn {
      AnnouncedStays(run[i].hist.wire, run[j].hist.wire);
    } else {
      var k := Drop(run, e, i);
      var u := DropIsCut(run, e, k, i);
    }
  }

  // That close comes after the end step, and finds the frame on the wire or the connection gone.
  lemma EndClose(run: seq<State>, e: nat, j: nat) returns (i: nat)
    requires Run(run) && e <= j < |run| && |run[e].pcs| > 0 && run[e].pcs[0] == Wk(WEndQ)
    requires |run[j].pcs| > 0 && run[j].pcs[0] == Wk(WDone(false)) && run[j].queue.fatalCode
    ensures e <= i < j && |run[i].pcs| > 0 && run[i].pcs[0] == Cl(CloseC(ByWorker(false)))
    ensures Announced(run[i].hist.wire) || !run[i].client.conn
    ensures run[i].hist.wire <= run[j].hist.wire
  {
    i := FinalClose(run, j);
    if i < e { CourseStays(run, i + 1, e); }
    assert run[i].queue.closed by {
      RunKeepsInv(run, i);
      assert AtEnd(run[i].pcs[0]);
    }
    RunKeepsFatalOk(run, i);
    RunForward(run, i, j);
    CourseStays(run, i, j);
  }

  lemma AnnouncedStays(wire: seq<Frame>, more: seq<Frame>)
    requires wire <= more && Announced(wire)
    ensures Announced(more)
  {
    assert forall f | f in wire :: f in more;
  }
}
