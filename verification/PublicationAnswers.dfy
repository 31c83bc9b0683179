/** What the error of a call says about queue and client, in every run and for a call on its own. */
module PublicationAnswers {
  import opened Options
  import opened Publication
  import opened PublicationAlone

  // ---------------------------------------------------------------- in every run

  // What is true from then on if a call answers so.
  predicate Justified(s: State, out: Outcome) {
    match out
    case WorkerFailed => s.queue.failed
    case QueueClosed => s.queue.closed || !s.client.conn
    case NoSession => !s.client.conn
    case QueueFull => s.queue.drops > 0
    case OwnedByQueue => s.client.queued
    case WriteFailed => !s.client.conn
    case _ => true
  }

  // What a thread that is here has seen.
  predicate Seen(s: State, pc: Pc) {
    match pc
    case Pub(PubRetP(out)) => Justified(s, out)
    case Pub(PubRetQ(out)) => Justified(s, out)
    case Pub(PubGate) => s.queue.drops > 0
    case Dir(DirRet(out)) => Justified(s, out)
    case Wr(WriteRel(w, ok)) => if ok then !w.TreeOf? else !s.client.conn
    case Cl(CloseReg(_, _)) => !s.client.conn
    case Cl(CloseSock(_, _)) => !s.client.conn
    case _ => true
  }

  ghost predicate AllSeen(s: State) { forall t: nat | t < |s.pcs| :: Seen(s, s.pcs[t]) }

  // None of these facts is ever taken back, and other threads stay where they are or start to work.
  ghost predicate Lasting(s: State, s': State, t: nat) {
    && (s.queue.failed ==> s'.queue.failed) && (s.queue.closed ==> s'.queue.closed)
    && (s'.client.conn ==> s.client.conn) && (s.client.queued ==> s'.client.queued) && s'.queue.drops >= s.queue.drops
    && |s'.pcs| == |s.pcs|
    && forall u: nat | u < |s.pcs| && u != t :: s'.pcs[u] == s.pcs[u] || s'.pcs[u] == Wk(WRecv)
  }

  ghost predicate Fine(s: State, s': State, t: nat)
    requires t < |s.pcs|
  {
    Lasting(s, s', t) && Seen(s', s'.pcs[t])
  }

  lemma PubFine(s: State, t: nat, pc: PubPc)
    requires t < |s.pcs| && s.pcs[t] == Pub(pc) && Seen(s, Pub(pc))
    ensures Fine(s, PubStep(s, t, pc), t)
  {
  }

  lemma PrepFine(s: State, t: nat, pc: PrepPc, c: Choice)
    requires t < |s.pcs| && s.pcs[t] == Pre(pc)
    ensures Fine(s, PrepStep(s, t, pc, c), t)
  {
  }

  lemma DirFine(s: State, t: nat, pc: DirPc)
    requires t < |s.pcs| && s.pcs[t] == Dir(pc) && Seen(s, Dir(pc))
    ensures Fine(s, DirStep(s, t, pc), t)
  {
  }

  lemma WriteFine(s: State, t: nat, pc: WritePc, c: Choice)
    requires t < |s.pcs| && s.pcs[t] == Wr(pc) && Seen(s, Wr(pc))
    ensures Fine(s, WriteStep(s, t, pc, c), t)
  {
  }

  lemma CloseFine(s: State, t: nat, pc: ClosePc)
    requires t < |s.pcs| && s.pcs[t] == Cl(pc) && Seen(s, Cl(pc))
    ensures Fine(s, CloseStep(s, t, pc), t)
  {
  }

  lemma LifeFine(s: State, t: nat, pc: LifePc, c: Choice)
    requires t < |s.pcs| && s.pcs[t] == Lif(pc)
    ensures Fine(s, LifeStep(s, t, pc, c), t)
  {
  }

  lemma ReadyFine(s: State, t: nat, pc: ReadyPc)
    requires t < |s.pcs| && s.pcs[t] == Rdy(pc)
    ensures Fine(s, ReadyStep(s, t, pc), t)
  {
  }

  lemma WorkFine(s: State, t: nat, pc: WorkPc)
    requires t < |s.pcs| && s.pcs[t] == Wk(pc)
    ensures Fine(s, WorkStep(s, t, pc), t)
  {
  }

  lemma StepFine(s: State, t: nat, c: Choice, s': State)
    requires t < |s.pcs| && Seen(s, s.pcs[t]) && s' == Step(s, t, c)
    ensures Fine(s, s', t)
  {
    match s.pcs[t]
    case Idle =>
    case Pub(pc) => PubFine(s, t, pc);
    case Pre(pc) => PrepFine(s, t, pc, c);
    case Dir(pc) => DirFine(s, t, pc);
    case Wr(pc) => WriteFine(s, t, pc, c);
    case Cl(pc) => CloseFine(s, t, pc);
    case Lif(pc) => LifeFine(s, t, pc, c);
    case Rdy(pc) => ReadyFine(s, t, pc);
    case Wk(pc) => WorkFine(s, t, pc);
  }

  lemma SeenLasts(s: State, s': State, t: nat, pc: Pc)
    requires Lasting(s, s', t) && Seen(s, pc)
    ensures Seen(s', pc)
  {
  }

  lemma FineKeepsSeen(s: State, t: nat, s': State)
    requires t < |s.pcs| && AllSeen(s) && Fine(s, s', t)
    ensures AllSeen(s')
  {
    forall u: nat | u < |s'.pcs| ensures Seen(s', s'.pcs[u]) {
      if u != t && s'.pcs[u] == s.pcs[u] { SeenLasts(s, s', t, s.pcs[u]); }
    }
  }

  lemma NextKeepsSeen(s: State, s': State)
    requires AllSeen(s) && Next(s, s')
    ensures AllSeen(s')
  {
    var t: nat, c: Choice :| t < |s.pcs| && s' == Step(s, t, c);
    StepFine(s, t, c, s');
    FineKeepsSeen(s, t, s');
  }

  lemma {:induction false} RunKeepsSeen(run: seq<State>, i: nat)
    requires Run(run) && i < |run|
    ensures AllSeen(run[i])
  {
    if i > 0 {
      RunKeepsSeen(run, i - 1);
      assert StepAt(run, i - 1);
      NextKeepsSeen(run[i - 1], run[i]);
    }
  }

  /** In every reachable state, a call about to return an error has a reason that still holds: a failed worker, a
      closed queue or client, no session, a counted drop, a queue that owns the client, or a client closed by a failed
      write. */
  lemma ErrorsAreTrue(run: seq<State>, i: nat, t: nat, out: Outcome)
    requires Run(run) && i < |run| && t < |run[i].pcs|
    requires run[i].pcs[t] in {Pub(PubRetP(out)), Pub(PubRetQ(out)), Dir(DirRet(out))}
    ensures Justified(run[i], out)
  {
    RunKeepsSeen(run, i);
    assert Seen(run[i], run[i].pcs[t]);
  }

  // ---------------------------------------------------------------- for a call on its own

  // A queued call has done all but give back the queue's lock, and will answer this.
  predicate Answers(s: State, t: nat, out: Outcome) { t < |s.pcs| && s.pcs[t] == Pub(PubRetQ(out)) }

  lemma Answering(s: State, t: nat, c: Choice, out: Outcome)
    requires t < |s.pcs|
    ensures Answers(Alone(At(s, t, Pub(PubRetP(out)), QP(t)), t, c, 1), t, out)
  {
    var a := At(s, t, Pub(PubRetQ(out)), Locks(Some(t), None, None, None, None));
    Go(At(s, t, Pub(PubRetP(out)), QP(t)), t, c, 1, a);
  }

  /** A failed queue is reported before a closed one, and either before a missing session. */
  lemma RefusedAnswer(s: State, t: nat, nb: bool, c: Choice)
    requires Quiet(s, t) && c.call == CallPublish(nb)
    ensures s.queue.failed ==> Answers(Alone(s, t, c, 5), t, WorkerFailed)
    ensures !s.queue.failed && s.queue.closed ==> Answers(Alone(s, t, c, 5), t, QueueClosed)
    ensures Accepting(s) && !s.client.conn ==> Answers(Alone(s, t, c, 6), t, NoSession)
  {
    var check := At(s, t, Pub(PubCheck(nb)), QP(t));
    if Accepting(s) {
      Entering(s, t, nb, c, 6);
      if !s.client.conn {
        var a := At(s, t, Pre(Prep(Queued(nb))), QP(t));
        Go(check, t, c, 3, a);
        Go(a, t, c, 2, At(s, t, Pub(PubRetP(NoSession)), QP(t)));
        Answering(s, t, c, NoSession);
      }
    } else {
      var out := if s.queue.failed then WorkerFailed else QueueClosed;
      Entering(s, t, nb, c, 5);
      Go(check, t, c, 2, At(s, t, Pub(PubRetP(out)), QP(t)));
      Answering(s, t, c, out);
    }
  }

  /** A full queue says so, and one with room gives the marker of the next revision. */
  lemma AdmissionAnswer(s: State, t: nat, nb: bool, c: Choice)
    requires Quiet(s, t) && c.call == CallPublish(nb) && c.good && Accepting(s) && s.client.conn
    requires |s.queue.jobs| < s.queue.capacity ==> !s.queue.jobsClosed
    ensures if |s.queue.jobs| < s.queue.capacity then Answers(Alone(s, t, c, 11), t, Marker(s.client.revision + 1))
            else Answers(Alone(s, t, c, if s.queue.saturated then 11 else 12), t, QueueFull)
  {
    var rev, room := s.client.revision + 1, |s.queue.jobs| < s.queue.capacity;
    var n := if room || s.queue.saturated then 11 else 12;
    var admit := At(s, t, Pub(PubAdmit(nb, rev)), QP(t));
    Entering(s, t, nb, c, n);
    Preparing(s, t, nb, c, n - 3);
    if room {
      RoomAnswers(s, t, nb, c, rev);
    } else {
      Go(admit, t, c, n - 8, At(s, t, Pub(PubFull), QP(t)));
      FullAnswers(s, t, c, n - 9);
    }
  }

  lemma RoomAnswers(s: State, t: nat, nb: bool, c: Choice, rev: int)
    requires 0 < t < |s.pcs| && rev == s.client.revision + 1 && s.client.conn && !s.queue.jobsClosed
    requires |s.queue.jobs| < s.queue.capacity
    ensures Answers(Alone(At(s, t, Pub(PubAdmit(nb, rev)), QP(t)), t, c, 3), t, Marker(rev))
  {
    var admit := At(s, t, Pub(PubAdmit(nb, rev)), QP(t));
    var queued := Step(admit, t, c);
    var numbered := Step(queued, t, c);
    Go(admit, t, c, 3, queued);
    Go(queued, t, c, 2, numbered);
    Go(numbered, t, c, 1, Step(numbered, t, c));
  }

  lemma FullAnswers(s: State, t: nat, c: Choice, steps: nat)
    requires 0 < t < |s.pcs| && steps == if s.queue.saturated then 2 else 3
    ensures Answers(Alone(At(s, t, Pub(PubFull), QP(t)), t, c, steps), t, QueueFull)
  {
    var full := At(s, t, Pub(PubFull), QP(t));
    if s.queue.saturated {
      Go(full, t, c, 2, At(Refused(s), t, Pub(PubRetP(QueueFull)), QP(t)));
    } else {
      var counted := s.(queue := s.queue.(drops := s.queue.drops + 1, saturated := true));
      Go(full, t, c, 3, At(counted, t, Pub(PubGate), QP(t)));
      Go(At(counted, t, Pub(PubGate), QP(t)), t, c, 2, At(Refused(s), t, Pub(PubRetP(QueueFull)), QP(t)));
    }
    Answering(Refused(s), t, c, QueueFull);
  }

  /** TryPublish answers busy while the publication lock is held elsewhere. */
  lemma BusyAnswer(s: State, t: nat, c: Choice)
    requires 0 < t < |s.pcs| && s.pcs[t] == Idle && s.queue.started && c.call == CallPublish(true)
    requires s.locks.q.None? && s.locks.p.Some?
    ensures Answers(Alone(s, t, c, 3), t, Busy)
  {
    var a, held := s.Go(t, Pub(PubQ(true))), s.(locks := s.locks.(q := Some(t)));
    Go(s, t, c, 3, a);
    Go(a, t, c, 2, held.Go(t, Pub(PubP(true))));
    Go(held.Go(t, Pub(PubP(true))), t, c, 1, held.Go(t, Pub(PubRetQ(Busy))));
  }
}
