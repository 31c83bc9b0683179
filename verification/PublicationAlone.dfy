/** What each call, and each round of the worker, does from beginning to end when nobody interferes. */
module PublicationAlone {
  import opened Options
  import opened Publication

  const FREE := Locks(None, None, None, None, None)

  // Some steps of one thread on its own, with the same decisions for all of them.
  function Alone(s: State, t: nat, c: Choice, steps: nat): State
    requires t < |s.pcs|
    decreases steps, t
  {
    if steps == 0 then s
    else
      var s' := Step(s, t, c);
      if t < |s'.pcs| then Alone(s', t, c, steps - 1) else s'
  }

  lemma Go(s: State, t: nat, c: Choice, steps: nat, s': State)
    requires t < |s.pcs| && steps > 0 && s' == Step(s, t, c) && t < |s'.pcs|
    ensures Alone(s, t, c, steps) == Alone(s', t, c, steps - 1)
  {
  }

  // The thread at a program counter, holding these locks.
  function At(s: State, t: nat, pc: Pc, locks: Locks): State
    requires t < |s.pcs|
  {
    State(s.pcs[t := pc], locks, s.client, s.queue, s.hist)
  }

  lemma Restored(s: State, t: nat)
    requires t < |s.pcs| && s.locks == FREE
    ensures At(s, t, s.pcs[t], FREE) == s
  {
    assert s.pcs[t := s.pcs[t]] == s.pcs;
  }

  // ---------------------------------------------------------------- a queued publication

  function QP(t: nat): Locks { Locks(Some(t), Some(t), None, None, None) }

  // An idle thread of a client whose locks are free, with a queue.
  predicate Quiet(s: State, t: nat) { 0 < t < |s.pcs| && s.pcs[t] == Idle && s.locks == FREE && s.queue.started }

  lemma Entering(s: State, t: nat, nb: bool, c: Choice, steps: nat)
    requires Quiet(s, t) && c.call == CallPublish(nb) && steps >= 3
    ensures Alone(s, t, c, steps) == Alone(At(s, t, Pub(PubCheck(nb)), QP(t)), t, c, steps - 3)
  {
    var a := At(s, t, Pub(PubQ(nb)), FREE);
    var b := At(s, t, Pub(PubP(nb)), Locks(Some(t), None, None, None, None));
    Go(s, t, c, steps, a);
    Go(a, t, c, steps - 1, b);
    Go(b, t, c, steps - 2, At(s, t, Pub(PubCheck(nb)), QP(t)));
  }

  function Returned(s: State, out: Outcome): State {
    if out.Marker? then s.(hist := s.hist.(markers := s.hist.markers + [out.rev])) else s
  }

  lemma Returning(s: State, t: nat, c: Choice, out: Outcome)
    requires t < |s.pcs|
    ensures Alone(At(s, t, Pub(PubRetP(out)), QP(t)), t, c, 2) == At(Returned(s, out), t, Idle, FREE)
  {
    var a := At(s, t, Pub(PubRetQ(out)), Locks(Some(t), None, None, None, None));
    Go(At(s, t, Pub(PubRetP(out)), QP(t)), t, c, 2, a);
    Go(a, t, c, 1, At(Returned(s, out), t, Idle, FREE));
  }

  /** On a queue that has failed or is closed a call changes nothing. */
  lemma PublishOnClosedQueue(s: State, t: nat, nb: bool, c: Choice)
    requires Quiet(s, t) && c.call == CallPublish(nb) && (s.queue.failed || s.queue.closed)
    ensures Alone(s, t, c, 6) == s
  {
    Entering(s, t, nb, c, 6);
    var out := if s.queue.failed then WorkerFailed else QueueClosed;
    Go(At(s, t, Pub(PubCheck(nb)), QP(t)), t, c, 3, At(s, t, Pub(PubRetP(out)), QP(t)));
    Returning(s, t, c, out);
    Restored(s, t);
  }

  predicate Accepting(s: State) { !s.queue.failed && !s.queue.closed }

  lemma Preparing(s: State, t: nat, nb: bool, c: Choice, steps: nat)
    requires 0 < t < |s.pcs| && Accepting(s) && s.client.conn && c.good && steps >= 5
    ensures Alone(At(s, t, Pub(PubCheck(nb)), QP(t)), t, c, steps)
            == Alone(At(s, t, Pub(PubAdmit(nb, s.client.revision + 1)), QP(t)), t, c, steps - 5)
  {
    var k, rev := Queued(nb), s.client.revision + 1;
    var a := At(s, t, Pre(Prep(k)), QP(t));
    var b := At(s, t, Pre(PrepCollect(k, rev)), Locks(Some(t), Some(t), None, Some(t), None));
    var d := At(s, t, Pre(PrepLeaf(k, rev)), Locks(Some(t), Some(t), None, Some(t), Some(t)));
    var e := At(s, t, Pre(Validate(k, rev)), QP(t));
    Go(At(s, t, Pub(PubCheck(nb)), QP(t)), t, c, steps, a);
    Go(a, t, c, steps - 1, b);
    Go(b, t, c, steps - 2, d);
    Go(d, t, c, steps - 3, e);
    Go(e, t, c, steps - 4, At(s, t, Pub(PubAdmit(nb, rev)), QP(t)));
  }

  /** Without a connection neither. */
  lemma PublishWithoutSession(s: State, t: nat, nb: bool, c: Choice)
    requires Quiet(s, t) && c.call == CallPublish(nb) && Accepting(s) && !s.client.conn
    ensures Alone(s, t, c, 7) == s
  {
    Entering(s, t, nb, c, 7);
    var a := At(s, t, Pre(Prep(Queued(nb))), QP(t));
    Go(At(s, t, Pub(PubCheck(nb)), QP(t)), t, c, 4, a);
    Go(a, t, c, 3, At(s, t, Pub(PubRetP(NoSession)), QP(t)));
    Returning(s, t, c, NoSession);
    Restored(s, t);
  }

  // The state with one more admitted revision, and its marker returned.
  function Admitted(s: State): State {
    var rev := s.client.revision + 1;
    s.(client := s.client.(revision := rev), queue := s.queue.(jobs := s.queue.jobs + [rev]),
       hist := s.hist.(admitted := s.hist.admitted + [rev], markers := s.hist.markers + [rev]))
  }

  lemma Admitting(s: State, t: nat, nb: bool, c: Choice, rev: int, queued: State, numbered: State)
    requires 0 < t < |s.pcs| && rev == s.client.revision + 1 && s.client.conn && !s.queue.jobsClosed
    requires |s.queue.jobs| < s.queue.capacity
    requires queued == s.(queue := s.queue.(jobs := s.queue.jobs + [rev]),
                          hist := s.hist.(admitted := s.hist.admitted + [rev]))
    requires numbered == queued.(client := s.client.(revision := rev))
    ensures Alone(At(s, t, Pub(PubAdmit(nb, rev)), QP(t)), t, c, 4)
            == Alone(At(numbered, t, Pub(PubRetP(Marker(rev))), QP(t)), t, c, 2)
  {
    var a := At(queued, t, Pub(PubSetRev(rev)), Locks(Some(t), Some(t), None, Some(t), None));
    Go(At(s, t, Pub(PubAdmit(nb, rev)), QP(t)), t, c, 4, a);
    Go(a, t, c, 3, At(numbered, t, Pub(PubRetP(Marker(rev))), QP(t)));
  }

  /** With room in the queue a valid publication takes the next revision, is queued and returns its marker. */
  lemma PublishWithRoom(s: State, t: nat, nb: bool, c: Choice)
    requires Quiet(s, t) && c.call == CallPublish(nb) && c.good && Accepting(s) && s.client.conn
    requires |s.queue.jobs| < s.queue.capacity && !s.queue.jobsClosed
    ensures Alone(s, t, c, 12) == Admitted(s)
  {
    var rev := s.client.revision + 1;
    Entering(s, t, nb, c, 12);
    Preparing(s, t, nb, c, 9);
    var queued := s.(queue := s.queue.(jobs := s.queue.jobs + [rev]),
                     hist := s.hist.(admitted := s.hist.admitted + [rev]));
    var numbered := queued.(client := s.client.(revision := rev));
    Admitting(s, t, nb, c, rev, queued, numbered);
    Returning(numbered, t, c, Marker(rev));
    assert Returned(numbered, Marker(rev)) == Admitted(s);
    Restored(Admitted(s), t);
  }

  // The state after a refusal for want of room: counted, and a readiness gate is open.
  function Refused(s: State): State {
    var q := s.queue.(drops := s.queue.drops + 1);
    s.(queue := if q.saturated then q else q.(saturated := true, gates := q.gates + [true]))
  }

  /** Without room it takes no revision, is counted, and leaves a gate to wait for. */
  lemma PublishWithoutRoom(s: State, t: nat, nb: bool, c: Choice)
    requires Quiet(s, t) && c.call == CallPublish(nb) && c.good && Accepting(s) && s.client.conn
    requires |s.queue.jobs| >= s.queue.capacity
    ensures Alone(s, t, c, if s.queue.saturated then 12 else 13) == Refused(s)
  {
    var rev, n := s.client.revision + 1, if s.queue.saturated then 12 else 13;
    Entering(s, t, nb, c, n);
    Preparing(s, t, nb, c, n - 3);
    Go(At(s, t, Pub(PubAdmit(nb, rev)), QP(t)), t, c, n - 8, At(s, t, Pub(PubFull), QP(t)));
    if s.queue.saturated {
      Go(At(s, t, Pub(PubFull), QP(t)), t, c, 3, At(Refused(s), t, Pub(PubRetP(QueueFull)), QP(t)));
    } else {
      var counted := s.(queue := s.queue.(drops := s.queue.drops + 1, saturated := true));
      Go(At(s, t, Pub(PubFull), QP(t)), t, c, 4, At(counted, t, Pub(PubGate), QP(t)));
      Go(At(counted, t, Pub(PubGate), QP(t)), t, c, 3, At(Refused(s), t, Pub(PubRetP(QueueFull)), QP(t)));
    }
    Returning(Refused(s), t, c, QueueFull);
    Restored(Refused(s), t);
  }

  /** TryPublish never waits: with the queue's lock, or the publication lock, held elsewhere it changes nothing. */
  lemma TryPublishBusy(s: State, t: nat, c: Choice)
    requires 0 < t < |s.pcs| && s.pcs[t] == Idle && s.queue.started && c.call == CallPublish(true)
    requires s.locks.q.Some? || s.locks.p.Some?
    ensures Alone(s, t, c, if s.locks.q.Some? then 2 else 4) == s
  {
    var a := s.Go(t, Pub(PubQ(true)));
    if s.locks.q.Some? {
      Go(s, t, c, 2, a);
      Go(a, t, c, 1, s.Go(t, Idle));
    } else {
      var held := s.(locks := s.locks.(q := Some(t)));
      Go(s, t, c, 4, a);
      Go(a, t, c, 3, held.Go(t, Pub(PubP(true))));
      Go(held.Go(t, Pub(PubP(true))), t, c, 2, held.Go(t, Pub(PubRetQ(Busy))));
      Go(held.Go(t, Pub(PubRetQ(Busy))), t, c, 1, s.Go(t, Idle));
    }
    assert s.pcs[t := Idle] == s.pcs;
  }

  // ---------------------------------------------------------------- writing

  function W(t: nat): Locks { Locks(None, None, Some(t), None, None) }

  function Sent(s: State, f: Frame): State { s.(hist := s.hist.(wire := s.hist.wire + [f])) }

  predicate Online(s: State) { s.client.conn && s.client.socket }

  lemma WritesSingle(s: State, t: nat, c: Choice, f: Frame, closing: bool, steps: nat)
    requires t < |s.pcs| && Online(s) && c.good && steps >= 4
    ensures var w := Single(f, closing);
      Alone(At(s, t, Wr(SendW(f, closing)), FREE), t, c, steps)
      == Alone(At(Sent(s, f), t, AfterWrite(w, true), FREE), t, c, steps - 4)
  {
    var w := Single(f, closing);
    Go(At(s, t, Wr(SendW(f, closing)), FREE), t, c, steps, At(s, t, Wr(WriteC(w)), W(t)));
    Go(At(s, t, Wr(WriteC(w)), W(t)), t, c, steps - 1, At(s, t, Wr(WriteOut(w)), W(t)));
    Go(At(s, t, Wr(WriteOut(w)), W(t)), t, c, steps - 2, At(Sent(s, f), t, Wr(WriteRel(w, true)), W(t)));
    Go(At(Sent(s, f), t, Wr(WriteRel(w, true)), W(t)), t, c, steps - 3, At(Sent(s, f), t, AfterWrite(w, true), FREE));
  }

  function Handled(s: State, f: Frame): State {
    s.(hist := s.hist.(wire := s.hist.wire + [f], handled := s.hist.handled + 1))
  }

  function PairLocks(t: nat, owner: PairOwner): Locks {
    Locks(None, if owner.Publisher? then Some(t) else None, Some(t), None, None)
  }

  lemma WritesPair(s: State, t: nat, c: Choice, owner: PairOwner, rev: int, steps: nat, done: State)
    requires t < |s.pcs| && Online(s) && c.good && steps >= 6
    requires done == Handled(Handled(s, Full(rev)), Commit(rev))
    ensures var locks := PairLocks(t, owner).(w := None);
      Alone(At(s, t, Wr(PairW(owner, rev)), locks), t, c, steps)
      == Alone(At(done, t, AfterWrite(CommitOf(owner, rev), true), locks), t, c, steps - 6)
  {
    var tree, commit, locks := TreeOf(owner, rev), CommitOf(owner, rev), PairLocks(t, owner);
    var half := Handled(s, Full(rev));
    Go(At(s, t, Wr(PairW(owner, rev)), locks.(w := None)), t, c, steps, At(s, t, Wr(WriteC(tree)), locks));
    Go(At(s, t, Wr(WriteC(tree)), locks), t, c, steps - 1, At(s, t, Wr(WriteOut(tree)), locks));
    Go(At(s, t, Wr(WriteOut(tree)), locks), t, c, steps - 2, At(half, t, Wr(WriteC(commit)), locks));
    Go(At(half, t, Wr(WriteC(commit)), locks), t, c, steps - 3, At(half, t, Wr(WriteOut(commit)), locks));
    Go(At(half, t, Wr(WriteOut(commit)), locks), t, c, steps - 4, At(done, t, Wr(WriteRel(commit, true)), locks));
    Go(At(done, t, Wr(WriteRel(commit, true)), locks), t, c, steps - 5,
       At(done, t, AfterWrite(commit, true), locks.(w := None)));
  }

  function Offline(s: State): State { s.(client := s.client.(conn := false, socket := false)) }

  lemma Closing(s: State, t: nat, c: Choice, from: CloseFrom, steps: nat)
    requires t < |s.pcs| && Online(s) && !from.AfterFailedWrite? && steps >= 3
    ensures var next := if from.ByUser? then Idle else Wk(WDone(from.transportFailed));
      Alone(At(s, t, Cl(CloseC(from)), FREE), t, c, steps) == Alone(At(Offline(s), t, next, FREE), t, c, steps - 3)
  {
    var cut := s.(client := s.client.(conn := false));
    Go(At(s, t, Cl(CloseC(from)), FREE), t, c, steps, At(cut, t, Cl(CloseReg(from, true)), FREE));
    Go(At(cut, t, Cl(CloseReg(from, true)), FREE), t, c, steps - 1, At(cut, t, Cl(CloseSock(from, true)), FREE));
    Go(At(cut, t, Cl(CloseSock(from, true)), FREE), t, c, steps - 2,
       At(Offline(s), t, if from.ByUser? then Idle else Wk(WDone(from.transportFailed)), FREE));
  }

  // An idle thread of a connected client whose locks are free.
  predicate Ready(s: State, t: nat) { 0 < t < |s.pcs| && s.pcs[t] == Idle && s.locks == FREE && Online(s) }

  /** Log writes one record. */
  lemma LogAlone(s: State, t: nat, c: Choice)
    requires Ready(s, t) && c.call == CallLog && c.good
    ensures Alone(s, t, c, 6) == Sent(s, Record)
  {
    Go(s, t, c, 6, At(s, t, Lif(LogC), FREE));
    Go(At(s, t, Lif(LogC), FREE), t, c, 5, At(s, t, Wr(SendW(Record, false)), FREE));
    WritesSingle(s, t, c, Record, false, 4);
    Restored(Sent(s, Record), t);
  }

  /** Close closes connection and socket. */
  lemma CloseAlone(s: State, t: nat, c: Choice)
    requires Ready(s, t) && c.call == CallClose
    ensures Alone(s, t, c, 4) == Offline(s)
  {
    Go(s, t, c, 4, At(s, t, Cl(CloseC(ByUser)), FREE));
    Closing(s, t, c, ByUser, 3);
    Restored(Offline(s), t);
  }

  /** Client.Fail writes its report and closes. */
  lemma ClientFailAlone(s: State, t: nat, c: Choice)
    requires Ready(s, t) && c.call == CallClientFail && c.good
    ensures Alone(s, t, c, 9) == Offline(Sent(s, Report))
  {
    Go(s, t, c, 9, At(s, t, Cl(FailC(Report)), FREE));
    Go(At(s, t, Cl(FailC(Report)), FREE), t, c, 8, At(s, t, Wr(SendW(Report, true)), FREE));
    WritesSingle(s, t, c, Report, true, 7);
    Closing(Sent(s, Report), t, c, ByUser, 3);
    Restored(Offline(Sent(s, Report)), t);
  }

  // ---------------------------------------------------------------- the queue's life

  function Q(t: nat): Locks { Locks(Some(t), None, None, None, None) }

  /** NewPublicationQueue: an open, empty queue from the client's revision on, its worker waiting for jobs. */
  lemma NewQueueAlone(s: State, t: nat, c: Choice, cap: nat)
    requires Ready(s, t) && s.pcs[0] == Wk(WNone) && c.call == CallNew(cap) && cap > 0 && !s.client.queued
    ensures Alone(s, t, c, 5)
            == s.(pcs := s.pcs[0 := Wk(WRecv)], client := s.client.(queued := true),
                  queue := s.queue.(started := true, capacity := cap, gates := [false]),
                  hist := s.hist.(r0 := s.client.revision))
  {
    var p := Locks(None, Some(t), None, None, None);
    var owned := s.(client := s.client.(queued := true));
    Go(s, t, c, 5, At(s, t, Rdy(NewP(cap)), FREE));
    Go(At(s, t, Rdy(NewP(cap)), FREE), t, c, 4, At(s, t, Rdy(NewC(cap)), p));
    Go(At(s, t, Rdy(NewC(cap)), p), t, c, 3, At(owned, t, Rdy(NewRel(cap, true)), p));
    Go(At(owned, t, Rdy(NewRel(cap, true)), p), t, c, 2, At(owned, t, Rdy(NewStart(cap)), FREE));
    Starts(owned, t, c, cap);
  }

  lemma Starts(s: State, t: nat, c: Choice, cap: nat)
    requires 0 < t < |s.pcs| && s.pcs[t] == Idle && s.locks == FREE
    ensures Alone(At(s, t, Rdy(NewStart(cap)), FREE), t, c, 1)
            == s.(pcs := s.pcs[0 := Wk(WRecv)], queue := s.queue.(started := true, capacity := cap, gates := [false]),
                  hist := s.hist.(r0 := s.client.revision))
  {
    var done := s.(pcs := s.pcs[0 := Wk(WRecv)], queue := s.queue.(started := true, capacity := cap, gates := [false]),
                   hist := s.hist.(r0 := s.client.revision));
    assert s.pcs[t := Rdy(NewStart(cap))][0 := Wk(WRecv)][t := Idle] == s.pcs[0 := Wk(WRecv)];
    Go(At(s, t, Rdy(NewStart(cap)), FREE), t, c, 1, done);
  }

  /** Fail closes an open queue and keeps its code; on a closed one it does nothing. */
  lemma QueueFailAlone(s: State, t: nat, c: Choice, code: bool)
    requires Quiet(s, t) && c.call == CallQueueFail(code) && s.queue.jobsClosed == s.queue.closed
    ensures Alone(s, t, c, if s.queue.closed then 4 else 5)
            == if s.queue.closed then s
               else s.(queue := s.queue.(closed := true, jobsClosed := true, failed := true, fatalCode := code))
  {
    var n := if s.queue.closed then 4 else 5;
    Go(s, t, c, n, At(s, t, Lif(QFailQ(code)), FREE));
    Go(At(s, t, Lif(QFailQ(code)), FREE), t, c, n - 1, At(s, t, Lif(QFail(code)), Q(t)));
    if s.queue.closed {
      Go(At(s, t, Lif(QFail(code)), Q(t)), t, c, 2, At(s, t, Lif(QRel(false)), Q(t)));
      Go(At(s, t, Lif(QRel(false)), Q(t)), t, c, 1, At(s, t, Idle, FREE));
      Restored(s, t);
    } else {
      var a := s.(queue := s.queue.(closed := true, failed := true, fatalCode := code));
      var b := a.(queue := a.queue.(jobsClosed := true));
      Go(At(s, t, Lif(QFail(code)), Q(t)), t, c, 3, At(a, t, Lif(QFailClose), Q(t)));
      Go(At(a, t, Lif(QFailClose), Q(t)), t, c, 2, At(b, t, Lif(QRel(false)), Q(t)));
      Go(At(b, t, Lif(QRel(false)), Q(t)), t, c, 1, At(b, t, Idle, FREE));
      Restored(b, t);
    }
  }

  /** Shutdown closes an open queue without failing it, and waits for the worker either way. */
  lemma ShutdownAlone(s: State, t: nat, c: Choice)
    requires Quiet(s, t) && c.call == CallShutdown && s.queue.jobsClosed == s.queue.closed
    ensures Alone(s, t, c, if s.queue.closed then 4 else 5)
            == s.(pcs := s.pcs[t := Lif(ShutWait)], queue := s.queue.(closed := true, jobsClosed := true))
  {
    var n := if s.queue.closed then 4 else 5;
    Go(s, t, c, n, At(s, t, Lif(ShutQ), FREE));
    Go(At(s, t, Lif(ShutQ), FREE), t, c, n - 1, At(s, t, Lif(Shut), Q(t)));
    if s.queue.closed {
      Go(At(s, t, Lif(Shut), Q(t)), t, c, 2, At(s, t, Lif(QRel(true)), Q(t)));
      Go(At(s, t, Lif(QRel(true)), Q(t)), t, c, 1, At(s, t, Lif(ShutWait), FREE));
    } else {
      var a := s.(queue := s.queue.(closed := true));
      var b := a.(queue := a.queue.(jobsClosed := true));
      Go(At(s, t, Lif(Shut), Q(t)), t, c, 3, At(a, t, Lif(ShutClose), Q(t)));
      Go(At(a, t, Lif(ShutClose), Q(t)), t, c, 2, At(b, t, Lif(QRel(true)), Q(t)));
      Go(At(b, t, Lif(QRel(true)), Q(t)), t, c, 1, At(b, t, Lif(ShutWait), FREE));
    }
  }

  // ---------------------------------------------------------------- a direct publication

  /** Client.Publish writes the next revision's pair, unless a queue owns the client. */
  lemma DirectAlone(s: State, t: nat, c: Choice)
    requires Ready(s, t) && c.call == CallDirect && c.good
    ensures var rev := s.client.revision + 1;
      Alone(s, t, c, if s.client.queued then 4 else 15)
      == if s.client.queued then s
         else Handled(Handled(s, Full(rev)), Commit(rev)).(client := s.client.(revision := rev))
  {
    var p, n := Locks(None, Some(t), None, None, None), if s.client.queued then 4 else 15;
    Go(s, t, c, n, At(s, t, Dir(DirP), FREE));
    Go(At(s, t, Dir(DirP), FREE), t, c, n - 1, At(s, t, Dir(DirCheck), p));
    if s.client.queued {
      Go(At(s, t, Dir(DirCheck), p), t, c, 2, At(s, t, Dir(DirRet(OwnedByQueue)), p));
      Go(At(s, t, Dir(DirRet(OwnedByQueue)), p), t, c, 1, At(s, t, Idle, FREE));
      Restored(s, t);
    } else {
      DirectWrites(s, t, c, p);
    }
  }

  lemma DirectPrepares(s: State, t: nat, c: Choice, p: Locks, rev: int)
    requires 0 < t < |s.pcs| && Online(s) && !s.client.queued && c.good && p == Locks(None, Some(t), None, None, None)
    requires rev == s.client.revision + 1
    ensures Alone(At(s, t, Dir(DirCheck), p), t, c, 13) == Alone(At(s, t, Wr(PairW(Publisher, rev)), p), t, c, 8)
  {
    Go(At(s, t, Dir(DirCheck), p), t, c, 13, At(s, t, Pre(Prep(Direct)), p));
    Go(At(s, t, Pre(Prep(Direct)), p), t, c, 12, At(s, t, Pre(PrepCollect(Direct, rev)), p.(c := Some(t))));
    Go(At(s, t, Pre(PrepCollect(Direct, rev)), p.(c := Some(t))), t, c, 11,
       At(s, t, Pre(PrepLeaf(Direct, rev)), p.(c := Some(t), r := Some(t))));
    Go(At(s, t, Pre(PrepLeaf(Direct, rev)), p.(c := Some(t), r := Some(t))), t, c, 10,
       At(s, t, Pre(Validate(Direct, rev)), p));
    Go(At(s, t, Pre(Validate(Direct, rev)), p), t, c, 9, At(s, t, Wr(PairW(Publisher, rev)), p));
  }

  lemma DirectWrites(s: State, t: nat, c: Choice, p: Locks)
    requires Ready(s, t) && !s.client.queued && c.good && p == Locks(None, Some(t), None, None, None)
    ensures var rev := s.client.revision + 1;
      Alone(At(s, t, Dir(DirCheck), p), t, c, 13)
      == Handled(Handled(s, Full(rev)), Commit(rev)).(client := s.client.(revision := rev))
  {
    var rev := s.client.revision + 1;
    DirectPrepares(s, t, c, p, rev);
    var done := Handled(Handled(s, Full(rev)), Commit(rev));
    WritesPair(s, t, c, Publisher, rev, 8, done);
    var numbered := done.(client := s.client.(revision := rev));
    Go(At(done, t, Dir(DirAdmit(rev)), p), t, c, 2, At(numbered, t, Dir(DirRet(Marker(rev))), p));
    Go(At(numbered, t, Dir(DirRet(Marker(rev))), p), t, c, 1, At(numbered, t, Idle, FREE));
    Restored(numbered, t);
  }

  // ---------------------------------------------------------------- the worker

  // The worker waits for a job, and nobody else does anything.
  predicate WorkerReady(s: State) { |s.pcs| > 0 && s.pcs[0] == Wk(WRecv) && s.locks == FREE && Online(s) }

  // The first job is taken, and a waiting gate closed.
  function Took(s: State): State
    requires s.queue.jobs != []
  {
    var q := s.queue.(jobs := s.queue.jobs[1..]);
    var g := q.gates;
    s.(queue := if q.saturated && |g| > 0 then q.(saturated := false, gates := g[|g| - 1 := false]) else q,
       hist := s.hist.(taken := s.hist.taken + 1))
  }

  lemma WorkerSignals(a: State, c: Choice, rev: int, steps: nat, b: State, d: State)
    requires |a.pcs| > 0 && a.queue.saturated && |a.queue.gates| > 0 && a.queue.gates[|a.queue.gates| - 1] && steps >= 3
    requires b == a.(queue := a.queue.(saturated := false))
    requires d == b.(queue := b.queue.(gates := a.queue.gates[|a.queue.gates| - 1 := false]))
    ensures Alone(At(a, 0, Wk(WSignal(rev)), Q(0)), 0, c, steps)
            == Alone(At(d, 0, Wr(PairW(Worker, rev)), FREE), 0, c, steps - 3)
  {
    Go(At(a, 0, Wk(WSignal(rev)), Q(0)), 0, c, steps, At(b, 0, Wk(WSignalGate(rev)), Q(0)));
    Go(At(b, 0, Wk(WSignalGate(rev)), Q(0)), 0, c, steps - 1, At(d, 0, Wk(WSignalRel(rev)), Q(0)));
    Go(At(d, 0, Wk(WSignalRel(rev)), Q(0)), 0, c, steps - 2, At(d, 0, Wr(PairW(Worker, rev)), FREE));
  }

  lemma WorkerTakes(s: State, c: Choice, rev: int, steps: nat, took: State)
    requires WorkerReady(s) && s.queue.jobs != [] && rev == s.queue.jobs[0] && steps >= 5 && took == Took(s)
    requires s.queue.saturated ==> |s.queue.gates| > 0 && s.queue.gates[|s.queue.gates| - 1]
    ensures var left := if s.queue.saturated then steps - 5 else steps - 4;
      Alone(s, 0, c, steps) == Alone(At(took, 0, Wr(PairW(Worker, rev)), FREE), 0, c, left)
  {
    var a := s.(queue := s.queue.(jobs := s.queue.jobs[1..]), hist := s.hist.(taken := s.hist.taken + 1));
    Go(s, 0, c, steps, At(a, 0, Wk(WSignalQ(rev)), FREE));
    Go(At(a, 0, Wk(WSignalQ(rev)), FREE), 0, c, steps - 1, At(a, 0, Wk(WSignal(rev)), Q(0)));
    if s.queue.saturated {
      WorkerSignals(a, c, rev, steps - 2, a.(queue := a.queue.(saturated := false)), took);
    } else {
      Go(At(a, 0, Wk(WSignal(rev)), Q(0)), 0, c, steps - 2, At(a, 0, Wk(WSignalRel(rev)), Q(0)));
      Go(At(a, 0, Wk(WSignalRel(rev)), Q(0)), 0, c, steps - 3, At(took, 0, Wr(PairW(Worker, rev)), FREE));
    }
  }

  lemma WorkerWritesPair(took: State, c: Choice, rev: int, done: State)
    requires |took.pcs| > 0 && took.pcs[0] == Wk(WRecv) && took.locks == FREE && Online(took) && c.good
    requires done == Handled(Handled(took, Full(rev)), Commit(rev))
    ensures Alone(At(took, 0, Wr(PairW(Worker, rev)), FREE), 0, c, 7) == done
  {
    WritesPair(took, 0, c, Worker, rev, 7, done);
    Go(At(done, 0, Wk(WComplete(rev)), FREE), 0, c, 1, At(done, 0, Wk(WRecv), FREE));
    Restored(done, 0);
  }

  /** One round: the oldest job is taken, a waiting gate closed, and its tree and commit written. */
  lemma WorkerRound(s: State, c: Choice, rev: int)
    requires WorkerReady(s) && c.good && s.queue.jobs != [] && rev == s.queue.jobs[0]
    requires s.queue.saturated ==> |s.queue.gates| > 0 && s.queue.gates[|s.queue.gates| - 1]
    ensures Alone(s, 0, c, if s.queue.saturated then 12 else 11) == Handled(Handled(Took(s), Full(rev)), Commit(rev))
  {
    var took := Took(s);
    WorkerTakes(s, c, rev, if s.queue.saturated then 12 else 11, took);
    WorkerWritesPair(took, c, rev, Handled(Handled(took, Full(rev)), Commit(rev)));
  }

  /** At the end of a closed queue: the fatal frame if Fail gave a code, and the client is closed. */
  lemma WorkerEnd(s: State, c: Choice)
    requires WorkerReady(s) && c.good && s.queue.jobs == [] && s.queue.jobsClosed
    ensures Alone(s, 0, c, if s.queue.fatalCode then 10 else 5)
            == At(Offline(if s.queue.fatalCode then Sent(s, Fatal) else s), 0, Wk(WDone(false)), FREE)
  {
    var n := if s.queue.fatalCode then 10 else 5;
    Go(s, 0, c, n, At(s, 0, Wk(WEndQ), FREE));
    if s.queue.fatalCode {
      Go(At(s, 0, Wk(WEndQ), FREE), 0, c, 9, At(s, 0, Cl(FailC(Fatal)), FREE));
      Go(At(s, 0, Cl(FailC(Fatal)), FREE), 0, c, 8, At(s, 0, Wr(SendW(Fatal, true)), FREE));
      WritesSingle(s, 0, c, Fatal, true, 7);
      Closing(Sent(s, Fatal), 0, c, ByWorker(false), 3);
    } else {
      Go(At(s, 0, Wk(WEndQ), FREE), 0, c, 4, At(s, 0, Cl(CloseC(ByWorker(false))), FREE));
      Closing(s, 0, c, ByWorker(false), 3);
    }
  }

  /** A write that fails, with or without some of its bytes: the queue has failed, the client is closed, and the jobs
      that are left stay there. */
  lemma WorkerFails(s: State, c: Choice, rev: int, took: State, left: State)
    requires WorkerReady(s) && !c.good && s.queue.jobs != [] && rev == s.queue.jobs[0] && !s.queue.saturated
    requires took == s.(queue := s.queue.(jobs := s.queue.jobs[1..]), hist := s.hist.(taken := s.hist.taken + 1))
    requires left == if c.fragment then Sent(took, Fragment(Full(rev))) else took
    ensures Alone(s, 0, c, 15) == At(Offline(left.(queue := left.queue.(failed := true))), 0, Wk(WDone(true)), FREE)
  {
    assert took == Took(s);
    WorkerTakes(s, c, rev, 15, took);
    PairFails(took, c, rev, left, left.(queue := left.queue.(failed := true)));
  }

  lemma PairFails(s: State, c: Choice, rev: int, left: State, failed: State)
    requires |s.pcs| > 0 && Online(s) && !c.good
    requires left == if c.fragment then Sent(s, Fragment(Full(rev))) else s
    requires failed == left.(queue := left.queue.(failed := true))
    ensures Alone(At(s, 0, Wr(PairW(Worker, rev)), FREE), 0, c, 11) == At(Offline(failed), 0, Wk(WDone(true)), FREE)
  {
    TreeFails(s, c, TreeOf(Worker, rev), left);
    FailedWriteCloses(left, c, TreeOf(Worker, rev));
  }

  lemma TreeFails(s: State, c: Choice, w: Write, left: State)
    requires |s.pcs| > 0 && Online(s) && w.TreeOf? && w.owner.Worker? && !c.good
    requires left == if c.fragment then Sent(s, Fragment(Full(w.rev))) else s
    ensures Alone(At(s, 0, Wr(PairW(Worker, w.rev)), FREE), 0, c, 11)
            == Alone(At(left, 0, Cl(CloseC(AfterFailedWrite(w))), W(0)), 0, c, 8)
  {
    Go(At(s, 0, Wr(PairW(Worker, w.rev)), FREE), 0, c, 11, At(s, 0, Wr(WriteC(w)), W(0)));
    Go(At(s, 0, Wr(WriteC(w)), W(0)), 0, c, 10, At(s, 0, Wr(WriteOut(w)), W(0)));
    Go(At(s, 0, Wr(WriteOut(w)), W(0)), 0, c, 9, At(left, 0, Cl(CloseC(AfterFailedWrite(w))), W(0)));
  }

  lemma FailedWriteCloses(s: State, c: Choice, w: Write)
    requires |s.pcs| > 0 && Online(s) && w.TreeOf? && w.owner.Worker?
    ensures Alone(At(s, 0, Cl(CloseC(AfterFailedWrite(w))), W(0)), 0, c, 8)
            == At(Offline(s.(queue := s.queue.(failed := true))), 0, Wk(WDone(true)), FREE)
  {
    var from, cut, off := AfterFailedWrite(w), s.(client := s.client.(conn := false)), Offline(s);
    Go(At(s, 0, Cl(CloseC(from)), W(0)), 0, c, 8, At(cut, 0, Cl(CloseReg(from, true)), W(0)));
    Go(At(cut, 0, Cl(CloseReg(from, true)), W(0)), 0, c, 7, At(cut, 0, Cl(CloseSock(from, true)), W(0)));
    Go(At(cut, 0, Cl(CloseSock(from, true)), W(0)), 0, c, 6, At(off, 0, Wr(WriteRel(w, false)), W(0)));
    Go(At(off, 0, Wr(WriteRel(w, false)), W(0)), 0, c, 5, At(off, 0, Wk(WFailed), FREE));
    WorkerGivesUp(off, c, off.(queue := s.queue.(failed := true)));
  }

  lemma WorkerGivesUp(off: State, c: Choice, failed: State)
    requires |off.pcs| > 0 && !off.client.conn && failed == off.(queue := off.queue.(failed := true))
    ensures Alone(At(off, 0, Wk(WFailed), FREE), 0, c, 4) == At(failed, 0, Wk(WDone(true)), FREE)
  {
    var from := ByWorker(true);
    Go(At(off, 0, Wk(WFailed), FREE), 0, c, 4, At(failed, 0, Cl(CloseC(from)), FREE));
    Go(At(failed, 0, Cl(CloseC(from)), FREE), 0, c, 3, At(failed, 0, Cl(CloseReg(from, false)), FREE));
    Go(At(failed, 0, Cl(CloseReg(from, false)), FREE), 0, c, 2, At(failed, 0, Cl(CloseSock(from, false)), FREE));
    Go(At(failed, 0, Cl(CloseSock(from, false)), FREE), 0, c, 1, At(failed, 0, Wk(WDone(true)), FREE));
  }
}
