/** A run that strands a readiness waiter: the worker's write fails while the queue is full. */
module PublicationStranded {
  import opened Options
  import opened Publication
  import opened PublicationLoss
  import opened PublicationProgress
  import opened PublicationWaiters

  // The worker holds revision 1 and is about to write it.
  const TAKEN := State([Wr(PairW(Worker, 1)), Idle], FREE, Client(true, true, 1, true), QUEUE,
                       History(false, 0, [1], 1, 0, [1], []))

  // Revision 2 fills the queue of one.
  const FULL := TAKEN.(client := Client(true, true, 2, true), queue := QUEUE.(jobs := [2]),
                       hist := History(false, 0, [1, 2], 1, 0, [1, 2], []))

  // Revision 3 is refused, and the gate is open.
  const REFUSED := FULL.(queue := QUEUE.(jobs := [2], saturated := true, gates := [false, true], drops := 1))

  const WAITING := REFUSED.(pcs := [Wr(PairW(Worker, 1)), Rdy(DropWait(1))])

  const BROKEN := WAITING.(pcs := [Wk(WFailed), Rdy(DropWait(1))], client := Client(false, false, 2, true))

  const STRANDED := BROKEN.(pcs := [Wk(WDone(true)), Rdy(DropWait(1))], queue := BROKEN.queue.(failed := true))

  const GO := Calling(CallPublish(false))

  // A write that fails before its first byte.
  const BREAK := Choice(CallClose, false, false)

  lemma Take(run0: seq<State>) returns (run: seq<State>)
    requires Run(run0) && Last(run0) == ADMITTED
    ensures Run(run) && Last(run) == TAKEN
  {
    run := Extend(run0, 0, GO);
    run := Extend(run, 0, GO);
    run := Extend(run, 0, GO);
    run := Extend(run, 0, GO);
  }

  // What a call holds and is about to admit once it has prepared its snapshot.
  function Ready(s: State): State
    requires |s.pcs| == 2
  {
    s.(pcs := [s.pcs[0], Pub(PubAdmit(false, s.client.revision + 1))],
       locks := Locks(Some(1), Some(1), None, None, None))
  }

  lemma EnterCall(run0: seq<State>) returns (run: seq<State>)
    requires Run(run0) && var s := Last(run0);
      |s.pcs| == 2 && s.pcs[1] == Idle && s.locks == FREE && s.queue.started && !s.queue.failed && !s.queue.closed
    ensures Run(run) && var s := Last(run0);
      Last(run) == s.(pcs := [s.pcs[0], Pre(Prep(Queued(false)))], locks := Locks(Some(1), Some(1), None, None, None))
  {
    var s := Last(run0);
    run := Extend(run0, 1, GO);
    run := Extend(run, 1, GO);
    run := Extend(run, 1, GO);
    assert Last(run).pcs == [s.pcs[0], Pub(PubCheck(false))];
    run := Extend(run, 1, GO);
  }

  lemma PrepareNext(run0: seq<State>) returns (run: seq<State>)
    requires Run(run0) && var s := Last(run0);
      && |s.pcs| == 2 && s.pcs[1] == Idle && s.locks == FREE && s.queue.started && !s.queue.failed && !s.queue.closed
      && s.client.conn
    ensures Run(run) && Last(run) == Ready(Last(run0))
  {
    var s := Last(run0);
    run := EnterCall(run0);
    run := Extend(run, 1, GO);
    run := Extend(run, 1, GO);
    run := Extend(run, 1, GO);
    assert Last(run).pcs == [s.pcs[0], Pre(Validate(Queued(false), s.client.revision + 1))];
    run := Extend(run, 1, GO);
  }

  lemma Fill(run0: seq<State>) returns (run: seq<State>)
    requires Run(run0) && Last(run0) == Ready(TAKEN)
    ensures Run(run) && Last(run) == FULL
  {
    run := Extend(run0, 1, GO);
    run := Extend(run, 1, GO);
    run := Extend(run, 1, GO);
    run := Extend(run, 1, GO);
  }

  lemma Refuse(run0: seq<State>) returns (run: seq<State>)
    requires Run(run0) && Last(run0) == Ready(FULL)
    ensures Run(run) && Last(run) == REFUSED
  {
    run := Extend(run0, 1, GO);
    run := Extend(run, 1, GO);
    run := Extend(run, 1, GO);
    run := Extend(run, 1, GO);
    run := Extend(run, 1, GO);
  }

  lemma Wait(run0: seq<State>) returns (run: seq<State>)
    requires Run(run0) && Last(run0) == REFUSED
    ensures Run(run) && Last(run) == WAITING
  {
    run := Extend(run0, 1, Calling(CallReadyAfterDrop));
    run := Extend(run, 1, GO);
  }

  lemma Break(run0: seq<State>) returns (run: seq<State>)
    requires Run(run0) && Last(run0) == WAITING
    ensures Run(run) && Last(run) == BROKEN
  {
    run := Extend(run0, 0, BREAK);
    run := Extend(run, 0, BREAK);
    run := Extend(run, 0, BREAK);
    run := Extend(run, 0, BREAK);
    assert Last(run).pcs[0] == Cl(CloseReg(AfterFailedWrite(TreeOf(Worker, 1)), true));
    run := Extend(run, 0, BREAK);
    run := Extend(run, 0, BREAK);
    run := Extend(run, 0, BREAK);
  }

  lemma Stop(run0: seq<State>) returns (run: seq<State>)
    requires Run(run0) && Last(run0) == BROKEN
    ensures Run(run) && Last(run) == STRANDED
  {
    run := Extend(run0, 0, BREAK);
    run := Extend(run, 0, BREAK);
    run := Extend(run, 0, BREAK);
    run := Extend(run, 0, BREAK);
  }

  /** A queue of one: revision 1 is taken, revision 2 admitted, revision 3 refused, and a waiter asks when it may
      try again.  The worker's write fails, it stops, and the waiter's gate is still open. */
  lemma WaiterIsStranded() returns (run: seq<State>)
    ensures Run(run) && Last(run) == STRANDED
    ensures Stopped(Last(run)) && Doomed(Last(run)) && Blocked(Last(run), 1, 1)
  {
    run := Create();
    run := Prepare(run);
    run := Admit(run);
    run := Take(run);
    run := PrepareNext(run);
    run := Fill(run);
    run := PrepareNext(run);
    run := Refuse(run);
    run := Wait(run);
    run := Break(run);
    run := Stop(run);
  }
}
