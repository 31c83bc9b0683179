/** A returned marker is no promise of delivery: a run that closes the client between the admission and the
    worker's write.  `PublicationTheorems.ConnectedMeansDelivered` says when delivery is certain. */
module PublicationLoss {
  import opened Options
  import opened Publication

  const FREE := Locks(None, None, None, None, None)

  function Calling(call: Call): Choice { Choice(call, true, false) }

  const START := State([Wk(WNone), Idle], FREE, Client(true, true, 0, false),
                       Queue(false, 0, [], false, false, false, false, false, [], 0),
                       History(false, 0, [], 0, 0, [], []))

  const QUEUE := Queue(true, 1, [], false, false, false, false, false, [false], 0)

  const CREATED := State([Wk(WRecv), Idle], FREE, Client(true, true, 0, true), QUEUE,
                         History(false, 0, [], 0, 0, [], []))

  const PREPARED := CREATED.(pcs := [Wk(WRecv), Pub(PubAdmit(false, 1))],
                             locks := Locks(Some(1), Some(1), None, None, None))

  const ADMITTED := State([Wk(WRecv), Idle], FREE, Client(true, true, 1, true), QUEUE.(jobs := [1]),
                          History(false, 0, [1], 0, 0, [1], []))

  const CLOSED := ADMITTED.(client := Client(false, false, 1, true))

  const DRAINED := CLOSED.(queue := QUEUE, hist := History(false, 0, [1], 1, 2, [1], []))

  const OWNED := START.(pcs := [Wk(WNone), Rdy(NewStart(1))], client := Client(true, true, 0, true))

  lemma Begin() returns (run: seq<State>)
    ensures Run(run) && Last(run) == START
  {
    run := [START];
    assert Init(START);
  }

  lemma Own() returns (run: seq<State>)
    ensures Run(run) && Last(run) == OWNED
  {
    var go := Calling(CallNew(1));
    run := Begin();
    run := Extend(run, 1, go);
    run := Extend(run, 1, go);
    assert Last(run).pcs == [Wk(WNone), Rdy(NewC(1))];
    run := Extend(run, 1, go);
    run := Extend(run, 1, go);
  }

  lemma Create() returns (run: seq<State>)
    ensures Run(run) && Last(run) == CREATED
  {
    run := Own();
    run := Extend(run, 1, Calling(CallNew(1)));
  }

  lemma Prepare(run0: seq<State>) returns (run: seq<State>)
    requires Run(run0) && Last(run0) == CREATED
    ensures Run(run) && Last(run) == PREPARED
  {
    var go := Calling(CallPublish(false));
    run := Extend(run0, 1, go);
    run := Extend(run, 1, go);
    run := Extend(run, 1, go);
    run := Extend(run, 1, go);
    assert Last(run).pcs[1] == Pre(Prep(Queued(false)));
    run := Extend(run, 1, go);
    run := Extend(run, 1, go);
    run := Extend(run, 1, go);
    run := Extend(run, 1, go);
  }

  lemma Admit(run0: seq<State>) returns (run: seq<State>)
    requires Run(run0) && Last(run0) == PREPARED
    ensures Run(run) && Last(run) == ADMITTED
  {
    var go := Calling(CallClose);
    run := Extend(run0, 1, go);
    run := Extend(run, 1, go);
    run := Extend(run, 1, go);
    run := Extend(run, 1, go);
  }

  lemma Close(run0: seq<State>) returns (run: seq<State>)
    requires Run(run0) && Last(run0) == ADMITTED
    ensures Run(run) && Last(run) == CLOSED
  {
    var go := Calling(CallClose);
    run := Extend(run0, 1, go);
    run := Extend(run, 1, go);
    run := Extend(run, 1, go);
    run := Extend(run, 1, go);
  }

  lemma Drain(run0: seq<State>) returns (run: seq<State>)
    requires Run(run0) && Last(run0) == CLOSED
    ensures Run(run) && Last(run) == DRAINED
  {
    var go := Calling(CallClose);
    run := Extend(run0, 0, go);
    run := Extend(run, 0, go);
    run := Extend(run, 0, go);
    run := Extend(run, 0, go);
    assert Last(run).pcs[0] == Wr(PairW(Worker, 1));
    run := Extend(run, 0, go);
    run := Extend(run, 0, go);
    run := Extend(run, 0, go);
    run := Extend(run, 0, go);
    run := Extend(run, 0, go);
  }

  /** There is a run in which revision 1 was admitted and its marker returned, the worker has taken it and is
      idle again, and not one byte reached the wire. */
  lemma MarkerWithoutDelivery() returns (run: seq<State>)
    ensures Run(run) && Last(run) == DRAINED
    ensures Last(run).hist.markers == [1] && Last(run).queue.jobs == [] && Last(run).hist.wire == []
  {
    run := Create();
    run := Prepare(run);
    run := Admit(run);
    run := Close(run);
    run := Drain(run);
  }
}
