/** What each hook does to the session, the pending flag and the gate: exactly when a session fails, ends, starts or
    may start again, and what a hook does from beginning to end when nobody interferes. */
module RenderGateOutcomes {
  import opened Options
  import opened RenderGate
  import opened RenderGateTheorems

  // ---------------------------------------------------------------- the session

  // A frame that cannot be published: a repeated key, a failed worker or a refusal.
  predicate Unpublishable(q: Publisher, c: Choice) { c.duplicate || q.failed || c.workerFailed || c.answer == Refused }

  // The thread is about to fail a live session.
  predicate Breaks(s: State, t: nat, c: Choice)
    requires t < |s.pcs| && s.session.Connected?
  {
    match s.pcs[t]
    case Rend(InState(hook)) => hook == SinkUnsupported || Unpublishable(s.session.queue, c)
    case Rend(CheckGate(_)) => s.gate != GateActive
    case Mrk(p) => p == WriteFailedIn || p == DeliverIn
    case Life(p) => p == OutsideIn
    case _ => false
  }

  lemma SessionFailsExactly(s: State, t: nat, c: Choice)
    requires t < |s.pcs| && s.session.Connected?
    ensures Step(s, t, c).session.Failed? <==> Breaks(s, t, c)
    ensures Step(s, t, c).session.Failed? ==> Step(s, t, c).session.queue == s.session.queue.(failed := true)
  {
  }

  // Only a frame's end touches the queue of a session that stays alive.
  lemma LiveSession(s: State, t: nat, c: Choice)
    requires t < |s.pcs| && s.session.Connected? && Step(s, t, c).session.Connected?
    ensures var q, q' := s.session.queue, Step(s, t, c).session.queue;
      if s.pcs[t] == Rend(InState(FrameEnd)) then !Unpublishable(q, c) && q' == q.(revision := q.revision + 1)
      else q' == q
  {
  }

  /** A session starts exactly when initialize finds none and connects. */
  lemma SessionStartsExactly(s: State, t: nat, c: Choice)
    requires t < |s.pcs|
    ensures var s' := Step(s, t, c);
      && (s'.session.Connected? && !s.session.Connected? <==>
            s.pcs[t] == Life(InitIn) && s.session.Unstarted? && c.good)
      && (s'.session.Connected? && !s.session.Connected? ==>
            s'.session.queue == Publisher(s.sessions + 1, 0, false) && s'.sessions == s.sessions + 1)
  {
  }

  // Whether a shutdown leaves the state as it was before any session.
  predicate DrainsCleanly(pc: Pc, c: Choice) {
    match pc
    case Life(ShutDrain(q)) => !q.failed && !c.workerFailed && c.good
    case _ => false
  }

  /** A new session may start exactly after a clean drain, which is only tried when no failure is pending. */
  lemma SessionMayRestartExactly(s: State, t: nat, c: Choice)
    requires t < |s.pcs| && !s.session.Unstarted?
    ensures Step(s, t, c).session.Unstarted? <==> DrainsCleanly(s.pcs[t], c)
    ensures forall q :: s.pcs[t] == Life(ShutSwap(q)) ==>
              Step(s, t, c).pcs[t] == if s.pending then Rend(Unlock(ThenRest)) else Life(ShutDrain(q))
  {
  }

  predicate Ends(s: State, t: nat, c: Choice)
    requires t < |s.pcs|
  {
    match s.session
    case Unstarted => (s.pcs[t] == Life(InitIn) && !c.good) || s.pcs[t] == Rend(InState(SinkUnsupported))
    case Connected(_) => s.pcs[t] == Life(ShutIn)
    case Failed(_) => s.pcs[t] == Life(ShutIn)
    case Done => !DrainsCleanly(s.pcs[t], c)
  }

  /** And is over, for good or until that drain, exactly after a shutdown, a failed connect or a frame without a
      sink. */
  lemma SessionEndsExactly(s: State, t: nat, c: Choice)
    requires t < |s.pcs|
    ensures Step(s, t, c).session.Done? <==> Ends(s, t, c)
  {
    match s.pcs[t]
    case Rest =>
    case Rend(pc) => assert RenderStep(s, t, pc, c).session.Done? <==> Ends(s, t, c);
    case Mrk(pc) => assert MarkerStep(s, t, pc, c).session.Done? <==> Ends(s, t, c);
    case Life(pc) => assert LifeStep(s, t, pc, c).session.Done? <==> Ends(s, t, c);
  }

  // ---------------------------------------------------------------- frames

  /** The end of a frame, for any reachable state with a live session: the queue goes up by exactly one revision,
      with its marker published if the queue gave one; or the frame could not be published and the session has
      failed, its queue with it. */
  lemma FrameOutcome(run: seq<State>, i: nat, t: nat, c: Choice)
    requires Run(run) && i < |run| && t < |run[i].pcs|
    requires run[i].pcs[t] == Rend(InState(FrameEnd)) && run[i].session.Connected?
    ensures var s, s' := run[i], Step(run[i], t, c);
      var q := s.session.queue;
      if Unpublishable(q, c) then s'.session == Failed(q.(failed := true)) && s'.published == s.published
      else
        && s'.session == Connected(q.(revision := q.revision + 1))
        && s'.published == s.published + (if c.answer == WithMarker then [Mark(q.id, q.revision + 1)] else [])
        && q.id == s.sessions && AllBefore(s.published, Mark(q.id, q.revision + 1))
  {
    RunKeepsInv(run, i);
  }

  lemma OnlyFramesPublish(s: State, t: nat, c: Choice)
    requires t < |s.pcs| && (s.pcs[t] != Rend(InState(FrameEnd)) || !s.session.Connected?)
    ensures Step(s, t, c).published == s.published
  {
  }

  lemma {:induction false} DeadPublishesNothing(run: seq<State>, i: nat, j: nat)
    requires Run(run) && i <= j < |run| && Dead(run[i])
    ensures Dead(run[j]) && run[j].published == run[i].published
  {
    RunForward(run, i, j);
    if i < j {
      DeadPublishesNothing(run, i, j - 1);
      assert StepAt(run, j - 1);
      var t: nat, c: Choice :| t < |run[j - 1].pcs| && run[j] == Step(run[j - 1], t, c);
      OnlyFramesPublish(run[j - 1], t, c);
    }
  }

  /** After a frame that could not be published, or any other hook that fails the session, no marker is ever
      published again, in that session or another. */
  lemma NothingAfterFailure(run: seq<State>, i: nat, t: nat, c: Choice, j: nat)
    requires Run(run) && i < j < |run| && t < |run[i].pcs| && run[i + 1] == Step(run[i], t, c)
    requires run[i].session.Connected? && Breaks(run[i], t, c)
    ensures run[j].published == run[i].published && (run[j].session.Failed? || run[j].session.Done?)
  {
    SessionFailsExactly(run[i], t, c);
    LiveBreaks(run[i], t, c);
    DeadPublishesNothing(run, i + 1, j);
  }

  lemma LiveBreaks(s: State, t: nat, c: Choice)
    requires t < |s.pcs| && s.session.Connected? && Breaks(s, t, c)
    ensures Step(s, t, c).published == s.published
  {
  }

  // ---------------------------------------------------------------- the pending flag and the gate

  // A hook that could not have the state, or a frame that met another one, says so.
  predicate Complains(pc: Pc) {
    match pc
    case Rend(p) => p == StorePending || p.Contended?
    case Mrk(p) => p == WriteFailedPending || p == MarkPending
    case Life(p) => p == OutsidePending
    case Rest => false
  }

  // A failure was delivered, or a shutdown took note of it.
  predicate TakesNote(pc: Pc) { pc == Mrk(DeliverClear) || (pc.Life? && pc.life.ShutSwap?) }

  lemma PendingExactly(s: State, t: nat, c: Choice)
    requires t < |s.pcs|
    ensures Step(s, t, c).pending <==> Complains(s.pcs[t]) || (s.pending && !TakesNote(s.pcs[t]))
  {
  }

  lemma GateExactly(s: State, t: nat, c: Choice)
    requires t < |s.pcs|
    ensures var pc, gate := s.pcs[t], Step(s, t, c).gate;
      && (gate == GateFailed <==> s.gate == GateFailed || pc == Rend(StoreFailed) || pc == Rend(StoreFailedToo))
      && (gate == GateActive <==>
            || (s.gate == GateIdle && pc.Rend? && pc.render.Acquire?)
            || (s.gate == GateActive && gate != GateFailed && pc != Rend(DropPermit) && pc != Mrk(DropMarker)))
  {
  }

  lemma RecordStep(run: seq<State>, i: nat)
    requires Run(run) && i + 1 < |run| && (run[i].pending || Dead(run[i]))
    ensures run[i + 1].pending || Dead(run[i + 1])
  {
    RunKeepsInv(run, i);
    if run[i].pending {
      assert StepAt(run, i);
      var t: nat, c: Choice :| t < |run[i].pcs| && run[i + 1] == Step(run[i], t, c);
      NotesMeanDead(run[i], t, c);
    } else {
      RunForward(run, i, i + 1);
    }
  }

  lemma {:induction false} OnRecord(run: seq<State>, i: nat, j: nat)
    requires Run(run) && i <= j < |run| && (run[i].pending || Dead(run[i]))
    ensures run[j].pending || Dead(run[j])
  {
    if i < j {
      OnRecord(run, i, j - 1);
      RecordStep(run, j - 1);
    }
  }

  lemma NotesMeanDead(s: State, t: nat, c: Choice)
    requires Inv(s) && t < |s.pcs| && s.pending
    ensures Step(s, t, c).pending || Dead(Step(s, t, c))
  {
    PendingExactly(s, t, c);
    assert Here(s, t);
    if TakesNote(s.pcs[t]) { assert At(s.pcs, s.mutex) == s.pcs[t]; }
  }

  /** A hook that could not have the state is never forgotten: from then on the flag is up or the session is dead. */
  lemma ComplaintStaysOnRecord(run: seq<State>, i: nat, t: nat, c: Choice, j: nat)
    requires Run(run) && i < j < |run| && t < |run[i].pcs| && run[i + 1] == Step(run[i], t, c)
    requires Complains(run[i].pcs[t])
    ensures run[j].pending || Dead(run[j])
  {
    PendingExactly(run[i], t, c);
    OnRecord(run, i + 1, j);
  }

  // ---------------------------------------------------------------- a hook from beginning to end

  // Some steps of one thread on its own, with the same decisions for all of them.
  function Alone(s: State, t: nat, c: Choice, steps: nat): State
    requires t < |s.pcs|
    decreases steps, t
  {
    if steps == 0 then s
    else
      var s' := Step(s, t, c);
      if t < |s'.pcs| then Alone(s', t, c, steps - 1) else s'
  }

  lemma Go(s: State, t: nat, c: Choice, steps: nat, s': State)
    requires t < |s.pcs| && steps > 0 && s' == Step(s, t, c) && t < |s'.pcs|
    ensures Alone(s, t, c, steps) == Alone(s', t, c, steps - 1)
  {
  }

  // Everything a frame meets is as it should be.
  predicate Calm(s: State, t: nat) {
    && t < |s.pcs| && s.pcs[t] == Rest && s.gate == GateIdle && s.mutex == None && s.session.Connected?
    && !s.session.queue.failed
  }

  function Entered(s: State, t: nat, hook: Hook): State
    requires t < |s.pcs|
  {
    s.(gate := GateActive, permit := Some(t), mutex := Some(t)).Go(t, Rend(InState(hook)))
  }

  lemma Enters(s: State, t: nat, c: Choice, hook: Hook, steps: nat)
    requires t < |s.pcs| && s.pcs[t] == Rest && s.gate == GateIdle && s.mutex == None && steps >= 3
    requires c.op == if hook == FrameEnd then RenderFrame else RenderWithoutSink
    ensures Alone(s, t, c, steps) == Alone(Entered(s, t, hook), t, c, steps - 3)
  {
    var s1 := s.Go(t, Rend(Acquire(hook)));
    var s2 := s.(gate := GateActive, permit := Some(t)).Go(t, Rend(TryState(hook)));
    Go(s, t, c, steps, s1);
    Go(s1, t, c, steps - 1, s2);
    assert Step(s2, t, c) == Entered(s, t, hook);
    Go(s2, t, c, steps - 2, Entered(s, t, hook));
  }

  lemma Restored(pcs: seq<Pc>, t: nat, pc: Pc)
    requires t < |pcs| && pcs[t] == Rest
    ensures pcs[t := pc][t := Rest] == pcs
  {
  }

  // The mutex, then the permit, are given up.
  lemma Leaves(s: State, t: nat, c: Choice)
    requires t < |s.pcs| && s.pcs[t] == Rend(Unlock(ThenDropPermit)) && s.gate == GateActive
    ensures Alone(s, t, c, 2) == s.(gate := GateIdle, permit := None, mutex := None).Go(t, Rest)
  {
    var s1 := s.(mutex := None).Go(t, Rend(DropPermit));
    Go(s, t, c, 2, s1);
    assert Step(s1, t, c) == s.(gate := GateIdle, permit := None, mutex := None).Go(t, Rest);
    Go(s1, t, c, 1, s.(gate := GateIdle, permit := None, mutex := None).Go(t, Rest));
  }

  lemma GetsMarker(e: State, t: nat, c: Choice, q: Publisher, mark: Mark, p: State)
    requires t < |e.pcs| && e.pcs[t] == Rend(InState(FrameEnd)) && e.session == Connected(q) && e.gate == GateActive
    requires !Unpublishable(q, c) && c.answer == WithMarker && mark == Mark(q.id, q.revision + 1)
    requires p == e.(session := Connected(q.(revision := mark.rev)), published := e.published + [mark])
    ensures Alone(e, t, c, 5) == Alone(p.Go(t, Rend(Unlock(ThenDeliver(mark)))), t, c, 3)
  {
    Go(e, t, c, 5, p.Go(t, Rend(CheckGate(mark))));
    assert p.Go(t, Rend(CheckGate(mark))).Go(t, Rend(Unlock(ThenDeliver(mark))))
           == p.Go(t, Rend(Unlock(ThenDeliver(mark))));
    Go(p.Go(t, Rend(CheckGate(mark))), t, c, 4, p.Go(t, Rend(Unlock(ThenDeliver(mark)))));
  }

  // A frame on its own in a live session, whose publication gives a marker: the marker is published and appended,
  // the revision goes up by one and everything else is as before.
  lemma CalmFrame(s: State, t: nat, c: Choice, q: Publisher, mark: Mark)
    requires Calm(s, t) && s.session == Connected(q) && mark == Mark(q.id, q.revision + 1) && s.permit == None
    requires c == Choice(RenderFrame, false, WithMarker, true, false)
    ensures Alone(s, t, c, 8) == s.(session := Connected(q.(revision := mark.rev)),
                                    published := s.published + [mark], appended := s.appended + [mark])
  {
    Enters(s, t, c, FrameEnd, 8);
    var e := Entered(s, t, FrameEnd);
    var p := e.(session := Connected(q.(revision := mark.rev)), published := s.published + [mark]);
    GetsMarker(e, t, c, q, mark, p);
    Delivers(p, t, c, mark);
    Restored(s.pcs, t, Rend(InState(FrameEnd)));
  }

  lemma Delivers(s: State, t: nat, c: Choice, mark: Mark)
    requires t < |s.pcs| && s.gate == GateActive && c.good
    ensures Alone(s.Go(t, Rend(Unlock(ThenDeliver(mark)))), t, c, 3)
            == s.(gate := GateIdle, permit := None, mutex := None, appended := s.appended + [mark]).Go(t, Rest)
  {
    var free := s.(mutex := None);
    var sent := free.(appended := s.appended + [mark]);
    Go(s.Go(t, Rend(Unlock(ThenDeliver(mark)))), t, c, 3, free.Go(t, Mrk(Deliver(mark))));
    Go(free.Go(t, Mrk(Deliver(mark))), t, c, 2, sent.Go(t, Mrk(DropMarker)));
    Go(sent.Go(t, Mrk(DropMarker)), t, c, 1, sent.(gate := GateIdle, permit := None).Go(t, Rest));
  }

  // The same with a publication that gives none.
  lemma UnmarkedFrame(s: State, t: nat, c: Choice)
    requires Calm(s, t) && c == Choice(RenderFrame, false, WithoutMarker, true, false) && s.permit == None
    ensures Alone(s, t, c, 6) == s.(session := Connected(s.session.queue.(revision := s.session.queue.revision + 1)))
  {
    var q := s.session.queue;
    Enters(s, t, c, FrameEnd, 6);
    var e := Entered(s, t, FrameEnd);
    var p := e.(session := Connected(q.(revision := q.revision + 1))).Go(t, Rend(Unlock(ThenDropPermit)));
    Go(e, t, c, 3, p);
    Leaves(p, t, c);
    assert p.pcs == s.pcs[t := Rend(Unlock(ThenDropPermit))];
    Restored(s.pcs, t, Rend(Unlock(ThenDropPermit)));
  }

  // And with one that is refused.
  lemma RefusedFrame(s: State, t: nat, c: Choice)
    requires Calm(s, t) && c.op == RenderFrame && s.permit == None && Unpublishable(s.session.queue, c)
    ensures Alone(s, t, c, 6) == s.(session := Failed(s.session.queue.(failed := true)))
  {
    Enters(s, t, c, FrameEnd, 6);
    var e := Entered(s, t, FrameEnd);
    var p := e.(session := Failed(s.session.queue.(failed := true))).Go(t, Rend(Unlock(ThenDropPermit)));
    Go(e, t, c, 3, p);
    Leaves(p, t, c);
    assert p.pcs == s.pcs[t := Rend(Unlock(ThenDropPermit))];
    Restored(s.pcs, t, Rend(Unlock(ThenDropPermit)));
  }

  /** What one frame does on its own: in a live session it is published and its marker appended, or the session
      fails; gate, permit and mutex are given up again either way. */
  lemma FrameAlone(s: State, t: nat, c: Choice, q: Publisher, mark: Mark)
    requires Calm(s, t) && s.session == Connected(q) && mark == Mark(q.id, q.revision + 1) && s.permit == None
    requires c.op == RenderFrame && c.good
    ensures Alone(s, t, c, if Unpublishable(q, c) || c.answer == WithoutMarker then 6 else 8)
            == if Unpublishable(q, c) then s.(session := Failed(q.(failed := true)))
               else if c.answer == WithoutMarker then s.(session := Connected(q.(revision := mark.rev)))
               else s.(session := Connected(q.(revision := mark.rev)),
                       published := s.published + [mark], appended := s.appended + [mark])
  {
    if Unpublishable(q, c) {
      RefusedFrame(s, t, c);
    } else if c.answer == WithoutMarker {
      UnmarkedFrame(s, t, c);
    } else {
      CalmFrame(s, t, c, q, mark);
    }
  }

  /** A frame that meets another one fails the gate and raises the flag, and touches nothing else. */
  lemma SecondFrame(s: State, t: nat, c: Choice)
    requires t < |s.pcs| && s.pcs[t] == Rest && s.gate == GateActive && c.op in {RenderFrame, RenderWithoutSink}
    ensures Alone(s, t, c, 4) == s.(gate := GateFailed, pending := true)
  {
    var hook := if c.op == RenderFrame then FrameEnd else SinkUnsupported;
    var failed := s.(gate := GateFailed);
    Go(s, t, c, 4, s.Go(t, Rend(Acquire(hook))));
    Go(s.Go(t, Rend(Acquire(hook))), t, c, 3, s.Go(t, Rend(StoreFailed)));
    Go(s.Go(t, Rend(StoreFailed)), t, c, 2, failed.Go(t, Rend(StorePending)));
    Go(failed.Go(t, Rend(StorePending)), t, c, 1, failed.(pending := true).Go(t, Rest));
    assert s.pcs[t := Rest] == s.pcs;
  }

  lemma Contends(s: State, t: nat, c: Choice, hook: Hook, steps: nat, held: State)
    requires t < |s.pcs| && s.pcs[t] == Rest && s.gate == GateIdle && s.mutex.Some? && steps >= 3
    requires c.op == if hook == FrameEnd then RenderFrame else RenderWithoutSink
    requires held == s.(gate := GateActive, permit := Some(t)).Go(t, Rend(Contended(hook)))
    ensures Alone(s, t, c, steps) == Alone(held, t, c, steps - 3)
  {
    var s1 := s.Go(t, Rend(Acquire(hook)));
    var s2 := s.(gate := GateActive, permit := Some(t)).Go(t, Rend(TryState(hook)));
    Go(s, t, c, steps, s1);
    Go(s1, t, c, steps - 1, s2);
    assert Step(s2, t, c) == held;
    Go(s2, t, c, steps - 2, held);
  }

  /** A frame whose state is held elsewhere raises the flag and fails the gate. */
  lemma ContendedFrame(s: State, t: nat, c: Choice)
    requires t < |s.pcs| && s.pcs[t] == Rest && s.gate == GateIdle && s.permit == None && s.mutex.Some?
    requires c.op == RenderFrame
    ensures Alone(s, t, c, 6) == s.(pending := true, gate := GateFailed)
  {
    var held := s.(gate := GateActive, permit := Some(t)).Go(t, Rend(Contended(FrameEnd)));
    Contends(s, t, c, FrameEnd, 6, held);
    var noted := held.(pending := true).Go(t, Rend(StoreFailedToo));
    var failed := noted.(gate := GateFailed).Go(t, Rend(DropPermit));
    Go(held, t, c, 3, noted);
    Go(noted, t, c, 2, failed);
    Go(failed, t, c, 1, failed.(permit := None).Go(t, Rest));
    assert failed.pcs[t := Rest] == s.pcs;
  }

  /** One without a sink raises the flag only. */
  lemma ContendedSink(s: State, t: nat, c: Choice)
    requires t < |s.pcs| && s.pcs[t] == Rest && s.gate == GateIdle && s.permit == None && s.mutex.Some?
    requires c.op == RenderWithoutSink
    ensures Alone(s, t, c, 5) == s.(pending := true)
  {
    var held := s.(gate := GateActive, permit := Some(t)).Go(t, Rend(Contended(SinkUnsupported)));
    Contends(s, t, c, SinkUnsupported, 5, held);
    var noted := held.(pending := true).Go(t, Rend(DropPermit));
    Go(held, t, c, 2, noted);
    Go(noted, t, c, 1, noted.(gate := GateIdle, permit := None).Go(t, Rest));
    assert noted.pcs[t := Rest] == s.pcs;
  }
}
