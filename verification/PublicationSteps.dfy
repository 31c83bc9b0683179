/** Every step of the publication protocol keeps its invariant. */
module PublicationSteps {
  import opened Options
  import opened Publication
  import opened PublicationLocks
  import opened PublicationInvariant

  // What the lock and shape invariants say about one thread.
  ghost predicate Here(s: State, t: nat) {
    && t < |s.pcs|
    && Agrees(Holds(s.pcs[t]), s.locks, t)
    && PcInv(s.pcs[t], t, s.queue.started, s.client.queued)
    && (s.pcs[0] == Wk(WNone) <==> !s.queue.started)
    && (s.queue.started ==> s.client.queued)
  }

  // The moving thread stays well-shaped and does not become a second builder of the queue.
  ghost predicate ShapeMove(s: State, s': State, t: nat)
    requires t < |s.pcs| && t < |s'.pcs|
  {
    && PcInv(s'.pcs[t], t, s'.queue.started, s'.client.queued)
    && s'.queue.started == s.queue.started
    && (s.client.queued ==> s'.client.queued)
    && (NewOwner(s'.pcs[t]) ==> NewOwner(s.pcs[t]) || !s.client.queued)
    && (s'.pcs[t] == Wk(WNone) <==> s.pcs[t] == Wk(WNone))
  }

  lemma ShapeMoveKeeps(s: State, s': State, t: nat)
    requires t < |s.pcs| && ShapeInv(s) && Moves(s, s', t) && ShapeMove(s, s', t)
    ensures ShapeInv(s')
  {
    forall u | 0 <= u < |s'.pcs|
      ensures PcInv(s'.pcs[u], u, s'.queue.started, s'.client.queued)
    {
      if u != t { assert PcInv(s.pcs[u], u, s.queue.started, s.client.queued); }
    }
    forall u, v | 0 <= u < |s'.pcs| && 0 <= v < |s'.pcs| && NewOwner(s'.pcs[u]) && NewOwner(s'.pcs[v])
      ensures u == v
    {
      if u != t { assert PcInv(s.pcs[u], u, s.queue.started, s.client.queued); }
      if v != t { assert PcInv(s.pcs[v], v, s.queue.started, s.client.queued); }
    }
  }

  // The step neither writes nor touches writeMu.
  ghost predicate OffWire(s: State, s': State, t: nat) {
    && s'.hist.wire == s.hist.wire && s'.hist.handled == s.hist.handled
    && s'.client.conn == s.client.conn
    && s'.locks.w == s.locks.w != Some(t)
  }

  // The step leaves the queue alone and does not touch its lock.
  ghost predicate OffQueue(s: State, s': State, t: nat)
    requires t < |s.pcs| && t < |s'.pcs|
  {
    && s'.queue == s.queue
    && s'.hist == s.hist.(wire := s'.hist.wire, handled := s'.hist.handled)
    && s'.locks.q == s.locks.q != Some(t)
    && !Signalling(s.pcs[t]) && !Signalling(s'.pcs[t])
    && (t == 0 && PhaseOf(s'.pcs[t]).Ending? ==> PhaseOf(s.pcs[t]).Ending?)
  }

  // The step is not the worker's and leaves what the worker counts.
  ghost predicate OffWorker(s: State, s': State) {
    && s'.hist.r0 == s.hist.r0 && s'.hist.taken == s.hist.taken
    && |s.pcs| > 0 && |s'.pcs| > 0 && s'.pcs[0] == s.pcs[0]
  }

  // The step leaves the client and the admissions alone and does not touch publishMu.
  ghost predicate OffPublish(s: State, s': State, t: nat) {
    && s'.client == s.client
    && s'.queue.started == s.queue.started && (s.queue.jobsClosed ==> s'.queue.jobsClosed)
    && s'.hist.r0 == s.hist.r0 && s'.hist.admitted == s.hist.admitted && s'.hist.handled == s.hist.handled
    && s'.locks.p == s.locks.p != Some(t)
  }

  lemma OffWireKeeps(s: State, s': State, t: nat)
    requires t < |s.pcs| && WireInv(s) && Moves(s, s', t) && OffWire(s, s', t)
    ensures WireInv(s')
  {
  }

  lemma OffQueueKeeps(s: State, s': State, t: nat)
    requires t < |s.pcs| && Moves(s, s', t) && OffQueue(s, s', t)
    requires ChannelInv(s) && MarkerInv(s) && GateInv(s) && JobsInv(s)
    ensures ChannelInv(s') && MarkerInv(s') && GateInv(s') && JobsInv(s')
  {
  }

  lemma OffPublishKeeps(s: State, s': State, t: nat)
    requires t < |s.pcs| && Moves(s, s', t) && OffPublish(s, s', t)
    requires RevisionInv(s) && DirectInv(s)
    ensures RevisionInv(s') && DirectInv(s')
  {
  }

  lemma OffWorkerKeeps(s: State, s': State)
    requires |s.pcs| > 0 && WorkerInv(s) && OffWorker(s, s')
    requires s'.hist.handled == s.hist.handled && s'.client.conn == s.client.conn
    ensures WorkerInv(s')
  {
  }

  // ---------------------------------------------------------------- appending to the wire

  lemma SemanticAppend(wire: seq<Frame>, f: Frame)
    ensures Semantic(wire + [f]) == if IsSemantic(f) then Semantic(wire) + [f] else Semantic(wire)
  {
    assert (wire + [f])[..|wire|] == wire;
  }

  // full(r) and commit(r) at their places in the stream.
  lemma NthPair(rev: int)
    requires rev >= 1
    ensures Nth(2 * rev - 2) == Full(rev) && Nth(2 * rev - 1) == Commit(rev)
  {
  }

  lemma InOrderAppend(frames: seq<Frame>, f: Frame)
    requires InOrder(frames) && f == Nth(|frames|)
    ensures InOrder(frames + [f])
  {
  }

  // A frame may follow a stream cut at a frame boundary if it is the commit, whole or in part, of the tree
  // it follows.
  lemma ShapeAppend(wire: seq<Frame>, f: Frame)
    requires Paired(wire) && FragmentLast(wire)
    requires wire != [] ==>
               var last := wire[|wire| - 1];
               !last.Fragment? && (last.Full? ==> f == Commit(last.rev) || f == Fragment(Commit(last.rev)))
    ensures Paired(wire + [f]) && FragmentLast(wire + [f])
  {
  }

  lemma FatalAppend(wire: seq<Frame>, f: Frame, n: int)
    requires FatalAfter(wire, n)
    ensures (f == Fatal ==> |Semantic(wire)| == n) ==> FatalAfter(wire + [f], n)
  {
    if f == Fatal ==> |Semantic(wire)| == n {
      forall i | 0 <= i < |wire + [f]| && (wire + [f])[i] == Fatal
        ensures |Semantic((wire + [f])[..i])| == n
      {
        assert (wire + [f])[..i] == wire[..i];
        if i == |wire| { assert wire[..i] == wire; }
      }
    }
  }

  // ---------------------------------------------------------------- PublicationQueue.Publish and TryPublish

  lemma PubMoves(s: State, t: nat, pc: PubPc)
    requires Here(s, t) && s.pcs[t] == Pub(pc) && !pc.PubAdmit?
    ensures var s' := PubStep(s, t, pc); Moves(s, s', t)
  {
  }

  lemma PubShape(s: State, t: nat, pc: PubPc)
    requires Here(s, t) && s.pcs[t] == Pub(pc) && !pc.PubAdmit?
    ensures var s' := PubStep(s, t, pc); |s'.pcs| == |s.pcs| && ShapeMove(s, s', t)
  {
  }

  lemma PubFacts(s: State, t: nat, pc: PubPc)
    requires Here(s, t) && s.pcs[t] == Pub(pc) && !pc.PubAdmit?
    ensures var s' := PubStep(s, t, pc); OffWire(s, s', t) && OffWorker(s, s')
  {
  }

  lemma PubChannel(s: State, t: nat, pc: PubPc)
    requires Here(s, t) && s.pcs[t] == Pub(pc) && !pc.PubAdmit? && ChannelInv(s) && MarkerInv(s)
    ensures var s' := PubStep(s, t, pc); ChannelInv(s') && MarkerInv(s')
  {
  }

  lemma PubGate(s: State, t: nat, pc: PubPc)
    requires Here(s, t) && s.pcs[t] == Pub(pc) && !pc.PubAdmit? && GateInv(s) && JobsInv(s)
    ensures var s' := PubStep(s, t, pc); |s'.pcs| > 0 && GateInv(s')
  {
  }

  lemma PubJobs(s: State, t: nat, pc: PubPc)
    requires Here(s, t) && s.pcs[t] == Pub(pc) && !pc.PubAdmit? && RevisionInv(s) && JobsInv(s) && ChannelInv(s)
    ensures var s' := PubStep(s, t, pc); |s'.pcs| > 0 && JobsInv(s')
  {
  }

  lemma PubRevision(s: State, t: nat, pc: PubPc)
    requires Here(s, t) && s.pcs[t] == Pub(pc) && !pc.PubAdmit? && RevisionInv(s)
    ensures var s' := PubStep(s, t, pc); RevisionInv(s')
  {
  }

  lemma PubDirect(s: State, t: nat, pc: PubPc)
    requires Here(s, t) && s.pcs[t] == Pub(pc) && !pc.PubAdmit? && DirectInv(s)
    ensures var s' := PubStep(s, t, pc); DirectInv(s')
  {
  }

  lemma PubFatal(s: State, t: nat, pc: PubPc)
    requires Here(s, t) && s.pcs[t] == Pub(pc) && !pc.PubAdmit? && FatalInv(s) && ChannelInv(s)
    ensures var s' := PubStep(s, t, pc); FatalInv(s')
  {
  }

  // ---------------------------------------------------------------- preparePublicationMode

  lemma PrepMoves(s: State, t: nat, pc: PrepPc, c: Choice)
    requires Here(s, t) && s.pcs[t] == Pre(pc)
    ensures var s' := PrepStep(s, t, pc, c); Moves(s, s', t)
  {
  }

  lemma PrepShape(s: State, t: nat, pc: PrepPc, c: Choice)
    requires Here(s, t) && s.pcs[t] == Pre(pc)
    ensures var s' := PrepStep(s, t, pc, c); |s'.pcs| == |s.pcs| && ShapeMove(s, s', t)
  {
  }

  lemma PrepFacts(s: State, t: nat, pc: PrepPc, c: Choice)
    requires Here(s, t) && s.pcs[t] == Pre(pc)
    ensures var s' := PrepStep(s, t, pc, c);
      OffWire(s, s', t) && OffWorker(s, s') && s'.hist == s.hist && s'.queue == s.queue
  {
  }

  lemma PrepChannel(s: State, t: nat, pc: PrepPc, c: Choice)
    requires Here(s, t) && s.pcs[t] == Pre(pc) && ChannelInv(s) && MarkerInv(s)
    ensures var s' := PrepStep(s, t, pc, c); ChannelInv(s') && MarkerInv(s')
  {
  }

  lemma PrepGate(s: State, t: nat, pc: PrepPc, c: Choice)
    requires Here(s, t) && s.pcs[t] == Pre(pc) && GateInv(s)
    ensures var s' := PrepStep(s, t, pc, c); |s'.pcs| > 0 && GateInv(s')
  {
  }

  lemma PrepRevision(s: State, t: nat, pc: PrepPc, c: Choice)
    requires Here(s, t) && s.pcs[t] == Pre(pc) && RevisionInv(s)
    ensures var s' := PrepStep(s, t, pc, c); RevisionInv(s')
  {
  }

  lemma PrepDirect(s: State, t: nat, pc: PrepPc, c: Choice)
    requires Here(s, t) && s.pcs[t] == Pre(pc) && RevisionInv(s) && DirectInv(s)
    ensures var s' := PrepStep(s, t, pc, c); DirectInv(s')
  {
  }

  // ---------------------------------------------------------------- Client.Publish

  lemma DirMoves(s: State, t: nat, pc: DirPc)
    requires Here(s, t) && s.pcs[t] == Dir(pc)
    ensures var s' := DirStep(s, t, pc); Moves(s, s', t)
  {
  }

  lemma DirShape(s: State, t: nat, pc: DirPc)
    requires Here(s, t) && s.pcs[t] == Dir(pc)
    ensures var s' := DirStep(s, t, pc); |s'.pcs| == |s.pcs| && ShapeMove(s, s', t)
  {
  }

  lemma DirFacts(s: State, t: nat, pc: DirPc)
    requires Here(s, t) && s.pcs[t] == Dir(pc)
    ensures var s' := DirStep(s, t, pc);
      |s'.pcs| == |s.pcs| && OffWire(s, s', t) && OffWorker(s, s') && OffQueue(s, s', t)
  {
  }

  lemma DirRevision(s: State, t: nat, pc: DirPc)
    requires Here(s, t) && s.pcs[t] == Dir(pc) && RevisionInv(s) && DirectInv(s)
    ensures var s' := DirStep(s, t, pc); RevisionInv(s')
  {
  }

  lemma DirDirect(s: State, t: nat, pc: DirPc)
    requires Here(s, t) && s.pcs[t] == Dir(pc) && RevisionInv(s) && DirectInv(s)
    ensures var s' := DirStep(s, t, pc); DirectInv(s')
  {
  }

  // ---------------------------------------------------------------- writePublication, send and writeEncodedFrame

  lemma WriteMoves(s: State, t: nat, pc: WritePc, c: Choice)
    requires Here(s, t) && s.pcs[t] == Wr(pc) && !pc.WriteOut?
    ensures var s' := WriteStep(s, t, pc, c); Moves(s, s', t)
  {
  }

  lemma WriteShape(s: State, t: nat, pc: WritePc, c: Choice)
    requires Here(s, t) && s.pcs[t] == Wr(pc) && !pc.WriteOut?
    ensures var s' := WriteStep(s, t, pc, c); |s'.pcs| == |s.pcs| && ShapeMove(s, s', t)
  {
  }

  lemma WriteFacts(s: State, t: nat, pc: WritePc, c: Choice)
    requires Here(s, t) && s.pcs[t] == Wr(pc) && !pc.WriteOut?
    ensures var s' := WriteStep(s, t, pc, c); |s'.pcs| == |s.pcs| && OffQueue(s, s', t)
  {
  }

  lemma WriteRevision(s: State, t: nat, pc: WritePc, c: Choice)
    requires Here(s, t) && s.pcs[t] == Wr(pc) && !pc.WriteOut? && RevisionInv(s)
    ensures var s' := WriteStep(s, t, pc, c); RevisionInv(s')
  {
  }

  lemma WriteWorker(s: State, t: nat, pc: WritePc, c: Choice)
    requires Here(s, t) && s.pcs[t] == Wr(pc) && !pc.WriteOut? && WorkerInv(s) && WireInv(s)
    ensures var s' := WriteStep(s, t, pc, c); t == 0 ==> |s'.pcs| > 0 && WorkerInv(s')
  {
  }

  lemma WriteOthers(s: State, t: nat, pc: WritePc, c: Choice)
    requires Here(s, t) && s.pcs[t] == Wr(pc) && !pc.WriteOut? && WorkerInv(s) && DirectInv(s)
    ensures var s' := WriteStep(s, t, pc, c); t != 0 ==> |s'.pcs| > 0 && WorkerInv(s')
  {
  }

  lemma WriteDirect(s: State, t: nat, pc: WritePc, c: Choice)
    requires Here(s, t) && s.pcs[t] == Wr(pc) && !pc.WriteOut? && RevisionInv(s) && DirectInv(s) && WireInv(s)
    ensures var s' := WriteStep(s, t, pc, c); DirectInv(s')
  {
  }

  lemma WriteWire(s: State, t: nat, pc: WritePc, c: Choice)
    requires Here(s, t) && s.pcs[t] == Wr(pc) && !pc.WriteOut? && WireInv(s)
    ensures var s' := WriteStep(s, t, pc, c); WireInv(s')
  {
  }

  // ---------------------------------------------------------------- Client.Close and Client.Fail

  lemma CloseMoves(s: State, t: nat, pc: ClosePc)
    requires Here(s, t) && s.pcs[t] == Cl(pc)
    ensures var s' := CloseStep(s, t, pc); Moves(s, s', t)
  {
  }

  lemma CloseShape(s: State, t: nat, pc: ClosePc)
    requires Here(s, t) && s.pcs[t] == Cl(pc)
    ensures var s' := CloseStep(s, t, pc); |s'.pcs| == |s.pcs| && ShapeMove(s, s', t)
  {
  }

  lemma CloseFacts(s: State, t: nat, pc: ClosePc)
    requires Here(s, t) && s.pcs[t] == Cl(pc)
    ensures var s' := CloseStep(s, t, pc); |s'.pcs| == |s.pcs| && OffQueue(s, s', t) && s'.hist == s.hist
  {
  }

  lemma CloseRevision(s: State, t: nat, pc: ClosePc)
    requires Here(s, t) && s.pcs[t] == Cl(pc) && RevisionInv(s)
    ensures var s' := CloseStep(s, t, pc); RevisionInv(s')
  {
  }

  lemma CloseWorker(s: State, t: nat, pc: ClosePc)
    requires Here(s, t) && s.pcs[t] == Cl(pc) && WorkerInv(s)
    ensures var s' := CloseStep(s, t, pc); |s'.pcs| > 0 && WorkerInv(s')
  {
  }

  lemma CloseDirect(s: State, t: nat, pc: ClosePc)
    requires Here(s, t) && s.pcs[t] == Cl(pc) && DirectInv(s)
    ensures var s' := CloseStep(s, t, pc); DirectInv(s')
  {
  }

  lemma CloseWire(s: State, t: nat, pc: ClosePc)
    requires Here(s, t) && s.pcs[t] == Cl(pc) && WireInv(s)
    ensures var s' := CloseStep(s, t, pc); WireInv(s')
  {
  }

  // ---------------------------------------------------------------- Client.Log, PublicationQueue.Fail and Shutdown

  lemma LifeMoves(s: State, t: nat, pc: LifePc, c: Choice)
    requires Here(s, t) && s.pcs[t] == Lif(pc)
    ensures var s' := LifeStep(s, t, pc, c); Moves(s, s', t)
  {
  }

  lemma LifeShape(s: State, t: nat, pc: LifePc, c: Choice)
    requires Here(s, t) && s.pcs[t] == Lif(pc)
    ensures var s' := LifeStep(s, t, pc, c); |s'.pcs| == |s.pcs| && ShapeMove(s, s', t)
  {
  }

  lemma LifeFacts(s: State, t: nat, pc: LifePc, c: Choice)
    requires Here(s, t) && s.pcs[t] == Lif(pc)
    ensures var s' := LifeStep(s, t, pc, c); OffWire(s, s', t) && OffWorker(s, s') && OffPublish(s, s', t)
  {
  }

  lemma LifeChannel(s: State, t: nat, pc: LifePc, c: Choice)
    requires Here(s, t) && s.pcs[t] == Lif(pc) && ChannelInv(s) && MarkerInv(s)
    ensures var s' := LifeStep(s, t, pc, c); ChannelInv(s') && MarkerInv(s')
  {
  }

  lemma LifeGate(s: State, t: nat, pc: LifePc, c: Choice)
    requires Here(s, t) && s.pcs[t] == Lif(pc) && GateInv(s)
    ensures var s' := LifeStep(s, t, pc, c); |s'.pcs| > 0 && GateInv(s')
  {
  }

  lemma LifeJobs(s: State, t: nat, pc: LifePc, c: Choice)
    requires Here(s, t) && s.pcs[t] == Lif(pc) && JobsInv(s) && ChannelInv(s)
    ensures var s' := LifeStep(s, t, pc, c); |s'.pcs| > 0 && JobsInv(s')
  {
  }

  // ---------------------------------------------------------------- readiness and NewPublicationQueue

  lemma ReadyMoves(s: State, t: nat, pc: ReadyPc)
    requires Here(s, t) && s.pcs[t] == Rdy(pc) && !pc.NewStart?
    ensures var s' := ReadyStep(s, t, pc); Moves(s, s', t)
  {
  }

  lemma ReadyShape(s: State, t: nat, pc: ReadyPc)
    requires Here(s, t) && s.pcs[t] == Rdy(pc) && !pc.NewStart?
    ensures var s' := ReadyStep(s, t, pc); |s'.pcs| == |s.pcs| && ShapeMove(s, s', t)
  {
  }

  lemma ReadyFacts(s: State, t: nat, pc: ReadyPc)
    requires Here(s, t) && s.pcs[t] == Rdy(pc) && !pc.NewStart?
    ensures var s' := ReadyStep(s, t, pc);
      OffWire(s, s', t) && OffWorker(s, s') && s'.hist == s.hist && s'.queue == s.queue
  {
  }

  lemma ReadyChannel(s: State, t: nat, pc: ReadyPc)
    requires Here(s, t) && s.pcs[t] == Rdy(pc) && !pc.NewStart? && ChannelInv(s) && MarkerInv(s)
    ensures var s' := ReadyStep(s, t, pc); ChannelInv(s') && MarkerInv(s')
  {
  }

  lemma ReadyGate(s: State, t: nat, pc: ReadyPc)
    requires Here(s, t) && s.pcs[t] == Rdy(pc) && !pc.NewStart? && GateInv(s)
    ensures var s' := ReadyStep(s, t, pc); |s'.pcs| > 0 && GateInv(s')
  {
  }

  lemma ReadyRevision(s: State, t: nat, pc: ReadyPc)
    requires Here(s, t) && s.pcs[t] == Rdy(pc) && !pc.NewStart? && RevisionInv(s)
    ensures var s' := ReadyStep(s, t, pc); RevisionInv(s')
  {
  }

  lemma ReadyDirect(s: State, t: nat, pc: ReadyPc)
    requires Here(s, t) && s.pcs[t] == Rdy(pc) && !pc.NewStart? && DirectInv(s)
    ensures var s' := ReadyStep(s, t, pc); DirectInv(s')
  {
  }

  // ---------------------------------------------------------------- the worker

  lemma WorkMoves(s: State, t: nat, pc: WorkPc)
    requires Here(s, t) && s.pcs[t] == Wk(pc)
    ensures var s' := WorkStep(s, t, pc); Moves(s, s', t)
  {
  }

  lemma WorkShape(s: State, t: nat, pc: WorkPc)
    requires Here(s, t) && s.pcs[t] == Wk(pc)
    ensures var s' := WorkStep(s, t, pc); |s'.pcs| == |s.pcs| && ShapeMove(s, s', t)
  {
  }

  lemma WorkFacts(s: State, t: nat, pc: WorkPc)
    requires Here(s, t) && s.pcs[t] == Wk(pc)
    ensures var s' := WorkStep(s, t, pc); OffWire(s, s', t) && OffPublish(s, s', t)
  {
  }

  lemma WorkChannel(s: State, t: nat, pc: WorkPc)
    requires Here(s, t) && s.pcs[t] == Wk(pc) && ChannelInv(s) && MarkerInv(s) && GateInv(s)
    ensures var s' := WorkStep(s, t, pc); ChannelInv(s') && MarkerInv(s')
  {
  }

  lemma WorkGate(s: State, t: nat, pc: WorkPc)
    requires Here(s, t) && s.pcs[t] == Wk(pc) && GateInv(s)
    ensures var s' := WorkStep(s, t, pc); |s'.pcs| > 0 && GateInv(s')
  {
  }

  lemma WorkJobs(s: State, t: nat, pc: WorkPc)
    requires Here(s, t) && s.pcs[t] == Wk(pc) && JobsInv(s)
    ensures var s' := WorkStep(s, t, pc); |s'.pcs| > 0 && JobsInv(s')
  {
  }

  lemma WorkWorker(s: State, t: nat, pc: WorkPc)
    requires Here(s, t) && s.pcs[t] == Wk(pc) && JobsInv(s) && WorkerInv(s) && WireInv(s)
    ensures var s' := WorkStep(s, t, pc); |s'.pcs| > 0 && WorkerInv(s')
  {
  }

  // ---------------------------------------------------------------- the admission

  lemma AdmitMoves(s: State, t: nat, nb: bool, rev: int)
    requires Here(s, t) && s.pcs[t] == Pub(PubAdmit(nb, rev))
    ensures var s' := AdmitStep(s, t, nb, rev); Moves(s, s', t) && OffWire(s, s', t) && OffWorker(s, s')
  {
  }

  lemma AdmitShape(s: State, t: nat, nb: bool, rev: int)
    requires Here(s, t) && s.pcs[t] == Pub(PubAdmit(nb, rev))
    ensures var s' := AdmitStep(s, t, nb, rev); |s'.pcs| == |s.pcs| && ShapeMove(s, s', t)
  {
  }

  lemma AdmitChannel(s: State, t: nat, nb: bool, rev: int)
    requires Here(s, t) && s.pcs[t] == Pub(PubAdmit(nb, rev))
    requires ChannelInv(s) && MarkerInv(s) && GateInv(s) && JobsInv(s)
    ensures var s' := AdmitStep(s, t, nb, rev); |s'.pcs| > 0 && ChannelInv(s') && MarkerInv(s') && GateInv(s')
  {
  }

  lemma AdmitJobs(s: State, t: nat, nb: bool, rev: int)
    requires Here(s, t) && s.pcs[t] == Pub(PubAdmit(nb, rev))
    requires ChannelInv(s) && RevisionInv(s) && JobsInv(s) && DirectInv(s) && FatalInv(s)
    ensures var s' := AdmitStep(s, t, nb, rev);
      |s'.pcs| > 0 && JobsInv(s') && RevisionInv(s') && DirectInv(s') && FatalInv(s')
  {
  }

  // ---------------------------------------------------------------- the socket write

  lemma PutMoves(s: State, t: nat, w: Write, c: Choice)
    requires Here(s, t) && s.pcs[t] == Wr(WriteOut(w))
    ensures var s' := PutStep(s, t, w, c); Moves(s, s', t) && OffQueue(s, s', t)
  {
  }

  lemma PutShape(s: State, t: nat, w: Write, c: Choice)
    requires Here(s, t) && s.pcs[t] == Wr(WriteOut(w))
    ensures var s' := PutStep(s, t, w, c); |s'.pcs| == |s.pcs| && ShapeMove(s, s', t)
  {
  }

  lemma PutPhases(s: State, t: nat, w: Write, c: Choice)
    requires Here(s, t) && s.pcs[t] == Wr(WriteOut(w)) && RevisionInv(s) && WorkerInv(s) && DirectInv(s) && WireInv(s)
    ensures var s' := PutStep(s, t, w, c); |s'.pcs| > 0 && RevisionInv(s') && WorkerInv(s') && DirectInv(s')
  {
  }

  // The pair frame a thread is about to write is the next one in the stream.
  lemma PutOrdered(s: State, t: nat, w: Write)
    requires Here(s, t) && s.pcs[t] == Wr(WriteOut(w)) && !w.Single?
    requires RevisionInv(s) && WorkerInv(s) && DirectInv(s) && WireInv(s)
    ensures FrameOf(w) == Nth(|Semantic(s.hist.wire)|)
  {
    NthPair(w.rev);
  }

  lemma PutSent(s: State, t: nat, w: Write, c: Choice)
    requires Here(s, t) && s.pcs[t] == Wr(WriteOut(w)) && RevisionInv(s) && WorkerInv(s) && DirectInv(s) && WireInv(s)
    requires c.good && s.client.socket
    ensures var s' := PutStep(s, t, w, c); WireInv(s')
  {
    var wire, f := s.hist.wire, FrameOf(w);
    SemanticAppend(wire, f);
    ShapeAppend(wire, f);
    if !w.Single? {
      PutOrdered(s, t, w);
      InOrderAppend(Semantic(wire), f);
    }
  }

  lemma PutLost(s: State, t: nat, w: Write, c: Choice)
    requires Here(s, t) && s.pcs[t] == Wr(WriteOut(w)) && RevisionInv(s) && WorkerInv(s) && DirectInv(s) && WireInv(s)
    requires !(c.good && s.client.socket)
    ensures var s' := PutStep(s, t, w, c); WireInv(s')
  {
    var wire, f := s.hist.wire, FrameOf(w);
    if c.fragment && s.client.socket {
      SemanticAppend(wire, Fragment(f));
      ShapeAppend(wire, Fragment(f));
    }
  }

  lemma PutWire(s: State, t: nat, w: Write, c: Choice)
    requires Here(s, t) && s.pcs[t] == Wr(WriteOut(w)) && RevisionInv(s) && WorkerInv(s) && DirectInv(s) && WireInv(s)
    ensures var s' := PutStep(s, t, w, c); WireInv(s')
  {
    if c.good && s.client.socket { PutSent(s, t, w, c); } else { PutLost(s, t, w, c); }
  }

  lemma PutFatal(s: State, t: nat, w: Write, c: Choice)
    requires Here(s, t) && s.pcs[t] == Wr(WriteOut(w)) && JobsInv(s) && WorkerInv(s) && WireInv(s) && FatalInv(s)
    ensures var s' := PutStep(s, t, w, c); FatalInv(s')
  {
    var f := FrameOf(w);
    FatalAppend(s.hist.wire, f, 2 * (s.hist.r0 + |s.hist.admitted|));
    FatalAppend(s.hist.wire, Fragment(f), 2 * (s.hist.r0 + |s.hist.admitted|));
  }

  // ---------------------------------------------------------------- all steps

  lemma FatalKept(s: State, s': State)
    requires FatalInv(s)
    requires s'.hist.wire == s.hist.wire && s'.hist.r0 == s.hist.r0 && s'.hist.admitted == s.hist.admitted
    requires s.queue.jobsClosed ==> s'.queue.jobsClosed
    ensures FatalInv(s')
  {
  }

  lemma JobsKept(s: State, s': State)
    requires |s.pcs| > 0 && |s'.pcs| > 0 && s'.pcs[0] == s.pcs[0] && JobsInv(s)
    requires s'.hist == s.hist && s'.queue == s.queue
    ensures JobsInv(s')
  {
  }

  lemma InvHere(s: State, t: nat)
    requires Inv(s) && t < |s.pcs|
    ensures Here(s, t)
  {
  }

  // Any step that moves one thread keeps the lock and shape invariants.
  lemma Moved(s: State, s': State, t: nat)
    requires t < |s.pcs| && LockInv(s) && ShapeInv(s) && Moves(s, s', t) && ShapeMove(s, s', t)
    ensures LockInv(s') && ShapeInv(s')
  {
    MovesKeepLocks(s, s', t);
    ShapeMoveKeeps(s, s', t);
  }

  lemma PubKeeps(s: State, t: nat, pc: PubPc)
    requires Inv(s) && t < |s.pcs| && s.pcs[t] == Pub(pc)
    ensures Inv(PubStep(s, t, pc))
  {
    var s' := PubStep(s, t, pc);
    InvHere(s, t);
    if pc.PubAdmit? {
      var nb, rev := pc.nonBlocking, pc.rev;
      AdmitMoves(s, t, nb, rev); AdmitShape(s, t, nb, rev); AdmitChannel(s, t, nb, rev); AdmitJobs(s, t, nb, rev);
    } else {
      PubMoves(s, t, pc); PubShape(s, t, pc); PubFacts(s, t, pc); PubChannel(s, t, pc); PubGate(s, t, pc);
      PubJobs(s, t, pc); PubRevision(s, t, pc); PubDirect(s, t, pc); PubFatal(s, t, pc);
    }
    Moved(s, s', t);
    OffWireKeeps(s, s', t);
    OffWorkerKeeps(s, s');
  }

  lemma PrepKeeps(s: State, t: nat, pc: PrepPc, c: Choice)
    requires Inv(s) && t < |s.pcs| && s.pcs[t] == Pre(pc)
    ensures Inv(PrepStep(s, t, pc, c))
  {
    var s' := PrepStep(s, t, pc, c);
    InvHere(s, t);
    PrepMoves(s, t, pc, c); PrepShape(s, t, pc, c); PrepFacts(s, t, pc, c); PrepChannel(s, t, pc, c);
    PrepGate(s, t, pc, c); PrepRevision(s, t, pc, c); PrepDirect(s, t, pc, c);
    Moved(s, s', t);
    OffWireKeeps(s, s', t);
    OffWorkerKeeps(s, s');
    JobsKept(s, s');
    FatalKept(s, s');
  }

  lemma DirKeeps(s: State, t: nat, pc: DirPc)
    requires Inv(s) && t < |s.pcs| && s.pcs[t] == Dir(pc)
    ensures Inv(DirStep(s, t, pc))
  {
    var s' := DirStep(s, t, pc);
    InvHere(s, t);
    DirMoves(s, t, pc); DirShape(s, t, pc); DirFacts(s, t, pc); DirRevision(s, t, pc); DirDirect(s, t, pc);
    Moved(s, s', t);
    OffWireKeeps(s, s', t);
    OffWorkerKeeps(s, s');
    OffQueueKeeps(s, s', t);
    FatalKept(s, s');
  }

  lemma WriteKeeps(s: State, t: nat, pc: WritePc, c: Choice)
    requires Inv(s) && t < |s.pcs| && s.pcs[t] == Wr(pc)
    ensures Inv(WriteStep(s, t, pc, c))
  {
    var s' := WriteStep(s, t, pc, c);
    InvHere(s, t);
    if pc.WriteOut? {
      var w := pc.w;
      PutMoves(s, t, w, c); PutShape(s, t, w, c); PutPhases(s, t, w, c); PutWire(s, t, w, c); PutFatal(s, t, w, c);
    } else {
      WriteMoves(s, t, pc, c); WriteShape(s, t, pc, c); WriteFacts(s, t, pc, c); WriteRevision(s, t, pc, c);
      WriteWorker(s, t, pc, c); WriteOthers(s, t, pc, c); WriteDirect(s, t, pc, c); WriteWire(s, t, pc, c);
      FatalKept(s, s');
    }
    Moved(s, s', t);
    OffQueueKeeps(s, s', t);
  }

  lemma CloseKeeps(s: State, t: nat, pc: ClosePc)
    requires Inv(s) && t < |s.pcs| && s.pcs[t] == Cl(pc)
    ensures Inv(CloseStep(s, t, pc))
  {
    var s' := CloseStep(s, t, pc);
    InvHere(s, t);
    CloseMoves(s, t, pc); CloseShape(s, t, pc); CloseFacts(s, t, pc); CloseRevision(s, t, pc);
    CloseWorker(s, t, pc); CloseDirect(s, t, pc); CloseWire(s, t, pc);
    Moved(s, s', t);
    OffQueueKeeps(s, s', t);
    FatalKept(s, s');
  }

  lemma LifeKeeps(s: State, t: nat, pc: LifePc, c: Choice)
    requires Inv(s) && t < |s.pcs| && s.pcs[t] == Lif(pc)
    ensures Inv(LifeStep(s, t, pc, c))
  {
    var s' := LifeStep(s, t, pc, c);
    InvHere(s, t);
    LifeMoves(s, t, pc, c); LifeShape(s, t, pc, c); LifeFacts(s, t, pc, c); LifeChannel(s, t, pc, c);
    LifeGate(s, t, pc, c); LifeJobs(s, t, pc, c);
    Moved(s, s', t);
    OffWireKeeps(s, s', t);
    OffWorkerKeeps(s, s');
    OffPublishKeeps(s, s', t);
    FatalKept(s, s');
  }

  lemma ReadyKeeps(s: State, t: nat, pc: ReadyPc)
    requires Inv(s) && t < |s.pcs| && s.pcs[t] == Rdy(pc) && !pc.NewStart?
    ensures Inv(ReadyStep(s, t, pc))
  {
    var s' := ReadyStep(s, t, pc);
    InvHere(s, t);
    ReadyMoves(s, t, pc); ReadyShape(s, t, pc); ReadyFacts(s, t, pc); ReadyChannel(s, t, pc);
    ReadyGate(s, t, pc); ReadyRevision(s, t, pc); ReadyDirect(s, t, pc);
    Moved(s, s', t);
    OffWireKeeps(s, s', t);
    OffWorkerKeeps(s, s');
    JobsKept(s, s');
    FatalKept(s, s');
  }

  lemma WorkKeeps(s: State, t: nat, pc: WorkPc)
    requires Inv(s) && t < |s.pcs| && s.pcs[t] == Wk(pc)
    ensures Inv(WorkStep(s, t, pc))
  {
    var s' := WorkStep(s, t, pc);
    InvHere(s, t);
    WorkMoves(s, t, pc); WorkShape(s, t, pc); WorkFacts(s, t, pc); WorkChannel(s, t, pc);
    WorkGate(s, t, pc); WorkJobs(s, t, pc); WorkWorker(s, t, pc);
    Moved(s, s', t);
    OffWireKeeps(s, s', t);
    OffPublishKeeps(s, s', t);
    FatalKept(s, s');
  }

  // An idle thread makes a call: it holds nothing and changes nothing.
  lemma CallMoves(s: State, t: nat, call: Call)
    requires Here(s, t) && s.pcs[t] == Idle
    ensures var s' := s.Go(t, Entry(s.queue.started, call));
      Moves(s, s', t) && ShapeMove(s, s', t) && OffQueue(s, s', t) && t != 0
  {
  }

  lemma CallKeeps(s: State, t: nat, call: Call)
    requires Inv(s) && t < |s.pcs| && s.pcs[t] == Idle
    ensures Inv(s.Go(t, Entry(s.queue.started, call)))
  {
    var s' := s.Go(t, Entry(s.queue.started, call));
    InvHere(s, t);
    CallMoves(s, t, call);
    Moved(s, s', t);
    OffWireKeeps(s, s', t);
    OffWorkerKeeps(s, s');
    OffQueueKeeps(s, s', t);
    OffPublishKeeps(s, s', t);
    FatalKept(s, s');
  }

  // The queue starts: nothing was admitted before, and every earlier pair has been passed on.
  lemma StartHolders(s: State, t: nat, cap: nat)
    requires Inv(s) && t < |s.pcs| && s.pcs[t] == Rdy(NewStart(cap))
    ensures var s' := ReadyStep(s, t, NewStart(cap));
      QHolder(s') == QHolder(s) && PHolder(s') == PHolder(s) && WHolder(s') == WHolder(s)
    ensures t != 0 && !NeedsQueue(QHolder(s)) && !NeedsQueue(PHolder(s)) && !QHolder(s).Wk?
  {
    InvHere(s, t);
    InvHere(s, 0);
    if s.locks.q.Some? { InvHere(s, s.locks.q.value); }
    if s.locks.p.Some? { InvHere(s, s.locks.p.value); }
    if s.locks.w.Some? { InvHere(s, s.locks.w.value); }
  }

  lemma StartShape(s: State, t: nat, cap: nat)
    requires Inv(s) && t < |s.pcs| && s.pcs[t] == Rdy(NewStart(cap))
    ensures var s' := ReadyStep(s, t, NewStart(cap)); LockInv(s') && ShapeInv(s')
  {
    var s' := ReadyStep(s, t, NewStart(cap));
    InvHere(s, t);
    forall u | 0 <= u < |s'.pcs|
      ensures PcInv(s'.pcs[u], u, true, s.client.queued) && !NewOwner(s'.pcs[u])
      ensures Agrees(Holds(s'.pcs[u]), s'.locks, u)
    {
      InvHere(s, u);
    }
  }

  lemma StartKeeps(s: State, t: nat, cap: nat)
    requires Inv(s) && t < |s.pcs| && s.pcs[t] == Rdy(NewStart(cap))
    ensures Inv(ReadyStep(s, t, NewStart(cap)))
  {
    InvHere(s, t);
    StartHolders(s, t, cap);
    StartShape(s, t, cap);
  }

  lemma InitInv(s: State)
    requires Init(s)
    ensures Inv(s)
  {
  }

  lemma QueueStepKeeps(s: State, t: nat, c: Choice)
    requires Inv(s) && t < |s.pcs| && (s.pcs[t].Pub? || s.pcs[t].Lif? || s.pcs[t].Rdy? || s.pcs[t].Wk?)
    ensures Inv(Step(s, t, c))
  {
    match s.pcs[t]
    case Pub(pc) => PubKeeps(s, t, pc);
    case Lif(pc) => LifeKeeps(s, t, pc, c);
    case Rdy(pc) => if pc.NewStart? { StartKeeps(s, t, pc.cap); } else { ReadyKeeps(s, t, pc); }
    case Wk(pc) => WorkKeeps(s, t, pc);
  }

  // The main lemma: whatever thread moves and whatever the environment decides, the invariant is kept.
  lemma StepKeepsInv(s: State, t: nat, c: Choice)
    requires Inv(s) && t < |s.pcs|
    ensures Inv(Step(s, t, c))
  {
    match s.pcs[t]
    case Idle => CallKeeps(s, t, c.call);
    case Pre(pc) => PrepKeeps(s, t, pc, c);
    case Dir(pc) => DirKeeps(s, t, pc);
    case Wr(pc) => WriteKeeps(s, t, pc, c);
    case Cl(pc) => CloseKeeps(s, t, pc);
    case _ => QueueStepKeeps(s, t, c);
  }
}
