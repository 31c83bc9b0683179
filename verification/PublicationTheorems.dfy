/** What every run of the publication protocol guarantees. */
module PublicationTheorems {
  import opened Options
  import opened Publication
  import opened PublicationLocks
  import opened PublicationInvariant
  import opened PublicationSteps

  lemma NextKeepsInv(s: State, s': State)
    requires Inv(s) && Next(s, s')
    ensures Inv(s')
  {
    var t: nat, c: Choice :| t < |s.pcs| && s' == Step(s, t, c);
    StepKeepsInv(s, t, c);
  }

  lemma {:induction false} RunKeepsInv(run: seq<State>, i: nat)
    requires Run(run) && i < |run|
    ensures Inv(run[i])
  {
    if i == 0 {
      InitInv(run[0]);
    } else {
      RunKeepsInv(run, i - 1);
      assert StepAt(run, i - 1);
      NextKeepsInv(run[i - 1], run[i]);
    }
  }

  // ---------------------------------------------------------------- the wire

  // full(1), commit(1), ..., full(n), commit(n)
  function Pairs(n: nat): (frames: seq<Frame>)
    ensures |frames| == 2 * n && InOrder(frames)
  {
    if n == 0 then [] else Pairs(n - 1) + [Full(n), Commit(n)]
  }

  lemma PrefixOfPairs(frames: seq<Frame>, n: nat)
    requires InOrder(frames) && |frames| <= 2 * n
    ensures frames <= Pairs(n)
  {
  }

  // The last admitted revision.
  function LastAdmitted(s: State): int { s.hist.r0 + |s.hist.admitted| }

  /** The semantic frames on the wire are a prefix of full(1), commit(1), ..., full(n), commit(n) where n is
      the last admitted revision; before the queue exists a direct call may have written one pair more. */
  lemma WireIsPrefixOfAdmitted(run: seq<State>, i: nat)
    requires Run(run) && i < |run|
    ensures var s := run[i];
      var n := if s.queue.started then LastAdmitted(s) else s.client.revision + 1;
      n >= 0 && Semantic(s.hist.wire) <= Pairs(n)
  {
    RunKeepsInv(run, i);
    var s := run[i];
    var n := if s.queue.started then LastAdmitted(s) else s.client.revision + 1;
    assert s.hist.handled <= 2 * n;
    PrefixOfPairs(Semantic(s.hist.wire), n);
  }

  /** Nothing ever sits between a tree and its commit, and only the last thing on the wire can be cut short. */
  lemma PairsAreNeverSplit(run: seq<State>, i: nat)
    requires Run(run) && i < |run|
    ensures Paired(run[i].hist.wire) && FragmentLast(run[i].hist.wire)
  {
    RunKeepsInv(run, i);
  }

  /** If the queue's fatal frame is on the wire, every admitted pair precedes it, complete and in order. */
  lemma FatalFollowsEveryAdmittedPair(run: seq<State>, i: nat, k: nat)
    requires Run(run) && i < |run|
    requires k < |run[i].hist.wire| && run[i].hist.wire[k] == Fatal
    ensures LastAdmitted(run[i]) >= 0
    ensures Semantic(run[i].hist.wire[..k]) == Pairs(LastAdmitted(run[i]))
  {
    RunKeepsInv(run, i);
    var wire := run[i].hist.wire;
    SemanticPrefix(wire, k);
    PrefixOfPairs(Semantic(wire[..k]), LastAdmitted(run[i]));
  }

  lemma {:induction false} SemanticPrefix(wire: seq<Frame>, k: nat)
    requires k <= |wire|
    ensures Semantic(wire[..k]) <= Semantic(wire)
  {
    if k == |wire| {
      assert wire[..k] == wire;
    } else {
      var front := wire[..|wire| - 1];
      assert front[..k] == wire[..k];
      SemanticPrefix(front, k);
    }
  }

  /** As long as the client is connected and nobody is writing, every pair the worker has finished is on the
      wire; with an empty queue that is every admitted pair. */
  lemma ConnectedMeansDelivered(run: seq<State>, i: nat)
    requires Run(run) && i < |run|
    requires run[i].client.conn && run[i].locks.w.None? && |run[i].pcs| > 0 && run[i].pcs[0] == Wk(WRecv)
    ensures var n := run[i].hist.r0 + run[i].hist.taken; n >= 0 && Semantic(run[i].hist.wire) == Pairs(n)
    ensures run[i].queue.jobs == [] ==> LastAdmitted(run[i]) == run[i].hist.r0 + run[i].hist.taken
  {
    RunKeepsInv(run, i);
    PrefixOfPairs(Semantic(run[i].hist.wire), run[i].hist.r0 + run[i].hist.taken);
  }

  // ---------------------------------------------------------------- admissions and markers

  /** Admitted revisions are r0+1, r0+2, ... without a gap or a repeat. */
  lemma AdmissionsAreConsecutive(run: seq<State>, i: nat)
    requires Run(run) && i < |run|
    ensures Consecutive(run[i].hist.admitted, run[i].hist.r0 + 1)
  {
    RunKeepsInv(run, i);
  }

  /** Returned markers are the admitted revisions in order; at most one admission has not returned yet. */
  lemma MarkersAreAdmissions(run: seq<State>, i: nat)
    requires Run(run) && i < |run|
    ensures run[i].hist.markers <= run[i].hist.admitted
    ensures |run[i].hist.admitted| <= |run[i].hist.markers| + 1
  {
    RunKeepsInv(run, i);
  }

  /** The revision recheck at admission never fires. */
  lemma RecheckNeverFires(run: seq<State>, i: nat, t: nat)
    requires Run(run) && i < |run| && t < |run[i].pcs|
    requires run[i].pcs[t].Pub? && run[i].pcs[t].pub.PubAdmit?
    ensures run[i].pcs[t].pub.rev == run[i].client.revision + 1
  {
    RunKeepsInv(run, i);
    InvHere(run[i], t);
  }

  // ---------------------------------------------------------------- how histories grow

  // One step never rewrites history: the wire and the admissions only grow, a closed connection or queue
  // stays closed, and nothing is admitted to a closed queue.
  ghost predicate Forward(s: State, s': State) {
    && |s'.pcs| == |s.pcs|
    && s.hist.wire <= s'.hist.wire
    && s.hist.admitted <= s'.hist.admitted
    && (s'.client.conn ==> s.client.conn)
    && (s.queue.started ==> s'.queue.started && s'.hist.r0 == s.hist.r0)
    && (s.queue.closed ==> s'.queue.closed && s'.hist.admitted == s.hist.admitted)
  }

  lemma ForwardTransitive(a: State, b: State, c: State)
    requires Forward(a, b) && Forward(b, c)
    ensures Forward(a, c)
  {
  }

  // While one thread keeps the queue's lock no marker is returned.
  predicate MarkersHeld(s: State, s': State) {
    s.locks.q.Some? && s'.locks.q == s.locks.q ==> s'.hist.markers == s.hist.markers
  }

  lemma PubForward(s: State, t: nat, pc: PubPc)
    requires Here(s, t) && s.pcs[t] == Pub(pc) && ChannelInv(s)
    ensures var s' := PubStep(s, t, pc); Forward(s, s') && MarkersHeld(s, s')
  {
  }

  lemma PrepForward(s: State, t: nat, pc: PrepPc, c: Choice)
    requires t < |s.pcs|
    ensures var s' := PrepStep(s, t, pc, c); Forward(s, s') && MarkersHeld(s, s')
  {
  }

  lemma DirForward(s: State, t: nat, pc: DirPc)
    requires t < |s.pcs|
    ensures var s' := DirStep(s, t, pc); Forward(s, s') && MarkersHeld(s, s')
  {
  }

  lemma WriteForward(s: State, t: nat, pc: WritePc, c: Choice)
    requires t < |s.pcs|
    ensures var s' := WriteStep(s, t, pc, c); Forward(s, s') && MarkersHeld(s, s')
  {
  }

  lemma CloseForward(s: State, t: nat, pc: ClosePc)
    requires t < |s.pcs|
    ensures var s' := CloseStep(s, t, pc); Forward(s, s') && MarkersHeld(s, s')
  {
  }

  lemma LifeForward(s: State, t: nat, pc: LifePc, c: Choice)
    requires t < |s.pcs|
    ensures var s' := LifeStep(s, t, pc, c); Forward(s, s') && MarkersHeld(s, s')
  {
  }

  lemma WorkForward(s: State, t: nat, pc: WorkPc)
    requires t < |s.pcs|
    ensures var s' := WorkStep(s, t, pc); Forward(s, s') && MarkersHeld(s, s')
  {
  }

  lemma ReadyForward(s: State, t: nat, pc: ReadyPc)
    requires Here(s, t) && s.pcs[t] == Rdy(pc)
    ensures var s' := ReadyStep(s, t, pc); Forward(s, s') && MarkersHeld(s, s')
  {
  }

  lemma StepForward(s: State, t: nat, c: Choice)
    requires Here(s, t) && ChannelInv(s)
    ensures Forward(s, Step(s, t, c)) && MarkersHeld(s, Step(s, t, c))
  {
    match s.pcs[t]
    case Idle =>
    case Pub(pc) => PubForward(s, t, pc);
    case Pre(pc) => PrepForward(s, t, pc, c);
    case Dir(pc) => DirForward(s, t, pc);
    case Wr(pc) => WriteForward(s, t, pc, c);
    case Cl(pc) => CloseForward(s, t, pc);
    case Lif(pc) => LifeForward(s, t, pc, c);
    case Rdy(pc) => ReadyForward(s, t, pc);
    case Wk(pc) => WorkForward(s, t, pc);
  }

  lemma NextForward(run: seq<State>, i: nat)
    requires Run(run) && i + 1 < |run|
    ensures Forward(run[i], run[i + 1]) && MarkersHeld(run[i], run[i + 1])
  {
    RunKeepsInv(run, i);
    assert StepAt(run, i);
    var t: nat, c: Choice :| t < |run[i].pcs| && run[i + 1] == Step(run[i], t, c);
    StepForward(run[i], t, c);
  }

  lemma {:induction false} RunForward(run: seq<State>, i: nat, j: nat)
    requires Run(run) && i <= j < |run|
    ensures Forward(run[i], run[j])
  {
    if i < j {
      RunForward(run, i, j - 1);
      NextForward(run, j - 1);
      ForwardTransitive(run[i], run[j - 1], run[j]);
    }
  }

  /** Once Fail or Shutdown has closed admission nothing is ever admitted again, and the wire is only
      extended; in particular no call that starts later is admitted. */
  lemma NothingAdmittedAfterClose(run: seq<State>, i: nat, j: nat)
    requires Run(run) && i <= j < |run| && run[i].queue.closed
    ensures run[j].queue.closed && run[j].hist.admitted == run[i].hist.admitted
    ensures run[i].hist.wire <= run[j].hist.wire
  {
    RunForward(run, i, j);
  }

  lemma {:induction false} MarkersWhileHeld(run: seq<State>, i: nat, j: nat, u: nat)
    requires Run(run) && i <= j < |run|
    requires forall k | i <= k <= j :: run[k].locks.q == Some(u)
    ensures run[j].hist.markers == run[i].hist.markers
  {
    if i < j {
      MarkersWhileHeld(run, i, j - 1, u);
      NextForward(run, j - 1);
    }
  }

  /** A queued call that got the queue's lock at `i` and is about to return at `j`: a refusal has consumed
      nothing, a marker names the one revision admitted in between. */
  lemma CallAdmitsExactlyWhatItReturns(run: seq<State>, i: nat, j: nat, t: nat)
    requires Run(run) && i <= j < |run| && t < |run[i].pcs| && t < |run[j].pcs|
    requires forall k | i <= k <= j :: run[k].locks.q == Some(t)
    requires run[i].pcs[t].Pub? && run[i].pcs[t].pub.PubP?
    requires run[j].pcs[t].Pub? && run[j].pcs[t].pub.PubRetQ?
    ensures var out := run[j].pcs[t].pub.out;
      if out.Marker? then
        && run[j].hist.admitted == run[i].hist.admitted + [out.rev]
        && run[j].client.revision == run[i].client.revision + 1 == out.rev
      else
        && run[j].hist.admitted == run[i].hist.admitted
        && run[j].client.revision == run[i].client.revision
  {
    RunForward(run, i, j);
    MarkersWhileHeld(run, i, j, t);
    CallCounts(run, i, t);
    CallCounts(run, j, t);
  }

  // What the holder of the queue's lock sees before and after its admission.
  lemma CallCounts(run: seq<State>, i: nat, t: nat)
    requires Run(run) && i < |run| && t < |run[i].pcs| && run[i].locks.q == Some(t)
    requires run[i].pcs[t].Pub? && (run[i].pcs[t].pub.PubP? || run[i].pcs[t].pub.PubRetQ?)
    ensures var s := run[i];
      && s.queue.started && s.client.revision == s.hist.r0 + |s.hist.admitted|
      && (if Pending(s.pcs[t]).Some? then
            && s.hist.admitted == s.hist.markers + [Pending(s.pcs[t]).value]
            && Pending(s.pcs[t]).value == s.client.revision
          else s.hist.admitted == s.hist.markers)
  {
    RunKeepsInv(run, i);
    RevisionCounts(run[i], t);
    if run[i].hist.admitted != [] { AdmittedLast(run[i]); }
  }

  // The holder of the queue's lock outside the admission sees the revision equal to the admissions made.
  lemma RevisionCounts(s: State, t: nat)
    requires Inv(s) && t < |s.pcs| && s.locks.q == Some(t)
    requires s.pcs[t].Pub? && (s.pcs[t].pub.PubP? || s.pcs[t].pub.PubRetQ?)
    ensures s.client.revision == s.hist.r0 + |s.hist.admitted| && s.queue.started
  {
    InvHere(s, t);
    if s.locks.p.Some? { InvHere(s, s.locks.p.value); }
  }

  lemma AdmittedLast(s: State)
    requires Inv(s) && s.hist.admitted != []
    ensures s.hist.admitted[|s.hist.admitted| - 1] == s.hist.r0 + |s.hist.admitted|
  {
  }

  // ---------------------------------------------------------------- channels, gates and waiters

  /** No step sends on or closes a closed channel. */
  lemma NeverPanics(run: seq<State>, i: nat)
    requires Run(run) && i < |run|
    ensures !run[i].hist.panicked
  {
    RunKeepsInv(run, i);
  }

  /** Outside the queue's critical sections, `saturated` holds exactly when the current gate is open, and
      then the worker still has a job to receive or a signal to pass. */
  lemma SaturatedMeansGateOpen(run: seq<State>, i: nat)
    requires Run(run) && i < |run| && run[i].locks.q.None?
    ensures run[i].queue.saturated <==> Open(run[i].queue.gates)
    ensures run[i].queue.saturated ==>
              |run[i].pcs| > 0 && (run[i].queue.jobs != [] || Signalling(run[i].pcs[0]))
  {
    RunKeepsInv(run, i);
  }

  // ---------------------------------------------------------------- locks

  /** No reachable state has a cycle of threads waiting for each other's locks or for the worker. */
  lemma NoDeadlockCycle(run: seq<State>, i: nat, ts: seq<nat>)
    requires Run(run) && i < |run|
    ensures !WaitCycle(run[i], ts)
  {
    RunKeepsInv(run, i);
    InvHere(run[i], 0);
    NoWaitCycle(run[i], ts);
  }

  // An environment in which everything succeeds.
  const SMOOTH := Choice(CallClose, true, false)

  lemma ClientHolderMoves(s: State, u: nat)
    requires Here(s, u) && HoldsSomething(s.pcs[u]) && CanProceed(s, u)
    requires s.pcs[u].Pre? || s.pcs[u].Dir? || s.pcs[u].Wr? || s.pcs[u].Cl?
    ensures Step(s, u, SMOOTH) != s
  {
    match s.pcs[u]
    case Pre(pc) => assert PrepStep(s, u, pc, SMOOTH).pcs[u] != Pre(pc);
    case Dir(pc) => assert DirStep(s, u, pc).pcs[u] != Dir(pc);
    case Wr(pc) => assert WriteStep(s, u, pc, SMOOTH).pcs[u] != Wr(pc);
    case Cl(pc) => assert CloseStep(s, u, pc).pcs[u] != Cl(pc);
  }

  // A thread inside a critical section that waits for no held lock can take its next step.
  lemma HolderMoves(s: State, u: nat)
    requires Here(s, u) && HoldsSomething(s.pcs[u]) && CanProceed(s, u)
    ensures Step(s, u, SMOOTH) != s
  {
    match s.pcs[u]
    case Pub(pc) => assert PubStep(s, u, pc).pcs[u] != Pub(pc);
    case Lif(pc) => assert LifeStep(s, u, pc, SMOOTH).pcs[u] != Lif(pc);
    case Rdy(pc) => assert ReadyStep(s, u, pc).pcs[u] != Rdy(pc);
    case Wk(pc) => assert WorkStep(s, u, pc).pcs[u] != Wk(pc);
    case _ => ClientHolderMoves(s, u);
  }

  /** Whenever a thread waits for a lock, some thread inside a critical section can take its next step. */
  lemma SomeHolderCanMove(run: seq<State>, i: nat, t: nat) returns (u: nat)
    requires Run(run) && i < |run| && t < |run[i].pcs| && !CanProceed(run[i], t)
    ensures u < |run[i].pcs| && HoldsSomething(run[i].pcs[u]) && Step(run[i], u, SMOOTH) != run[i]
  {
    RunKeepsInv(run, i);
    u := HolderCanProceed(run[i], t);
    InvHere(run[i], u);
    HolderMoves(run[i], u);
  }
}
