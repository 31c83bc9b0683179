/** The Rust form of the publication queue: one owner, one worker thread, a bounded channel between them.

    Each method is what one side does between two of its accesses to shared memory (`Fail` is three of them in a
    row), so every interleaving of the two threads is an order in which these methods are called. */
module RustQueue {

  datatype Frame = Full(rev: int) | Commit(rev: int) | Fatal | Fragment

  datatype Outcome = Admitted(rev: int) | Invalid | QueueFull | WorkerFailed

  // The worker: waiting for a publication, about to write its tree or its commit, without transport, gone after
  // that, at the end of the channel, or gone after draining.
  datatype Worker = Waiting | WriteTree(rev: int) | WriteCommit(rev: int) | Dying | Dead | Ending | Drained

  // A frame is written, or the transport fails after some or none of its bytes.
  datatype Write = Written | Lost(fragment: bool)

  // The first k frames of the pairs base+1, base+2, ...
  function Stream(base: int, k: nat): (s: seq<Frame>)
    ensures |s| == k
  {
    seq(k, i requires 0 <= i < k => if i % 2 == 0 then Full(base + 1 + i / 2) else Commit(base + 1 + i / 2))
  }

  lemma StreamGrows(base: int, k: nat)
    ensures Stream(base, 2 * k) + [Full(base + 1 + k)] == Stream(base, 2 * k + 1)
    ensures Stream(base, 2 * k + 1) + [Commit(base + 1 + k)] == Stream(base, 2 * k + 2)
  {
  }

  // A prefix of the stream, possibly cut inside a frame.
  ghost predicate Partial(wire: seq<Frame>, base: int, most: nat) {
    exists k: nat :: k <= most && (wire == Stream(base, k) || wire == Stream(base, k) + [Fragment])
  }

  class PublicationQueue {
    const base: int       // the client's revision when the queue took it over
    const capacity: nat
    var revision: int
    var open: bool        // the sender is still there
    var failed: bool
    var dropped: nat
    var fatal: bool       // a fatal error is to be sent after the drain
    var channel: seq<int> // the revisions admitted and not yet received
    var worker: Worker
    ghost var wire: seq<Frame>

    // The last revision the worker received.
    ghost function Received(): int
      reads this
    {
      revision - |channel|
    }

    ghost predicate WorkerOk()
      reads this
    {
      var n := Received() - base;
      match worker
      case Waiting => n >= 0 && wire == Stream(base, 2 * n)
      case WriteTree(rev) => n > 0 && rev == Received() && wire == Stream(base, 2 * n - 2)
      case WriteCommit(rev) => n > 0 && rev == Received() && wire == Stream(base, 2 * n - 1)
      case Dying => n > 0 && Partial(wire, base, 2 * n - 1)
      case Dead => n > 0 && failed && Partial(wire, base, 2 * n - 1)
      case Ending => n >= 0 && channel == [] && !open && wire == Stream(base, 2 * n)
      case Drained =>
        && n >= 0 && channel == [] && !open
        && (wire == Stream(base, 2 * n)
            || (fatal && (wire == Stream(base, 2 * n) + [Fatal] || wire == Stream(base, 2 * n) + [Fragment])))
    }

    // Admitted revisions are consecutive, the channel holds the last of them in order, and the wire is a prefix
    // of their pairs, followed by the fatal error only once all of them are written.
    ghost predicate Valid()
      reads this
    {
      && |channel| <= capacity
      && (forall i | 0 <= i < |channel| :: channel[i] == Received() + 1 + i)
      && (fatal ==> failed)
      && WorkerOk()
    }

    constructor (revision: int, capacity: nat)
      requires capacity > 0
      ensures Valid() && base == this.revision == revision && this.capacity == capacity
      ensures open && !failed && !fatal && channel == [] && worker == Waiting && wire == []
    {
      base := revision;
      this.capacity := capacity;
      this.revision := revision;
      open, failed, dropped, fatal := true, false, 0, false;
      channel := [];
      worker := Waiting;
      wire := [];
    }

    /** publish, from the load of the failure flag on: `sawFailed` may be out of date, but only one way. */
    method Publish(valid: bool, sawFailed: bool) returns (r: Outcome)
      requires Valid() && (sawFailed ==> failed)
      modifies this`revision, this`failed, this`dropped, this`channel
      ensures Valid()
      ensures r.Admitted? <==>
                !sawFailed && valid && old(open) && old(worker) != Dead && old(worker) != Drained
                && |old(channel)| < capacity
      ensures r.Admitted? ==>
                r.rev == revision == old(revision) + 1 && channel == old(channel) + [r.rev]
                && failed == old(failed) && dropped == old(dropped)
      ensures !r.Admitted? ==> revision == old(revision) && channel == old(channel)
      ensures r.QueueFull? ==> dropped == old(dropped) + 1 && failed == old(failed) && |channel| == capacity
      ensures r.Invalid? ==> !valid && dropped == old(dropped) && failed == old(failed)
      ensures r.WorkerFailed? ==> failed && dropped == old(dropped)
    {
      if sawFailed {
        return WorkerFailed;
      }
      if !valid {
        return Invalid;
      }
      if !open {
        failed := true;
        return WorkerFailed;
      }
      if worker == Dead || worker == Drained {
        failed := true;
        return WorkerFailed;
      }
      if |channel| == capacity {
        dropped := dropped + 1;
        return QueueFull;
      }
      revision := revision + 1;
      channel := channel + [revision];
      return Admitted(revision);
    }

    // The failure flag, which the owner and the worker both set.
    method MarkFailed()
      requires Valid()
      modifies this`failed
      ensures Valid() && failed
    {
      failed := true;
    }

    // The reason for a failure, which the worker reads at the end of the channel.
    method SetFatal()
      requires Valid() && failed
      modifies this`fatal
      ensures Valid() && fatal
    {
      fatal := true;
    }

    /** fail, in its three accesses: admission closes; what was admitted still drains before the fatal error. */
    method Fail()
      requires Valid()
      modifies this`failed, this`fatal, this`open
      ensures Valid() && failed && fatal && !open
    {
      MarkFailed();
      SetFatal();
      CloseAdmission();
    }

    // shutdown, before it waits for the worker
    method CloseAdmission()
      requires Valid()
      modifies this`open
      ensures Valid() && !open
    {
      open := false;
    }

    /** shutdown, once the worker is gone: true means every admitted pair was written in full. */
    method Joined() returns (clean: bool)
      requires Valid() && (worker == Dead || worker == Drained)
      ensures clean == !failed
      ensures clean ==> wire == Stream(base, 2 * (revision - base))
    {
      return !failed;
    }

    /** recv: a publication, or the end of the channel; an empty open channel keeps the worker waiting. */
    method Receive()
      requires Valid() && worker == Waiting
      modifies this`channel, this`worker
      ensures Valid()
      ensures old(channel) != [] ==> worker == WriteTree(old(channel)[0]) && channel == old(channel)[1..]
      ensures old(channel) == [] ==> channel == [] && worker == if open then Waiting else Ending
    {
      if channel != [] {
        worker := WriteTree(channel[0]);
        channel := channel[1..];
      } else if !open {
        worker := Ending;
      }
    }

    /** The end of the worker: every admitted pair is on the wire, and then the fatal error if there is one. */
    method Finish(write: Write)
      requires Valid() && worker == Ending
      modifies this`worker, this`wire
      ensures Valid() && worker == Drained
      ensures old(wire) == Stream(base, 2 * (revision - base))
      ensures wire == old(wire) + if !fatal then []
                                  else if write.Written? then [Fatal]
                                  else if write.fragment then [Fragment] else []
    {
      worker := Drained;
      if fatal {
        match write {
          case Written => wire := wire + [Fatal];
          case Lost(fragment) => if fragment { wire := wire + [Fragment]; }
        }
      }
    }

    /** One write of the worker: the tree, then its commit, and on a failure nothing more. */
    method WriteFrame(write: Write)
      requires Valid() && (worker.WriteTree? || worker.WriteCommit?)
      modifies this`worker, this`wire
      ensures Valid()
      ensures write.Written? && old(worker).WriteTree? ==>
                worker == WriteCommit(old(worker).rev) && wire == old(wire) + [Full(old(worker).rev)]
      ensures write.Written? && old(worker).WriteCommit? ==>
                worker == Waiting && wire == old(wire) + [Commit(old(worker).rev)]
      ensures write.Lost? ==> worker == Dying && wire == old(wire) + if write.fragment then [Fragment] else []
    {
      ghost var n := Received() - base;
      StreamGrows(base, n - 1);
      match write {
        case Written =>
          match worker {
            case WriteTree(rev) =>
              wire := wire + [Full(rev)];
              worker := WriteCommit(rev);
            case WriteCommit(rev) =>
              wire := wire + [Commit(rev)];
              worker := Waiting;
          }
        case Lost(fragment) =>
          ghost var k := |wire|;
          assert wire == Stream(base, k) && k <= 2 * n - 1;
          if fragment {
            wire := wire + [Fragment];
          }
          worker := Dying;
      }
    }

    // The end of a worker that lost its transport, once it has set the failure flag.
    method Die()
      requires Valid() && worker == Dying && failed
      modifies this`worker
      ensures Valid() && worker == Dead
    {
      worker := Dead;
    }
  }

  /** new: refused without room for a publication or without a connection. */
  method Open(connected: bool, revision: int, capacity: nat) returns (q: PublicationQueue?)
    ensures q == null <==> capacity == 0 || !connected
    ensures q != null ==>
              && fresh(q) && q.Valid() && q.base == q.revision == revision && q.capacity == capacity && q.wire == []
  {
    if capacity == 0 || !connected {
      return null;
    }
    q := new PublicationQueue(revision, capacity);
  }
}
