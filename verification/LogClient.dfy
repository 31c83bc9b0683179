/** The Rust client's log channel: sequence numbers, drops and what reaches the wire. */
module LogClient {
  import opened Options
  import opened LogBudget
  import opened LogRecords
  import Decimal

  const HINT := "origin.seq"

  // What happens to a frame handed to the transport: written, refused by the encoder, or lost with the session.
  datatype Outcome = Written | Refused | Broken

  // Everything a call is given from outside.
  datatype Call = Call(record: LogRecord, clock: int, now: real, outcome: Outcome)

  // ---------------------------------------------------------------- the client's state, and its history

  // `wire` holds the records written and `failed` counts the sends that were not; the client keeps neither.
  datatype State = State(
    session: bool, stream: bool, limits: Limits, bucket: Option<Bucket>, revision: int,
    logSeq: nat, dropped: nat, wire: seq<LogRecord>, failed: nat)

  predicate Enabled(s: State) { s.session && s.stream && s.bucket.Some? }

  predicate BucketOk(s: State) { s.bucket.Some? ==> Ok(s.bucket.value) }

  // The record as numbered and completed by the client.
  function Stamped(s: State, c: Call): LogRecord {
    var r := c.record;
    r.(seqNo := s.logSeq + 1,
       ts := if r.ts == 0 then c.clock else r.ts,
       revision := if r.revision.None? && s.revision > 0 then Some(s.revision) else r.revision)
  }

  function WithHint(r: LogRecord, origin: int): LogRecord { Replaced(r, HINT, origin) }

  type Validator = LogRecord -> bool

  ghost predicate Judges(valid: Validator, limits: Limits) {
    forall r {:trigger Valid(r, limits)} :: valid(r) <==> Valid(r, limits)
  }

  ghost function ValidFor(limits: Limits): (valid: Validator)
    ensures Judges(valid, limits)
  {
    r => Valid(r, limits)
  }

  // The caller's own number goes along as an attribute, if that does not spoil the record.
  ghost function Hinted(r: LogRecord, origin: int, valid: Validator): LogRecord {
    if origin > 0 && |r.attrs| < MAX_ATTRS then
      if valid(WithHint(r, origin)) then WithHint(r, origin) else Without(WithHint(r, origin), HINT)
    else r
  }

  function Closed(s: State): State { s.(session := false, stream := false) }

  ghost function Log(s: State, c: Call, valid: Validator): (State, bool)
    requires BucketOk(s)
  {
    if !Enabled(s) then (s, false)
    else
      var (bucket, allowed) := Take(s.bucket.value, c.now);
      var counted := s.(logSeq := s.logSeq + 1, bucket := Some(bucket));
      if !allowed then (counted.(dropped := s.dropped + 1), false)
      else
        var r := Hinted(Stamped(s, c), c.record.seqNo, valid);
        if !valid(r) then (counted.(dropped := s.dropped + 1), false)
        else match c.outcome
          case Written => (counted.(wire := s.wire + [r]), true)
          case Refused => (counted.(failed := s.failed + 1), false)
          case Broken => (Closed(counted.(failed := s.failed + 1)), false)
  }

  // ---------------------------------------------------------------- the hint

  lemma WithoutHint(r: LogRecord, origin: int)
    ensures Without(WithHint(r, origin), HINT) == Without(r, HINT)
  {
    assert r.attrs[HINT := IntAttr(origin)] - {HINT} == r.attrs - {HINT};
  }

  /** Where a hint is considered at all, the record that results is valid exactly when it is valid without any
      attribute of the hint's name; so a valid record never becomes invalid. */
  lemma HintNeverInvalidates(r: LogRecord, origin: int, limits: Limits)
    ensures var h := Hinted(r, origin, ValidFor(limits));
      && (Valid(r, limits) ==> Valid(h, limits))
      && (origin > 0 && |r.attrs| < MAX_ATTRS ==> (Valid(h, limits) <==> Valid(Without(r, HINT), limits)))
  {
    WithoutHint(r, origin);
    if Valid(r, limits) { ValidShrinks(r, HINT, limits); }
    if Valid(WithHint(r, origin), limits) { ValidShrinks(WithHint(r, origin), HINT, limits); }
  }

  /** All the hint can do: nothing, add itself, or take an attribute of its name away. */
  lemma HintTouchesOnlyItself(r: LogRecord, origin: int, valid: Validator)
    ensures var h := Hinted(r, origin, valid);
      && h == r.(attrs := h.attrs) && Without(h, HINT) == Without(r, HINT)
      && (HINT in h.attrs && h != r ==> h.attrs[HINT] == IntAttr(origin))
      && |h.attrs| <= (if |r.attrs| < MAX_ATTRS then MAX_ATTRS else |r.attrs|)
  {
    WithoutHint(r, origin);
    if origin > 0 && |r.attrs| < MAX_ATTRS {
      var more := WithHint(r, origin).attrs;
      assert more.Keys == r.attrs.Keys + {HINT};
      assert (more - {HINT}).Keys == more.Keys - {HINT};
      assert (more - {HINT}) - {HINT} == more - {HINT};
    }
  }

  /** A caller's own attribute of that name can be lost: backing the number out of a record it made too large
      takes the caller's attribute away as well. */
  lemma HintCanDisplace(r: LogRecord, origin: int, limits: Limits)
    requires r == LogRecord(1, Info, "", map[HINT := NullAttr], None, 1, None) && origin == 1_000_000
    requires limits == Limits(1, RecordBytes(r), TextBytes(HINT))
    ensures Valid(r, limits) && HINT in r.attrs
    ensures HINT !in Hinted(r, origin, ValidFor(limits)).attrs
  {
    HintIsNotReserved(r.attrs);
    LonelyIsValid(r, HINT, limits);
    LonelyGrows(r, HINT, origin);
    HintDisplacesExactly(r, origin, limits);
  }

  /** Exactly when: where the hint is considered, a valid record's own attribute of that name gives way to the
      number, or to nothing if the number makes the record too large; elsewhere the record is as it was. */
  lemma HintDisplacesExactly(r: LogRecord, origin: int, limits: Limits)
    requires Valid(r, limits) && HINT in r.attrs
    ensures var h := Hinted(r, origin, ValidFor(limits));
      if origin > 0 && |r.attrs| < MAX_ATTRS then
        if RecordBytes(WithHint(r, origin)) > limits.maxLogRecordBytes then HINT !in h.attrs
        else HINT in h.attrs && h.attrs[HINT] == IntAttr(origin)
      else h == r
  {
    ReplacedIsValid(r, HINT, origin, limits);
    if origin > 0 && |r.attrs| < MAX_ATTRS { Displaces(r, origin, ValidFor(limits)); }
  }

  lemma Displaces(r: LogRecord, origin: int, valid: Validator)
    requires origin > 0 && |r.attrs| < MAX_ATTRS
    ensures var h := Hinted(r, origin, valid);
      if valid(WithHint(r, origin)) then HINT in h.attrs && h.attrs[HINT] == IntAttr(origin) else HINT !in h.attrs
  {
  }

  lemma Lonely(r: LogRecord, key: string, a: Attr)
    requires r.attrs == map[key := a]
    ensures RecordBytes(r) == FixedBytes(r) + ATTRS_FRAME + EntryBytes(key, a) - 1
  {
    EntriesWithout(r.attrs, key);
    assert r.attrs - {key} == map[];
  }

  lemma LonelyGrows(r: LogRecord, key: string, origin: int)
    requires r.attrs == map[key := NullAttr] && origin == 1_000_000
    ensures RecordBytes(Replaced(r, key, origin)) > RecordBytes(r)
  {
    Lonely(r, key, NullAttr);
    assert Replaced(r, key, origin).attrs == map[key := IntAttr(origin)];
    Lonely(Replaced(r, key, origin), key, IntAttr(origin));
    assert IntBytes(origin) == 7 by { assert |Decimal.Show(1_000_000)| == 7; }
  }

  lemma LonelyIsValid(r: LogRecord, key: string, limits: Limits)
    requires r == LogRecord(1, Info, "", map[key := NullAttr], None, 1, None) && !HasReserved(r.attrs)
    requires limits == Limits(1, RecordBytes(r), TextBytes(key))
    ensures Valid(r, limits)
  {
    var attrs := r.attrs;
    assert |attrs| == 1;
    assert AttrsOk(attrs, limits) by {
      forall k | k in attrs ensures AttrOk(k, attrs[k], limits) { assert k == key; }
    }
    assert TextBytes(r.message) == 0;
  }

  lemma HintIsNotReserved(attrs: Attrs)
    requires attrs.Keys == {HINT}
    ensures !HasReserved(attrs) && |attrs| == 1
  {
    assert |HINT| == 10 && |"__proto__"| == 9 && |"constructor"| == 11 && |"prototype"| == 9;
  }

  method Validates(r: LogRecord, limits: Limits, ghost valid: Validator) returns (ok: bool)
    requires Judges(valid, limits)
    ensures ok == valid(r)
  {
    var verdict := ValidateLogRecord(r, limits);
    assert valid(r) <==> Valid(r, limits);
    ok := verdict.None?;
  }

  method AddHint(record: LogRecord, origin: int, limits: Limits, ghost valid: Validator) returns (r: LogRecord)
    requires Judges(valid, limits)
    ensures r == Hinted(record, origin, valid)
  {
    r := record;
    if origin > 0 && |r.attrs| < MAX_ATTRS {
      r := WithHint(r, origin);
      var ok := Validates(r, limits, valid);
      if !ok {
        r := Without(r, HINT);
      }
    }
  }

  // ---------------------------------------------------------------- the client

  ghost predicate Numbered(wire: seq<LogRecord>, last: nat) {
    && (forall i | 0 <= i < |wire| :: 1 <= wire[i].seqNo <= last)
    && (forall i, j | 0 <= i < j < |wire| :: wire[i].seqNo < wire[j].seqNo)
  }

  // Every number given out was written, dropped or lost, and the written ones increase.
  ghost predicate Accounted(s: State) {
    BucketOk(s) && s.logSeq == |s.wire| + s.dropped + s.failed && Numbered(s.wire, s.logSeq)
  }

  lemma LogKeepsAccount(s: State, c: Call, valid: Validator)
    requires Accounted(s)
    ensures var (t, sent) := Log(s, c, valid);
      && Accounted(t) && t.logSeq == s.logSeq + (if Enabled(s) then 1 else 0)
      && (if sent then |t.wire| == |s.wire| + 1 && t.wire[..|s.wire|] == s.wire && t.wire[|s.wire|].seqNo == t.logSeq
          else t.wire == s.wire)
      && (sent ==> valid(t.wire[|s.wire|]))
  {
  }

  /** What the client makes of a caller's record: its own number in place of the caller's, the clock for a missing
      time, its revision for a missing one if it has one; everything else is the caller's, up to the hint. */
  ghost predicate Completes(w: LogRecord, r: LogRecord, number: nat, clock: int, revision: int) {
    && w.level == r.level && w.message == r.message && w.logger == r.logger && w.seqNo == number
    && w.ts == (if r.ts == 0 then clock else r.ts)
    && (match r.revision
        case Some(_) => w.revision == r.revision
        case None => w.revision == if revision > 0 then Some(revision) else None)
    && w.attrs - {HINT} == r.attrs - {HINT}
  }

  lemma HintedCompletes(s: State, c: Call, valid: Validator, w: LogRecord)
    requires w == Hinted(Stamped(s, c), c.record.seqNo, valid)
    ensures Completes(w, c.record, s.logSeq + 1, c.clock, s.revision)
  {
    HintTouchesOnlyItself(Stamped(s, c), c.record.seqNo, valid);
    assert Without(w, HINT).attrs == Without(Stamped(s, c), HINT).attrs;
  }

  lemma WrittenRecord(s: State, c: Call, valid: Validator)
    requires BucketOk(s)
    ensures var (t, sent) := Log(s, c, valid);
      sent ==> |t.wire| > |s.wire| && Completes(t.wire[|s.wire|], c.record, s.logSeq + 1, c.clock, s.revision)
  {
    var w := Hinted(Stamped(s, c), c.record.seqNo, valid);
    HintedCompletes(s, c, valid, w);
  }

  /** A record is written exactly if the channel is open, the budget has a token, the transport takes it and the
      record as completed is valid, or becomes so by losing the caller's own attribute of the hint's name. */
  lemma WrittenExactly(s: State, c: Call, limits: Limits, r: LogRecord)
    requires BucketOk(s) && Completes(r, c.record, s.logSeq + 1, c.clock, s.revision) && r.attrs == c.record.attrs
    ensures Log(s, c, ValidFor(limits)).1 <==>
            && Enabled(s) && Take(s.bucket.value, c.now).1 && c.outcome == Written
            && Valid(if c.record.seqNo > 0 && |r.attrs| < MAX_ATTRS then Without(r, HINT) else r, limits)
  {
    assert r == Stamped(s, c);
    HintNeverInvalidates(r, c.record.seqNo, limits);
  }

  class Client {
    var session: bool
    var stream: bool
    var limits: Limits
    var bucket: Option<Bucket>
    var revision: int
    var logSeq: nat
    var logsDropped: nat
    ghost var wire: seq<LogRecord>
    ghost var failed: nat

    ghost function Abstract(): State
      reads this
    {
      State(session, stream, limits, bucket, revision, logSeq, logsDropped, wire, failed)
    }

    /** log: a call on an open channel uses up exactly one number; true means that a valid record with that number
        was written, false that nothing was, and either way every number is accounted for. */
    method SendLog(c: Call) returns (sent: bool)
      requires Accounted(Abstract())
      modifies this
      ensures (Abstract(), sent) == Log(old(Abstract()), c, ValidFor(old(limits)))
      ensures Accounted(Abstract())
      ensures logSeq == old(logSeq) + if old(Enabled(Abstract())) then 1 else 0
      ensures sent ==>
                |wire| == |old(wire)| + 1 && wire[..|old(wire)|] == old(wire)
                && wire[|old(wire)|].seqNo == logSeq && Valid(wire[|old(wire)|], old(limits))
                && Completes(wire[|old(wire)|], c.record, logSeq, c.clock, old(revision))
      ensures !sent ==> wire == old(wire)
    {
      ghost var valid := ValidFor(limits);
      LogKeepsAccount(Abstract(), c, valid);
      WrittenRecord(Abstract(), c, valid);
      sent := Attempt(c, valid);
    }

    method Attempt(c: Call, ghost valid: Validator) returns (sent: bool)
      requires BucketOk(Abstract()) && Judges(valid, limits)
      modifies this
      ensures (Abstract(), sent) == Log(old(Abstract()), c, valid)
    {
      if !session || !stream || bucket.None? {
        return false;
      }
      var record := c.record;
      var origin := record.seqNo;
      logSeq := logSeq + 1;
      record := record.(seqNo := logSeq);
      if record.ts == 0 {
        record := record.(ts := c.clock);
      }
      if record.revision.None? && revision > 0 {
        record := record.(revision := Some(revision));
      }
      var (next, allowed) := Take(bucket.value, c.now);
      bucket := Some(next);
      if !allowed {
        logsDropped := logsDropped + 1;
        return false;
      }
      record := AddHint(record, origin, limits, valid);
      var ok := Validates(record, limits, valid);
      if !ok {
        logsDropped := logsDropped + 1;
        return false;
      }
      match c.outcome {
        case Written =>
          wire := wire + [record];
          return true;
        case Refused =>
          failed := failed + 1;
          return false;
        case Broken =>
          session, stream := false, false;
          failed := failed + 1;
          return false;
      }
    }
  }

  // ---------------------------------------------------------------- runs

  // Besides log calls the session can be acknowledged, with or without a log budget, publish, or be closed.
  datatype Event =
    | LogCall(c: Call)
    | HelloAck(limits: Limits, budget: Option<(int, int)>, now: real)
    | Publish(revision: int)
    | Close

  ghost function Next(s: State, e: Event): State
    requires BucketOk(s)
  {
    match e
    case LogCall(c) => Log(s, c, ValidFor(s.limits)).0
    case HelloAck(limits, budget, now) =>
      s.(session := true, limits := limits,
         bucket := if budget.Some? then Some(Fresh(budget.value.0, budget.value.1, now)) else None)
    case Publish(revision) => s.(revision := revision)
    case Close => Closed(s)
  }

  function Start(limits: Limits): State { State(false, true, limits, None, 0, 0, 0, [], 0) }

  lemma NextKeepsBucket(s: State, e: Event)
    requires BucketOk(s)
    ensures BucketOk(Next(s, e))
  {
  }

  ghost function Run(initial: Limits, events: seq<Event>): (s: State)
    ensures BucketOk(s)
  {
    if events == [] then Start(initial)
    else
      var before := Run(initial, events[..|events| - 1]);
      NextKeepsBucket(before, events[|events| - 1]);
      Next(before, events[|events| - 1])
  }

  // Log calls made while the channel was open.
  ghost function Attempts(initial: Limits, events: seq<Event>): nat {
    if events == [] then 0
    else
      var front, last := events[..|events| - 1], events[|events| - 1];
      Attempts(initial, front) + if last.LogCall? && Enabled(Run(initial, front)) then 1 else 0
  }

  /** In every run: one number per attempt, attempts = written + dropped + failed, and the numbers on the wire
      strictly increase. */
  lemma {:induction false} EveryAttemptIsAccountedFor(initial: Limits, events: seq<Event>)
    ensures var s := Run(initial, events);
      && Attempts(initial, events) == s.logSeq == |s.wire| + s.dropped + s.failed
      && Numbered(s.wire, s.logSeq)
  {
    if events != [] {
      var front, last := events[..|events| - 1], events[|events| - 1];
      EveryAttemptIsAccountedFor(initial, front);
      var s := Run(initial, front);
      if last.LogCall? { LogKeepsAccount(s, last.c, ValidFor(s.limits)); }
    }
  }

  // ---------------------------------------------------------------- gaps

  // The numbers 1 to n.
  ghost function UpTo(n: nat): (s: set<int>)
    ensures |s| == n && forall k :: k in s <==> 1 <= k <= n
  {
    if n == 0 then {} else UpTo(n - 1) + {n}
  }

  ghost function Missing(wire: seq<LogRecord>, n: nat): set<int> {
    set k | k in UpTo(n) && forall i | 0 <= i < |wire| :: wire[i].seqNo != k
  }

  lemma {:induction false} MissingSize(wire: seq<LogRecord>, n: nat)
    requires Numbered(wire, n)
    ensures |Missing(wire, n)| == n - |wire|
    decreases |wire|
  {
    if wire == [] {
      assert Missing(wire, n) == UpTo(n);
    } else {
      var front, last := wire[..|wire| - 1], wire[|wire| - 1];
      MissingSize(front, n);
      assert Missing(wire, n) == Missing(front, n) - {last.seqNo} by {
        forall k ensures k in Missing(wire, n) <==> k in Missing(front, n) && k != last.seqNo {
          if k in Missing(front, n) && k != last.seqNo {
            forall i | 0 <= i < |wire| ensures wire[i].seqNo != k {
              if i < |front| { assert front[i].seqNo != k; }
            }
          }
        }
      }
      assert last.seqNo in Missing(front, n);
    }
  }

  /** The numbers missing from the wire, up to the last one given out, count exactly the losses. */
  lemma GapsCountLosses(initial: Limits, events: seq<Event>)
    ensures var s := Run(initial, events); |Missing(s.wire, s.logSeq)| == s.dropped + s.failed
  {
    EveryAttemptIsAccountedFor(initial, events);
    MissingSize(Run(initial, events).wire, Run(initial, events).logSeq);
  }
}
