/** The hooks a patched Ratatui calls while a frame is drawn: a per-thread stack of frames, each with its
    recorded render calls and the annotated calls it is currently inside. */
module RenderHooks {
  import opened Options

  // What one call drew: the type's name and the rectangle it was given.
  datatype Drawn = Drawn(typeName: string, x: nat, y: nat, width: nat, height: nat)

  datatype Annotation = Annotation(semanticKey: Option<string>, labelledBy: seq<string>, describedBy: seq<string>)

  datatype Collection = Collection(selected: Option<nat>, offset: nat, itemCount: nat, items: seq<string>)

  const MAX_ITEMS := 200

  datatype RenderCall = RenderCall(
    ordinal: nat,
    parentOrdinal: Option<nat>,
    drawn: Drawn,
    collection: Option<Collection>,
    annotation: Option<Annotation>)

  datatype FrameContext = FrameContext(calls: seq<RenderCall>, annotated: seq<nat>)

  datatype ProbeState = ProbeState(instrumented: bool, disabled: bool, stack: seq<FrameContext>)

  // `calls.len() as u32`
  const U32 := 0x1_0000_0000

  function Ordinal(n: nat): nat { n % U32 }

  predicate Collecting(p: ProbeState) { p.instrumented && !p.disabled && p.stack != [] }

  function Top(p: ProbeState): FrameContext
    requires p.stack != []
  {
    p.stack[|p.stack| - 1]
  }

  function Below(p: ProbeState): seq<FrameContext>
    requires p.stack != []
  {
    p.stack[..|p.stack| - 1]
  }

  function WithTop(p: ProbeState, f: FrameContext): ProbeState
    requires p.stack != []
  {
    p.(stack := Below(p) + [f])
  }

  // ---------------------------------------------------------------- the hooks, as functions of the state

  function BeginFrame(p: ProbeState): (ProbeState, bool) {
    if !p.instrumented || p.disabled then (p, false)
    else (p.(stack := p.stack + [FrameContext([], [])]), true)
  }

  function EndFrame(p: ProbeState, active: bool): ProbeState {
    if !active then p
    else if p.stack == [] then p.(disabled := true)
    else p.(stack := Below(p))
  }

  function OnRender(p: ProbeState, drawn: Drawn): ProbeState {
    if !Collecting(p) then p
    else
      var f := Top(p);
      WithTop(p, f.(calls := f.calls + [RenderCall(Ordinal(|f.calls|), None, drawn, None, None)]))
  }

  // The frame hook's call for the same wrapper and area is claimed rather than duplicated.
  predicate Claims(calls: seq<RenderCall>, wrapper: string, drawn: Drawn) {
    && calls != []
    && var last := calls[|calls| - 1]; last.drawn == drawn.(typeName := wrapper) && last.annotation.None?
  }

  function RecordAnnotated(calls: seq<RenderCall>, parent: Option<nat>, wrapper: string, drawn: Drawn, a: Annotation)
    : (seq<RenderCall>, nat)
  {
    if Claims(calls, wrapper, drawn) then
      var last := calls[|calls| - 1];
      (calls[|calls| - 1 := last.(drawn := drawn, annotation := Some(a), parentOrdinal := parent)], last.ordinal)
    else
      (calls + [RenderCall(Ordinal(|calls|), parent, drawn, None, Some(a))], Ordinal(|calls|))
  }

  // The annotated call we are directly inside of.
  function Innermost(annotated: seq<nat>): Option<nat> {
    if annotated == [] then None else Some(annotated[|annotated| - 1])
  }

  function BeginAnnotated(p: ProbeState, wrapper: string, drawn: Drawn, a: Annotation): (ProbeState, Option<nat>) {
    if !Collecting(p) then (p, None)
    else
      var f := Top(p);
      var (calls, ordinal) := RecordAnnotated(f.calls, Innermost(f.annotated), wrapper, drawn, a);
      (WithTop(p, FrameContext(calls, f.annotated + [ordinal])), Some(ordinal))
  }

  // Drop for AnnotatedRenderGuard: pop, and disable the probe unless the expected call was on top.
  function EndAnnotated(p: ProbeState, guard: Option<nat>): ProbeState {
    if guard.None? then p
    else if p.stack == [] then p.(disabled := true)
    else
      var f := Top(p);
      if f.annotated == [] then p.(disabled := true)
      else
        var n := |f.annotated| - 1;
        var popped := WithTop(p, f.(annotated := f.annotated[..n]));
        if f.annotated[n] == guard.value then popped else popped.(disabled := true)
  }

  function OnCollection(p: ProbeState, c: Collection): ProbeState {
    if !Collecting(p) || Top(p).calls == [] then p
    else
      var f := Top(p);
      WithTop(p, f.(calls := Attach(f.calls, c)))
  }

  // A collection report belongs to the last call; only so many items are kept.
  function Attach(calls: seq<RenderCall>, c: Collection): seq<RenderCall> {
    if calls == [] then []
    else
      var n := |calls| - 1;
      var kept := c.(items := if |c.items| <= MAX_ITEMS then c.items else c.items[..MAX_ITEMS]);
      calls[n := calls[n].(collection := Some(kept))]
  }

  function TakeFrame(p: ProbeState): (ProbeState, seq<RenderCall>) {
    if !Collecting(p) then (p, []) else (WithTop(p, Top(p).(calls := [])), Top(p).calls)
  }

  // ---------------------------------------------------------------- the same hooks on the thread's state

  class Probe {
    const instrumented: bool
    var disabled: bool
    var stack: seq<FrameContext>

    constructor (instrumented: bool)
      ensures this.instrumented == instrumented && State() == ProbeState(instrumented, false, [])
    {
      this.instrumented := instrumented;
      disabled, stack := false, [];
    }

    function State(): ProbeState
      reads this
    {
      ProbeState(instrumented, disabled, stack)
    }

    method Begin() returns (active: bool)
      modifies this
      ensures (State(), active) == BeginFrame(old(State()))
    {
      active := false;
      if instrumented && !disabled {
        stack := stack + [FrameContext([], [])];
        active := true;
      }
    }

    method End(active: bool)
      modifies this
      ensures State() == EndFrame(old(State()), active)
    {
      if active {
        if stack == [] {
          disabled := true;
        } else {
          stack := stack[..|stack| - 1];
        }
      }
    }

    method Render(drawn: Drawn)
      modifies this
      ensures State() == OnRender(old(State()), drawn)
    {
      if instrumented && !disabled && stack != [] {
        var n := |stack| - 1;
        var calls := stack[n].calls;
        stack := stack[..n] + [stack[n].(calls := calls + [RenderCall(Ordinal(|calls|), None, drawn, None, None)])];
      }
    }

    method EnterAnnotated(wrapper: string, drawn: Drawn, a: Annotation) returns (guard: Option<nat>)
      modifies this
      ensures (State(), guard) == BeginAnnotated(old(State()), wrapper, drawn, a)
    {
      guard := None;
      if instrumented && !disabled && stack != [] {
        var n := |stack| - 1;
        var calls, annotated := stack[n].calls, stack[n].annotated;
        var parent := if annotated == [] then None else Some(annotated[|annotated| - 1]);
        var ordinal := Ordinal(|calls|);
        if Claims(calls, wrapper, drawn) {
          var last := calls[|calls| - 1];
          ordinal := last.ordinal;
          calls := calls[|calls| - 1 := last.(drawn := drawn, annotation := Some(a), parentOrdinal := parent)];
        } else {
          calls := calls + [RenderCall(ordinal, parent, drawn, None, Some(a))];
        }
        stack := stack[..n] + [FrameContext(calls, annotated + [ordinal])];
        guard := Some(ordinal);
      }
    }

    method LeaveAnnotated(guard: Option<nat>)
      modifies this
      ensures State() == EndAnnotated(old(State()), guard)
    {
      if guard.Some? {
        if stack == [] || stack[|stack| - 1].annotated == [] {
          disabled := true;
        } else {
          var n := |stack| - 1;
          var annotated := stack[n].annotated;
          var popped := annotated[|annotated| - 1];
          stack := stack[..n] + [stack[n].(annotated := annotated[..|annotated| - 1])];
          if popped != guard.value {
            disabled := true;
          }
        }
      }
    }

    method Collect(c: Collection)
      modifies this
      ensures State() == OnCollection(old(State()), c)
    {
      if instrumented && !disabled && stack != [] && stack[|stack| - 1].calls != [] {
        var n := |stack| - 1;
        var calls := stack[n].calls;
        var kept := c.(items := if |c.items| <= MAX_ITEMS then c.items else c.items[..MAX_ITEMS]);
        calls := calls[|calls| - 1 := calls[|calls| - 1].(collection := Some(kept))];
        stack := stack[..n] + [stack[n].(calls := calls)];
      }
    }

    method Take() returns (calls: seq<RenderCall>)
      modifies this
      ensures (State(), calls) == TakeFrame(old(State()))
    {
      calls := [];
      if instrumented && !disabled && stack != [] {
        var n := |stack| - 1;
        calls := stack[n].calls;
        stack := stack[..n] + [stack[n].(calls := [])];
      }
    }

    // What an application draws, hook by hook.  Inside a frame, the frames around it and the annotated calls we are
    // inside of stay as they are, and the frame's calls grow by what the nesting of the items says.
    method Draw(items: seq<Item>)
      modifies this
      ensures State() == Play(old(State()), items)
      ensures old(Collecting(State())) ==>
                && Collecting(State()) && |stack| == |old(stack)| && Below(State()) == old(Below(State()))
                && Top(State()).annotated == old(Top(State()).annotated)
                && Top(State()).calls == Recorded(old(Top(State()).calls), items, Innermost(Top(State()).annotated))
      ensures old(Collecting(State()) && Numbered(Top(State()).calls)) ==>
                var before, after := old(Top(State()).calls), Top(State()).calls;
                && Numbered(after) && Shows(after, TallyOf(before), items, Innermost(Top(State()).annotated))
                && Annotates(before, after, AnnotatedAt(TallyOf(before), items))
                && Adds(before, after, Reports(TallyOf(before), items))
      decreases items, 0
    {
      for i := 0 to |items|
        invariant Play(State(), items[i..]) == Play(old(State()), items)
      {
        assert items[i..][1..] == items[i + 1..];
        DrawItem(items[i]);
      }
      if old(Collecting(State())) {
        PlayExtends(old(State()), items);
        PlayRecords(old(State()), items);
        if old(Numbered(Top(State()).calls)) {
          RecordedDepicts(old(Top(State()).calls), items, Innermost(Top(State()).annotated), Top(State()).calls);
        }
      }
    }

    method DrawItem(item: Item)
      modifies this
      ensures State() == PlayItem(old(State()), item)
      decreases item, 1
    {
      match item
      case Plain(drawn) =>
        Render(drawn);
      case Annotated(wrapper, drawn, a, body) =>
        var guard := EnterAnnotated(wrapper, drawn, a);
        Draw(body);
        LeaveAnnotated(guard);
      case Collected(c) =>
        Collect(c);
      case Nested(body) =>
        var _ := DrawWhole(body);
    }

    // Terminal::try_draw.  An enabled probe is left exactly as it was and hands out the calls of the frame; any
    // other is left alone and hands out none.
    method DrawWhole(body: seq<Item>) returns (calls: seq<RenderCall>)
      modifies this
      ensures State() == old(State())
      ensures calls == if instrumented && !disabled then Recorded([], body, None) else []
      ensures instrumented && !disabled ==> Depicts(calls, body) && (CallsOk(calls) <==> CallCount(body) <= U32)
      ensures (State(), calls) == DrawFrame(old(State()), body)
      decreases body, 1
    {
      var active := Begin();
      Draw(body);
      calls := Take();
      End(active);
      if instrumented && !old(disabled) {
        DrawFrameIsClean(old(State()), body);
        DrawnCallsFollowNesting(old(State()), body);
        DrawnCallsDepict(old(State()), body);
      } else {
        IdlePlay(old(State()), body);
      }
    }
  }

  // ---------------------------------------------------------------- what an application draws

  // A well-bracketed stream of events: annotated renders and nested draws contain what happens inside them.
  datatype Item =
    | Plain(drawn: Drawn)
    | Annotated(wrapper: string, drawn: Drawn, annotation: Annotation, body: seq<Item>)
    | Collected(collection: Collection)
    | Nested(body: seq<Item>)

  function Play(p: ProbeState, items: seq<Item>): ProbeState
    decreases items, 0
  {
    if items == [] then p else Play(PlayItem(p, items[0]), items[1..])
  }

  function PlayItem(p: ProbeState, item: Item): ProbeState
    decreases item, 1
  {
    match item
    case Plain(drawn) => OnRender(p, drawn)
    case Annotated(wrapper, drawn, a, body) =>
      var (entered, guard) := BeginAnnotated(p, wrapper, drawn, a);
      EndAnnotated(Play(entered, body), guard)
    case Collected(c) => OnCollection(p, c)
    case Nested(body) => DrawFrame(p, body).0
  }

  // Terminal::try_draw: begin a frame, draw, take the calls at its end, drop the guard.
  function DrawFrame(p: ProbeState, body: seq<Item>): (ProbeState, seq<RenderCall>)
    decreases body, 1
  {
    var (begun, active) := BeginFrame(p);
    var (taken, calls) := TakeFrame(Play(begun, body));
    (EndFrame(taken, active), calls)
  }

  // ---------------------------------------------------------------- what the recorded calls satisfy

  // Ordinals are positions and parents come earlier.
  ghost predicate CallOk(call: RenderCall, i: nat) {
    && call.ordinal == i
    && (call.parentOrdinal.Some? ==> call.parentOrdinal.value < i)
  }

  ghost predicate CallsOk(calls: seq<RenderCall>) {
    forall i | 0 <= i < |calls| :: CallOk(calls[i], i)
  }

  // The calls we are inside of are recorded annotated calls.
  ghost predicate InsideOk(f: FrameContext) {
    forall k | 0 <= k < |f.annotated| ::
      f.annotated[k] < |f.calls| && f.calls[f.annotated[k]].annotation.Some?
  }

  ghost predicate FrameOk(f: FrameContext) {
    && (forall i | 0 <= i < |f.calls| :: f.calls[i].ordinal == Ordinal(i))
    && (|f.calls| <= U32 ==> CallsOk(f.calls) && InsideOk(f))
  }

  // A later state of the same frame: nothing below it changed, we are inside the same calls, no recorded
  // call was lost, and what was annotated stays annotated.
  ghost predicate Extends(p: ProbeState, p': ProbeState) {
    && Collecting(p) && Collecting(p')
    && |p'.stack| == |p.stack| && Below(p') == Below(p)
    && Top(p').annotated == Top(p).annotated
    && |Top(p').calls| >= |Top(p).calls|
    && (FrameOk(Top(p)) ==> FrameOk(Top(p')))
  }

  lemma RenderExtends(p: ProbeState, drawn: Drawn)
    requires Collecting(p)
    ensures Extends(p, OnRender(p, drawn))
  {
  }

  lemma CollectionExtends(p: ProbeState, c: Collection)
    requires Collecting(p)
    ensures Extends(p, OnCollection(p, c))
  {
  }

  // Entering an annotated call keeps the frame in order, whether the call is claimed or recorded.
  lemma EnterKeepsFrame(p: ProbeState, wrapper: string, drawn: Drawn, a: Annotation)
    requires Collecting(p)
    ensures var (e, guard) := BeginAnnotated(p, wrapper, drawn, a);
      && Collecting(e) && |e.stack| == |p.stack| && Below(e) == Below(p)
      && guard.Some? && Top(e).annotated == Top(p).annotated + [guard.value]
      && |Top(e).calls| >= |Top(p).calls|
      && (FrameOk(Top(p)) ==> FrameOk(Top(e)))
  {
    var (e, guard) := BeginAnnotated(p, wrapper, drawn, a);
    var f, g := Top(p), Top(e);
    if FrameOk(f) && |g.calls| <= U32 {
      forall k | 0 <= k < |g.annotated|
        ensures g.annotated[k] < |g.calls| && g.calls[g.annotated[k]].annotation.Some?
      {
        if k < |f.annotated| { assert g.annotated[k] == f.annotated[k]; }
      }
    }
  }

  lemma LeaveRestores(p: ProbeState, e: ProbeState, m: ProbeState, guard: nat)
    requires Collecting(p) && Collecting(e) && |e.stack| == |p.stack| && Below(e) == Below(p)
    requires Top(e).annotated == Top(p).annotated + [guard] && |Top(e).calls| >= |Top(p).calls|
    requires FrameOk(Top(p)) ==> FrameOk(Top(e))
    requires Extends(e, m)
    ensures Extends(p, EndAnnotated(m, Some(guard)))
  {
  }

  lemma FreshFrame(p: ProbeState)
    requires Collecting(p) || (p.instrumented && !p.disabled)
    ensures var (b, active) := BeginFrame(p);
      active && Collecting(b) && Below(b) == p.stack && Top(b) == FrameContext([], []) && FrameOk(Top(b))
  {
  }

  lemma {:induction false} PlayExtends(p: ProbeState, items: seq<Item>)
    requires Collecting(p)
    ensures Extends(p, Play(p, items))
    decreases items, 0
  {
    if items != [] {
      PlayItemExtends(p, items[0]);
      PlayExtends(PlayItem(p, items[0]), items[1..]);
    }
  }

  lemma {:induction false} PlayItemExtends(p: ProbeState, item: Item)
    requires Collecting(p)
    ensures Extends(p, PlayItem(p, item))
    decreases item, 1
  {
    match item
    case Plain(drawn) => RenderExtends(p, drawn);
    case Annotated(wrapper, drawn, a, body) =>
      var (e, guard) := BeginAnnotated(p, wrapper, drawn, a);
      EnterKeepsFrame(p, wrapper, drawn, a);
      PlayExtends(e, body);
      LeaveRestores(p, e, Play(e, body), guard.value);
    case Collected(c) => CollectionExtends(p, c);
    case Nested(body) => FrameIsKept(p, body);
  }

  lemma {:induction false} FrameIsKept(p: ProbeState, body: seq<Item>)
    requires p.instrumented && !p.disabled
    ensures DrawFrame(p, body).0 == p && FrameOk(FrameContext(DrawFrame(p, body).1, []))
    decreases body, 1
  {
    var (b, active) := BeginFrame(p);
    FreshFrame(p);
    PlayExtends(b, body);
  }

  // A probe that is off stays as it is.
  lemma {:induction false} IdlePlay(p: ProbeState, items: seq<Item>)
    requires !p.instrumented || p.disabled
    ensures Play(p, items) == p
    decreases items, 0
  {
    if items != [] {
      IdleItem(p, items[0]);
      IdlePlay(p, items[1..]);
    }
  }

  lemma {:induction false} IdleItem(p: ProbeState, item: Item)
    requires !p.instrumented || p.disabled
    ensures PlayItem(p, item) == p
    decreases item, 1
  {
    match item
    case Annotated(_, _, _, body) => IdlePlay(p, body);
    case Nested(body) => IdlePlay(p, body);
    case _ =>
  }

  // ---------------------------------------------------------------- the calls, without a stack

  // What a drawing records, read off its nesting: `parent` is the annotated call around the items.
  function Recorded(calls: seq<RenderCall>, items: seq<Item>, parent: Option<nat>): seq<RenderCall>
    decreases items, 0
  {
    if items == [] then calls else Recorded(RecordedItem(calls, items[0], parent), items[1..], parent)
  }

  function RecordedItem(calls: seq<RenderCall>, item: Item, parent: Option<nat>): seq<RenderCall>
    decreases item, 1
  {
    match item
    case Plain(drawn) => calls + [RenderCall(Ordinal(|calls|), None, drawn, None, None)]
    case Annotated(wrapper, drawn, a, body) =>
      var (recorded, ordinal) := RecordAnnotated(calls, parent, wrapper, drawn, a);
      Recorded(recorded, body, Some(ordinal))
    case Collected(c) => Attach(calls, c)
    case Nested(_) => calls
  }

  lemma {:induction false} PlayRecords(p: ProbeState, items: seq<Item>)
    requires Collecting(p)
    ensures Collecting(Play(p, items))
    ensures Top(Play(p, items)).calls == Recorded(Top(p).calls, items, Innermost(Top(p).annotated))
    decreases items, 0
  {
    PlayExtends(p, items);
    if items != [] {
      PlayItemExtends(p, items[0]);
      PlayItemRecords(p, items[0]);
      PlayRecords(PlayItem(p, items[0]), items[1..]);
    }
  }

  lemma {:induction false} PlayItemRecords(p: ProbeState, item: Item)
    requires Collecting(p)
    ensures Collecting(PlayItem(p, item))
    ensures Top(PlayItem(p, item)).calls == RecordedItem(Top(p).calls, item, Innermost(Top(p).annotated))
    decreases item, 1
  {
    PlayItemExtends(p, item);
    match item
    case Annotated(wrapper, drawn, a, body) =>
      var (e, guard) := BeginAnnotated(p, wrapper, drawn, a);
      EnterKeepsFrame(p, wrapper, drawn, a);
      PlayExtends(e, body);
      PlayRecords(e, body);
    case Nested(body) => FrameIsKept(p, body);
    case _ =>
  }

  /** The frame yields exactly the calls its nesting calls for: every annotated call's parent is the innermost
      annotated call around it, nested frames contribute nothing, and a collection report goes to the last call
      recorded before it. */
  lemma DrawnCallsFollowNesting(p: ProbeState, body: seq<Item>)
    requires p.instrumented && !p.disabled
    ensures DrawFrame(p, body).1 == Recorded([], body, None)
  {
    var (b, active) := BeginFrame(p);
    FreshFrame(p);
    PlayRecords(b, body);
  }

  // ---------------------------------------------------------------- how many calls a drawing makes

  // The number of calls, and what the last one drew while an annotated render may still claim it.
  datatype Tally = Tally(count: nat, claimable: Option<Drawn>)

  function Tallied(t: Tally, items: seq<Item>): Tally
    decreases items, 0
  {
    if items == [] then t else Tallied(TalliedItem(t, items[0]), items[1..])
  }

  function TalliedItem(t: Tally, item: Item): Tally
    decreases item, 1
  {
    match item
    case Plain(drawn) => Tally(t.count + 1, Some(drawn))
    case Annotated(wrapper, drawn, _, body) =>
      var claims := t.claimable == Some(drawn.(typeName := wrapper));
      Tallied(Tally(if claims then t.count else t.count + 1, None), body)
    case Collected(_) => t
    case Nested(_) => t
  }

  /** One call for each render outside nested frames, but for wrappers that claim the call just before them. */
  function CallCount(body: seq<Item>): nat { Tallied(Tally(0, None), body).count }

  function TallyOf(calls: seq<RenderCall>): Tally {
    if calls == [] then Tally(0, None)
    else
      var last := calls[|calls| - 1];
      Tally(|calls|, if last.annotation.None? then Some(last.drawn) else None)
  }

  lemma {:induction false} RecordedTally(calls: seq<RenderCall>, items: seq<Item>, parent: Option<nat>)
    ensures TallyOf(Recorded(calls, items, parent)) == Tallied(TallyOf(calls), items)
    decreases items, 0
  {
    if items != [] {
      ItemTally(calls, items[0], parent);
      RecordedTally(RecordedItem(calls, items[0], parent), items[1..], parent);
    }
  }

  lemma {:induction false} ItemTally(calls: seq<RenderCall>, item: Item, parent: Option<nat>)
    ensures TallyOf(RecordedItem(calls, item, parent)) == TalliedItem(TallyOf(calls), item)
    decreases item, 1
  {
    match item
    case Annotated(wrapper, drawn, a, body) =>
      var (recorded, ordinal) := RecordAnnotated(calls, parent, wrapper, drawn, a);
      RecordedTally(recorded, body, Some(ordinal));
    case _ =>
  }

  /** Drawing a frame, however its renders, annotations, collections and further frames nest, leaves the
      enclosing frames exactly as they were and the probe enabled.  The calls it yields have their positions
      as ordinals and their parents before them exactly when the drawing makes at most 2^32 calls: the next one
      would reuse ordinal 0. */
  lemma DrawFrameIsClean(p: ProbeState, body: seq<Item>)
    requires p.instrumented && !p.disabled
    ensures DrawFrame(p, body).0 == p
    ensures |DrawFrame(p, body).1| == CallCount(body)
    ensures CallsOk(DrawFrame(p, body).1) <==> CallCount(body) <= U32
  {
    FrameIsKept(p, body);
    DrawnCallsFollowNesting(p, body);
    RecordedTally([], body, None);
    var calls := DrawFrame(p, body).1;
    if |calls| > U32 {
      assert !CallOk(calls[U32], U32);
    }
  }

  lemma {:induction false} PlainTally(t: Tally, items: seq<Item>)
    requires forall i | 0 <= i < |items| :: items[i].Plain?
    ensures Tallied(t, items).count == t.count + |items|
    decreases |items|
  {
    if items != [] { PlainTally(TalliedItem(t, items[0]), items[1..]); }
  }

  /** 2^32 + 1 renders of one widget: the last call has ordinal 0 again. */
  lemma OrdinalsWrap(p: ProbeState, drawn: Drawn)
    requires p.instrumented && !p.disabled
    ensures var calls := DrawFrame(p, seq(U32 + 1, _ => Plain(drawn))).1;
      |calls| == U32 + 1 && calls[0].ordinal == calls[U32].ordinal == 0 && !CallsOk(calls)
  {
    var body := seq(U32 + 1, _ => Plain(drawn));
    FrameIsKept(p, body);
    PlainTally(Tally(0, None), body);
    DrawFrameIsClean(p, body);
  }

  // ---------------------------------------------------------------- what each call says, read off the drawing

  // An annotated render's own call: the one just before it if that is claimed, else the next.
  function PositionOf(t: Tally, item: Item): nat
    requires item.Annotated?
  {
    if t.claimable == Some(item.drawn.(typeName := item.wrapper)) && t.count > 0 then t.count - 1 else t.count
  }

  // The calls show the items that come after t: an annotated render's call has what it drew, its annotation and the
  // innermost annotated render around it as parent; a plain render's call has what it drew, unless it was claimed.
  ghost predicate Shows(calls: seq<RenderCall>, t: Tally, items: seq<Item>, around: Option<nat>)
    decreases items, 0
  {
    items != [] ==>
      ShowsItem(calls, t, items[0], around) && Shows(calls, TalliedItem(t, items[0]), items[1..], around)
  }

  ghost predicate ShowsItem(calls: seq<RenderCall>, t: Tally, item: Item, around: Option<nat>)
    decreases item, 1
  {
    match item
    case Plain(drawn) =>
      && t.count < |calls|
      && (calls[t.count].annotation.None? ==> calls[t.count].drawn == drawn && calls[t.count].parentOrdinal == None)
    case Annotated(_, drawn, a, body) =>
      var k := PositionOf(t, item);
      && k < |calls|
      && calls[k].drawn == drawn && calls[k].annotation == Some(a) && calls[k].parentOrdinal == around
      && Shows(calls, Tally(k + 1, None), body, Some(Ordinal(k)))
    case Collected(_) => true
    case Nested(_) => true
  }

  // The positions of the annotated renders.
  function AnnotatedAt(t: Tally, items: seq<Item>): set<nat>
    decreases items, 0
  {
    if items == [] then {} else AnnotatedItemAt(t, items[0]) + AnnotatedAt(TalliedItem(t, items[0]), items[1..])
  }

  function AnnotatedItemAt(t: Tally, item: Item): set<nat>
    decreases item, 1
  {
    if item.Annotated? then {PositionOf(t, item)} + AnnotatedAt(Tally(PositionOf(t, item) + 1, None), item.body) else {}
  }

  // The reports: each goes to the last call made before it, and a later one replaces an earlier one.
  function Reports(t: Tally, items: seq<Item>): map<nat, Collection>
    decreases items, 0
  {
    if items == [] then map[] else ReportsItem(t, items[0]) + Reports(TalliedItem(t, items[0]), items[1..])
  }

  function ReportsItem(t: Tally, item: Item): map<nat, Collection>
    decreases item, 1
  {
    match item
    case Annotated(_, _, _, body) => Reports(Tally(PositionOf(t, item) + 1, None), body)
    case Collected(c) => if t.count > 0 then map[t.count - 1 := c] else map[]
    case _ => map[]
  }

  // What is kept of a report: everything but items beyond the first two hundred.
  ghost predicate KeptOf(kept: Collection, c: Collection) {
    && kept.selected == c.selected && kept.offset == c.offset && kept.itemCount == c.itemCount
    && kept.items <= c.items && |kept.items| == if |c.items| < 200 then |c.items| else 200
  }

  ghost predicate Reported(calls: seq<RenderCall>, from: nat, reports: map<nat, Collection>) {
    forall k: nat | from <= k < |calls| ::
      if k in reports then calls[k].collection.Some? && KeptOf(calls[k].collection.value, reports[k])
      else calls[k].collection == None
  }

  /** The calls of a whole drawing. */
  ghost predicate Depicts(calls: seq<RenderCall>, body: seq<Item>) {
    var start := Tally(0, None);
    && |calls| == CallCount(body)
    && (forall k | 0 <= k < |calls| :: calls[k].ordinal == Ordinal(k))
    && Shows(calls, start, body, None)
    && (forall k: nat | k < |calls| :: calls[k].annotation.Some? <==> k in AnnotatedAt(start, body))
    && Reported(calls, 0, Reports(start, body))
  }

  // ---------------------------------------------------------------- what later recording leaves alone

  // Annotated calls stay as they are but for their report; a plain one may be claimed.
  ghost predicate Later(calls: seq<RenderCall>, calls': seq<RenderCall>) {
    && |calls'| >= |calls|
    && forall k: nat | k < |calls| :: LaterCall(calls[k], calls'[k])
  }

  ghost predicate LaterCall(call: RenderCall, call': RenderCall) {
    && (call.annotation.Some? ==>
          call'.drawn == call.drawn && call'.annotation == call.annotation && call'.parentOrdinal == call.parentOrdinal)
    && (call'.annotation.None? ==>
          call.annotation.None? && call'.drawn == call.drawn && call'.parentOrdinal == call.parentOrdinal)
  }

  lemma LaterTransitive(a: seq<RenderCall>, b: seq<RenderCall>, c: seq<RenderCall>)
    requires Later(a, b) && Later(b, c)
    ensures Later(a, c)
  {
    forall k: nat | k < |a| ensures LaterCall(a[k], c[k]) { assert LaterCall(a[k], b[k]) && LaterCall(b[k], c[k]); }
  }

  lemma {:induction false} RecordedLater(calls: seq<RenderCall>, items: seq<Item>, parent: Option<nat>)
    ensures Later(calls, Recorded(calls, items, parent))
    decreases items, 0
  {
    if items != [] {
      var next := RecordedItem(calls, items[0], parent);
      RecordedItemLater(calls, items[0], parent);
      RecordedLater(next, items[1..], parent);
      LaterTransitive(calls, next, Recorded(next, items[1..], parent));
    }
  }

  lemma {:induction false} RecordedItemLater(calls: seq<RenderCall>, item: Item, parent: Option<nat>)
    ensures Later(calls, RecordedItem(calls, item, parent))
    decreases item, 1
  {
    match item
    case Annotated(wrapper, drawn, a, body) =>
      var (recorded, ordinal) := RecordAnnotated(calls, parent, wrapper, drawn, a);
      RecordedLater(recorded, body, Some(ordinal));
      LaterTransitive(calls, recorded, Recorded(recorded, body, Some(ordinal)));
    case _ =>
  }

  // Where an annotated render is recorded, and as what.
  lemma AnnotatedIsRecorded(calls: seq<RenderCall>, item: Item, parent: Option<nat>)
    requires item.Annotated? && forall i | 0 <= i < |calls| :: calls[i].ordinal == Ordinal(i)
    ensures var (recorded, ordinal) := RecordAnnotated(calls, parent, item.wrapper, item.drawn, item.annotation);
      var k := PositionOf(TallyOf(calls), item);
      && k < |recorded| && TallyOf(recorded) == Tally(k + 1, None) && ordinal == Ordinal(k)
      && recorded[k].drawn == item.drawn && recorded[k].annotation == Some(item.annotation)
      && recorded[k].parentOrdinal == parent
      && forall i | 0 <= i < |recorded| :: recorded[i].ordinal == Ordinal(i)
  {
  }

  ghost predicate Numbered(calls: seq<RenderCall>) { forall i | 0 <= i < |calls| :: calls[i].ordinal == Ordinal(i) }

  lemma {:induction false} RecordedShows(calls: seq<RenderCall>, items: seq<Item>, parent: Option<nat>,
                                         final: seq<RenderCall>)
    requires Numbered(calls) && Later(Recorded(calls, items, parent), final)
    ensures Numbered(Recorded(calls, items, parent)) && Shows(final, TallyOf(calls), items, parent)
    decreases items, 0
  {
    if items != [] {
      var next := RecordedItem(calls, items[0], parent);
      var all := Recorded(next, items[1..], parent);
      RecordedLater(next, items[1..], parent);
      LaterTransitive(next, all, final);
      RecordedShowsItem(calls, items[0], parent, final);
      ItemTally(calls, items[0], parent);
      RecordedShows(next, items[1..], parent, final);
    }
  }

  lemma {:induction false} RecordedShowsItem(calls: seq<RenderCall>, item: Item, parent: Option<nat>,
                                             final: seq<RenderCall>)
    requires Numbered(calls) && Later(RecordedItem(calls, item, parent), final)
    ensures Numbered(RecordedItem(calls, item, parent)) && ShowsItem(final, TallyOf(calls), item, parent)
    decreases item, 1
  {
    match item
    case Plain(drawn) => assert LaterCall(RecordedItem(calls, item, parent)[|calls|], final[|calls|]);
    case Annotated(wrapper, drawn, a, body) =>
      var (recorded, ordinal) := RecordAnnotated(calls, parent, wrapper, drawn, a);
      AnnotatedIsRecorded(calls, item, parent);
      RecordedShows(recorded, body, Some(ordinal), final);
      RecordedLater(recorded, body, Some(ordinal));
      LaterTransitive(recorded, Recorded(recorded, body, Some(ordinal)), final);
      assert LaterCall(recorded[PositionOf(TallyOf(calls), item)], final[PositionOf(TallyOf(calls), item)]);
    case _ =>
  }

  // ---------------------------------------------------------------- which calls are annotated and which have reports

  // The calls at these positions, and those annotated before, are annotated.
  ghost predicate Annotates(calls: seq<RenderCall>, calls': seq<RenderCall>, at: set<nat>) {
    && |calls| <= |calls'| && (forall k | k in at :: k < |calls'|)
    && forall k: nat | k < |calls'| ::
         calls'[k].annotation.Some? <==> k in at || (k < |calls| && calls[k].annotation.Some?)
  }

  lemma AnnotatesTwice(a: seq<RenderCall>, b: seq<RenderCall>, c: seq<RenderCall>, first: set<nat>, second: set<nat>)
    requires Annotates(a, b, first) && Annotates(b, c, second)
    ensures Annotates(a, c, first + second)
  {
  }

  lemma {:induction false} RecordedAnnotates(calls: seq<RenderCall>, items: seq<Item>, parent: Option<nat>)
    requires Numbered(calls)
    ensures Numbered(Recorded(calls, items, parent))
    ensures Annotates(calls, Recorded(calls, items, parent), AnnotatedAt(TallyOf(calls), items))
    decreases items, 0
  {
    if items != [] {
      var next := RecordedItem(calls, items[0], parent);
      RecordedItemAnnotates(calls, items[0], parent);
      ItemTally(calls, items[0], parent);
      RecordedAnnotates(next, items[1..], parent);
      AnnotatesTwice(calls, next, Recorded(next, items[1..], parent),
                     AnnotatedItemAt(TallyOf(calls), items[0]), AnnotatedAt(TallyOf(next), items[1..]));
    }
  }

  lemma {:induction false} RecordedItemAnnotates(calls: seq<RenderCall>, item: Item, parent: Option<nat>)
    requires Numbered(calls)
    ensures Numbered(RecordedItem(calls, item, parent))
    ensures Annotates(calls, RecordedItem(calls, item, parent), AnnotatedItemAt(TallyOf(calls), item))
    decreases item, 1
  {
    match item
    case Annotated(wrapper, drawn, a, body) =>
      var (recorded, ordinal) := RecordAnnotated(calls, parent, wrapper, drawn, a);
      AnnotatedIsRecorded(calls, item, parent);
      RecordedAnnotates(recorded, body, Some(ordinal));
      var k := PositionOf(TallyOf(calls), item);
      assert Annotates(calls, recorded, {k});
      AnnotatesTwice(calls, recorded, Recorded(recorded, body, Some(ordinal)), {k},
                     AnnotatedAt(Tally(k + 1, None), body));
    case _ =>
  }

  // These reports, and elsewhere those that were there before.
  ghost predicate Adds(calls: seq<RenderCall>, calls': seq<RenderCall>, reports: map<nat, Collection>) {
    && |calls| <= |calls'| && (forall k | k in reports :: k < |calls'|)
    && forall k: nat | k < |calls'| ::
         if k in reports then calls'[k].collection.Some? && KeptOf(calls'[k].collection.value, reports[k])
         else calls'[k].collection == if k < |calls| then calls[k].collection else None
  }

  lemma AddsTwice(a: seq<RenderCall>, b: seq<RenderCall>, c: seq<RenderCall>,
                  first: map<nat, Collection>, second: map<nat, Collection>)
    requires Adds(a, b, first) && Adds(b, c, second)
    ensures Adds(a, c, first + second)
  {
  }

  lemma {:induction false} RecordedAdds(calls: seq<RenderCall>, items: seq<Item>, parent: Option<nat>)
    requires Numbered(calls)
    ensures Adds(calls, Recorded(calls, items, parent), Reports(TallyOf(calls), items))
    decreases items, 0
  {
    if items != [] {
      var next := RecordedItem(calls, items[0], parent);
      RecordedItemAdds(calls, items[0], parent);
      RecordedItemAnnotates(calls, items[0], parent);
      ItemTally(calls, items[0], parent);
      RecordedAdds(next, items[1..], parent);
      AddsTwice(calls, next, Recorded(next, items[1..], parent),
                ReportsItem(TallyOf(calls), items[0]), Reports(TallyOf(next), items[1..]));
    }
  }

  lemma {:induction false} RecordedItemAdds(calls: seq<RenderCall>, item: Item, parent: Option<nat>)
    requires Numbered(calls)
    ensures Adds(calls, RecordedItem(calls, item, parent), ReportsItem(TallyOf(calls), item))
    decreases item, 1
  {
    match item
    case Annotated(wrapper, drawn, a, body) =>
      var (recorded, ordinal) := RecordAnnotated(calls, parent, wrapper, drawn, a);
      AnnotatedIsRecorded(calls, item, parent);
      RecordedAdds(recorded, body, Some(ordinal));
      assert Adds(calls, recorded, map[]);
      var reports := Reports(TallyOf(recorded), body);
      AddsTwice(calls, recorded, Recorded(recorded, body, Some(ordinal)), map[], reports);
      assert map[] + reports == reports;
    case Collected(c) =>
      if calls != [] { AttachKeeps(calls, c); }
    case _ =>
  }

  lemma AttachKeeps(calls: seq<RenderCall>, c: Collection)
    requires calls != []
    ensures Adds(calls, Attach(calls, c), map[|calls| - 1 := c])
  {
    var kept := Attach(calls, c)[|calls| - 1].collection.value;
    assert KeptOf(kept, c);
  }

  lemma RecordedDepicts(calls: seq<RenderCall>, items: seq<Item>, parent: Option<nat>, calls': seq<RenderCall>)
    requires Numbered(calls) && calls' == Recorded(calls, items, parent)
    ensures Numbered(calls') && Shows(calls', TallyOf(calls), items, parent)
    ensures Annotates(calls, calls', AnnotatedAt(TallyOf(calls), items))
    ensures Adds(calls, calls', Reports(TallyOf(calls), items))
  {
    assert Later(calls', calls');
    RecordedShows(calls, items, parent, calls');
    RecordedAnnotates(calls, items, parent);
    RecordedAdds(calls, items, parent);
  }

  /** The calls of a frame are exactly those its drawing shows: how many, what each drew, its annotation and its
      parent, and which report it has. */
  lemma DrawnCallsDepict(p: ProbeState, body: seq<Item>)
    requires p.instrumented && !p.disabled
    ensures Depicts(DrawFrame(p, body).1, body)
  {
    DrawFrameIsClean(p, body);
    DrawnCallsFollowNesting(p, body);
    RecordedDepicts([], body, None, Recorded([], body, None));
  }

  /** Taking the calls empties the buffer: a second take in one frame hands out what was drawn in between, numbered from
      zero, and nothing twice. */
  lemma TakenOnce(p: ProbeState, first: seq<Item>, second: seq<Item>)
    requires Collecting(p) && Top(p) == FrameContext([], [])
    ensures var (taken, calls) := TakeFrame(Play(p, first));
      Depicts(calls, first) && Depicts(TakeFrame(Play(taken, second)).1, second)
  {
    var taken := TakeFrame(Play(p, first)).0;
    PlayExtends(p, first);
    PlayRecords(p, first);
    assert Top(taken) == FrameContext([], []);
    PlayExtends(taken, second);
    PlayRecords(taken, second);
    DrawnCallsFollowNesting(p, first);
    DrawnCallsFollowNesting(p, second);
    DrawnCallsDepict(p, first);
    DrawnCallsDepict(p, second);
  }
}
