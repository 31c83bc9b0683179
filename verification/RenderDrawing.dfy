/** From a drawing to a validated tree: recording, building and checking put together, with conditions that can be
    read off the drawing. */
module RenderDrawing {
  import opened Options
  import opened RenderHooks
  import opened RenderTree
  import opened RenderTreeTheorems
  import RenderTreeNodes
  import Validate

  // ---------------------------------------------------------------- the keys of a drawing

  // An annotation's key; an empty one does not count.
  function OwnKey(a: Annotation): seq<string> {
    if a.semanticKey.Some? && a.semanticKey.value != "" then [a.semanticKey.value] else []
  }

  // The keys in the order of the annotated renders; nested frames have their own.
  function Keys(items: seq<Item>): seq<string>
    decreases items, 0
  {
    if items == [] then [] else ItemKeys(items[0]) + Keys(items[1..])
  }

  function ItemKeys(item: Item): seq<string>
    decreases item, 1
  {
    if item.Annotated? then OwnKey(item.annotation) + Keys(item.body) else []
  }

  function CallKey(call: RenderCall): seq<string> {
    if call.annotation.Some? then OwnKey(call.annotation.value) else []
  }

  function CallKeys(calls: seq<RenderCall>): seq<string> {
    if calls == [] then [] else CallKeys(calls[..|calls| - 1]) + CallKey(calls[|calls| - 1])
  }

  lemma CallKeysLast(calls: seq<RenderCall>, call: RenderCall)
    ensures CallKeys(calls + [call]) == CallKeys(calls) + CallKey(call)
  {
    assert (calls + [call])[..|calls|] == calls;
  }

  // Replacing the last call.
  lemma CallKeysUpdate(calls: seq<RenderCall>, call: RenderCall)
    requires calls != []
    ensures CallKeys(calls[|calls| - 1 := call]) == CallKeys(calls[..|calls| - 1]) + CallKey(call)
  {
    assert calls[|calls| - 1 := call][..|calls| - 1] == calls[..|calls| - 1];
  }

  lemma AnnotatedKeys(calls: seq<RenderCall>, parent: Option<nat>, wrapper: string, drawn: Drawn, a: Annotation)
    ensures CallKeys(RecordAnnotated(calls, parent, wrapper, drawn, a).0) == CallKeys(calls) + OwnKey(a)
  {
    if Claims(calls, wrapper, drawn) {
      var last := calls[|calls| - 1];
      CallKeysUpdate(calls, last.(drawn := drawn, annotation := Some(a), parentOrdinal := parent));
      assert CallKeys(calls) == CallKeys(calls[..|calls| - 1]) + [];
    } else {
      CallKeysLast(calls, RenderCall(Ordinal(|calls|), parent, drawn, None, Some(a)));
    }
  }

  lemma {:induction false} RecordedKeys(calls: seq<RenderCall>, items: seq<Item>, parent: Option<nat>)
    ensures CallKeys(Recorded(calls, items, parent)) == CallKeys(calls) + Keys(items)
    decreases items, 0
  {
    if items != [] {
      RecordedItemKeys(calls, items[0], parent);
      RecordedKeys(RecordedItem(calls, items[0], parent), items[1..], parent);
      Regroup(CallKeys(calls), ItemKeys(items[0]), Keys(items[1..]));
    }
  }

  lemma {:induction false} RecordedItemKeys(calls: seq<RenderCall>, item: Item, parent: Option<nat>)
    ensures CallKeys(RecordedItem(calls, item, parent)) == CallKeys(calls) + ItemKeys(item)
    decreases item, 1
  {
    match item
    case Plain(drawn) => CallKeysLast(calls, RenderCall(Ordinal(|calls|), None, drawn, None, None));
    case Annotated(wrapper, drawn, a, body) =>
      AnnotatedKeys(calls, parent, wrapper, drawn, a);
      var (recorded, ordinal) := RecordAnnotated(calls, parent, wrapper, drawn, a);
      RecordedKeys(recorded, body, Some(ordinal));
      Regroup(CallKeys(calls), OwnKey(a), Keys(body));
    case Collected(c) => AttachedKeys(calls, c);
    case Nested(_) =>
  }

  lemma Regroup(a: seq<string>, b: seq<string>, c: seq<string>)
    ensures a + (b + c) == a + b + c
  {
  }

  lemma AttachedKeys(calls: seq<RenderCall>, c: Collection)
    ensures CallKeys(Attach(calls, c)) == CallKeys(calls)
  {
    if calls != [] { CallKeysUpdate(calls, Attach(calls, c)[|calls| - 1]); }
  }

  // ---------------------------------------------------------------- distinct keys

  ghost predicate Distinct(keys: seq<string>) {
    forall i, j | 0 <= i < j < |keys| :: keys[i] != keys[j]
  }

  lemma CallKeyIsKeyOf(call: RenderCall)
    ensures CallKey(call) == match KeyOf(call) case None => [] case Some(key) => [key]
  {
  }

  lemma {:induction false} KeyIsListed(calls: seq<RenderCall>, key: string)
    ensures key in CallKeys(calls) <==> HasKey(calls, key)
  {
    if calls != [] {
      var n := |calls| - 1;
      KeyIsListed(calls[..n], key);
      CallKeyIsKeyOf(calls[n]);
      if HasKey(calls[..n], key) {
        var i :| 0 <= i < n && KeyOf(calls[..n][i]) == Some(key);
        assert KeyOf(calls[i]) == Some(key);
      }
      if HasKey(calls, key) {
        var i :| 0 <= i < |calls| && KeyOf(calls[i]) == Some(key);
        if i < n { assert KeyOf(calls[..n][i]) == Some(key); }
      }
    }
  }

  lemma DistinctSplit(front: seq<string>, last: seq<string>)
    requires |last| <= 1
    ensures Distinct(front + last) <==> Distinct(front) && forall key | key in last :: key !in front
  {
    var all := front + last;
    if Distinct(all) {
      forall i, j | 0 <= i < j < |front| ensures front[i] != front[j] { assert all[i] != all[j]; }
      forall i | 0 <= i < |front| && last != [] ensures front[i] != last[0] { assert all[i] != all[|front|]; }
    }
    if Distinct(front) && forall key | key in last :: key !in front {
      forall i, j | 0 <= i < j < |all| ensures all[i] != all[j] {
        if j < |front| {
          assert front[i] != front[j];
        } else {
          assert all[j] in last && all[i] == front[i];
        }
      }
    }
  }

  lemma DistinctKeysSplit(calls: seq<RenderCall>)
    requires calls != []
    ensures var n := |calls| - 1;
      DistinctKeys(calls) <==>
      DistinctKeys(calls[..n]) && (KeyOf(calls[n]).Some? ==> !HasKey(calls[..n], KeyOf(calls[n]).value))
  {
    var n := |calls| - 1;
    var front := calls[..n];
    if DistinctKeys(calls) {
      forall i, j | 0 <= i < j < n && KeyOf(front[i]).Some? ensures KeyOf(front[i]) != KeyOf(front[j]) {
        assert KeyOf(calls[i]) != KeyOf(calls[j]);
      }
    } else {
      var i, j :| 0 <= i < j < |calls| && KeyOf(calls[i]).Some? && KeyOf(calls[i]) == KeyOf(calls[j]);
      assert KeyOf(front[i]) == KeyOf(calls[i]);
      if j < n { assert KeyOf(front[j]) == KeyOf(calls[j]); }
    }
  }

  lemma {:induction false} DistinctKeysAreListed(calls: seq<RenderCall>)
    ensures DistinctKeys(calls) <==> Distinct(CallKeys(calls))
  {
    if calls != [] {
      var n := |calls| - 1;
      DistinctKeysAreListed(calls[..n]);
      DistinctKeysSplit(calls);
      DistinctSplit(CallKeys(calls[..n]), CallKey(calls[n]));
      CallKeyIsKeyOf(calls[n]);
      if KeyOf(calls[n]).Some? { KeyIsListed(calls[..n], KeyOf(calls[n]).value); }
    }
  }

  /** The calls of a drawing have distinct keys exactly when its annotated renders do. */
  lemma DrawnKeys(body: seq<Item>)
    ensures DistinctKeys(Recorded([], body, None)) <==> Distinct(Keys(body))
  {
    RecordedKeys([], body, None);
    DistinctKeysAreListed(Recorded([], body, None));
    assert CallKeys([]) + Keys(body) == Keys(body);
  }

  // ---------------------------------------------------------------- drawing, building and validating

  /** The snapshot of anything an application draws in a frame of at most 2^32 calls with distinct keys. */
  lemma DrawnSnapshotIsForest(p: ProbeState, body: seq<Item>, frame: nat, limits: Validate.Limits)
    requires p.instrumented && !p.disabled
    requires CallCount(body) <= U32 && Distinct(Keys(body))
    ensures var nodes := Nodes(DrawFrame(p, body).1, frame, limits.maxRelationTargets);
      Validate.IsForest(nodes, RootsOf(nodes), limits)
  {
    DrawFrameIsClean(p, body);
    DrawnCallsFollowNesting(p, body);
    DrawnKeys(body);
    SnapshotIsForest(DrawFrame(p, body).1, frame, limits);
  }

  /** A drawing of at most 2^32 calls through an enabled probe: the probe is left as it was, a snapshot is built
      exactly when the drawing's keys are distinct, its nodes tell what the calls say and the calls what the drawing
      shows, and the validator accepts it unless it has too many nodes or is too deep. */
  method DrawBuildValidate(probe: Probe, body: seq<Item>, frame: nat, limits: Validate.Limits)
    returns (calls: seq<RenderCall>, built: bool, nodes: seq<Validate.Node>, verdict: Validate.Result<()>)
    requires probe.instrumented && !probe.disabled && CallCount(body) <= U32
    modifies probe
    ensures probe.State() == old(probe.State())
    ensures Depicts(calls, body) && (built <==> Distinct(Keys(body)))
    ensures built ==>
              && RenderTreeNodes.Told(nodes, calls, frame, limits.maxRelationTargets)
              && (verdict.Ok? <==> |nodes| <= limits.maxNodes && Validate.DepthAtMost(nodes, limits.maxDepth))
    ensures built && verdict.Err? ==> verdict.code == Validate.Count || verdict.code == Validate.Depth
  {
    calls := probe.DrawWhole(body);
    DrawnKeys(body);
    built, nodes, verdict := BuildAndValidate(calls, frame, limits);
    if built { RenderTreeNodes.SnapshotTells(calls, frame, limits.maxRelationTargets); }
  }
}
