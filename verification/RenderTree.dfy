/** Turning one frame's render calls into a semantic snapshot, and why the validator accepts it. */
module RenderTree {
  import opened Options
  import opened RenderHooks
  import Forest
  import Validate
  import Decimal

  type Id = Forest.Id

  // ---------------------------------------------------------------- identities

  // annotation_key: an empty key is no key.
  function KeyOf(call: RenderCall): Option<string> {
    if call.annotation.Some? && call.annotation.value.semanticKey.Some?
       && call.annotation.value.semanticKey.value != ""
    then call.annotation.value.semanticKey
    else None
  }

  function KeyId(key: string): Id { "k:" + key }

  function CallId(frame: nat, ordinal: nat): Id { "f" + Decimal.Show(frame) + ":" + Decimal.Show(ordinal) }

  function ItemId(frame: nat, ordinal: nat, index: nat): Id { CallId(frame, ordinal) + ":" + Decimal.Show(index) }

  function IdOf(call: RenderCall, frame: nat): Id {
    if KeyOf(call).Some? then KeyId(KeyOf(call).value) else CallId(frame, call.ordinal)
  }

  lemma CallIdInjective(frame: nat, a: nat, b: nat)
    requires CallId(frame, a) == CallId(frame, b)
    ensures a == b
  {
    var prefix := "f" + Decimal.Show(frame) + ":";
    assert Decimal.Show(a) == CallId(frame, a)[|prefix|..];
    assert Decimal.Show(b) == CallId(frame, b)[|prefix|..];
    Decimal.ShowInjective(a, b);
  }

  lemma ItemIdInjective(frame: nat, a: nat, i: nat, b: nat, j: nat)
    requires ItemId(frame, a, i) == ItemId(frame, b, j)
    ensures a == b && i == j
  {
    var prefix := "f" + Decimal.Show(frame) + ":";
    assert Decimal.Show(a) + ":" + Decimal.Show(i) == ItemId(frame, a, i)[|prefix|..];
    assert Decimal.Show(b) + ":" + Decimal.Show(j) == ItemId(frame, b, j)[|prefix|..];
    Decimal.DigitsEnd(Decimal.Show(a), Decimal.Show(i), Decimal.Show(b), Decimal.Show(j), ':');
    Decimal.ShowInjective(a, b);
    Decimal.ShowInjective(i, j);
  }

  lemma CallIsNoItem(frame: nat, a: nat, b: nat, j: nat)
    ensures CallId(frame, a) != ItemId(frame, b, j)
  {
    var prefix := "f" + Decimal.Show(frame) + ":";
    var rest := Decimal.Show(b) + ":" + Decimal.Show(j);
    assert rest[|Decimal.Show(b)|] == ':';
    assert !Decimal.AllDigits(rest);
    assert CallId(frame, a)[|prefix|..] == Decimal.Show(a);
    assert ItemId(frame, b, j)[|prefix|..] == rest;
  }

  lemma KeyIdIsItsOwn(key: string, other: string, frame: nat, a: nat, i: nat)
    ensures KeyId(key) == KeyId(other) ==> key == other
    ensures KeyId(key) != CallId(frame, a) && KeyId(key) != ItemId(frame, a, i)
  {
    assert KeyId(key)[2..] == key && KeyId(other)[2..] == other;
    assert KeyId(key)[0] == 'k' && CallId(frame, a)[0] == 'f' && ItemId(frame, a, i)[0] == 'f';
  }

  // ---------------------------------------------------------------- duplicate keys

  ghost predicate DistinctKeys(calls: seq<RenderCall>) {
    forall i, j | 0 <= i < j < |calls| && KeyOf(calls[i]).Some? :: KeyOf(calls[i]) != KeyOf(calls[j])
  }

  ghost predicate HasKey(calls: seq<RenderCall>, key: string) {
    exists i :: 0 <= i < |calls| && KeyOf(calls[i]) == Some(key)
  }

  /** duplicate_semantic_key: a key two calls carry, or none when all keys differ. */
  method DuplicateKey(calls: seq<RenderCall>) returns (dup: Option<string>)
    ensures dup.None? <==> DistinctKeys(calls)
    ensures dup.Some? ==>
              exists i, j :: 0 <= i < j < |calls| && KeyOf(calls[i]) == dup && KeyOf(calls[j]) == dup
  {
    var counts: set<string> := {};
    for i := 0 to |calls|
      invariant forall key :: key in counts <==> HasKey(calls[..i], key)
      invariant DistinctKeys(calls[..i])
    {
      var key := KeyOf(calls[i]);
      assert calls[..i + 1] == calls[..i] + [calls[i]];
      if key.Some? {
        if key.value in counts {
          ghost var j :| 0 <= j < |calls[..i]| && KeyOf(calls[..i][j]) == key;
          assert KeyOf(calls[j]) == key;
          return key;
        }
        counts := counts + {key.value};
      }
      KeysExtend(calls, i);
    }
    assert calls[..|calls|] == calls;
    return None;
  }

  lemma KeysExtend(calls: seq<RenderCall>, i: nat)
    requires i < |calls| && DistinctKeys(calls[..i])
    requires KeyOf(calls[i]).Some? ==> !HasKey(calls[..i], KeyOf(calls[i]).value)
    ensures DistinctKeys(calls[..i + 1])
    ensures forall key :: HasKey(calls[..i + 1], key) <==> HasKey(calls[..i], key) || KeyOf(calls[i]) == Some(key)
  {
    var front, whole := calls[..i], calls[..i + 1];
    assert whole == front + [calls[i]];
    forall a, b | 0 <= a < b < |whole| && KeyOf(whole[a]).Some? ensures KeyOf(whole[a]) != KeyOf(whole[b]) {
      assert KeyOf(whole[a]) == KeyOf(front[a]);
    }
    forall key ensures HasKey(whole, key) <==> HasKey(front, key) || KeyOf(calls[i]) == Some(key) {
      if HasKey(front, key) {
        var a :| 0 <= a < |front| && KeyOf(front[a]) == Some(key);
        assert KeyOf(whole[a]) == Some(key);
      }
      if KeyOf(calls[i]) == Some(key) { assert KeyOf(whole[i]) == Some(key); }
      if HasKey(whole, key) && KeyOf(calls[i]) != Some(key) {
        var a :| 0 <= a < |whole| && KeyOf(whole[a]) == Some(key);
        assert KeyOf(front[a]) == Some(key);
      }
    }
  }

  // ---------------------------------------------------------------- relations

  // resolve_relations: known keys in order, each once, up to the limit.
  function Resolve(keys: seq<string>, known: set<string>, max: nat): (ids: seq<Id>)
    ensures |ids| <= max
    ensures forall id | id in ids :: exists key :: key in known && id == KeyId(key)
  {
    if keys == [] then []
    else
      var before := Resolve(keys[..|keys| - 1], known, max);
      var key := keys[|keys| - 1];
      if |before| < max && key in known && KeyId(key) !in before then before + [KeyId(key)] else before
  }

  /** No target is listed twice, and a known key is left out only when the limit is reached. */
  lemma {:induction false} ResolveExactly(keys: seq<string>, known: set<string>, max: nat)
    ensures Validate.Distinct(Resolve(keys, known, max))
    ensures forall key | key in keys && key in known ::
              KeyId(key) in Resolve(keys, known, max) || |Resolve(keys, known, max)| == max
    ensures forall id | id in Resolve(keys, known, max) :: exists key :: key in keys && key in known && id == KeyId(key)
  {
    if keys != [] {
      var front, last := keys[..|keys| - 1], keys[|keys| - 1];
      ResolveExactly(front, known, max);
      assert keys == front + [last];
      var before, ids := Resolve(front, known, max), Resolve(keys, known, max);
      forall i, j | 0 <= i < j < |ids| ensures ids[i] != ids[j] {
        assert ids[i] == before[i] && before[i] in before;
      }
      forall id | id in ids ensures exists key :: key in keys && key in known && id == KeyId(key) {
        if id in before {
          var key :| key in front && key in known && id == KeyId(key);
          assert key in keys;
        } else {
          assert last in keys && last in known && id == KeyId(last);
        }
      }
    }
  }

  method ResolveRelations(keys: seq<string>, known: set<string>, max: nat) returns (ids: seq<Id>)
    ensures ids == Resolve(keys, known, max)
  {
    ids := [];
    for i := 0 to |keys|
      invariant ids == Resolve(keys[..i], known, max)
    {
      if |ids| == max {
        ResolveFull(keys, i, known, max);
        return;
      }
      assert keys[..i + 1][..i] == keys[..i];
      if keys[i] in known {
        if KeyId(keys[i]) !in ids {
          ids := ids + [KeyId(keys[i])];
        }
      }
    }
    assert keys[..|keys|] == keys;
  }

  // Nothing is added once the limit is reached.
  lemma {:induction false} ResolveFull(keys: seq<string>, i: nat, known: set<string>, max: nat)
    requires i <= |keys| && |Resolve(keys[..i], known, max)| == max
    ensures Resolve(keys, known, max) == Resolve(keys[..i], known, max)
    decreases |keys|
  {
    if i == |keys| {
      assert keys[..i] == keys;
    } else {
      var front := keys[..|keys| - 1];
      assert front[..i] == keys[..i];
      ResolveFull(front, i, known, max);
    }
  }

  // ---------------------------------------------------------------- the snapshot

  function ItemsOf(call: RenderCall): seq<string> {
    if call.collection.Some? then call.collection.value.items else []
  }

  ghost function Keys(calls: seq<RenderCall>): set<string> {
    set i | 0 <= i < |calls| && KeyOf(calls[i]).Some? :: KeyOf(calls[i]).value
  }

  // ids_by_ordinal; a repeated ordinal keeps its last id.
  function IdsByOrdinal(calls: seq<RenderCall>, frame: nat): map<nat, Id> {
    if calls == [] then map[]
    else
      var last := calls[|calls| - 1];
      IdsByOrdinal(calls[..|calls| - 1], frame)[last.ordinal := IdOf(last, frame)]
  }

  ghost function CallNode(calls: seq<RenderCall>, call: RenderCall, frame: nat, max: nat): Validate.Node {
    var ids := IdsByOrdinal(calls, frame);
    Validate.Node(
      IdOf(call, frame),
      if call.parentOrdinal.Some? && call.parentOrdinal.value in ids
      then Some(ids[call.parentOrdinal.value]) else None,
      if call.annotation.Some? then Resolve(call.annotation.value.labelledBy, Keys(calls), max) else [],
      if call.annotation.Some? then Resolve(call.annotation.value.describedBy, Keys(calls), max) else [])
  }

  function ItemNode(call: RenderCall, frame: nat, index: nat): Validate.Node {
    Validate.Node(ItemId(frame, call.ordinal, index), Some(IdOf(call, frame)), [], [])
  }

  function ItemNodes(call: RenderCall, frame: nat): seq<Validate.Node> {
    seq(|ItemsOf(call)|, i requires 0 <= i < |ItemsOf(call)| => ItemNode(call, frame, i))
  }

  // A call's node followed by its items.
  ghost function Block(calls: seq<RenderCall>, c: nat, frame: nat, max: nat): seq<Validate.Node>
    requires c < |calls|
  {
    [CallNode(calls, calls[c], frame, max)] + ItemNodes(calls[c], frame)
  }

  ghost function Blocks(calls: seq<RenderCall>, frame: nat, max: nat): (bs: seq<seq<Validate.Node>>)
    ensures |bs| == |calls|
  {
    seq(|calls|, c requires 0 <= c < |calls| => Block(calls, c, frame, max))
  }

  ghost function Flatten(bs: seq<seq<Validate.Node>>): seq<Validate.Node> {
    if bs == [] then [] else Flatten(bs[..|bs| - 1]) + bs[|bs| - 1]
  }

  // The snapshot's nodes: every call's block, in order.
  ghost function Nodes(calls: seq<RenderCall>, frame: nat, max: nat): seq<Validate.Node> {
    Flatten(Blocks(calls, frame, max))
  }

  lemma FlattenStep(bs: seq<seq<Validate.Node>>, n: nat)
    requires n < |bs|
    ensures Flatten(bs[..n + 1]) == Flatten(bs[..n]) + bs[n]
  {
    assert bs[..n + 1][..n] == bs[..n];
  }

  // Snapshot::push records a parentless node as a root.
  function RootsOf(nodes: seq<Validate.Node>): seq<Id> {
    if nodes == [] then []
    else
      var rest := RootsOf(nodes[..|nodes| - 1]);
      if nodes[|nodes| - 1].parent.None? then rest + [nodes[|nodes| - 1].id] else rest
  }

  lemma RootsAppend(nodes: seq<Validate.Node>, node: Validate.Node)
    ensures RootsOf(nodes + [node]) == if node.parent.None? then RootsOf(nodes) + [node.id] else RootsOf(nodes)
  {
    assert (nodes + [node])[..|nodes|] == nodes;
  }

  lemma {:induction false} RootsAppendItems(nodes: seq<Validate.Node>, items: seq<Validate.Node>)
    requires forall i | 0 <= i < |items| :: items[i].parent.Some?
    ensures RootsOf(nodes + items) == RootsOf(nodes)
  {
    if items == [] {
      assert nodes + items == nodes;
    } else {
      var front, last := items[..|items| - 1], items[|items| - 1];
      assert nodes + items == (nodes + front) + [last];
      RootsAppend(nodes + front, last);
      RootsAppendItems(nodes, front);
    }
  }

  lemma BlockRoots(nodes: seq<Validate.Node>, calls: seq<RenderCall>, c: nat, frame: nat, max: nat)
    requires c < |calls|
    ensures var node := CallNode(calls, calls[c], frame, max);
      && nodes + Block(calls, c, frame, max) == nodes + [node] + ItemNodes(calls[c], frame)
      && RootsOf(nodes + Block(calls, c, frame, max))
         == if node.parent.None? then RootsOf(nodes) + [node.id] else RootsOf(nodes)
  {
    var node := CallNode(calls, calls[c], frame, max);
    assert nodes + Block(calls, c, frame, max) == nodes + [node] + ItemNodes(calls[c], frame);
    RootsAppend(nodes, node);
    RootsAppendItems(nodes + [node], ItemNodes(calls[c], frame));
  }

  method CollectKeys(calls: seq<RenderCall>) returns (known: set<string>)
    ensures known == Keys(calls)
  {
    known := {};
    for i := 0 to |calls|
      invariant known == Keys(calls[..i])
    {
      var key := KeyOf(calls[i]);
      KeysStep(calls, i);
      if key.Some? {
        known := known + {key.value};
      }
    }
    assert calls[..|calls|] == calls;
  }

  lemma KeysStep(calls: seq<RenderCall>, i: nat)
    requires i < |calls|
    ensures Keys(calls[..i + 1])
            == if KeyOf(calls[i]).Some? then Keys(calls[..i]) + {KeyOf(calls[i]).value} else Keys(calls[..i])
  {
    var front, whole := calls[..i], calls[..i + 1];
    assert forall k | 0 <= k < i :: front[k] == whole[k];
    assert whole[i] == calls[i];
    forall key ensures key in Keys(whole) <==> key in Keys(front) || KeyOf(calls[i]) == Some(key) {
      if key in Keys(front) {
        var k :| 0 <= k < |front| && KeyOf(front[k]).Some? && KeyOf(front[k]).value == key;
        assert KeyOf(whole[k]).Some? && KeyOf(whole[k]).value == key;
      }
      if KeyOf(calls[i]) == Some(key) { assert KeyOf(whole[i]).value == key; }
    }
  }

  method CollectOrdinals(calls: seq<RenderCall>, frame: nat) returns (ids: map<nat, Id>)
    ensures ids == IdsByOrdinal(calls, frame)
  {
    ids := map[];
    for i := 0 to |calls|
      invariant ids == IdsByOrdinal(calls[..i], frame)
    {
      assert calls[..i + 1][..i] == calls[..i];
      ids := ids[calls[i].ordinal := IdOf(calls[i], frame)];
    }
    assert calls[..|calls|] == calls;
  }

  method NodeOfCall(calls: seq<RenderCall>, call: RenderCall, known: set<string>, ids: map<nat, Id>, frame: nat,
                    max: nat)
    returns (node: Validate.Node)
    requires known == Keys(calls) && ids == IdsByOrdinal(calls, frame)
    ensures node == CallNode(calls, call, frame, max)
  {
    var parent := None;
    if call.parentOrdinal.Some? && call.parentOrdinal.value in ids {
      parent := Some(ids[call.parentOrdinal.value]);
    }
    var labelledBy, describedBy := [], [];
    if call.annotation.Some? {
      labelledBy := ResolveRelations(call.annotation.value.labelledBy, known, max);
      describedBy := ResolveRelations(call.annotation.value.describedBy, known, max);
    }
    node := Validate.Node(IdOf(call, frame), parent, labelledBy, describedBy);
  }

  /** snapshot_from_with_relation_limit; the source panics on a duplicate key, here the result is None. */
  method SnapshotFrom(calls: seq<RenderCall>, frame: nat, max: nat)
    returns (r: Option<(seq<Validate.Node>, seq<Id>)>)
    ensures r.Some? <==> DistinctKeys(calls)
    ensures r.Some? ==> r.value == (Nodes(calls, frame, max), RootsOf(Nodes(calls, frame, max)))
  {
    var dup := DuplicateKey(calls);
    if dup.Some? {
      return None;
    }
    var known := CollectKeys(calls);
    var ids := CollectOrdinals(calls, frame);
    ghost var blocks := Blocks(calls, frame, max);
    var nodes: seq<Validate.Node>, roots: seq<Id> := [], [];
    for n := 0 to |calls|
      invariant nodes == Flatten(blocks[..n]) && roots == RootsOf(nodes)
    {
      var call := calls[n];
      var node := NodeOfCall(calls, call, known, ids, frame, max);
      BlockRoots(nodes, calls, n, frame, max);
      FlattenStep(blocks, n);
      if node.parent.None? {
        roots := roots + [node.id];
      }
      nodes := PushItems(nodes + [node], call, frame);
    }
    assert blocks[..|calls|] == blocks;
    return Some((nodes, roots));
  }

  // push_items
  method PushItems(before: seq<Validate.Node>, call: RenderCall, frame: nat) returns (nodes: seq<Validate.Node>)
    ensures nodes == before + ItemNodes(call, frame)
  {
    nodes := before;
    var items := ItemsOf(call);
    for index := 0 to |items|
      invariant nodes == before + ItemNodes(call, frame)[..index]
    {
      nodes := nodes + [ItemNode(call, frame, index)];
    }
  }
}
