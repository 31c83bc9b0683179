/** What each node of a built snapshot says, read off the call it comes from. */
module RenderTreeNodes {
  import opened Options
  import opened RenderHooks
  import opened RenderTree
  import opened RenderTreeTheorems
  import Decimal
  import Validate

  // ---------------------------------------------------------------- resolved relations

  // `at` lists the places of the keys that were taken, in order and each key once; every other known key was
  // taken before or comes after the limit was reached.
  ghost predicate Takes(at: seq<nat>, keys: seq<string>, known: set<string>, max: nat) {
    && |at| <= max
    && (forall i | 0 <= i < |at| :: at[i] < |keys| && keys[at[i]] in known)
    && (forall i, j | 0 <= i < j < |at| :: at[i] < at[j] && keys[at[i]] != keys[at[j]])
    && (forall k: nat | k < |keys| && keys[k] in known && k !in at ::
          || (exists i :: 0 <= i < |at| && at[i] < k && keys[at[i]] == keys[k])
          || (|at| == max && forall i | 0 <= i < |at| :: at[i] < k))
  }

  // The ids of those keys.
  ghost predicate Names(ids: seq<Id>, at: seq<nat>, keys: seq<string>)
    requires forall i | 0 <= i < |at| :: at[i] < |keys|
  {
    |ids| == |at| && forall i | 0 <= i < |at| :: ids[i] == "k:" + keys[at[i]]
  }

  /** A relation list: the first `max` known keys of `keys`, in their order and each once. */
  ghost predicate Relates(ids: seq<Id>, keys: seq<string>, known: set<string>, max: nat) {
    exists at :: Takes(at, keys, known, max) && Names(ids, at, keys)
  }

  lemma TakenBefore(at: seq<nat>, keys: seq<string>, key: string)
    requires forall i | 0 <= i < |at| :: at[i] < |keys|
    requires Names(Listed(at, keys), at, keys)
    ensures KeyId(key) in Listed(at, keys) <==> exists i :: 0 <= i < |at| && keys[at[i]] == key
  {
    if KeyId(key) in Listed(at, keys) {
      var i :| 0 <= i < |at| && Listed(at, keys)[i] == KeyId(key);
      assert KeyId(key)[2..] == key && ("k:" + keys[at[i]])[2..] == keys[at[i]];
    }
    if i :| 0 <= i < |at| && keys[at[i]] == key {
      assert Listed(at, keys)[i] == KeyId(key);
    }
  }

  function Listed(at: seq<nat>, keys: seq<string>): seq<Id>
    requires forall i | 0 <= i < |at| :: at[i] < |keys|
  {
    seq(|at|, i requires 0 <= i < |at| => "k:" + keys[at[i]])
  }

  // One more key that is taken.
  lemma TakesLast(at: seq<nat>, front: seq<string>, last: string, known: set<string>, max: nat)
    requires Takes(at, front, known, max) && |at| < max && last in known
    requires forall i | 0 <= i < |at| :: front[at[i]] != last
    ensures Takes(at + [|front|], front + [last], known, max)
  {
    var keys, more := front + [last], at + [|front|];
    forall k: nat | k < |keys| && keys[k] in known && k !in more
      ensures exists i :: 0 <= i < |more| && more[i] < k && keys[more[i]] == keys[k]
    {
      assert k != more[|at|];
      assert k !in at by { assert forall i | 0 <= i < |at| :: more[i] == at[i]; }
      assert front[k] in known;
      var i :| 0 <= i < |at| && at[i] < k && front[at[i]] == front[k];
      assert more[i] == at[i] && keys[more[i]] == keys[k];
    }
  }

  // One more key that is not.
  lemma TakesNot(at: seq<nat>, front: seq<string>, last: string, known: set<string>, max: nat)
    requires Takes(at, front, known, max)
    requires last in known ==> |at| == max || exists i :: 0 <= i < |at| && front[at[i]] == last
    ensures Takes(at, front + [last], known, max)
  {
    var keys := front + [last];
    forall k: nat | k < |keys| && keys[k] in known && k !in at
      ensures || (exists i :: 0 <= i < |at| && at[i] < k && keys[at[i]] == keys[k])
              || (|at| == max && forall i | 0 <= i < |at| :: at[i] < k)
    {
      if k < |front| {
        assert front[k] in known;
        if i :| 0 <= i < |at| && at[i] < k && front[at[i]] == front[k] { assert keys[at[i]] == keys[k]; }
      } else if i :| 0 <= i < |at| && front[at[i]] == last {
        assert at[i] < k && keys[at[i]] == keys[k];
      }
    }
  }

  lemma ListedMore(at: seq<nat>, front: seq<string>, last: string)
    requires forall i | 0 <= i < |at| :: at[i] < |front|
    ensures Listed(at, front + [last]) == Listed(at, front)
    ensures Listed(at + [|front|], front + [last]) == Listed(at, front) + [KeyId(last)]
  {
  }

  lemma {:induction false} ResolveTakes(keys: seq<string>, known: set<string>, max: nat) returns (at: seq<nat>)
    ensures Takes(at, keys, known, max) && Resolve(keys, known, max) == Listed(at, keys)
  {
    at := [];
    if keys != [] {
      var n := |keys| - 1;
      var front, last := keys[..n], keys[n];
      assert keys == front + [last];
      at := ResolveTakes(front, known, max);
      TakenBefore(at, front, last);
      ListedMore(at, front, last);
      if |at| < max && last in known && KeyId(last) !in Listed(at, front) {
        TakesLast(at, front, last, known, max);
        at := at + [n];
      } else {
        TakesNot(at, front, last, known, max);
      }
    }
  }

  lemma ResolveRelates(keys: seq<string>, known: set<string>, max: nat)
    ensures Relates(Resolve(keys, known, max), keys, known, max)
  {
    var at := ResolveTakes(keys, known, max);
    assert Names(Listed(at, keys), at, keys);
  }

  // ---------------------------------------------------------------- where a call's nodes stand

  // Every call before c has a node and one for each of its items.
  function Place(calls: seq<RenderCall>, c: nat): nat
    requires c <= |calls|
  {
    if c == 0 then 0 else Place(calls, c - 1) + 1 + |ItemsOf(calls[c - 1])|
  }

  lemma {:induction false} FlattenPlaces(bs: seq<seq<Validate.Node>>, calls: seq<RenderCall>, c: nat)
    requires |bs| == |calls| && c <= |calls|
    requires forall i | 0 <= i < |calls| :: |bs[i]| == 1 + |ItemsOf(calls[i])|
    ensures |Flatten(bs[..c])| == Place(calls, c)
  {
    if c > 0 {
      FlattenPlaces(bs, calls, c - 1);
      FlattenStep(bs, c - 1);
    }
  }

  lemma {:induction false} FlattenSlice(bs: seq<seq<Validate.Node>>, c: nat)
    requires c < |bs|
    ensures |Flatten(bs[..c])| + |bs[c]| <= |Flatten(bs)|
    ensures Flatten(bs)[|Flatten(bs[..c])|..|Flatten(bs[..c])| + |bs[c]|] == bs[c]
  {
    var n := |bs| - 1;
    if c < n {
      var front := bs[..n];
      FlattenSlice(front, c);
      assert front[..c] == bs[..c];
      var from, to := |Flatten(bs[..c])|, |Flatten(bs[..c])| + |bs[c]|;
      assert Flatten(bs)[from..to] == Flatten(front)[from..to];
    }
  }

  ghost predicate StandsAt(block: seq<Validate.Node>, nodes: seq<Validate.Node>, at: nat) {
    at + |block| <= |nodes| && nodes[at..at + |block|] == block
  }

  lemma StandingNode(block: seq<Validate.Node>, nodes: seq<Validate.Node>, at: nat, i: nat)
    requires StandsAt(block, nodes, at) && i < |block|
    ensures at + i < |nodes| && nodes[at + i] == block[i]
  {
    assert nodes[at..at + |block|][i] == nodes[at + i];
  }

  lemma BlockOf(calls: seq<RenderCall>, c: nat, frame: nat, max: nat, block: seq<Validate.Node>)
    requires c < |calls| && block == Block(calls, c, frame, max)
    ensures |block| == 1 + |ItemsOf(calls[c])| && block[0] == CallNode(calls, calls[c], frame, max)
    ensures block[1..] == ItemNodes(calls[c], frame)
  {
  }

  lemma BlocksFit(calls: seq<RenderCall>, frame: nat, max: nat, bs: seq<seq<Validate.Node>>)
    requires bs == Blocks(calls, frame, max)
    ensures |bs| == |calls| && forall i | 0 <= i < |calls| :: |bs[i]| == 1 + |ItemsOf(calls[i])|
  {
    forall i | 0 <= i < |calls| ensures |bs[i]| == 1 + |ItemsOf(calls[i])| { BlockOf(calls, i, frame, max, bs[i]); }
  }

  lemma BlockStands(bs: seq<seq<Validate.Node>>, calls: seq<RenderCall>, c: nat)
    requires |bs| == |calls| && c < |calls| && forall i | 0 <= i < |calls| :: |bs[i]| == 1 + |ItemsOf(calls[i])|
    ensures StandsAt(bs[c], Flatten(bs), Place(calls, c))
  {
    FlattenPlaces(bs, calls, c);
    FlattenSlice(bs, c);
  }

  lemma NodesLength(calls: seq<RenderCall>, frame: nat, max: nat)
    ensures |Nodes(calls, frame, max)| == Place(calls, |calls|)
  {
    var bs := Blocks(calls, frame, max);
    BlocksFit(calls, frame, max, bs);
    FlattenPlaces(bs, calls, |calls|);
    assert bs[..|calls|] == bs;
  }

  // ---------------------------------------------------------------- what the nodes say

  // The key of a call's own annotation, if it has one that is not empty.
  predicate Keyed(call: RenderCall, key: string) {
    call.annotation.Some? && call.annotation.value.semanticKey == Some(key) && key != ""
  }

  ghost function KnownKeys(calls: seq<RenderCall>): set<string> {
    set i | 0 <= i < |calls| && calls[i].annotation.Some? && calls[i].annotation.value.semanticKey.Some?
            && calls[i].annotation.value.semanticKey.value != "" :: calls[i].annotation.value.semanticKey.value
  }

  lemma KnownKeysAreKeys(calls: seq<RenderCall>)
    ensures KnownKeys(calls) == Keys(calls)
  {
    forall key | key in Keys(calls) ensures key in KnownKeys(calls) {
      var i :| 0 <= i < |calls| && KeyOf(calls[i]).Some? && KeyOf(calls[i]).value == key;
    }
    forall key | key in KnownKeys(calls) ensures key in Keys(calls) {
      var i :| 0 <= i < |calls| && calls[i].annotation.Some? && calls[i].annotation.value.semanticKey == Some(key)
               && key != "";
      assert KeyOf(calls[i]).value == key;
    }
  }

  // A node's name: its key, or the frame and the call's place in it.
  ghost predicate NamedAs(id: Id, call: RenderCall, frame: nat, c: nat) {
    if exists key :: Keyed(call, key) then exists key :: Keyed(call, key) && id == "k:" + key
    else id == "f" + Decimal.Show(frame) + ":" + Decimal.Show(c)
  }

  /** The node of call c: its own name, its parent call's node, and its own relations, each in its own list. */
  ghost predicate Tells(node: Validate.Node, nodes: seq<Validate.Node>, calls: seq<RenderCall>, c: nat, frame: nat,
                        max: nat)
    requires c < |calls|
  {
    var call := calls[c];
    && NamedAs(node.id, call, frame, c)
    && (match call.parentOrdinal
        case None => node.parent == None
        case Some(p) => p < |calls| && Place(calls, p) < |nodes| && node.parent == Some(nodes[Place(calls, p)].id))
    && (match call.annotation
        case None => node.labelledBy == [] && node.describedBy == []
        case Some(a) =>
          && Relates(node.labelledBy, a.labelledBy, KnownKeys(calls), max)
          && Relates(node.describedBy, a.describedBy, KnownKeys(calls), max))
  }

  // The node of item i of call c: its own name under the call's node, and no relations.
  ghost predicate TellsItem(node: Validate.Node, parent: Id, frame: nat, c: nat, i: nat) {
    var id := "f" + Decimal.Show(frame) + ":" + Decimal.Show(c) + ":" + Decimal.Show(i);
    node == Validate.Node(id, Some(parent), [], [])
  }

  lemma NameTells(call: RenderCall, frame: nat, c: nat)
    requires call.ordinal == c
    ensures NamedAs(IdOf(call, frame), call, frame, c)
  {
    if KeyOf(call).Some? { assert Keyed(call, KeyOf(call).value); }
  }

  lemma NodesAt(calls: seq<RenderCall>, c: nat, frame: nat, max: nat, nodes: seq<Validate.Node>)
    returns (block: seq<Validate.Node>)
    requires c < |calls| && nodes == Nodes(calls, frame, max)
    ensures StandsAt(block, nodes, Place(calls, c)) && |block| == 1 + |ItemsOf(calls[c])|
    ensures block[0] == CallNode(calls, calls[c], frame, max)
    ensures block[1..] == ItemNodes(calls[c], frame)
  {
    var bs := Blocks(calls, frame, max);
    BlocksFit(calls, frame, max, bs);
    BlockStands(bs, calls, c);
    block := bs[c];
    BlockOf(calls, c, frame, max, block);
  }

  lemma HeadAt(calls: seq<RenderCall>, c: nat, frame: nat, max: nat, nodes: seq<Validate.Node>)
    requires c < |calls| && nodes == Nodes(calls, frame, max)
    ensures Place(calls, c) < |nodes| && nodes[Place(calls, c)] == CallNode(calls, calls[c], frame, max)
  {
    var block := NodesAt(calls, c, frame, max, nodes);
    StandingNode(block, nodes, Place(calls, c), 0);
  }

  lemma CallTells(calls: seq<RenderCall>, c: nat, frame: nat, max: nat, nodes: seq<Validate.Node>)
    requires CallsOk(calls) && c < |calls| && nodes == Nodes(calls, frame, max)
    ensures CallTold(nodes, calls, c, frame, max)
  {
    HeadAt(calls, c, frame, max, nodes);
    assert CallOk(calls[c], c);
    NameTells(calls[c], frame, c);
    if calls[c].parentOrdinal.Some? {
      var p := calls[c].parentOrdinal.value;
      OrdinalsName(calls, frame, p);
      HeadAt(calls, p, frame, max, nodes);
    }
    KnownKeysAreKeys(calls);
    if calls[c].annotation.Some? {
      ResolveRelates(calls[c].annotation.value.labelledBy, Keys(calls), max);
      ResolveRelates(calls[c].annotation.value.describedBy, Keys(calls), max);
    }
  }

  lemma ItemNodeTells(call: RenderCall, frame: nat, c: nat, i: nat)
    requires call.ordinal == c && i < |ItemsOf(call)|
    ensures TellsItem(ItemNodes(call, frame)[i], IdOf(call, frame), frame, c, i)
  {
  }

  lemma ItemTells(calls: seq<RenderCall>, c: nat, i: nat, frame: nat, max: nat, nodes: seq<Validate.Node>)
    requires CallsOk(calls) && c < |calls| && i < |ItemsOf(calls[c])| && nodes == Nodes(calls, frame, max)
    ensures ItemTold(nodes, calls, c, i, frame)
  {
    assert CallOk(calls[c], c);
    ItemNodeTells(calls[c], frame, c, i);
    HeadAt(calls, c, frame, max, nodes);
    var block := NodesAt(calls, c, frame, max, nodes);
    TailAt(block, nodes, Place(calls, c), ItemNodes(calls[c], frame), i);
  }

  lemma TailAt(block: seq<Validate.Node>, nodes: seq<Validate.Node>, at: nat, items: seq<Validate.Node>, i: nat)
    requires StandsAt(block, nodes, at) && |block| > 0 && block[1..] == items && i < |items|
    ensures at + 1 + i < |nodes| && nodes[at + 1 + i] == items[i]
  {
    StandingNode(block, nodes, at, 1 + i);
  }

  ghost predicate CallTold(nodes: seq<Validate.Node>, calls: seq<RenderCall>, c: nat, frame: nat, max: nat)
    requires c < |calls|
  {
    Place(calls, c) < |nodes| && Tells(nodes[Place(calls, c)], nodes, calls, c, frame, max)
  }

  ghost predicate ItemTold(nodes: seq<Validate.Node>, calls: seq<RenderCall>, c: nat, i: nat, frame: nat)
    requires c < |calls|
  {
    var at := Place(calls, c);
    at + 1 + i < |nodes| && TellsItem(nodes[at + 1 + i], nodes[at].id, frame, c, i)
  }

  /** The snapshot of well-ordered calls, node by node: every call's node at its place, its items behind it, and
      nothing else. */
  ghost predicate Told(nodes: seq<Validate.Node>, calls: seq<RenderCall>, frame: nat, max: nat) {
    && |nodes| == Place(calls, |calls|)
    && (forall c: nat | c < |calls| :: CallTold(nodes, calls, c, frame, max))
    && (forall c: nat, i: nat | c < |calls| && i < |ItemsOf(calls[c])| :: ItemTold(nodes, calls, c, i, frame))
  }

  lemma SnapshotTells(calls: seq<RenderCall>, frame: nat, max: nat)
    requires CallsOk(calls)
    ensures Told(Nodes(calls, frame, max), calls, frame, max)
  {
    var nodes := Nodes(calls, frame, max);
    NodesLength(calls, frame, max);
    forall c: nat | c < |calls| ensures CallTold(nodes, calls, c, frame, max) {
      CallTells(calls, c, frame, max, nodes);
    }
    forall c: nat, i: nat | c < |calls| && i < |ItemsOf(calls[c])| ensures ItemTold(nodes, calls, c, i, frame) {
      ItemTells(calls, c, i, frame, max, nodes);
    }
  }
}
