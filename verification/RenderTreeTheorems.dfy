/** Whatever an application draws with distinct keys, the snapshot built from it is a forest the validator accepts. */
module RenderTreeTheorems {
  import opened Options
  import opened RenderHooks
  import opened RenderTree
  import Forest
  import Validate

  // ---------------------------------------------------------------- identities are apart

  // The ids the c-th call can give away: its own and its items'.
  ghost predicate Named(id: Id, calls: seq<RenderCall>, c: nat, frame: nat)
    requires c < |calls|
  {
    id == IdOf(calls[c], frame) || exists i: nat :: id == ItemId(frame, c, i)
  }

  lemma NamesApart(calls: seq<RenderCall>, frame: nat, a: nat, x: Id, b: nat, y: Id)
    requires CallsOk(calls) && DistinctKeys(calls) && a < b < |calls|
    requires Named(x, calls, a, frame) && Named(y, calls, b, frame)
    ensures x != y
  {
    assert CallOk(calls[a], a) && CallOk(calls[b], b);
    if x == IdOf(calls[a], frame) {
      if y == IdOf(calls[b], frame) {
        CallNamesApart(calls, frame, a, b);
      } else {
        var j: nat :| y == ItemId(frame, b, j);
        CallIsNotItem(calls[a], frame, b, j);
      }
    } else {
      var i: nat :| x == ItemId(frame, a, i);
      if y == IdOf(calls[b], frame) {
        CallIsNotItem(calls[b], frame, a, i);
      } else {
        var j: nat :| y == ItemId(frame, b, j);
        if x == y { ItemIdInjective(frame, a, i, b, j); }
      }
    }
  }

  lemma CallNamesApart(calls: seq<RenderCall>, frame: nat, a: nat, b: nat)
    requires CallsOk(calls) && DistinctKeys(calls) && a < b < |calls|
    ensures IdOf(calls[a], frame) != IdOf(calls[b], frame)
  {
    assert CallOk(calls[a], a) && CallOk(calls[b], b);
    var k, l := KeyOf(calls[a]), KeyOf(calls[b]);
    if k.Some? {
      KeyIdIsItsOwn(k.value, if l.Some? then l.value else "", frame, b, 0);
    } else if l.Some? {
      KeyIdIsItsOwn(l.value, "", frame, a, 0);
    } else if CallId(frame, a) == CallId(frame, b) {
      CallIdInjective(frame, a, b);
    }
  }

  lemma CallIsNotItem(call: RenderCall, frame: nat, b: nat, j: nat)
    ensures IdOf(call, frame) != ItemId(frame, b, j)
  {
    if KeyOf(call).Some? {
      KeyIdIsItsOwn(KeyOf(call).value, "", frame, b, j);
    } else {
      CallIsNoItem(frame, call.ordinal, b, j);
    }
  }

  // ---------------------------------------------------------------- blocks

  // The ids in a block differ, and every item's parent heads the block.
  lemma BlockFacts(calls: seq<RenderCall>, c: nat, frame: nat, max: nat)
    requires CallsOk(calls) && c < |calls|
    ensures Validate.UniqueIds(Block(calls, c, frame, max))
    ensures forall node | node in Block(calls, c, frame, max) :: Named(node.id, calls, c, frame)
    ensures forall k | 0 < k < |Block(calls, c, frame, max)| ::
              Block(calls, c, frame, max)[k].parent == Some(IdOf(calls[c], frame))
  {
    assert CallOk(calls[c], c);
    var block := Block(calls, c, frame, max);
    forall i, j | 0 <= i < j < |block| ensures block[i].id != block[j].id {
      if i == 0 {
        CallIsNotItem(calls[c], frame, c, j - 1);
      } else if block[i].id == block[j].id {
        ItemIdInjective(frame, c, i - 1, c, j - 1);
      }
    }
  }

  lemma UniqueAppend(front: seq<Validate.Node>, back: seq<Validate.Node>)
    requires Validate.UniqueIds(front) && Validate.UniqueIds(back)
    requires forall x, y | x in front && y in back :: x.id != y.id
    ensures Validate.UniqueIds(front + back)
  {
    var all := front + back;
    forall i, j | 0 <= i < j < |all| ensures all[i].id != all[j].id {
      if i < |front| <= j {
        assert front[i] in front && back[j - |front|] in back;
      }
    }
  }

  // No id occurs in two blocks.
  ghost predicate Apart(bs: seq<seq<Validate.Node>>) {
    forall a, b, x: Validate.Node, y: Validate.Node | 0 <= a < b < |bs| && x in bs[a] && y in bs[b] :: x.id != y.id
  }

  // Every node comes from some block.
  lemma {:induction false} FlattenOrigin(bs: seq<seq<Validate.Node>>, node: Validate.Node) returns (c: nat)
    requires node in Flatten(bs)
    ensures c < |bs| && node in bs[c]
  {
    var front, last := bs[..|bs| - 1], bs[|bs| - 1];
    if node in Flatten(front) {
      c := FlattenOrigin(front, node);
    } else {
      c := |bs| - 1;
    }
  }

  lemma {:induction false} FlattenUnique(bs: seq<seq<Validate.Node>>)
    requires Apart(bs) && forall c | 0 <= c < |bs| :: Validate.UniqueIds(bs[c])
    ensures Validate.UniqueIds(Flatten(bs))
  {
    if bs != [] {
      var front, last := bs[..|bs| - 1], bs[|bs| - 1];
      FlattenUnique(front);
      forall x, y | x in Flatten(front) && y in last ensures x.id != y.id {
        var c := FlattenOrigin(front, x);
        assert x in bs[c];
      }
      UniqueAppend(Flatten(front), last);
    }
  }

  lemma NodesAreUnique(calls: seq<RenderCall>, frame: nat, max: nat)
    requires CallsOk(calls) && DistinctKeys(calls)
    ensures Validate.UniqueIds(Nodes(calls, frame, max))
  {
    var bs := Blocks(calls, frame, max);
    forall c | 0 <= c < |bs| ensures Validate.UniqueIds(bs[c]) { BlockFacts(calls, c, frame, max); }
    forall a, b, x: Validate.Node, y: Validate.Node | 0 <= a < b < |bs| && x in bs[a] && y in bs[b]
      ensures x.id != y.id
    {
      BlockFacts(calls, a, frame, max);
      BlockFacts(calls, b, frame, max);
      NamesApart(calls, frame, a, x.id, b, y.id);
    }
    FlattenUnique(bs);
  }

  // ---------------------------------------------------------------- parents come first

  ghost predicate NamesNode(nodes: seq<Validate.Node>, id: Id) {
    exists k: nat :: k < |nodes| && nodes[k].id == id
  }

  ghost predicate ParentBefore(nodes: seq<Validate.Node>, k: nat)
    requires k < |nodes|
  {
    nodes[k].parent.Some? ==> NamesNode(nodes[..k], nodes[k].parent.value)
  }

  ghost predicate ParentsFirst(nodes: seq<Validate.Node>) {
    forall k: nat | k < |nodes| :: ParentBefore(nodes, k)
  }

  // The block's head has its parent, if any, at the head of an earlier block, and is the parent of the rest.
  ghost predicate Follows(bs: seq<seq<Validate.Node>>, c: nat)
    requires c < |bs|
  {
    && bs[c] != []
    && (bs[c][0].parent.Some? ==> exists p: nat :: p < c && bs[p] != [] && bs[p][0].id == bs[c][0].parent.value)
    && forall k | 0 < k < |bs[c]| :: bs[c][k].parent == Some(bs[c][0].id)
  }

  lemma {:induction false} HeadIsNamed(bs: seq<seq<Validate.Node>>, c: nat)
    requires c < |bs| && bs[c] != []
    ensures NamesNode(Flatten(bs), bs[c][0].id)
  {
    var front, last := Flatten(bs[..|bs| - 1]), bs[|bs| - 1];
    var all := Flatten(bs);
    if c == |bs| - 1 {
      assert all[|front|] == last[0];
    } else {
      HeadIsNamed(bs[..|bs| - 1], c);
      var k: nat :| k < |front| && front[k].id == bs[c][0].id;
      assert all[k] == front[k];
    }
  }

  lemma {:induction false} FlattenFollowsParents(bs: seq<seq<Validate.Node>>)
    requires forall c: nat | c < |bs| :: Follows(bs, c)
    ensures ParentsFirst(Flatten(bs))
  {
    if bs != [] {
      var n := |bs| - 1;
      var fronts, last := bs[..n], bs[n];
      var front, all := Flatten(fronts), Flatten(bs);
      forall c: nat | c < |fronts| ensures Follows(fronts, c) { FollowsInFront(bs, n, c); }
      FlattenFollowsParents(fronts);
      forall k: nat | k < |all| ensures ParentBefore(all, k) {
        if k < |front| {
          assert ParentBefore(front, k) && all[..k] == front[..k];
        } else {
          LastFollows(bs, k);
        }
      }
    }
  }

  lemma FollowsInFront(bs: seq<seq<Validate.Node>>, n: nat, c: nat)
    requires c < n <= |bs| && Follows(bs, c)
    ensures Follows(bs[..n], c)
  {
    var fronts := bs[..n];
    assert fronts[c] == bs[c];
    if bs[c][0].parent.Some? {
      var p: nat :| p < c && bs[p] != [] && bs[p][0].id == bs[c][0].parent.value;
      assert fronts[p] == bs[p];
    }
  }

  // A node of the last block comes after its parent.
  lemma LastFollows(bs: seq<seq<Validate.Node>>, k: nat)
    requires bs != [] && Follows(bs, |bs| - 1) && |Flatten(bs[..|bs| - 1])| <= k < |Flatten(bs)|
    ensures ParentBefore(Flatten(bs), k)
  {
    var fronts, last := bs[..|bs| - 1], bs[|bs| - 1];
    var front, all := Flatten(fronts), Flatten(bs);
    assert all == front + last;
    if k == |front| {
      assert all[..k] == front && all[k] == last[0];
      if last[0].parent.Some? {
        var p: nat :| p < |bs| - 1 && bs[p] != [] && bs[p][0].id == last[0].parent.value;
        assert fronts[p] == bs[p];
        HeadIsNamed(fronts, p);
      }
    } else {
      assert all[k] == last[k - |front|];
      assert all[..k][|front|] == last[0];
    }
  }

  lemma {:induction false} OrdinalsName(calls: seq<RenderCall>, frame: nat, c: nat)
    requires CallsOk(calls) && c < |calls|
    ensures c in IdsByOrdinal(calls, frame) && IdsByOrdinal(calls, frame)[c] == IdOf(calls[c], frame)
  {
    var front := calls[..|calls| - 1];
    assert CallOk(calls[|calls| - 1], |calls| - 1);
    if c < |calls| - 1 {
      assert forall i | 0 <= i < |front| :: front[i] == calls[i];
      assert forall i | 0 <= i < |front| :: CallOk(calls[i], i);
      OrdinalsName(front, frame, c);
    }
  }

  lemma CallsFollow(calls: seq<RenderCall>, frame: nat, max: nat, c: nat)
    requires CallsOk(calls) && c < |calls|
    ensures Follows(Blocks(calls, frame, max), c)
  {
    var bs := Blocks(calls, frame, max);
    BlockFacts(calls, c, frame, max);
    assert bs[c] == Block(calls, c, frame, max) && bs[c][0] == CallNode(calls, calls[c], frame, max);
    assert CallOk(calls[c], c);
    if calls[c].parentOrdinal.Some? {
      var p := calls[c].parentOrdinal.value;
      OrdinalsName(calls, frame, p);
      assert bs[p] == Block(calls, p, frame, max) && bs[p][0].id == IdOf(calls[p], frame);
    }
  }

  lemma NodesFollowParents(calls: seq<RenderCall>, frame: nat, max: nat)
    requires CallsOk(calls)
    ensures ParentsFirst(Nodes(calls, frame, max))
  {
    var bs := Blocks(calls, frame, max);
    forall c: nat | c < |bs| ensures Follows(bs, c) { CallsFollow(calls, frame, max, c); }
    FlattenFollowsParents(bs);
  }

  ghost function Position(nodes: seq<Validate.Node>, id: Id): (k: nat)
    requires NamesNode(nodes, id)
    ensures k < |nodes| && nodes[k].id == id
  {
    var k: nat :| k < |nodes| && nodes[k].id == id; k
  }

  lemma KeysAreNames(nodes: seq<Validate.Node>, id: Id)
    requires id in Validate.ParentMap(nodes)
    ensures NamesNode(nodes, id)
  {
    Validate.ParentMapKeys(nodes);
    var node :| node in nodes && node.id == id;
    var k: nat :| k < |nodes| && nodes[k] == node;
    assert nodes[k].id == id;
  }

  lemma ParentRanksLower(nodes: seq<Validate.Node>, id: Id)
    requires Validate.UniqueIds(nodes) && ParentsFirst(nodes)
    requires id in Validate.ParentMap(nodes) && Validate.ParentMap(nodes)[id].Some?
    ensures NamesNode(nodes, id) && NamesNode(nodes, Validate.ParentMap(nodes)[id].value)
    ensures Validate.ParentMap(nodes)[id].value in Validate.ParentMap(nodes)
    ensures Position(nodes, Validate.ParentMap(nodes)[id].value) < Position(nodes, id)
  {
    KeysAreNames(nodes, id);
    Validate.ParentMapKeys(nodes);
    var k := Position(nodes, id);
    assert nodes[k] in nodes && ParentBefore(nodes, k);
    var parent := nodes[k].parent.value;
    var j: nat :| j < |nodes[..k]| && nodes[..k][j].id == parent;
    assert nodes[j] in nodes && nodes[j].id == parent;
  }

  /** A list in which every parent comes before its children has existing parents and no cycle. */
  lemma ParentsFirstMeansAcyclic(nodes: seq<Validate.Node>)
    requires Validate.UniqueIds(nodes) && ParentsFirst(nodes)
    ensures Validate.ParentsExist(nodes) && Forest.Acyclic(Validate.ParentMap(nodes))
  {
    var m := Validate.ParentMap(nodes);
    forall id | id in m ensures NamesNode(nodes, id) { KeysAreNames(nodes, id); }
    var rank := map id | id in m :: Position(nodes, id);
    forall id | id in m && m[id].Some? ensures m[id].value in m && rank[m[id].value] < rank[id] {
      ParentRanksLower(nodes, id);
    }
    assert Validate.ParentsExist(nodes) by { Validate.ParentMapKeys(nodes); }
    forall id | id in m ensures !Forest.OnCycle(m, id) {
      var d := Forest.RankedHasDepth(m, rank, id);
      Forest.DepthMeansNoCycle(m, id, d);
    }
  }

  // ---------------------------------------------------------------- roots and relations

  lemma {:induction false} RootsAreParentless(nodes: seq<Validate.Node>)
    requires Validate.UniqueIds(nodes)
    ensures Validate.RootsMatch(nodes, RootsOf(nodes))
  {
    if nodes != [] {
      var front, last := nodes[..|nodes| - 1], nodes[|nodes| - 1];
      assert nodes == front + [last];
      RootsAreParentless(front);
      RootsAppend(front, last);
      var before := RootsOf(front);
      assert Validate.Distinct(before);
      forall r | r in before ensures r != last.id {
        var node :| node in front && node.id == r && node.parent.None?;
        var k: nat :| k < |front| && front[k] == node;
        assert nodes[k].id != nodes[|nodes| - 1].id;
      }
      forall r | r in RootsOf(nodes) ensures exists node :: node in nodes && node.id == r && node.parent.None? {
        if r in before {
          var node :| node in front && node.id == r && node.parent.None?;
          assert node in nodes && node.id == r && node.parent.None?;
        } else {
          assert last in nodes && last.id == r && last.parent.None?;
        }
      }
      var roots := RootsOf(nodes);
      assert roots == before || roots == before + [last.id];
      forall i, j | 0 <= i < j < |roots| ensures roots[i] != roots[j] {
        assert roots[i] == before[i] && before[i] in before;
        if j < |before| { assert roots[j] == before[j]; } else { assert roots[j] == last.id; }
      }
      forall node | node in nodes && node.parent.None? ensures node.id in RootsOf(nodes) {
        if node in front { assert node.id in before; }
      }
    }
  }

  lemma KnownKeysHaveNodes(calls: seq<RenderCall>, frame: nat, max: nat, keys: seq<string>)
    ensures forall id | id in Resolve(keys, Keys(calls), max) :: id in Validate.Ids(Nodes(calls, frame, max))
  {
    var nodes := Nodes(calls, frame, max);
    forall id | id in Resolve(keys, Keys(calls), max) ensures id in Validate.Ids(nodes) {
      var key :| key in Keys(calls) && id == KeyId(key);
      var c :| 0 <= c < |calls| && KeyOf(calls[c]).Some? && KeyOf(calls[c]).value == key;
      HeadIsNamed(Blocks(calls, frame, max), c);
      var k: nat :| k < |nodes| && nodes[k].id == id;
      assert nodes[k] in nodes;
    }
  }

  // A node of the first n calls is a call's node, whose relations are resolved keys, or an item without any.
  ghost predicate RelationsResolved(node: Validate.Node, calls: seq<RenderCall>, max: nat) {
    && (exists keys :: node.labelledBy == Resolve(keys, Keys(calls), max))
    && (exists keys :: node.describedBy == Resolve(keys, Keys(calls), max))
  }

  lemma BlockRelations(calls: seq<RenderCall>, c: nat, frame: nat, max: nat)
    requires c < |calls|
    ensures forall node | node in Block(calls, c, frame, max) :: RelationsResolved(node, calls, max)
  {
    var call := calls[c];
    assert Resolve([], Keys(calls), max) == [];
    forall node | node in Block(calls, c, frame, max) ensures RelationsResolved(node, calls, max) {
      if call.annotation.Some? && node == CallNode(calls, call, frame, max) {
        assert node.labelledBy == Resolve(call.annotation.value.labelledBy, Keys(calls), max);
        assert node.describedBy == Resolve(call.annotation.value.describedBy, Keys(calls), max);
      }
    }
  }

  // ---------------------------------------------------------------- the theorems

  /** Well-ordered calls with distinct keys build a forest: unique ids, roots exactly the parentless nodes,
      existing parents, relation lists within the limit that name only nodes of the snapshot, no cycle. */
  lemma SnapshotIsForest(calls: seq<RenderCall>, frame: nat, limits: Validate.Limits)
    requires CallsOk(calls) && DistinctKeys(calls)
    ensures var nodes := Nodes(calls, frame, limits.maxRelationTargets);
      Validate.IsForest(nodes, RootsOf(nodes), limits)
  {
    var max := limits.maxRelationTargets;
    var nodes := Nodes(calls, frame, max);
    NodesAreUnique(calls, frame, max);
    NodesFollowParents(calls, frame, max);
    ParentsFirstMeansAcyclic(nodes);
    RootsAreParentless(nodes);
    forall node | node in nodes
      ensures Validate.TargetsOk(node.labelledBy, Validate.Ids(nodes), limits)
           && Validate.TargetsOk(node.describedBy, Validate.Ids(nodes), limits)
    {
      var c := FlattenOrigin(Blocks(calls, frame, max), node);
      BlockRelations(calls, c, frame, max);
      var labels :| node.labelledBy == Resolve(labels, Keys(calls), max);
      KnownKeysHaveNodes(calls, frame, max, labels);
      var descriptions :| node.describedBy == Resolve(descriptions, Keys(calls), max);
      KnownKeysHaveNodes(calls, frame, max, descriptions);
    }
  }

  /** The tree is the nesting: a call's node hangs under its parent call's node, an item under its list. */
  lemma NodesHangWhereDrawn(calls: seq<RenderCall>, frame: nat, max: nat, c: nat, i: nat)
    requires CallsOk(calls) && c < |calls|
    ensures var node := CallNode(calls, calls[c], frame, max);
      && node.id == IdOf(calls[c], frame)
      && node.parent == match calls[c].parentOrdinal
                        case None => None
                        case Some(p) => if p < |calls| then Some(IdOf(calls[p], frame)) else None
    ensures i < |ItemsOf(calls[c])| ==>
              var item := ItemNodes(calls[c], frame)[i];
              item.parent == Some(IdOf(calls[c], frame)) && item.id == ItemId(frame, c, i)
  {
    assert CallOk(calls[c], c);
    if calls[c].parentOrdinal.Some? { OrdinalsName(calls, frame, calls[c].parentOrdinal.value); }
  }

  lemma ForestRefusals(code: Validate.Code, nodes: seq<Validate.Node>, roots: seq<Id>, limits: Validate.Limits)
    requires Validate.IsForest(nodes, roots, limits) && Validate.Explains(code, nodes, roots, limits)
    ensures code == Validate.Count || code == Validate.Depth
  {
    assert forall r | r in roots :: r in Validate.Ids(nodes);
  }

  /** Build, then validate: over well-ordered calls the builder gives up exactly on a repeated key, and what it
      builds the validator can refuse for capacity only, too many nodes or too deep. */
  method BuildAndValidate(calls: seq<RenderCall>, frame: nat, limits: Validate.Limits)
    returns (built: bool, nodes: seq<Validate.Node>, verdict: Validate.Result<()>)
    requires CallsOk(calls)
    ensures built <==> DistinctKeys(calls)
    ensures built ==>
              && nodes == Nodes(calls, frame, limits.maxRelationTargets)
              && (verdict.Ok? <==> |nodes| <= limits.maxNodes && Validate.DepthAtMost(nodes, limits.maxDepth))
    ensures built && verdict.Err? ==> verdict.code == Validate.Count || verdict.code == Validate.Depth
  {
    var snapshot := SnapshotFrom(calls, frame, limits.maxRelationTargets);
    built := snapshot.Some?;
    verdict, nodes := Validate.Ok(()), [];
    if built {
      SnapshotIsForest(calls, frame, limits);
      var roots := snapshot.value.1;
      nodes := snapshot.value.0;
      verdict := Validate.ValidateStructure(nodes, roots, limits);
      if verdict.Err? { ForestRefusals(verdict.code, nodes, roots, limits); }
    }
  }
}
