/** The structural half of the snapshot validator: identity, roots, parents, relations, cycles, depth. */
module Validate {
  import opened Options
  import opened Forest

  datatype Node = Node(id: Id, parent: Option<Id>, labelledBy: seq<Id>, describedBy: seq<Id>)

  datatype Limits = Limits(maxNodes: nat, maxRelationTargets: nat, maxDepth: nat)

  datatype Code = DuplicateId | MissingParent | Schema | Cycle | Depth | Count

  datatype Result<+T> = Ok(value: T) | Err(code: Code)

  // ---------------------------------------------------------------- what a valid structure is

  ghost predicate Distinct<T(!new)>(xs: seq<T>) {
    forall i, j | 0 <= i < j < |xs| :: xs[i] != xs[j]
  }

  ghost function Ids(nodes: seq<Node>): set<Id> { set n | n in nodes :: n.id }

  ghost predicate UniqueIds(nodes: seq<Node>) {
    forall i, j | 0 <= i < j < |nodes| :: nodes[i].id != nodes[j].id
  }

  // by_id, reduced to what the structural checks read.
  function ParentMap(nodes: seq<Node>): Parents {
    if nodes == [] then map[]
    else ParentMap(nodes[..|nodes| - 1])[nodes[|nodes| - 1].id := nodes[|nodes| - 1].parent]
  }

  lemma {:induction false} ParentMapKeys(nodes: seq<Node>)
    ensures ParentMap(nodes).Keys == Ids(nodes)
    ensures UniqueIds(nodes) ==> forall n | n in nodes :: ParentMap(nodes)[n.id] == n.parent
  {
    if nodes != [] {
      var front, last := nodes[..|nodes| - 1], nodes[|nodes| - 1];
      ParentMapKeys(front);
      assert nodes == front + [last];
      assert forall n :: n in nodes <==> n in front || n == last;
      if UniqueIds(nodes) {
        forall n | n in front ensures n.id != last.id {
          var i :| 0 <= i < |front| && front[i] == n;
          assert nodes[i] == n;
        }
      }
    }
  }

  // The roots are exactly the parentless nodes, each listed once.
  ghost predicate RootsMatch(nodes: seq<Node>, roots: seq<Id>) {
    && Distinct(roots)
    && (forall r | r in roots :: exists n :: n in nodes && n.id == r && n.parent.None?)
    && (forall n | n in nodes && n.parent.None? :: n.id in roots)
  }

  ghost predicate ParentsExist(nodes: seq<Node>) {
    forall n | n in nodes && n.parent.Some? :: n.parent.value in Ids(nodes)
  }

  predicate TooMany(targets: seq<Id>, limits: Limits) { |targets| > limits.maxRelationTargets }

  ghost predicate Unknown(targets: seq<Id>, ids: set<Id>) { exists x :: x in targets && x !in ids }

  ghost predicate TargetsOk(targets: seq<Id>, ids: set<Id>, limits: Limits) {
    !TooMany(targets, limits) && !Unknown(targets, ids)
  }

  ghost predicate RelationsOk(nodes: seq<Node>, limits: Limits) {
    forall n | n in nodes ::
      TargetsOk(n.labelledBy, Ids(nodes), limits) && TargetsOk(n.describedBy, Ids(nodes), limits)
  }

  // Everything but the depth ceiling.
  ghost predicate IsForest(nodes: seq<Node>, roots: seq<Id>, limits: Limits) {
    && UniqueIds(nodes) && RootsMatch(nodes, roots) && ParentsExist(nodes)
    && RelationsOk(nodes, limits) && Acyclic(ParentMap(nodes))
  }

  ghost predicate DepthAtMost(nodes: seq<Node>, max: nat) {
    forall n | n in nodes :: exists d: nat :: d <= max && HasDepth(ParentMap(nodes), n.id, d)
  }

  // ---------------------------------------------------------------- compute_depths

  // A walk towards the root: each entry is the parent of the one before, `next` the parent of the last.
  ghost predicate Linked(m: Parents, chain: seq<Id>, i: nat)
    requires i + 1 < |chain|
  {
    chain[i] in m && m[chain[i]] == Some(chain[i + 1])
  }

  ghost predicate IsWalk(m: Parents, chain: seq<Id>, next: Option<Id>) {
    && (forall i | 0 <= i < |chain| :: chain[i] in m)
    && (forall i: nat | i + 1 < |chain| :: Linked(m, chain, i))
    && (|chain| > 0 ==> m[chain[|chain| - 1]] == next)
  }

  lemma {:induction false} WalkIsUp(m: Parents, chain: seq<Id>, next: Id, k: nat)
    requires IsWalk(m, chain, Some(next)) && next in m && k < |chain|
    ensures Up(m, chain[k], |chain| - k) == Some(next)
    decreases |chain| - k
  {
    if k < |chain| - 1 {
      assert Linked(m, chain, k);
      WalkIsUp(m, chain, next, k + 1);
    } else {
      assert Up(m, next, 0) == Some(next);
    }
  }

  ghost predicate DepthsOk(m: Parents, depths: map<Id, nat>) {
    forall id | id in depths :: HasDepth(m, id, depths[id])
  }

  lemma SetSize(xs: seq<Id>, s: set<Id>)
    requires Distinct(xs) && forall x | x in xs :: x in s
    ensures |xs| <= |s|
  {
    if xs != [] {
      var last := xs[|xs| - 1];
      SetSize(xs[..|xs| - 1], s - {last});
    }
  }

  lemma AllDepthsKnown(nodes: seq<Node>, m: Parents, depths: map<Id, nat>)
    requires m.Keys == Ids(nodes) && depths.Keys <= m.Keys && DepthsOk(m, depths)
    requires forall j | 0 <= j < |nodes| :: nodes[j].id in depths
    ensures depths.Keys == m.Keys && Acyclic(m)
  {
    forall id | id in m ensures id in depths && !OnCycle(m, id) {
      DepthMeansNoCycle(m, id, depths[id]);
    }
  }

  lemma CycleRefutes(m: Parents, id: Id)
    requires OnCycle(m, id)
    ensures !Acyclic(m)
  {
  }

  // One round of the outer loop: the walk from one node.
  method Visit(byId: Parents, known: map<Id, nat>, start: Id)
    returns (depths: map<Id, nat>, cycleAt: Option<Id>, ghost pushed: nat)
    requires Closed(byId) && start in byId && known.Keys <= byId.Keys && DepthsOk(byId, known)
    ensures cycleAt.Some? ==> OnCycle(byId, cycleAt.value) && |known| + pushed <= |byId|
    ensures cycleAt.None? ==> DepthsOk(byId, depths) && |depths| == |known| + pushed
    ensures cycleAt.None? ==> known.Keys <= depths.Keys <= byId.Keys && start in depths
  {
    depths, cycleAt, pushed := known, None, 0;
    if start !in known {
      var chain, current, cycle := Climb(byId, known, start);
      pushed := |chain|;
      WalkSize(byId, known, chain, current);
      if cycle {
        cycleAt := current;
      } else {
        depths := Descend(byId, known, chain, current);
        ChainSize(known, depths, chain);
      }
    }
  }

  /** Depth of every node (roots at 1), or a node on a cycle.  `pushes` counts the nodes put on a walk. */
  method ComputeDepths(nodes: seq<Node>, byId: Parents)
    returns (depths: map<Id, nat>, cycleAt: Option<Id>, ghost pushes: nat)
    requires byId.Keys == Ids(nodes) && Closed(byId)
    ensures cycleAt.None? ==> depths.Keys == byId.Keys && DepthsOk(byId, depths)
    ensures cycleAt.Some? ==> OnCycle(byId, cycleAt.value)
    ensures cycleAt.None? <==> Acyclic(byId)
    ensures pushes <= |byId|
  {
    depths, cycleAt, pushes := map[], None, 0;
    for i := 0 to |nodes|
      invariant cycleAt.None? && depths.Keys <= byId.Keys && DepthsOk(byId, depths)
      invariant forall j | 0 <= j < i :: nodes[j].id in depths
      invariant pushes == |depths|
    {
      ghost var pushed;
      depths, cycleAt, pushed := Visit(byId, depths, nodes[i].id);
      pushes := pushes + pushed;
      if cycleAt.Some? {
        CycleRefutes(byId, cycleAt.value);
        return;
      }
    }
    AllDepthsKnown(nodes, byId, depths);
    SizeMono(depths.Keys, byId.Keys);
  }

  lemma WalkSize(m: Parents, depths: map<Id, nat>, chain: seq<Id>, next: Option<Id>)
    requires depths.Keys <= m.Keys && FreshWalk(m, depths, chain, next)
    ensures |depths| + |chain| <= |m|
  {
    SetSize(chain, m.Keys - depths.Keys);
    assert |m.Keys - depths.Keys| == |m.Keys| - |depths.Keys| by {
      assert m.Keys == depths.Keys + (m.Keys - depths.Keys);
    }
  }

  lemma SizeMono(a: set<Id>, b: set<Id>)
    requires a <= b
    ensures |a| <= |b|
  {
    assert |b| == |a| + |b - a| by { assert b == a + (b - a); }
  }

  lemma ChainSize(before: map<Id, nat>, after: map<Id, nat>, chain: seq<Id>)
    requires Distinct(chain) && (forall x | x in chain :: x !in before)
    requires forall x :: x in after <==> x in before || x in chain
    ensures |after| == |before| + |chain|
  {
    var s := set x | x in chain;
    DistinctSize(chain, s);
    assert after.Keys == before.Keys + s;
    assert |before.Keys + s| == |before.Keys| + |s|;
  }

  lemma DistinctSize(xs: seq<Id>, s: set<Id>)
    requires Distinct(xs) && s == set x | x in xs
    ensures |s| == |xs|
  {
    if xs != [] {
      var front, last := xs[..|xs| - 1], xs[|xs| - 1];
      assert xs == front + [last];
      DistinctSize(front, s - {last});
    }
  }

  lemma WalkExtends(m: Parents, chain: seq<Id>, id: Id)
    requires IsWalk(m, chain, Some(id)) && id in m
    ensures IsWalk(m, chain + [id], m[id])
  {
    forall i: nat | i + 1 < |chain + [id]| ensures Linked(m, chain + [id], i) {
      if i + 1 < |chain| { assert Linked(m, chain, i); }
    }
  }

  lemma WalkCloses(m: Parents, chain: seq<Id>, id: Id)
    requires IsWalk(m, chain, Some(id)) && id in chain
    ensures OnCycle(m, id)
  {
    var k :| 0 <= k < |chain| && chain[k] == id;
    WalkIsUp(m, chain, id, k);
  }

  // A walk over distinct nodes of unknown depth.
  ghost predicate FreshWalk(m: Parents, depths: map<Id, nat>, chain: seq<Id>, next: Option<Id>) {
    && IsWalk(m, chain, next) && Distinct(chain)
    && (forall x | x in chain :: x in m && x !in depths)
    && (next.Some? ==> next.value in m)
  }

  lemma FreshExtends(m: Parents, depths: map<Id, nat>, chain: seq<Id>, id: Id)
    requires Closed(m) && FreshWalk(m, depths, chain, Some(id)) && id !in depths && id !in chain
    ensures FreshWalk(m, depths, chain + [id], m[id])
  {
    WalkExtends(m, chain, id);
  }

  // The inner while loop: climb until a known depth, a root, or a node already on the walk.
  method Climb(byId: Parents, depths: map<Id, nat>, start: Id)
    returns (chain: seq<Id>, current: Option<Id>, cycle: bool)
    requires Closed(byId) && start in byId && start !in depths
    ensures FreshWalk(byId, depths, chain, current) && |chain| > 0 && chain[0] == start
    ensures cycle ==> current.Some? && OnCycle(byId, current.value)
    ensures !cycle ==> current.None? || current.value in depths
  {
    chain, current, cycle := [], Some(start), false;
    var onChain: set<Id> := {};
    while current.Some?
      invariant FreshWalk(byId, depths, chain, current)
      invariant forall x :: x in onChain <==> x in chain
      invariant if chain == [] then current == Some(start) else chain[0] == start
      decreases |byId.Keys - onChain|
    {
      var id := current.value;
      if id in depths {
        return;
      }
      if id in onChain {
        WalkCloses(byId, chain, id);
        cycle := true;
        return;
      }
      FreshExtends(byId, depths, chain, id);
      SizeStrict(byId.Keys - (onChain + {id}), byId.Keys - onChain);
      onChain := onChain + {id};
      chain := chain + [id];
      current := byId[id];
    }
  }

  lemma SizeStrict(a: set<Id>, b: set<Id>)
    requires a <= b && exists x :: x in b && x !in a
    ensures |a| < |b|
  {
    var x :| x in b && x !in a;
    SizeMono(a, b - {x});
  }

  // The reversed walk: each node is one deeper than its parent.
  method Descend(byId: Parents, known: map<Id, nat>, chain: seq<Id>, current: Option<Id>) returns (depths: map<Id, nat>)
    requires FreshWalk(byId, known, chain, current) && DepthsOk(byId, known) && |chain| > 0
    requires current.None? || current.value in known
    ensures DepthsOk(byId, depths)
    ensures forall x :: x in depths <==> x in known || x in chain
  {
    depths := known;
    var depth: nat := if current.None? then 0 else known[current.value];
    var i := |chain|;
    while i > 0
      invariant 0 <= i <= |chain|
      invariant DepthsOk(byId, depths)
      invariant forall x :: x in depths <==> x in known || x in chain[i..]
      invariant i == |chain| ==> depth == if current.None? then 0 else known[current.value]
      invariant i < |chain| ==> HasDepth(byId, chain[i], depth)
    {
      i := i - 1;
      depth := depth + 1;
      assert chain[i..] == [chain[i]] + chain[i + 1..];
      assert i + 1 < |chain| ==> Linked(byId, chain, i);
      assert HasDepth(byId, chain[i], depth);
      depths := depths[chain[i] := depth];
    }
    assert chain[0..] == chain;
  }

  // ---------------------------------------------------------------- validate_snapshot, structural layer

  predicate LongRelation(n: Node, limits: Limits) { TooMany(n.labelledBy, limits) || TooMany(n.describedBy, limits) }

  ghost predicate LostRelation(n: Node, ids: set<Id>) { Unknown(n.labelledBy, ids) || Unknown(n.describedBy, ids) }

  // What each refusal reports.
  ghost predicate Explains(code: Code, nodes: seq<Node>, roots: seq<Id>, limits: Limits) {
    match code
    case DuplicateId => !UniqueIds(nodes) || !Distinct(roots)
    case MissingParent =>
      || !ParentsExist(nodes) || (exists n :: n in nodes && LostRelation(n, Ids(nodes)))
      || exists r :: r in roots && r !in Ids(nodes)
    case Schema => !RootsMatch(nodes, roots)
    case Cycle => !Acyclic(ParentMap(nodes))
    case Depth => Acyclic(ParentMap(nodes)) && !DepthAtMost(nodes, limits.maxDepth)
    case Count => |nodes| > limits.maxNodes || exists n :: n in nodes && LongRelation(n, limits)
  }

  // Collect by_id, refusing a repeated id.
  method CollectIds(nodes: seq<Node>) returns (r: Result<Parents>)
    ensures r.Ok? <==> UniqueIds(nodes)
    ensures r.Ok? ==> r.value == ParentMap(nodes)
    ensures r.Err? ==> r.code == DuplicateId
  {
    var byId: Parents := map[];
    for i := 0 to |nodes|
      invariant byId == ParentMap(nodes[..i]) && UniqueIds(nodes[..i])
    {
      ParentMapKeys(nodes[..i]);
      assert nodes[..i + 1][..i] == nodes[..i];
      if nodes[i].id in byId {
        var n :| n in nodes[..i] && n.id == nodes[i].id;
        var j :| 0 <= j < i && nodes[j] == n;
        return Err(DuplicateId);
      }
      forall j | 0 <= j < i ensures nodes[j].id != nodes[i].id {
        assert nodes[j] in nodes[..i];
      }
      byId := byId[nodes[i].id := nodes[i].parent];
    }
    assert nodes[..|nodes|] == nodes;
    return Ok(byId);
  }

  // The root list: no repeats, known nodes, no declared parents.
  method CheckRoots(nodes: seq<Node>, roots: seq<Id>, byId: Parents) returns (r: Result<set<Id>>)
    requires byId == ParentMap(nodes) && UniqueIds(nodes)
    ensures r.Ok? <==> Distinct(roots) && forall x | x in roots :: x in byId && byId[x].None?
    ensures r.Ok? ==> forall x :: x in r.value <==> x in roots
    ensures r.Err? && r.code == DuplicateId ==> !Distinct(roots)
    ensures r.Err? && r.code == MissingParent ==> exists x :: x in roots && x !in byId
    ensures r.Err? && r.code == Schema ==> exists x :: x in roots && x in byId && byId[x].Some?
    ensures r.Err? ==> r.code in {DuplicateId, MissingParent, Schema}
  {
    var seen: set<Id> := {};
    for i := 0 to |roots|
      invariant forall x :: x in seen <==> x in roots[..i]
      invariant Distinct(roots[..i]) && forall x | x in roots[..i] :: x in byId && byId[x].None?
    {
      var id := roots[i];
      assert roots[..i + 1] == roots[..i] + [id];
      if id in seen {
        var j :| 0 <= j < i && roots[j] == id;
        return Err(DuplicateId);
      }
      seen := seen + {id};
      if id !in byId {
        return Err(MissingParent);
      }
      if byId[id].Some? {
        return Err(Schema);
      }
    }
    assert roots[..|roots|] == roots;
    return Ok(seen);
  }

  method CheckTargets(targets: seq<Id>, byId: Parents, limits: Limits) returns (r: Result<()>)
    ensures r.Ok? <==> TargetsOk(targets, byId.Keys, limits)
    ensures r.Err? ==> r.code == if TooMany(targets, limits) then Count else MissingParent
  {
    if |targets| > limits.maxRelationTargets {
      return Err(Count);
    }
    for i := 0 to |targets|
      invariant forall x | x in targets[..i] :: x in byId
    {
      assert targets[..i + 1] == targets[..i] + [targets[i]];
      if targets[i] !in byId {
        return Err(MissingParent);
      }
    }
    assert targets[..|targets|] == targets;
    return Ok(());
  }

  // What the node loop accepts.
  ghost predicate NodeOk(n: Node, roots: set<Id>, byId: Parents, limits: Limits) {
    && (n.parent.None? ==> n.id in roots)
    && (n.parent.Some? ==> n.parent.value in byId && n.parent.value != n.id)
    && TargetsOk(n.labelledBy, byId.Keys, limits) && TargetsOk(n.describedBy, byId.Keys, limits)
  }

  // Why it refuses a node.
  ghost predicate NodeRefused(n: Node, roots: set<Id>, byId: Parents, limits: Limits, code: Code) {
    match code
    case Schema => n.parent.None? && n.id !in roots
    case Cycle => n.parent == Some(n.id)
    case MissingParent =>
      (n.parent.Some? && n.parent.value !in byId) || LostRelation(n, byId.Keys)
    case Count => LongRelation(n, limits)
    case _ => false
  }

  method CheckNode(n: Node, roots: set<Id>, byId: Parents, limits: Limits) returns (r: Result<()>)
    ensures r.Ok? <==> NodeOk(n, roots, byId, limits)
    ensures r.Err? ==> NodeRefused(n, roots, byId, limits, r.code)
  {
    if n.parent.None? {
      if n.id !in roots {
        return Err(Schema);
      }
    } else if n.parent.value !in byId {
      return Err(MissingParent);
    } else if n.parent.value == n.id {
      return Err(Cycle);
    }
    r := CheckTargets(n.labelledBy, byId, limits);
    if r.Ok? {
      r := CheckTargets(n.describedBy, byId, limits);
    }
  }

  method CheckNodes(nodes: seq<Node>, roots: set<Id>, byId: Parents, limits: Limits) returns (r: Result<()>)
    ensures r.Ok? <==> forall n | n in nodes :: NodeOk(n, roots, byId, limits)
    ensures r.Err? ==> exists n :: n in nodes && NodeRefused(n, roots, byId, limits, r.code)
  {
    for i := 0 to |nodes|
      invariant forall n | n in nodes[..i] :: NodeOk(n, roots, byId, limits)
    {
      assert nodes[..i + 1] == nodes[..i] + [nodes[i]];
      r := CheckNode(nodes[i], roots, byId, limits);
      if r.Err? {
        return;
      }
    }
    assert nodes[..|nodes|] == nodes;
    return Ok(());
  }

  method CheckDepths(depths: map<Id, nat>, max: nat) returns (ok: bool)
    ensures ok <==> forall id | id in depths :: depths[id] <= max
  {
    var todo := depths.Keys;
    while todo != {}
      invariant todo <= depths.Keys && forall id | id in depths && id !in todo :: depths[id] <= max
      decreases todo
    {
      var id :| id in todo;
      if depths[id] > max {
        return false;
      }
      todo := todo - {id};
    }
    return true;
  }

  ghost function Members(xs: seq<Id>): set<Id> { set x | x in xs }

  ghost predicate RootsOk(roots: seq<Id>, byId: Parents) {
    Distinct(roots) && forall x | x in roots :: x in byId && byId[x].None?
  }

  ghost predicate NodesOk(nodes: seq<Node>, roots: seq<Id>, byId: Parents, limits: Limits) {
    forall n | n in nodes :: NodeOk(n, Members(roots), byId, limits)
  }

  lemma SelfParentIsCycle(m: Parents, id: Id)
    requires id in m && m[id] == Some(id)
    ensures OnCycle(m, id)
  {
    assert Up(m, id, 1) == Some(id);
  }

  // The checks of the source, in their own terms, are the forest condition.
  lemma RootsMean(nodes: seq<Node>, roots: seq<Id>, limits: Limits)
    requires UniqueIds(nodes)
    ensures RootsMatch(nodes, roots) ==> RootsOk(roots, ParentMap(nodes))
    ensures RootsOk(roots, ParentMap(nodes)) && NodesOk(nodes, roots, ParentMap(nodes), limits) ==>
              RootsMatch(nodes, roots)
  {
    var byId := ParentMap(nodes);
    ParentMapKeys(nodes);
    if RootsOk(roots, byId) && NodesOk(nodes, roots, byId, limits) {
      forall r | r in roots ensures exists n :: n in nodes && n.id == r && n.parent.None? {
        var n :| n in nodes && n.id == r;
        assert byId[n.id] == n.parent;
      }
      forall n | n in nodes && n.parent.None? ensures n.id in roots {
        assert NodeOk(n, Members(roots), byId, limits);
      }
    }
  }

  lemma ChecksMeanForest(nodes: seq<Node>, roots: seq<Id>, limits: Limits)
    requires UniqueIds(nodes)
    ensures var byId := ParentMap(nodes);
      RootsOk(roots, byId) && NodesOk(nodes, roots, byId, limits) && Acyclic(byId) <==> IsForest(nodes, roots, limits)
  {
    var byId := ParentMap(nodes);
    ParentMapKeys(nodes);
    RootsMean(nodes, roots, limits);
    if RootsOk(roots, byId) && NodesOk(nodes, roots, byId, limits) && Acyclic(byId) {
      forall n | n in nodes
        ensures n.parent.Some? ==> n.parent.value in Ids(nodes)
        ensures TargetsOk(n.labelledBy, Ids(nodes), limits) && TargetsOk(n.describedBy, Ids(nodes), limits)
      {
        assert NodeOk(n, Members(roots), byId, limits);
      }
    }
    if IsForest(nodes, roots, limits) {
      forall n | n in nodes ensures NodeOk(n, Members(roots), byId, limits) {
        assert byId[n.id] == n.parent;
        if n.parent == Some(n.id) { SelfParentIsCycle(byId, n.id); }
      }
    }
  }

  lemma NodesOkMeanClosed(nodes: seq<Node>, roots: seq<Id>, limits: Limits)
    requires UniqueIds(nodes) && NodesOk(nodes, roots, ParentMap(nodes), limits)
    ensures Closed(ParentMap(nodes))
  {
    var byId := ParentMap(nodes);
    ParentMapKeys(nodes);
    forall id | id in byId && byId[id].Some? ensures byId[id].value in byId {
      var n :| n in nodes && n.id == id;
      assert NodeOk(n, Members(roots), byId, limits);
    }
  }

  lemma NodeRefusalExplains(nodes: seq<Node>, roots: seq<Id>, limits: Limits, n: Node, code: Code)
    requires UniqueIds(nodes) && n in nodes
    requires NodeRefused(n, Members(roots), ParentMap(nodes), limits, code)
    ensures Explains(code, nodes, roots, limits)
    ensures !NodesOk(nodes, roots, ParentMap(nodes), limits)
  {
    ParentMapKeys(nodes);
    assert !NodeOk(n, Members(roots), ParentMap(nodes), limits);
    if code == Cycle { SelfParentIsCycle(ParentMap(nodes), n.id); }
  }

  lemma DepthCeiling(nodes: seq<Node>, depths: map<Id, nat>, max: nat)
    requires UniqueIds(nodes) && depths.Keys == ParentMap(nodes).Keys && DepthsOk(ParentMap(nodes), depths)
    ensures DepthAtMost(nodes, max) <==> forall id | id in depths :: depths[id] <= max
  {
    var byId := ParentMap(nodes);
    ParentMapKeys(nodes);
    if DepthAtMost(nodes, max) {
      forall id | id in depths ensures depths[id] <= max {
        var n :| n in nodes && n.id == id;
        var d: nat :| d <= max && HasDepth(byId, n.id, d);
        DepthIsUnique(byId, id, d, depths[id]);
      }
    }
    if forall id | id in depths :: depths[id] <= max {
      forall n | n in nodes ensures exists d: nat :: d <= max && HasDepth(byId, n.id, d) {
        assert HasDepth(byId, n.id, depths[n.id]);
      }
    }
  }

  /** The structural layer accepts exactly the snapshots whose nodes form a forest with `roots` as its roots,
      known relation targets and a height within the ceiling; a refusal's code says what is wrong. */
  method ValidateStructure(nodes: seq<Node>, roots: seq<Id>, limits: Limits) returns (r: Result<()>)
    ensures r.Ok? <==>
              |nodes| <= limits.maxNodes && IsForest(nodes, roots, limits) && DepthAtMost(nodes, limits.maxDepth)
    ensures r.Err? ==> Explains(r.code, nodes, roots, limits)
  {
    if |nodes| > limits.maxNodes {
      return Err(Count);
    }
    var ids := CollectIds(nodes);
    if ids.Err? {
      return Err(ids.code);
    }
    var byId := ids.value;
    ParentMapKeys(nodes);
    ChecksMeanForest(nodes, roots, limits);
    RootsMean(nodes, roots, limits);
    var rootSet := CheckRoots(nodes, roots, byId);
    if rootSet.Err? {
      return Err(rootSet.code);
    }
    assert rootSet.value == Members(roots);
    r := CheckNodes(nodes, rootSet.value, byId, limits);
    if r.Err? {
      ghost var n :| n in nodes && NodeRefused(n, rootSet.value, byId, limits, r.code);
      NodeRefusalExplains(nodes, roots, limits, n, r.code);
      return;
    }
    NodesOkMeanClosed(nodes, roots, limits);
    var depths, cycleAt, pushes := ComputeDepths(nodes, byId);
    if cycleAt.Some? {
      return Err(Cycle);
    }
    DepthCeiling(nodes, depths, limits.maxDepth);
    var shallow := CheckDepths(depths, limits.maxDepth);
    if !shallow {
      return Err(Depth);
    }
    return Ok(());
  }
}
