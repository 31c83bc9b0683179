/** Which packages of a cargo metadata document the chosen roots depend on. */
module Reachability {
  import opened Options

  type Id = string

  datatype Package = Package(id: Id, name: string, version: string, manifestPath: string)

  // One entry of resolve.nodes.
  datatype Node = Node(id: Id, dependencies: seq<Id>)

  datatype Error = NoSuchManifest | NoRoots

  datatype Result<+T> = Ok(value: T) | Err(error: Error)

  type Graph = map<Id, seq<Id>>

  // A repeated id keeps its last entry.
  function Edges(nodes: seq<Node>): Graph {
    if nodes == [] then map[]
    else Edges(nodes[..|nodes| - 1])[nodes[|nodes| - 1].id := nodes[|nodes| - 1].dependencies]
  }

  // ---------------------------------------------------------------- reachability

  ghost predicate Depends(g: Graph, a: Id, b: Id) { a in g && b in g[a] }

  ghost predicate Step(g: Graph, path: seq<Id>, k: nat)
    requires k + 1 < |path|
  {
    Depends(g, path[k], path[k + 1])
  }

  ghost predicate IsPath(g: Graph, roots: seq<Id>, path: seq<Id>) {
    path != [] && path[0] in roots && forall k: nat | k + 1 < |path| :: Step(g, path, k)
  }

  // A chain of dependencies, of any length, leads from a root to the id.
  ghost predicate Reachable(g: Graph, roots: seq<Id>, id: Id) {
    exists path :: IsPath(g, roots, path) && path[|path| - 1] == id
  }

  lemma RootReachable(g: Graph, roots: seq<Id>, id: Id)
    requires id in roots
    ensures Reachable(g, roots, id)
  {
    assert IsPath(g, roots, [id]);
    assert [id][|[id]| - 1] == id;
  }

  lemma StepReachable(g: Graph, roots: seq<Id>, a: Id, b: Id)
    requires Reachable(g, roots, a) && Depends(g, a, b)
    ensures Reachable(g, roots, b)
  {
    var path :| IsPath(g, roots, path) && path[|path| - 1] == a;
    var longer := path + [b];
    forall k: nat | k + 1 < |longer| ensures Step(g, longer, k) {
      if k + 1 < |path| { assert Step(g, path, k); }
    }
    assert IsPath(g, roots, longer) && longer[|longer| - 1] == b;
  }

  // A set that holds the roots and whatever its members depend on holds everything reachable.
  lemma {:induction false} ClosedHoldsPath(g: Graph, roots: seq<Id>, s: set<Id>, path: seq<Id>)
    requires IsPath(g, roots, path)
    requires forall id | id in roots :: id in s
    requires forall a, b | a in s && Depends(g, a, b) :: b in s
    ensures path[|path| - 1] in s
    decreases |path|
  {
    if |path| > 1 {
      var front := path[..|path| - 1];
      forall k: nat | k + 1 < |front| ensures Step(g, front, k) { assert Step(g, path, k); }
      ClosedHoldsPath(g, roots, s, front);
      assert Step(g, path, |path| - 2);
    }
  }

  // ---------------------------------------------------------------- what the document says

  // The last entry with this id, which is the one that counts.
  ghost predicate IsLastWith(nodes: seq<Node>, k: nat, id: Id) {
    && k < |nodes| && nodes[k].id == id
    && forall i | k < i < |nodes| :: nodes[i].id != id
  }

  /** The table has an entry for exactly the ids of the nodes, and it is the dependency list of the last such node. */
  lemma {:induction false} EdgesExactly(nodes: seq<Node>, id: Id)
    ensures id in Edges(nodes) <==> exists k: nat :: IsLastWith(nodes, k, id)
    ensures forall k: nat | IsLastWith(nodes, k, id) :: Edges(nodes)[id] == nodes[k].dependencies
  {
    if nodes != [] {
      var n := |nodes| - 1;
      var front := nodes[..n];
      EdgesExactly(front, id);
      if nodes[n].id == id {
        assert IsLastWith(nodes, n, id);
      } else {
        forall k: nat ensures IsLastWith(nodes, k, id) <==> IsLastWith(front, k, id) {
          if IsLastWith(front, k, id) { assert nodes[k] == front[k]; }
        }
      }
    }
  }

  // The document lists b among the dependencies of a.
  ghost predicate Lists(nodes: seq<Node>, a: Id, b: Id) {
    exists k: nat :: IsLastWith(nodes, k, a) && b in nodes[k].dependencies
  }

  ghost predicate Leads(nodes: seq<Node>, path: seq<Id>, k: nat)
    requires k + 1 < |path|
  {
    Lists(nodes, path[k], path[k + 1])
  }

  // A chain of listed dependencies leads from a root to the id.
  ghost predicate DependsOn(nodes: seq<Node>, roots: seq<Id>, id: Id) {
    exists path: seq<Id> ::
      && path != [] && path[0] in roots && path[|path| - 1] == id
      && forall k: nat | k + 1 < |path| :: Leads(nodes, path, k)
  }

  lemma ListsIsDepends(nodes: seq<Node>, a: Id, b: Id)
    ensures Lists(nodes, a, b) <==> Depends(Edges(nodes), a, b)
  {
    EdgesExactly(nodes, a);
  }

  lemma DependsOnIsReachable(nodes: seq<Node>, roots: seq<Id>, id: Id)
    ensures DependsOn(nodes, roots, id) <==> Reachable(Edges(nodes), roots, id)
  {
    var g := Edges(nodes);
    if DependsOn(nodes, roots, id) {
      var path :| path != [] && path[0] in roots && path[|path| - 1] == id
                  && forall k: nat | k + 1 < |path| :: Leads(nodes, path, k);
      forall k: nat | k + 1 < |path| ensures Step(g, path, k) {
        assert Leads(nodes, path, k);
        ListsIsDepends(nodes, path[k], path[k + 1]);
      }
      assert IsPath(g, roots, path);
    }
    if Reachable(g, roots, id) {
      var path :| IsPath(g, roots, path) && path[|path| - 1] == id;
      forall k: nat | k + 1 < |path| ensures Leads(nodes, path, k) {
        assert Step(g, path, k);
        ListsIsDepends(nodes, path[k], path[k + 1]);
      }
    }
  }

  // ---------------------------------------------------------------- the worklist

  // Every id the document mentions as a root or a dependency.
  ghost function Mentioned(g: Graph, roots: seq<Id>): set<Id> {
    (set id | id in roots) + (set a, b | a in g && b in g[a] :: b)
  }

  // Nothing reachable is forgotten: it has been seen or is still to be looked at.
  ghost predicate Progress(g: Graph, roots: seq<Id>, seen: set<Id>, pending: seq<Id>) {
    && (forall id | id in roots :: id in seen || id in pending)
    && (forall a, b | a in seen && Depends(g, a, b) :: b in seen || b in pending)
    && (forall id | id in seen :: Reachable(g, roots, id))
    && (forall id | id in pending :: Reachable(g, roots, id))
    && (forall id | id in seen || id in pending :: id in Mentioned(g, roots))
  }

  lemma Popped(pending: seq<Id>)
    requires pending != []
    ensures forall id :: id in pending <==> id in pending[..|pending| - 1] || id == pending[|pending| - 1]
  {
    assert pending == pending[..|pending| - 1] + [pending[|pending| - 1]];
  }

  // An unseen id is marked and its dependencies are queued.
  lemma ProgressMarks(g: Graph, roots: seq<Id>, seen: set<Id>, pending: seq<Id>)
    requires Progress(g, roots, seen, pending) && pending != []
    ensures var id, rest := pending[|pending| - 1], pending[..|pending| - 1];
      && (id in seen ==> Progress(g, roots, seen, rest))
      && id in Mentioned(g, roots)
      && Progress(g, roots, seen + {id}, if id in g then rest + g[id] else rest)
  {
    var id, rest := pending[|pending| - 1], pending[..|pending| - 1];
    Popped(pending);
    if id in g {
      forall b | b in g[id] ensures Reachable(g, roots, b) {
        assert Depends(g, id, b);
        StepReachable(g, roots, id, b);
      }
      assert forall b :: Depends(g, id, b) ==> b in rest + g[id];
    }
  }

  /** The worklist ends on every graph, cyclic or with edges to unknown ids, and finds exactly what is reachable. */
  method FindReachable(g: Graph, roots: seq<Id>) returns (seen: set<Id>)
    ensures forall id :: id in seen <==> Reachable(g, roots, id)
  {
    seen := {};
    var pending := roots;
    forall id | id in roots ensures Reachable(g, roots, id) { RootReachable(g, roots, id); }
    while pending != []
      invariant Progress(g, roots, seen, pending)
      decreases Mentioned(g, roots) - seen, |pending|
    {
      ProgressMarks(g, roots, seen, pending);
      var id := pending[|pending| - 1];
      pending := pending[..|pending| - 1];
      if id in seen {
        continue;
      }
      assert id in Mentioned(g, roots) - seen;
      seen := seen + {id};
      if id in g {
        pending := pending + g[id];
      }
    }
    forall id | Reachable(g, roots, id) ensures id in seen {
      var path :| IsPath(g, roots, path) && path[|path| - 1] == id;
      ClosedHoldsPath(g, roots, seen, path);
    }
  }

  // ---------------------------------------------------------------- the packages

  // The reachable packages, in their original order.
  ghost function Selected(packages: seq<Package>, g: Graph, roots: seq<Id>): seq<Package> {
    if packages == [] then []
    else
      var before, last := Selected(packages[..|packages| - 1], g, roots), packages[|packages| - 1];
      if Reachable(g, roots, last.id) then before + [last] else before
  }

  method CollectEdges(nodes: seq<Node>) returns (g: Graph)
    ensures g == Edges(nodes)
  {
    g := map[];
    for i := 0 to |nodes|
      invariant g == Edges(nodes[..i])
    {
      assert nodes[..i + 1][..i] == nodes[..i];
      g := g[nodes[i].id := nodes[i].dependencies];
    }
    assert nodes[..|nodes|] == nodes;
  }

  // Where the walk starts: the workspace's default members, or the package with the wanted manifest.
  datatype Start = DefaultMembers(ids: seq<Id>) | Manifest(path: string)

  type SamePath = (string, string) -> bool

  // The first package with the manifest, if any.
  function WithManifest(packages: seq<Package>, same: SamePath, path: string): Option<Id> {
    if packages == [] then None
    else if same(packages[0].manifestPath, path) then Some(packages[0].id)
    else WithManifest(packages[1..], same, path)
  }

  method FindManifest(packages: seq<Package>, same: SamePath, path: string) returns (r: Option<Id>)
    ensures r == WithManifest(packages, same, path)
  {
    assert packages[0..] == packages;
    for i := 0 to |packages|
      invariant WithManifest(packages[i..], same, path) == WithManifest(packages, same, path)
    {
      assert packages[i..][1..] == packages[i + 1..];
      if same(packages[i].manifestPath, path) {
        return Some(packages[i].id);
      }
    }
    return None;
  }

  ghost predicate IsFirstWith(packages: seq<Package>, same: SamePath, path: string, k: nat) {
    && k < |packages| && same(packages[k].manifestPath, path)
    && forall i | 0 <= i < k :: !same(packages[i].manifestPath, path)
  }

  lemma {:induction false} FirstWithManifest(packages: seq<Package>, same: SamePath, path: string)
    ensures WithManifest(packages, same, path).None? <==>
            forall i | 0 <= i < |packages| :: !same(packages[i].manifestPath, path)
    ensures forall k: nat | IsFirstWith(packages, same, path, k) ::
              WithManifest(packages, same, path) == Some(packages[k].id)
    ensures WithManifest(packages, same, path).Some? ==> exists k: nat :: IsFirstWith(packages, same, path, k)
  {
    if packages != [] {
      var rest := packages[1..];
      FirstWithManifest(rest, same, path);
      if same(packages[0].manifestPath, path) {
        assert IsFirstWith(packages, same, path, 0);
      } else {
        forall k: nat ensures IsFirstWith(packages, same, path, k) <==> k > 0 && IsFirstWith(rest, same, path, k - 1) {
          if k > 0 && IsFirstWith(rest, same, path, k - 1) {
            forall i | 0 <= i < k ensures !same(packages[i].manifestPath, path) {
              if i > 0 { assert packages[i] == rest[i - 1]; }
            }
          }
          if IsFirstWith(packages, same, path, k) {
            forall i | 0 <= i < k - 1 ensures !same(rest[i].manifestPath, path) { assert rest[i] == packages[i + 1]; }
          }
        }
        if WithManifest(rest, same, path).Some? {
          var k: nat :| IsFirstWith(rest, same, path, k);
          assert IsFirstWith(packages, same, path, k + 1);
        }
        forall i | 0 <= i < |rest| ensures rest[i] == packages[i + 1] {}
      }
    }
  }

  // The ids the walk has to start from: the default members, or the first package with the manifest.
  ghost predicate StartsAt(packages: seq<Package>, start: Start, same: SamePath, roots: seq<Id>) {
    match start
    case DefaultMembers(ids) => roots == ids && ids != []
    case Manifest(path) => exists k: nat :: IsFirstWith(packages, same, path, k) && roots == [packages[k].id]
  }

  // Exactly the packages the document makes the roots depend on, in its order.
  ghost predicate Keeps(kept: seq<Package>, packages: seq<Package>, nodes: seq<Node>, roots: seq<Id>) {
    exists at: seq<nat> ::
      && Picks(at, kept, packages)
      && forall k: nat | k < |packages| :: k in at <==> DependsOn(nodes, roots, packages[k].id)
  }

  lemma SelectedKeeps(packages: seq<Package>, nodes: seq<Node>, roots: seq<Id>)
    ensures Keeps(Selected(packages, Edges(nodes), roots), packages, nodes, roots)
  {
    var at := SelectedExactly(packages, Edges(nodes), roots);
    forall k: nat | k < |packages| ensures k in at <==> DependsOn(nodes, roots, packages[k].id) {
      DependsOnIsReachable(nodes, roots, packages[k].id);
    }
  }

  /** read_reachable_metadata_packages, after the document is parsed: the packages that the roots depend on by
      chains of entries of the document, or the reason there is no root. */
  method ReachablePackages(packages: seq<Package>, nodes: seq<Node>, start: Start, same: SamePath)
    returns (r: Result<seq<Package>>)
    ensures r.Ok? ==> exists roots :: StartsAt(packages, start, same, roots) && Keeps(r.value, packages, nodes, roots)
    ensures r == Err(NoRoots) <==> start == DefaultMembers([])
    ensures r == Err(NoSuchManifest) <==>
            start.Manifest? && forall k | 0 <= k < |packages| :: !same(packages[k].manifestPath, start.path)
  {
    var roots: seq<Id> := [];
    match start {
      case DefaultMembers(ids) => roots := ids;
      case Manifest(path) =>
        var id := FindManifest(packages, same, path);
        FirstWithManifest(packages, same, path);
        if id.None? {
          return Err(NoSuchManifest);
        }
        roots := [id.value];
    }
    if roots == [] {
      return Err(NoRoots);
    }
    var g := CollectEdges(nodes);
    var seen := FindReachable(g, roots);
    var kept: seq<Package> := [];
    for i := 0 to |packages|
      invariant kept == Selected(packages[..i], g, roots)
    {
      assert packages[..i + 1][..i] == packages[..i];
      if packages[i].id in seen {
        kept := kept + [packages[i]];
      }
    }
    assert packages[..|packages|] == packages;
    SelectedKeeps(packages, nodes, roots);
    assert StartsAt(packages, start, same, roots);
    return Ok(kept);
  }

  // `xs` lists the elements of `ys` at the positions `at`, which increase.
  ghost predicate Picks(at: seq<nat>, xs: seq<Package>, ys: seq<Package>) {
    && |at| == |xs|
    && (forall i | 0 <= i < |at| :: at[i] < |ys| && xs[i] == ys[at[i]])
    && (forall i, j | 0 <= i < j < |at| :: at[i] < at[j])
  }

  lemma PicksMore(at: seq<nat>, xs: seq<Package>, front: seq<Package>, last: Package)
    requires Picks(at, xs, front)
    ensures Picks(at, xs, front + [last])
    ensures Picks(at + [|front|], xs + [last], front + [last])
  {
  }

  ghost predicate AllReachable(at: seq<nat>, packages: seq<Package>, g: Graph, roots: seq<Id>) {
    forall k: nat | k < |packages| :: k in at <==> Reachable(g, roots, packages[k].id)
  }

  /** The selection lists, in the original order, the packages at exactly the reachable positions. */
  lemma {:induction false} SelectedExactly(packages: seq<Package>, g: Graph, roots: seq<Id>) returns (at: seq<nat>)
    ensures Picks(at, Selected(packages, g, roots), packages)
    ensures AllReachable(at, packages, g, roots)
  {
    at := [];
    if packages != [] {
      var n := |packages| - 1;
      var front, last := packages[..n], packages[n];
      var before := SelectedExactly(front, g, roots);
      assert packages == front + [last];
      PicksMore(before, Selected(front, g, roots), front, last);
      at := if Reachable(g, roots, last.id) then before + [n] else before;
      forall k: nat | k < |packages| ensures k in at <==> Reachable(g, roots, packages[k].id) {
        if k < n { assert packages[k] == front[k]; } else { assert k !in before; }
      }
    }
  }
}
