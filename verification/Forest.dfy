/** Parent relations as maps: ancestors, depths, cycles. */
module Forest {
  import opened Options

  type Id = string

  // Every node's parent; a root has none.
  type Parents = map<Id, Option<Id>>

  ghost predicate Closed(m: Parents) {
    forall id | id in m && m[id].Some? :: m[id].value in m
  }

  // The ancestor k levels up.
  ghost function Up(m: Parents, id: Id, k: nat): Option<Id>
    decreases k
  {
    if id !in m then None
    else if k == 0 then Some(id)
    else if m[id].None? then None
    else Up(m, m[id].value, k - 1)
  }

  // A root has depth 1, a child one more than its parent.
  ghost predicate HasDepth(m: Parents, id: Id, d: nat)
    decreases d
  {
    && id in m && d > 0
    && if d == 1 then m[id].None? else m[id].Some? && HasDepth(m, m[id].value, d - 1)
  }

  ghost predicate OnCycle(m: Parents, id: Id) {
    exists k: nat :: k > 0 && Up(m, id, k) == Some(id)
  }

  ghost predicate Acyclic(m: Parents) {
    forall id | id in m :: !OnCycle(m, id)
  }

  lemma {:induction false} UpUp(m: Parents, id: Id, j: nat, k: nat)
    requires Up(m, id, j).Some?
    ensures Up(m, id, j + k) == Up(m, Up(m, id, j).value, k)
    decreases j
  {
    if j > 0 {
      UpUp(m, m[id].value, j - 1, k);
    }
  }

  // A node of depth d has exactly d - 1 ancestors.
  lemma {:induction false} DepthCountsAncestors(m: Parents, id: Id, d: nat, k: nat)
    requires HasDepth(m, id, d)
    ensures Up(m, id, k).Some? <==> k < d
    decreases d
  {
    if d > 1 && k > 0 {
      DepthCountsAncestors(m, m[id].value, d - 1, k - 1);
    }
  }

  lemma DepthIsUnique(m: Parents, id: Id, d: nat, e: nat)
    requires HasDepth(m, id, d) && HasDepth(m, id, e)
    ensures d == e
  {
    if d < e {
      DepthCountsAncestors(m, id, d, d);
      DepthCountsAncestors(m, id, e, d);
    } else if e < d {
      DepthCountsAncestors(m, id, d, e);
      DepthCountsAncestors(m, id, e, e);
    }
  }

  // Going round a cycle never ends, so a node with a depth is on none.
  lemma {:induction false} RoundAndRound(m: Parents, id: Id, k: nat, n: nat)
    requires k > 0 && Up(m, id, k) == Some(id)
    ensures exists j: nat :: j >= n && Up(m, id, j).Some?
    decreases n
  {
    if n <= k {
      assert Up(m, id, k).Some?;
    } else {
      RoundAndRound(m, id, k, n - k);
      var j: nat :| j >= n - k && Up(m, id, j).Some?;
      UpUp(m, id, k, j);
      assert k + j >= n && Up(m, id, k + j).Some?;
    }
  }

  lemma DepthMeansNoCycle(m: Parents, id: Id, d: nat)
    requires HasDepth(m, id, d)
    ensures !OnCycle(m, id)
  {
    if OnCycle(m, id) {
      var k: nat :| k > 0 && Up(m, id, k) == Some(id);
      RoundAndRound(m, id, k, d);
      var j: nat :| j >= d && Up(m, id, j).Some?;
      DepthCountsAncestors(m, id, d, j);
    }
  }

  /** A parent relation in which every edge goes to a smaller rank has a depth at every node. */
  lemma {:induction false} RankedHasDepth(m: Parents, rank: map<Id, nat>, id: Id) returns (d: nat)
    requires Closed(m) && m.Keys <= rank.Keys && id in m
    requires forall x | x in m && m[x].Some? :: rank[m[x].value] < rank[x]
    ensures HasDepth(m, id, d)
    decreases rank[id]
  {
    if m[id].None? {
      d := 1;
    } else {
      var e := RankedHasDepth(m, rank, m[id].value);
      d := e + 1;
    }
  }
}
