/**
 formComponents of gen/fragment.go: a union-find with path halving groups the
 nodes that one flow signature connects, before regions are filtered.
 */
module RegionForming {
  import opened Basics
  import opened Graphs
  import opened Sorting
  import opened GenNodes
  import opened Fragments

  /** The parent array of the union-find. root and depth are what the pointers mean: the representative each node
      leads to, and a bound on the way there. */
  class DisjointSets {
    const parent: array<nat>
    ghost var root: seq<nat>
    ghost var depth: seq<nat>

    ghost predicate Valid()
      reads this, parent
    {
      && |root| == |depth| == parent.Length
      && (forall x: nat {:trigger parent[x]} :: x < parent.Length ==>
            parent[x] < parent.Length && root[x] < parent.Length)
      && (forall x: nat {:trigger parent[x]} :: x < parent.Length ==>
            root[parent[x]] == root[x] && (parent[x] == x <==> root[x] == x))
      && (forall x: nat {:trigger parent[x]} :: x < parent.Length && parent[x] != x ==> depth[parent[x]] < depth[x])
    }

    constructor (n: nat)
      ensures Valid() && fresh(parent) && parent.Length == n
      ensures forall x :: 0 <= x < n ==> root[x] == x
    {
      parent := new nat[n](i => i);
      root := seq(n, i => i);
      depth := seq(n, i => 0);
    }

    /** Follows parents to the representative, halving the path on the way. */
    method Find(x0: nat) returns (x: nat)
      requires Valid() && x0 < parent.Length
      modifies parent
      ensures Valid() && x == root[x0] && x < parent.Length && parent[x] == x
    {
      x := x0;
      while parent[x] != x
        invariant Valid() && x < parent.Length && root[x] == root[x0]
        decreases depth[x]
      {
        parent[x] := parent[parent[x]];
        x := parent[x];
      }
    }

    /** Merges the classes of i and j. */
    method Union(i: nat, j: nat)
      requires Valid() && i < parent.Length && j < parent.Length
      modifies this, parent
      ensures Valid() && |root| == |old(root)|
      ensures forall x: nat :: x < |root| ==>
                root[x] == if old(root)[x] == old(root)[i] then old(root)[j] else old(root)[x]
    {
      var ri := Find(i);
      var rj := Find(j);
      parent[ri] := rj;
      ghost var before, way := root, depth;
      root := seq(|root|, x requires 0 <= x < |before| => if before[x] == ri then rj else before[x]);
      if ri != rj {
        depth := seq(|way|, x requires 0 <= x < |way| => if before[x] == ri then way[x] + way[rj] + 1 else way[x]);
      }
    }
  }

  // ---- what is joined ----

  /** A compound root expression shared by several flows, with the variables it names and the variable that callers
      bind its value to when a region assembles it. */
  datatype SharedRoot = SharedRoot(flows: set<Flow>, idents: seq<Var>, result: Var)

  /** i defines a variable the root names, is no config load, and serves exactly the root's flows. */
  predicate Feeds(p: Plan, config: set<nat>, s: SharedRoot, i: nat) {
    && |s.flows| >= 2 && i < |p.nodes| && i !in config && p.nodes[i].flows == s.flows
    && exists k :: 0 <= k < |s.idents| && s.idents[k] in p.definedBy && p.definedBy[s.idents[k]] == i
  }

  predicate Joinable(p: Plan, config: set<nat>, i: nat, j: nat) {
    && i < |p.nodes| && j < |p.nodes| && i !in config && j !in config && p.nodes[i].flows == p.nodes[j].flows
  }

  /** One flow signature connects i and j: one uses what the other defines, or both feed a shared root. */
  ghost predicate Joined(p: Plan, config: set<nat>, shared: seq<SharedRoot>, i: nat, j: nat) {
    && Joinable(p, config, i, j)
    && (UsesNode(p, i, j) || UsesNode(p, j, i) ||
        exists k :: 0 <= k < |shared| && Feeds(p, config, shared[k], i) && Feeds(p, config, shared[k], j))
  }

  ghost function JoinGraph(p: Plan, config: set<nat>, shared: seq<SharedRoot>): Graph<nat> {
    map i: nat | 0 <= i < |p.nodes| && i !in config :: set j | 0 <= j < |p.nodes| && Joined(p, config, shared, i, j)
  }

  lemma JoinEdge(p: Plan, config: set<nat>, shared: seq<SharedRoot>, i: nat, j: nat)
    requires Joined(p, config, shared, i, j)
    ensures var g := JoinGraph(p, config, shared);
            j in Succ(g, i) && i in Succ(g, j) && Reach(g, i, j) && Reach(g, j, i)
  {
    assert Joined(p, config, shared, j, i);
    ReachEdge(JoinGraph(p, config, shared), i, j);
    ReachEdge(JoinGraph(p, config, shared), j, i);
  }

  /** Classes only contain nodes that are connected. */
  ghost predicate OnlyConnected(g: Graph<nat>, root: seq<nat>) {
    forall x: nat, y: nat :: x < |root| && y < |root| && root[x] == root[y] ==> Mutual(g, x, y)
  }

  lemma UnionConnected(g: Graph<nat>, before: seq<nat>, root: seq<nat>, i: nat, j: nat)
    requires OnlyConnected(g, before) && |root| == |before| && i < |root| && j < |root| && Mutual(g, i, j)
    requires forall x: nat :: x < |root| ==> root[x] == if before[x] == before[i] then before[j] else before[x]
    ensures OnlyConnected(g, root)
  {
    forall x: nat, y: nat | x < |root| && y < |root| && root[x] == root[y]
      ensures Mutual(g, x, y)
    {
      if before[x] == before[y] {
        assert Mutual(g, x, y);
      } else if before[x] == before[i] {
        assert before[y] == before[j];
        MutualTrans(g, x, i, j);
        MutualTrans(g, x, j, y);
      } else {
        assert before[y] == before[i] && before[x] == before[j];
        MutualTrans(g, y, i, j);
        MutualTrans(g, y, j, x);
      }
    }
  }

  lemma MutualTrans(g: Graph<nat>, a: nat, b: nat, c: nat)
    requires Mutual(g, a, b) && Mutual(g, b, c)
    ensures Mutual(g, a, c)
  {
    ReachTrans(g, a, b, c);
    ReachTrans(g, c, b, a);
  }

  // ---- joining ----

  /** Joins nodes along uses, then the nodes feeding each shared root. */
  method JoinAll(p: Plan, config: set<nat>, shared: seq<SharedRoot>) returns (sets: DisjointSets)
    requires WellFormed(p)
    ensures fresh(sets) && fresh(sets.parent) && sets.Valid() && sets.parent.Length == |p.nodes|
    ensures OnlyConnected(JoinGraph(p, config, shared), sets.root)
    ensures forall i: nat, j: nat :: Joined(p, config, shared, i, j) ==> sets.root[i] == sets.root[j]
  {
    hide UsesNode, Joined, OnlyConnected, JoinGraph;
    sets := new DisjointSets(|p.nodes|);
    ghost var g := JoinGraph(p, config, shared);
    OnlySelf(g, sets.root);
    for i := 0 to |p.nodes|
      invariant fresh(sets) && fresh(sets.parent) && sets.Valid() && sets.parent.Length == |p.nodes|
      invariant OnlyConnected(g, sets.root)
      invariant forall a: nat, b: nat :: a < i && Joinable(p, config, a, b) && UsesNode(p, a, b) ==>
                sets.root[a] == sets.root[b]
    {
      if i !in config {
        JoinUses(sets, p, config, shared, i);
      }
    }
    for k := 0 to |shared|
      invariant fresh(sets) && fresh(sets.parent) && sets.Valid() && sets.parent.Length == |p.nodes|
      invariant OnlyConnected(g, sets.root)
      invariant forall a: nat, b: nat :: Joinable(p, config, a, b) && UsesNode(p, a, b) ==> sets.root[a] == sets.root[b]
      invariant forall m, a: nat, b: nat ::
                  0 <= m < k && Feeds(p, config, shared[m], a) && Feeds(p, config, shared[m], b) ==>
                    sets.root[a] == sets.root[b]
    {
      JoinRoot(sets, p, config, shared, k);
    }
    JoinedDone(p, config, shared, sets.root);
  }

  lemma OnlySelf(g: Graph<nat>, root: seq<nat>)
    requires forall x :: 0 <= x < |root| ==> root[x] == x
    ensures OnlyConnected(g, root)
  {
    forall x: nat | x < |root| { ReachRefl(g, x); }
  }

  lemma JoinedDone(p: Plan, config: set<nat>, shared: seq<SharedRoot>, root: seq<nat>)
    requires |root| == |p.nodes|
    requires forall a: nat, b: nat :: Joinable(p, config, a, b) && UsesNode(p, a, b) ==> root[a] == root[b]
    requires forall m, a: nat, b: nat ::
               0 <= m < |shared| && Feeds(p, config, shared[m], a) && Feeds(p, config, shared[m], b) ==>
                 root[a] == root[b]
    ensures forall i: nat, j: nat :: Joined(p, config, shared, i, j) ==> root[i] == root[j]
  {}

  /** Every class that was one stays one. */
  ghost predicate Coarser(before: seq<nat>, after: seq<nat>) {
    |before| == |after| && forall x: nat, y: nat :: x < |before| && y < |before| && before[x] == before[y] ==>
        after[x] == after[y]
  }

  method JoinUses(sets: DisjointSets, p: Plan, config: set<nat>, ghost shared: seq<SharedRoot>, i: nat)
    requires WellFormed(p) && i < |p.nodes| && i !in config && sets.Valid() && sets.parent.Length == |p.nodes|
    requires OnlyConnected(JoinGraph(p, config, shared), sets.root)
    modifies sets, sets.parent
    ensures sets.Valid() && OnlyConnected(JoinGraph(p, config, shared), sets.root) && Coarser(old(sets.root), sets.root)
    ensures forall j: nat :: Joinable(p, config, i, j) && UsesNode(p, i, j) ==> sets.root[i] == sets.root[j]
  {
    hide Joined, OnlyConnected, JoinGraph;
    var uses := p.nodes[i].uses;
    for k := 0 to |uses|
      invariant sets.Valid() && OnlyConnected(JoinGraph(p, config, shared), sets.root) &&
                Coarser(old(sets.root), sets.root)
      invariant forall m :: 0 <= m < k && uses[m] in p.definedBy && Joinable(p, config, i, p.definedBy[uses[m]]) ==>
                              sets.root[i] == sets.root[p.definedBy[uses[m]]]
    {
      if uses[k] in p.definedBy {
        var j := p.definedBy[uses[k]];
        if Joinable(p, config, i, j) {
          assert UsesNode(p, i, j);
          UsesJoined(p, config, shared, i, j);
          ghost var before := sets.root;
          sets.Union(i, j);
          UnionConnected(JoinGraph(p, config, shared), before, sets.root, i, j);
        }
      }
    }
    forall j: nat | Joinable(p, config, i, j) && UsesNode(p, i, j)
      ensures sets.root[i] == sets.root[j]
    {
      var v :| v in uses && v in p.definedBy && p.definedBy[v] == j;
      var m :| 0 <= m < |uses| && uses[m] == v;
    }
  }

  lemma UsesJoined(p: Plan, config: set<nat>, shared: seq<SharedRoot>, i: nat, j: nat)
    requires Joinable(p, config, i, j) && UsesNode(p, i, j)
    ensures Mutual(JoinGraph(p, config, shared), i, j)
  {
    JoinEdge(p, config, shared, i, j);
  }

  lemma FeedsJoined(p: Plan, config: set<nat>, shared: seq<SharedRoot>, k: nat, i: nat, j: nat)
    requires k < |shared| && Feeds(p, config, shared[k], i) && Feeds(p, config, shared[k], j)
    ensures Mutual(JoinGraph(p, config, shared), i, j)
  {
    assert Joined(p, config, shared, i, j);
    JoinEdge(p, config, shared, i, j);
  }

  /** Joins everything that feeds one shared root to the first node that does. */
  method JoinRoot(sets: DisjointSets, p: Plan, config: set<nat>, shared: seq<SharedRoot>, k: nat)
    requires WellFormed(p) && k < |shared| && sets.Valid() && sets.parent.Length == |p.nodes|
    requires OnlyConnected(JoinGraph(p, config, shared), sets.root)
    modifies sets, sets.parent
    ensures sets.Valid() && OnlyConnected(JoinGraph(p, config, shared), sets.root) && Coarser(old(sets.root), sets.root)
    ensures forall a: nat, b: nat :: Feeds(p, config, shared[k], a) && Feeds(p, config, shared[k], b) ==>
                                       sets.root[a] == sets.root[b]
  {
    hide Joined, OnlyConnected, JoinGraph;
    var s := shared[k];
    var first: Option<nat> := None;
    for m := 0 to |s.idents|
      invariant sets.Valid() && OnlyConnected(JoinGraph(p, config, shared), sets.root) &&
                Coarser(old(sets.root), sets.root)
      invariant first.Some? ==> Feeds(p, config, s, first.value)
      invariant forall q ::
                  0 <= q < m && s.idents[q] in p.definedBy && Feeds(p, config, s, p.definedBy[s.idents[q]]) ==>
                    first.Some? && sets.root[p.definedBy[s.idents[q]]] == sets.root[first.value]
    {
      if s.idents[m] in p.definedBy {
        var j := p.definedBy[s.idents[m]];
        if |s.flows| >= 2 && j !in config && p.nodes[j].flows == s.flows {
          assert Feeds(p, config, s, j);
          if first.None? {
            first := Some(j);
          } else {
            FeedsJoined(p, config, shared, k, first.value, j);
            ghost var before := sets.root;
            sets.Union(first.value, j);
            UnionConnected(JoinGraph(p, config, shared), before, sets.root, first.value, j);
          }
        }
      }
    }
    forall a: nat | Feeds(p, config, s, a)
      ensures first.Some? && sets.root[a] == sets.root[first.value]
    {
      var q :| 0 <= q < |s.idents| && s.idents[q] in p.definedBy && p.definedBy[s.idents[q]] == a;
    }
  }

  // ---- grouping ----

  /** The groups: every node that is no config load in exactly one, ascending, and two of them together exactly when
      one flow signature connects them. */
  ghost predicate Groups(p: Plan, config: set<nat>, shared: seq<SharedRoot>, groups: seq<seq<nat>>) {
    && (forall k :: 0 <= k < |groups| ==> groups[k] != [] && forall a, b :: 0 <= a < b < |groups[k]| ==>
        groups[k][a] < groups[k][b])
    && (forall i: nat :: (i < |p.nodes| && i !in config) <==> exists k :: 0 <= k < |groups| && i in groups[k])
    && (forall j, k, x, y :: 0 <= j < |groups| && 0 <= k < |groups| && x in groups[j] && y in groups[k] ==>
                               (j == k <==> Reach(JoinGraph(p, config, shared), x, y)))
  }

  method FormComponents(p: Plan, config: set<nat>, shared: seq<SharedRoot>) returns (groups: seq<seq<nat>>)
    requires WellFormed(p)
    ensures Groups(p, config, shared, groups)
  {
    var sets := JoinAll(p, config, shared);
    RootIffReach(p, config, shared, sets.root);
    hide Joined, OnlyConnected, JoinGraph;
    groups := [];
    var slot: map<nat, nat> := map[];
    ghost var root := sets.root;
    for i := 0 to |p.nodes|
      invariant fresh(sets) && fresh(sets.parent) && sets.Valid() && sets.parent.Length == |p.nodes| &&
                sets.root == root
      invariant Slots(root, config, i, groups, slot)
    {
      if i !in config {
        var r := sets.Find(i);
        if r !in slot {
          slot := slot[r := |groups|];
          groups := groups + [[i]];
        } else {
          groups := groups[slot[r] := groups[slot[r]] + [i]];
        }
      }
    }
    SlotsGroups(p, config, shared, root, groups, slot);
  }

  /** Groups of the first n nodes: slot tells each class's group. */
  ghost predicate Slots(root: seq<nat>, config: set<nat>, n: nat, groups: seq<seq<nat>>, slot: map<nat, nat>) {
    && n <= |root|
    && (forall r :: r in slot ==> slot[r] < |groups|)
    && (forall k :: 0 <= k < |groups| ==> groups[k] != [])
    && (forall i: nat :: i < n && i !in config ==> root[i] in slot && i in groups[slot[root[i]]])
    && (forall k, m :: 0 <= k < |groups| && 0 <= m < |groups[k]| ==>
                         groups[k][m] < n && groups[k][m] !in config && root[groups[k][m]] in slot &&
                             slot[root[groups[k][m]]] == k)
    && (forall r, s :: r in slot && s in slot && slot[r] == slot[s] ==> r == s)
    && (forall k, a, b :: 0 <= k < |groups| && 0 <= a < b < |groups[k]| ==> groups[k][a] < groups[k][b])
  }

  lemma RootIffReach(p: Plan, config: set<nat>, shared: seq<SharedRoot>, root: seq<nat>)
    requires |root| == |p.nodes| && OnlyConnected(JoinGraph(p, config, shared), root)
    requires forall i: nat, j: nat :: Joined(p, config, shared, i, j) ==> root[i] == root[j]
    ensures forall x: nat, y: nat :: x < |root| && y < |root| ==>
            (root[x] == root[y] <==> Reach(JoinGraph(p, config, shared), x, y))
  {
    var g := JoinGraph(p, config, shared);
    forall x: nat, y: nat | x < |root| && y < |root| && Reach(g, x, y)
      ensures root[x] == root[y]
    {
      var c := set z: nat | z in {x} + g.Keys && z < |root| && root[z] == root[x];
      assert Closed(g, c);
      ReachClosed(g, c, x, y);
    }
  }

  lemma SlotsGroups(p: Plan, config: set<nat>, shared: seq<SharedRoot>, root: seq<nat>, groups: seq<seq<nat>>,
                    slot: map<nat, nat>)
    requires |root| == |p.nodes| && Slots(root, config, |root|, groups, slot)
    requires forall x: nat, y: nat :: x < |root| && y < |root| ==>
             (root[x] == root[y] <==> Reach(JoinGraph(p, config, shared), x, y))
    ensures Groups(p, config, shared, groups)
  {
    hide Reach, JoinGraph;
    forall i: nat
      ensures (i < |p.nodes| && i !in config) <==> exists k :: 0 <= k < |groups| && i in groups[k]
    {
      if i < |p.nodes| && i !in config {
        assert i in groups[slot[root[i]]];
      }
    }
    forall j, k, x, y | 0 <= j < |groups| && 0 <= k < |groups| && x in groups[j] && y in groups[k]
      ensures j == k <==> Reach(JoinGraph(p, config, shared), x, y)
    {
      assert slot[root[x]] == j && slot[root[y]] == k;
    }
  }
}
