/**
 From groups to a plan: regions take over their groups, and colocateConfigs of
 gen/fragment.go moves a config load into the regions that consume it when every
 consuming flow agrees on its place. The plan that results gives every node at
 most one home per flow.
 */
module Colocation {
  import opened Basics
  import opened Graphs
  import opened Sorting
  import opened GenNodes
  import opened Fragments
  import opened RegionForming
  import opened Outlining

  /** What a node uses is needed in every flow of the node. */
  ghost predicate UsageClosed(p: Plan) {
    WellFormed(p) && forall i: nat, j: nat, f :: UsesNode(p, i, j) && j < |p.nodes| && f in p.nodes[i].flows ==>
        f in p.nodes[j].flows
  }

  /** A region's members serve all its flows. */
  ghost predicate MembersServe(p: Plan) {
    WellFormed(p) && forall i: nat, r: nat, f :: i < |p.nodes| && r in p.memberOf[i] && f in p.usage[r] ==>
        f in p.nodes[i].flows
  }

  /** Groups become regions, each serving the flows of its first member. */
  method Regions(nodes: seq<Node>, definedBy: map<Var, nat>, ghost config: set<nat>, ghost shared: seq<SharedRoot>,
                 groups: seq<seq<nat>>) returns (p: Plan)
    requires forall v :: v in definedBy ==> definedBy[v] < |nodes|
    requires var bare := Plan(nodes, definedBy, [], seq(|nodes|, i => [])); Groups(bare, config, shared, groups)
    ensures p.nodes == nodes && p.definedBy == definedBy && |p.usage| == |groups|
    ensures OneHome(p) && MembersServe(p)
    ensures forall i: nat, k: nat {:trigger k in p.memberOf[i]} ::
              i < |nodes| ==> (k in p.memberOf[i] <==> k < |groups| && i in groups[k])
    ensures forall i: nat, k: nat {:trigger k in p.memberOf[i]} ::
              i < |nodes| && k in p.memberOf[i] ==> p.usage[k] == nodes[i].flows && p.memberOf[i] == [k]
  {
    ghost var bare := Plan(nodes, definedBy, [], seq(|nodes|, i => []));
    var flowsOf := (group: seq<nat>) => if group != [] && group[0] < |nodes| then nodes[group[0]].flows else {};
    var usage := seq(|groups|, k requires 0 <= k < |groups| => flowsOf(groups[k]));
    var memberOf: seq<seq<nat>> := seq(|nodes|, i => []);
    for k := 0 to |groups|
      invariant |memberOf| == |nodes|
      invariant forall i: nat, r: nat {:trigger r in memberOf[i]} :: i < |nodes| ==>
                (r in memberOf[i] <==> r < k && i in groups[r])
      invariant forall i: nat :: i < |nodes| ==> |memberOf[i]| <= 1
    {
      for m := 0 to |groups[k]|
        invariant |memberOf| == |nodes|
        invariant forall i: nat, r: nat {:trigger r in memberOf[i]} :: i < |nodes| ==>
                  (r in memberOf[i] <==> (r < k && i in groups[r]) || (r == k && i in groups[k][..m]))
        invariant forall i: nat :: i < |nodes| ==> |memberOf[i]| <= 1
      {
        var i := groups[k][m];
        assert i in groups[k];
        InOneGroup(bare, config, shared, groups, k, i);
        assert i !in groups[k][..m];
        assert forall r: nat :: r !in memberOf[i];
        SomeIn(memberOf[i]);
        memberOf := memberOf[i := memberOf[i] + [k]];
      }
      assert groups[k][..|groups[k]|] == groups[k];
    }
    p := Plan(nodes, definedBy, usage, memberOf);
    forall i: nat, k | i < |nodes| && 0 <= k < |memberOf[i]|
      ensures memberOf[i][k] < |usage|
    {
      var r := memberOf[i][k];
      assert r in memberOf[i];
    }
    forall i: nat, r: nat | i < |nodes| && r in memberOf[i]
      ensures usage[r] == nodes[i].flows
    {
      SameFlows(bare, config, shared, groups, r, i);
    }
  }

  lemma InOneGroup(p: Plan, config: set<nat>, shared: seq<SharedRoot>, groups: seq<seq<nat>>, k: nat, i: nat)
    requires Groups(p, config, shared, groups) && k < |groups| && i in groups[k]
    ensures i < |p.nodes| && forall r: nat :: r < |groups| && i in groups[r] ==> r == k
  {
    ReachRefl(JoinGraph(p, config, shared), i);
    assert i !in config by { assert exists q :: 0 <= q < |groups| && i in groups[q]; }
    forall r: nat | r < |groups| && i in groups[r]
      ensures r == k
    {
      assert i in groups[r] && i in groups[k];
    }
  }

  /** Joined nodes share their flows, so a whole group does. */
  lemma SameFlows(p: Plan, config: set<nat>, shared: seq<SharedRoot>, groups: seq<seq<nat>>, k: nat, i: nat)
    requires Groups(p, config, shared, groups) && k < |groups| && i in groups[k]
    ensures groups[k] != [] && groups[k][0] < |p.nodes| && i < |p.nodes|
    ensures p.nodes[i].flows == p.nodes[groups[k][0]].flows
  {
    var g := JoinGraph(p, config, shared);
    var h := groups[k][0];
    assert h in groups[k] && Reach(g, h, i);
    InOneGroup(p, config, shared, groups, k, h);
    InOneGroup(p, config, shared, groups, k, i);
    var same := set x: nat | x in {h} + g.Keys && x < |p.nodes| && p.nodes[x].flows == p.nodes[h].flows;
    forall x, y | x in same && y in Succ(g, x)
      ensures y in same
    {
      assert Joined(p, config, shared, x, y);
    }
    assert Closed(g, same);
    ReachClosed(g, same, h, i);
  }

  // ---- config loads ----

  /** In flow c.flow a node other than i uses v at c.home, or the flow's own roots name v. */
  ghost predicate UsedAt(p: Plan, roots: map<Flow, set<Var>>, i: nat, v: Var, c: Consumer)
    requires WellFormed(p) && i < |p.nodes|
  {
    || (exists j: nat :: j != i && Sits(p, j, c) && v in p.nodes[j].uses)
    || (c.flow in p.nodes[i].flows && RootReads(roots, v, c))
  }

  /** Every flow that consumes v finds one place for it. */
  predicate Agreed(homes: set<Consumer>) {
    forall a, b | a in homes && b in homes :: a.flow == b.flow ==> a.home == b.home
  }

  method HomesOf(p: Plan, roots: map<Flow, set<Var>>, i: nat, v: Var) returns (homes: set<Consumer>)
    requires WellFormed(p) && i < |p.nodes|
    ensures forall c :: c in homes <==> UsedAt(p, roots, i, v, c)
  {
    hide HomeFor;
    homes := {};
    for n := 0 to |p.nodes|
      invariant forall c :: c in homes <==> exists j: nat :: j < n && j != i && Sits(p, j, c) && v in p.nodes[j].uses
    {
      ghost var before := homes;
      if n != i && v in p.nodes[n].uses {
        homes := homes + set f | f in p.nodes[n].flows :: Consumer(f, HomeFor(p, n, f));
      }
      forall c
        ensures c in homes <==> exists j: nat :: j < n + 1 && j != i && Sits(p, j, c) && v in p.nodes[j].uses
      {
        assert c in homes <==> c in before || (n != i && v in p.nodes[n].uses && Sits(p, n, c));
      }
    }
    homes := homes + set f | f in p.nodes[i].flows && f in roots && v in roots[f] :: Consumer(f, None);
  }

  function Place(p: Plan, i: nat, rs: seq<nat>): Plan
    requires i < |p.memberOf|
  {
    p.(memberOf := p.memberOf[i := p.memberOf[i] + rs])
  }

  /** A consumer's region is the consumer's home in every flow the region serves. */
  lemma ConsumerHome(p: Plan, roots: map<Flow, set<Var>>, i: nat, v: Var, c: Consumer, f: Flow)
    requires OneHome(p) && MembersServe(p) && i < |p.nodes| && UsedAt(p, roots, i, v, c) && c.home.Some?
    requires c.home.value < |p.usage| && f in p.usage[c.home.value]
    ensures UsedAt(p, roots, i, v, Consumer(f, c.home))
  {
    var j: nat :| j != i && Sits(p, j, c) && v in p.nodes[j].uses;
    assert c.home.value in p.memberOf[j];
    assert Apart(p.usage, p.memberOf[j]);
    ServedBy(p.usage, p.memberOf[j], c.home.value, f);
    assert Sits(p, j, Consumer(f, c.home));
  }

  /** What agreement gives: each chosen region is noted in every flow it serves. */
  lemma PlaceNoted(p: Plan, roots: map<Flow, set<Var>>, i: nat, v: Var, homes: set<Consumer>, r: nat, f: Flow)
    requires OneHome(p) && MembersServe(p) && UsageClosed(p) && i < |p.nodes| && v in p.definedBy && p.definedBy[v] == i
    requires forall c :: c in homes <==> UsedAt(p, roots, i, v, c)
    requires exists c :: c in homes && c.home == Some(r)
    ensures r < |p.usage| && (f in p.usage[r] ==> Consumer(f, Some(r)) in homes && f in p.nodes[i].flows)
  {
    hide OneHome, MembersServe, UsageClosed, UsedAt;
    var c :| c in homes && c.home == Some(r);
    HomeFormed(p);
    HomeBound(p, roots, i, v, c);
    if f in p.usage[r] {
      ConsumerHome(p, roots, i, v, c, f);
      UsedFlow(p, roots, i, v, Consumer(f, c.home));
    }
  }

  lemma PlaceHome(p: Plan, i: nat, homes: set<Consumer>, rs: seq<nat>)
    requires OneHome(p) && i < |p.nodes| && p.memberOf[i] == [] && Agreed(homes) && Distinct(rs)
    requires forall k :: 0 <= k < |rs| ==> rs[k] < |p.usage|
    requires forall k, f :: 0 <= k < |rs| && f in p.usage[rs[k]] ==> Consumer(f, Some(rs[k])) in homes
    ensures OneHome(Place(p, i, rs))
  {
    var q := Place(p, i, rs);
    assert q.memberOf[i] == rs;
    forall k, m, f | 0 <= k < m < |rs|
      ensures !(f in p.usage[rs[k]] && f in p.usage[rs[m]])
    {
      assert rs[k] != rs[m];
      assert Consumer(f, Some(rs[k])).home != Consumer(f, Some(rs[m])).home;
    }
  }

  lemma PlaceKeeps(p: Plan, roots: map<Flow, set<Var>>, i: nat, v: Var, homes: set<Consumer>, rs: seq<nat>)
    requires OneHome(p) && MembersServe(p) && UsageClosed(p) && i < |p.nodes| && p.memberOf[i] == []
    requires v in p.definedBy && p.definedBy[v] == i
    requires forall c :: c in homes <==> UsedAt(p, roots, i, v, c)
    requires Agreed(homes) && Distinct(rs) && forall r :: r in rs ==> exists c :: c in homes && c.home == Some(r)
    ensures OneHome(Place(p, i, rs)) && MembersServe(Place(p, i, rs)) && UsageClosed(Place(p, i, rs))
  {
    hide UsedAt, Agreed;
    forall k, f {:trigger f in p.usage[rs[k]]} | 0 <= k < |rs|
      ensures rs[k] < |p.usage|
      ensures f in p.usage[rs[k]] ==> Consumer(f, Some(rs[k])) in homes && f in p.nodes[i].flows
    {
      assert rs[k] in rs;
      PlaceNoted(p, roots, i, v, homes, rs[k], f);
    }
    forall k | 0 <= k < |rs|
      ensures rs[k] < |p.usage|
    {
      assert rs[k] in rs;
      PlaceNoted(p, roots, i, v, homes, rs[k], Flow(""));
    }
    PlaceHome(p, i, homes, rs);
    hide OneHome;
    var q := Place(p, i, rs);
    assert q.memberOf[i] == rs;
    forall a: nat, b: nat
      ensures UsesNode(q, a, b) <==> UsesNode(p, a, b)
    {}
  }

  lemma HomeBound(p: Plan, roots: map<Flow, set<Var>>, i: nat, v: Var, c: Consumer)
    requires WellFormed(p) && i < |p.nodes| && UsedAt(p, roots, i, v, c) && c.home.Some?
    ensures c.home.value < |p.usage|
  {}

  lemma UsedFlow(p: Plan, roots: map<Flow, set<Var>>, i: nat, v: Var, c: Consumer)
    requires UsageClosed(p) && i < |p.nodes| && v in p.definedBy && p.definedBy[v] == i && UsedAt(p, roots, i, v, c)
    ensures c.flow in p.nodes[i].flows
  {
    if j: nat :| j != i && Sits(p, j, c) && v in p.nodes[j].uses {
      assert UsesNode(p, j, i);
    }
  }

  /** The regions that consumers name, each once, in any order. */
  method RegionsIn(homes: set<Consumer>) returns (rs: seq<nat>)
    ensures Distinct(rs) && forall r :: r in rs <==> exists c :: c in homes && c.home == Some(r)
  {
    rs := [];
    var rest := homes;
    while rest != {}
      invariant rest <= homes && Distinct(rs)
      invariant forall r :: r in rs <==> exists c :: c in homes - rest && c.home == Some(r)
      decreases rest
    {
      var c :| c in rest;
      ghost var before := rest;
      rest := rest - {c};
      if c.home.Some? && c.home.value !in rs {
        rs := rs + [c.home.value];
      }
      assert homes - rest == (homes - before) + {c};
    }
  }

  /** No flow that consumes v finds two places for it. */
  ghost predicate Agreement(p: Plan, roots: map<Flow, set<Var>>, i: nat, v: Var)
    requires WellFormed(p) && i < |p.nodes|
  {
    forall a, b :: UsedAt(p, roots, i, v, a) && UsedAt(p, roots, i, v, b) && a.flow == b.flow ==> a.home == b.home
  }

  /** rs are the regions that consume v, each once. */
  ghost predicate ConsumingRegions(p: Plan, roots: map<Flow, set<Var>>, i: nat, v: Var, rs: seq<nat>)
    requires WellFormed(p) && i < |p.nodes|
  {
    Distinct(rs) && forall r :: r in rs <==> exists c :: UsedAt(p, roots, i, v, c) && c.home == Some(r)
  }

  /** What happens to one config load: agreed, it joins exactly the regions that consume it; else it stays inline. */
  ghost predicate Placement(p: Plan, roots: map<Flow, set<Var>>, i: nat, v: Var, q: Plan)
    requires WellFormed(p) && i < |p.nodes|
  {
    && (Agreement(p, roots, i, v) ==>
          exists rs :: ConsumingRegions(p, roots, i, v, rs) && q == p.(memberOf := p.memberOf[i := rs]))
    && (!Agreement(p, roots, i, v) ==> q == p)
  }

  /** The plans between two config loads, in the order of the loads. */
  ghost predicate Placements(roots: map<Flow, set<Var>>, config: seq<nat>, vars: map<nat, Var>, plans: seq<Plan>) {
    |plans| == |config| + 1 &&
    forall k :: 0 <= k < |config| ==>
                  WellFormed(plans[k]) && config[k] < |plans[k].nodes| && config[k] in vars &&
                  Placement(plans[k], roots, config[k], vars[config[k]], plans[k + 1])
  }

  /** One home per flow, members that serve their regions' flows, and usage closed under uses. */
  ghost predicate WellServed(p: Plan) {
    OneHome(p) && MembersServe(p) && UsageClosed(p)
  }

  /** colocateConfigs: a config load joins the regions that use it, unless a flow would find it in two places. */
  method ColocateConfigs(p0: Plan, roots: map<Flow, set<Var>>, config: seq<nat>, vars: map<nat, Var>)
    returns (p: Plan, ghost plans: seq<Plan>)
    requires WellFormed(p0) && Distinct(config)
    requires forall i :: i in config ==> i < |p0.nodes| && p0.memberOf[i] == []
    requires forall i :: i in config ==> i in vars && vars[i] in p0.definedBy && p0.definedBy[vars[i]] == i
    ensures WellFormed(p) && (WellServed(p0) ==> WellServed(p))
    ensures p.nodes == p0.nodes && p.definedBy == p0.definedBy && p.usage == p0.usage
    ensures forall j: nat :: j < |p0.nodes| && j !in config ==> p.memberOf[j] == p0.memberOf[j]
    ensures Placements(roots, config, vars, plans) && plans[0] == p0 && plans[|config|] == p
  {
    hide WellServed, Agreed, UsedAt, Placement;
    p, plans := p0, [p0];
    for k := 0 to |config|
      invariant WellFormed(p) && (WellServed(p0) ==> WellServed(p))
      invariant p.nodes == p0.nodes && p.definedBy == p0.definedBy && p.usage == p0.usage
      invariant forall j: nat :: j < |p0.nodes| && j !in config[..k] ==> p.memberOf[j] == p0.memberOf[j]
      invariant |plans| == k + 1 && plans[0] == p0 && plans[k] == p && Placements(roots, config[..k], vars, plans)
    {
      var i := config[k];
      assert i in config && i !in config[..k];
      ghost var before := p;
      var homes := HomesOf(p, roots, i, vars[i]);
      AgreedExact(p, roots, i, vars[i], homes);
      var rs := [];
      if Agreed(homes) {
        rs := RegionsIn(homes);
        PlaceFormed(p, roots, i, vars[i], homes, rs);
        if WellServed(p) { PlaceServes(p, roots, i, vars[i], homes, rs); }
        p := Place(p, i, rs);
      }
      PlacementOf(before, roots, i, vars[i], homes, rs, p);
      PlacedNext(roots, config, vars, plans, k, p);
      plans := plans + [p];
      assert config[..k + 1] == config[..k] + [i];
    }
    assert config[..|config|] == config;
  }

  lemma PlaceFormed(p: Plan, roots: map<Flow, set<Var>>, i: nat, v: Var, homes: set<Consumer>, rs: seq<nat>)
    requires WellFormed(p) && i < |p.nodes| && forall c :: c in homes <==> UsedAt(p, roots, i, v, c)
    requires forall r :: r in rs ==> exists c :: c in homes && c.home == Some(r)
    ensures WellFormed(Place(p, i, rs))
  {
    forall k: nat | k < |rs|
      ensures rs[k] < |p.usage|
    {
      assert rs[k] in rs;
      var c :| c in homes && c.home == Some(rs[k]);
      HomeBound(p, roots, i, v, c);
    }
  }

  lemma PlaceServes(p: Plan, roots: map<Flow, set<Var>>, i: nat, v: Var, homes: set<Consumer>, rs: seq<nat>)
    requires WellServed(p) && i < |p.nodes| && p.memberOf[i] == [] && v in p.definedBy && p.definedBy[v] == i
    requires forall c :: c in homes <==> UsedAt(p, roots, i, v, c)
    requires Agreed(homes) && Distinct(rs) && forall r :: r in rs ==> exists c :: c in homes && c.home == Some(r)
    ensures WellServed(Place(p, i, rs))
  {
    hide UsedAt, OneHome, MembersServe, UsageClosed, Agreed;
    PlaceKeeps(p, roots, i, v, homes, rs);
  }

  lemma AgreedExact(p: Plan, roots: map<Flow, set<Var>>, i: nat, v: Var, homes: set<Consumer>)
    requires WellFormed(p) && i < |p.nodes| && forall c :: c in homes <==> UsedAt(p, roots, i, v, c)
    ensures Agreed(homes) <==> Agreement(p, roots, i, v)
  {
    hide UsedAt;
  }

  lemma PlacementOf(p: Plan, roots: map<Flow, set<Var>>, i: nat, v: Var, homes: set<Consumer>, rs: seq<nat>, q: Plan)
    requires WellFormed(p) && i < |p.nodes| && p.memberOf[i] == []
    requires (forall c :: c in homes <==> UsedAt(p, roots, i, v, c)) && (Agreed(homes) <==> Agreement(p, roots, i, v))
    requires Agreed(homes) ==> Distinct(rs) && forall r :: r in rs <==> exists c :: c in homes && c.home == Some(r)
    requires q == if Agreed(homes) then Place(p, i, rs) else p
    ensures Placement(p, roots, i, v, q)
  {
    hide UsedAt, Agreed, Agreement;
    if Agreed(homes) {
      assert ConsumingRegions(p, roots, i, v, rs);
      assert p.memberOf[i] + rs == rs;
    }
  }

  lemma PlacedNext(roots: map<Flow, set<Var>>, config: seq<nat>, vars: map<nat, Var>, plans: seq<Plan>, k: nat, q: Plan)
    requires k < |config| && Placements(roots, config[..k], vars, plans) && WellFormed(plans[k])
    requires config[k] < |plans[k].nodes| && config[k] in vars
    requires Placement(plans[k], roots, config[k], vars[config[k]], q)
    ensures Placements(roots, config[..k + 1], vars, plans + [q])
  {
    hide WellFormed, Placement;
  }

  // ---- why usage must be closed ----

  /** Three flows and two variables. */
  datatype Names = Names(f: Flow, g: Flow, h: Flow, v: Var, w: Var)

  ghost predicate Different(n: Names) { n.f != n.g && n.f != n.h && n.g != n.h && n.v != n.w }

  /** Node 0 of flows f and g uses what load 2 defines; node 1 of flows f and h and load 2 use what load 3 defines. Load
      2 is only needed in g, although node 0 runs in f too. */
  function OpenNodes(n: Names): seq<Node> {
    [Node([], [n.w], Wire, {n.f, n.g}, None, 0), Node([], [n.v], Wire, {n.f, n.h}, None, 0),
     Node([n.w], [n.v], Config, {n.g}, None, 0), Node([n.v], [], Config, {n.f, n.g, n.h}, None, 0)]
  }

  function OpenPlan(n: Names, load2: seq<nat>, load3: seq<nat>): Plan {
    Plan(OpenNodes(n), map[n.w := 2, n.v := 3], [{n.f, n.g}, {n.f, n.h}], [[0], [1], load2, load3])
  }

  lemma OpenHome(n: Names, load2: seq<nat>, c: Consumer, j: nat)
    requires Different(n) && j < 4 && (load2 == [] || load2 == [0])
    ensures WellFormed(OpenPlan(n, load2, []))
    ensures var p := OpenPlan(n, load2, []);
            HomeFor(p, j, c.flow) == if j < 2 && c.flow in p.usage[j] then Some(j)
                                     else if j == 2 && load2 == [0] && c.flow in p.usage[0] then Some(0) else None
  {
    var p := OpenPlan(n, load2, []);
    assert p.memberOf[j] == [] || p.memberOf[j][1..] == [];
    assert FirstServing(p.usage, [], c.flow) == None;
  }

  /** Load 2 goes to region 0, which alone uses it. */
  lemma FirstLoad(n: Names)
    requires Different(n)
    ensures WellFormed(OpenPlan(n, [], []))
    ensures Placement(OpenPlan(n, [], []), map[], 2, n.w, OpenPlan(n, [0], []))
  {
    var p := OpenPlan(n, [], []);
    OpenHome(n, [], Consumer(n.f, None), 0);
    forall c
      ensures UsedAt(p, map[], 2, n.w, c) <==> c.flow in {n.f, n.g} && c.home == Some(0)
    {
      OpenHome(n, [], c, 0);
      OpensAt(n, [], n.w, c);
    }
    assert UsedAt(p, map[], 2, n.w, Consumer(n.f, Some(0)));
    hide UsedAt;
    assert ConsumingRegions(p, map[], 2, n.w, [0]);
    assert p.(memberOf := p.memberOf[2 := [0]]) == OpenPlan(n, [0], []);
  }

  /** Who uses the variables. */
  lemma OpensAt(n: Names, load2: seq<nat>, u: Var, c: Consumer)
    requires Different(n) && (u == n.w || u == n.v) && WellFormed(OpenPlan(n, load2, []))
    ensures var p := OpenPlan(n, load2, []);
            && (u == n.w ==> (UsedAt(p, map[], 2, u, c) <==> Sits(p, 0, c)))
            && (u == n.v ==> (UsedAt(p, map[], 3, u, c) <==> Sits(p, 1, c) || Sits(p, 2, c)))
  {
    var p := OpenPlan(n, load2, []);
    assert p.nodes[0].uses[0] == n.w && p.nodes[1].uses[0] == n.v && p.nodes[2].uses[0] == n.v;
    hide HomeFor;
  }

  lemma SecondUsers(n: Names, c: Consumer)
    requires Different(n) && WellFormed(OpenPlan(n, [0], []))
    ensures UsedAt(OpenPlan(n, [0], []), map[], 3, n.v, c) <==>
            ((c.flow == n.f || c.flow == n.h) && c.home == Some(1)) || (c.flow == n.g && c.home == Some(0))
  {
    OpenHome(n, [0], c, 1);
    OpenHome(n, [0], c, 2);
    OpensAt(n, [0], n.v, c);
    hide UsedAt;
  }

  /** Load 3 goes to region 0 for flow g and to region 1 for f and h. */
  lemma SecondLoad(n: Names)
    requires Different(n)
    ensures WellFormed(OpenPlan(n, [0], []))
    ensures Placement(OpenPlan(n, [0], []), map[], 3, n.v, OpenPlan(n, [0], [0, 1]))
  {
    var p := OpenPlan(n, [0], []);
    OpenHome(n, [0], Consumer(n.f, None), 0);
    assert p.(memberOf := p.memberOf[3 := [0, 1]]) == OpenPlan(n, [0], [0, 1]);
    hide UsedAt, WellFormed, OpenPlan;
    forall c
      ensures UsedAt(p, map[], 3, n.v, c) <==>
              ((c.flow == n.f || c.flow == n.h) && c.home == Some(1)) || (c.flow == n.g && c.home == Some(0))
    {
      SecondUsers(n, c);
    }
    assert UsedAt(p, map[], 3, n.v, Consumer(n.g, Some(0))) && UsedAt(p, map[], 3, n.v, Consumer(n.f, Some(1)));
    assert ConsumingRegions(p, map[], 3, n.v, [0, 1]);
  }

  /** A store whose usage is not closed: colocation takes each load to the regions that consume it, and the second one
      ends up with two homes in flow f. */
  lemma OpenUsageSplits(n: Names) returns (plans: seq<Plan>)
    requires Different(n)
    ensures |plans| == 3 && OneHome(plans[0]) && MembersServe(plans[0]) && !UsageClosed(plans[0])
    ensures Placements(map[], [2, 3], map[2 := n.w, 3 := n.v], plans)
    ensures !OneHome(plans[2])
  {
    var p, q := OpenPlan(n, [], []), OpenPlan(n, [0], [0, 1]);
    plans := [p, OpenPlan(n, [0], []), q];
    FirstLoad(n);
    SecondLoad(n);
    assert n.w in p.nodes[0].uses && UsesNode(p, 0, 2) && n.f in p.nodes[0].flows && n.f !in p.nodes[2].flows;
    assert q.memberOf[3] == [0, 1] && n.f in q.usage[q.memberOf[3][0]] && n.f in q.usage[q.memberOf[3][1]];
    hide Placement;
  }
}
