/**
 Why planning needs regions that do not mix setup hooks and providers: a plan
 that formComponents of gen/fragment.go forms, in which every flow can be
 scheduled, and whose first region is too wide (regionNarrow of
 gen/fragment_emit.go). The width loop dissolves it and does not order the flows
 again, which leaves two of them stuck.
 */
module MixedRegions {
  import opened Basics
  import opened Graphs
  import opened Sorting
  import opened GenNodes
  import opened Fragments
  import opened RegionForming
  import opened Outlining
  import opened RegionSignatures
  import opened RegionPlanning

  // ---- the plan ----

  /** The names in the example: four variables and three flows. */
  datatype Names = Names(a: Var, b: Var, c: Var, d: Var, f: Flow, g: Flow, h: Flow)

  ghost predicate Different(n: Names) {
    && n.a != n.b && n.a != n.c && n.a != n.d && n.b != n.c && n.b != n.d && n.c != n.d
    && n.f != n.g && n.f != n.h && n.g != n.h
  }

  /** The first group serves all flows, the second f and h. */
  function FlowsAt(n: Names, i: nat): set<Flow> { if i < 3 then {n.f, n.g, n.h} else {n.f, n.h} }

  function UsesAt(n: Names, i: nat): seq<Var> {
    if i == 1 || i == 2 then [n.a] else if i == 4 then [n.c] else if i == 5 then [n.b, n.d, n.c] else []
  }

  function DefinesAt(n: Names, i: nat): seq<Var> {
    if i == 0 then [n.a] else if i == 2 then [n.b, n.d] else if i == 3 then [n.c] else []
  }

  function PhaseAt(i: nat): Phase {
    if i == 0 || i == 3 then Config else if i == 1 || i == 4 then Setup else Wire
  }

  /** A prelude, a hook and a provider of two values for three flows, and another such group for two of them that uses
      the values. */
  function Nodes(n: Names): seq<Node> {
    seq(6, (i: nat) => Node(DefinesAt(n, i), UsesAt(n, i), PhaseAt(i), FlowsAt(n, i), None, 0))
  }

  function DefinedAt(n: Names): map<Var, nat> { map[n.a := 0, n.b := 2, n.d := 2, n.c := 3] }

  /** The store before any region is formed. */
  function Bare(n: Names): Plan { Plan(Nodes(n), DefinedAt(n), [], seq(|Nodes(n)|, i => [])) }

  const TWO_GROUPS: seq<seq<nat>> := [[0, 1, 2], [3, 4, 5]]

  function GroupOf(i: nat): nat { if i < 3 then 0 else 1 }

  function FirstOfGroup(i: nat): nat { if i < 3 then 0 else 3 }

  function Stuck(n: Names): Plan {
    Plan(Nodes(n), DefinedAt(n), [FlowsAt(n, 0), FlowsAt(n, 3)], seq(6, (i: nat) => [GroupOf(i)]))
  }

  function Freed(n: Names): Plan { Dissolve(Stuck(n), 0) }

  predicate Uses(i: nat, j: nat) {
    (i == 1 && j == 0) || (i == 2 && j == 0) || (i == 4 && j == 3) || (i == 5 && (j == 2 || j == 3))
  }

  /** What the proofs need to know about a plan over these nodes. */
  ghost predicate Shape(n: Names, p: Plan) {
    && WellFormed(p) && |p.nodes| == 6
    && (forall i: nat :: i < 6 ==> p.nodes[i].flows == FlowsAt(n, i) && p.nodes[i].phase == PhaseAt(i))
    && (forall i: nat :: i < 6 ==> p.nodes[i].uses == UsesAt(n, i) && p.nodes[i].defines == DefinesAt(n, i))
    && p.definedBy == DefinedAt(n)
    && (forall i: nat, j: nat {:trigger UsesNode(p, i, j)} :: UsesNode(p, i, j) <==> Uses(i, j))
  }

  lemma UsesExact(n: Names, p: Plan, i: nat, j: nat)
    requires Different(n) && p.nodes == Nodes(n) && p.definedBy == DefinedAt(n)
    ensures UsesNode(p, i, j) <==> Uses(i, j)
  {
    if i < 6 {
      var us := p.nodes[i].uses;
      assert us == UsesAt(n, i);
      assert p.definedBy[n.a] == 0 && p.definedBy[n.b] == 2 && p.definedBy[n.d] == 2 && p.definedBy[n.c] == 3;
      if i == 1 || i == 2 { assert us[0] == n.a; }
      if i == 4 { assert us[0] == n.c; }
      if i == 5 { assert us[0] == n.b && us[2] == n.c && n.b in us && n.c in us; }
    }
  }

  lemma HasShape(n: Names, p: Plan)
    requires Different(n) && p.nodes == Nodes(n) && p.definedBy == DefinedAt(n) && WellFormed(p)
    ensures Shape(n, p)
  {
    forall i: nat, j: nat
      ensures UsesNode(p, i, j) <==> Uses(i, j)
    {
      UsesExact(n, p, i, j);
    }
  }

  // ---- it is what planning forms ----

  lemma JoinedExact(n: Names, i: nat, j: nat)
    requires Different(n)
    ensures j in Succ(JoinGraph(Bare(n), {}, []), i) <==>
            (Uses(i, j) || Uses(j, i)) && (i < 3 <==> j < 3) && i < 6 && j < 6
  {
    UsesExact(n, Bare(n), i, j);
    UsesExact(n, Bare(n), j, i);
    assert n.g in FlowsAt(n, 0) && n.g !in FlowsAt(n, 3);
  }

  /** Every node reaches the first of its group and is reached from it. */
  lemma ToFirst(n: Names, i: nat)
    requires Different(n) && i < 6
    ensures Mutual(JoinGraph(Bare(n), {}, []), i, FirstOfGroup(i))
  {
    var g := JoinGraph(Bare(n), {}, []);
    var h := FirstOfGroup(i);
    JoinedExact(n, i, h);
    JoinedExact(n, h, i);
    if i == h {
      ReachRefl(g, i);
    } else {
      ReachEdge(g, i, h);
      ReachEdge(g, h, i);
    }
  }

  lemma GroupsReach(n: Names, i: nat, j: nat)
    requires Different(n) && i < 6 && j < 6
    ensures Reach(JoinGraph(Bare(n), {}, []), i, j) <==> GroupOf(i) == GroupOf(j)
  {
    var g := JoinGraph(Bare(n), {}, []);
    hide JoinGraph;
    if GroupOf(i) == GroupOf(j) {
      ToFirst(n, i);
      ToFirst(n, j);
      ReachTrans(g, i, FirstOfGroup(i), j);
    } else {
      var side: set<nat> := if i < 3 then {0, 1, 2} else {3, 4, 5};
      forall a: nat, b: nat | a in side && b in Succ(g, a)
        ensures b in side
      {
        JoinedExact(n, a, b);
      }
      assert Closed(g, side);
      if Reach(g, i, j) { ReachClosed(g, side, i, j); }
    }
  }

  lemma GroupsFormed(n: Names)
    requires Different(n)
    ensures Groups(Bare(n), {}, [], TWO_GROUPS)
  {
    assert forall x: nat :: x in TWO_GROUPS[0] <==> x < 3;
    assert forall x: nat :: x in TWO_GROUPS[1] <==> 3 <= x < 6;
    forall j, k, x, y | 0 <= j < 2 && 0 <= k < 2 && x in TWO_GROUPS[j] && y in TWO_GROUPS[k]
      ensures j == k <==> Reach(JoinGraph(Bare(n), {}, []), x, y)
    {
      GroupsReach(n, x, y);
    }
    assert forall i: nat :: i < 3 ==> i in TWO_GROUPS[0];
    assert forall i: nat :: 3 <= i < 6 ==> i in TWO_GROUPS[1];
  }

  lemma StuckFormed(n: Names)
    requires Different(n)
    ensures OneHome(Stuck(n)) && Shape(n, Stuck(n)) && OneHome(Freed(n)) && Shape(n, Freed(n))
  {
    assert OneHome(Stuck(n));
    DissolveFormed(Stuck(n), 0);
    HasShape(n, Stuck(n));
    HasShape(n, Freed(n));
  }

  lemma Homes(n: Names, i: nat, f: Flow)
    requires Different(n) && i < 6
    ensures OneHome(Stuck(n)) && WellFormed(Freed(n))
    ensures HomeFor(Stuck(n), i, f) == if f in FlowsAt(n, i) then Some(GroupOf(i)) else None
    ensures HomeFor(Freed(n), i, f) == if i >= 3 && f in FlowsAt(n, i) then Some(1) else None
  {
    var p := Stuck(n);
    StuckFormed(n);
    var rs := p.memberOf[i];
    assert rs == [GroupOf(i)] && rs[1..] == [] && p.usage[rs[0]] == FlowsAt(n, i);
    FirstOf(p.usage, rs, f);
    assert FirstServing(p.usage, [], f) == None;
    DissolveHome(p, 0, i, f);
  }

  /** The units of the plan and of the plan without region 0. */
  ghost predicate Placed(n: Names, p: Plan, freed: bool)
    requires WellFormed(p)
  {
    |p.nodes| == 6 && forall i: nat, f {:trigger HomeFor(p, i, f)} :: i < 6 ==>
      HomeFor(p, i, f) == if f in FlowsAt(n, i) && (i >= 3 || !freed) then Some(GroupOf(i)) else None
  }

  lemma StuckPlaced(n: Names)
    requires Different(n)
    ensures WellFormed(Stuck(n)) && Placed(n, Stuck(n), false) && WellFormed(Freed(n)) && Placed(n, Freed(n), true)
  {
    StuckFormed(n);
    forall i: nat, f | i < 6
      ensures HomeFor(Stuck(n), i, f) == if f in FlowsAt(n, i) then Some(GroupOf(i)) else None
      ensures HomeFor(Freed(n), i, f) == if i >= 3 && f in FlowsAt(n, i) then Some(1) else None
    {
      Homes(n, i, f);
    }
  }

  // ---- every flow can be scheduled ----

  lemma NodesOrdered(n: Names, p: Plan, f: Flow)
    requires Shape(n, p)
    ensures Acyclic(NodeGraph(p, f))
  {
    var rank := (i: nat) => if i == 5 then 3 else if i == 2 then 2 else if i == 1 || i == 4 then 1 else 0;
    hide UsesNode, UsesAt, DefinesAt, DefinedAt, FlowsAt;
    forall i: nat, j: nat | j in Succ(NodeGraph(p, f), i)
      ensures rank(j) < rank(i)
    {
      assert NodeAfter(p, f, i, j);
    }
    RankedWellFounded(NodeGraph(p, f), rank);
    WellFoundedIffAcyclic(NodeGraph(p, f));
  }

  /** Region 1 takes from region 0 and not the other way. */
  lemma StuckTakes(n: Names, p: Plan, f: Flow, u: Unit, d: Unit)
    requires Shape(n, p) && Placed(n, p, false) && TakesFrom(p, f, u, d)
    ensures u == Region(1) && d == Region(0)
  {
    hide UsesNode, UsesAt, DefinesAt, DefinedAt, FlowsAt, HomeFor;
    var i: nat, j: nat :| i < 6 && j < 6 && In(p, f, u, i) && UsesNode(p, i, j) && UnitOf(p, f, j) == d
                          && (InFlow(p, f, j) || d.Region?);
    assert Uses(i, j);
    assert HomeFor(p, i, f) == Some(GroupOf(i));
  }

  /** Each region holds a hook, so none of them waits at the barrier. */
  lemma StuckWaits(n: Names, p: Plan, f: Flow, u: Unit)
    requires Shape(n, p) && Placed(n, p, false)
    ensures !ProviderOnly(p, f, u)
  {
    hide UsesNode, UsesAt, DefinesAt, DefinedAt, HomeFor;
    if i: nat :| i < 6 && In(p, f, u, i) && IsProvider(p.nodes[i]) {
      var k: nat := if i < 3 then 1 else 4;
      assert HomeFor(p, i, f) == Some(GroupOf(i)) && HomeFor(p, k, f) == Some(GroupOf(k));
      assert In(p, f, u, k) && IsHook(p.nodes[k]);
    }
  }

  lemma FlowsScheduled(n: Names, p: Plan, f: Flow)
    requires Shape(n, p) && Placed(n, p, false)
    ensures WellFounded(UnitGraph(p, f))
  {
    var rank := (u: Unit) => if u == Region(1) then 1 else 0;
    var g := UnitGraph(p, f);
    forall u, d | d in Succ(g, u)
      ensures u == Region(1) && d == Region(0)
    {
      assert After(p, f, u, d);
      hide TakesFrom, ProviderOnly, Hook, Shape, Placed, UnitGraph;
      StuckWaits(n, p, f, u);
      StuckTakes(n, p, f, u, d);
    }
    hide UnitGraph, Shape, Placed;
    forall u, d | d in Succ(g, u)
      ensures rank(d) < rank(u)
    {}
    RankedWellFounded(UnitGraph(p, f), rank);
  }

  // ---- region 0 is too wide, region 1 is not ----

  /** Node 5 reads b and d in the flows of region 1, and nothing else does. */
  lemma ReadsExact(n: Names, p: Plan, v: Var, c: Consumer)
    requires Different(n) && Shape(n, p) && (v == n.b || v == n.d)
    ensures Reads(p, map[], v, c) <==> c.flow in FlowsAt(n, 5) && HomeFor(p, 5, c.flow) == c.home
  {
    hide HomeFor, FlowsAt, UsesNode, DefinesAt, DefinedAt;
    assert UsesAt(n, 5)[0] == n.b && UsesAt(n, 5)[1] == n.d;
    assert forall j: nat :: j < 6 && v in p.nodes[j].uses ==> j == 5;
    if c.flow in FlowsAt(n, 5) && HomeFor(p, 5, c.flow) == c.home { assert Sits(p, 5, c); }
  }

  lemma OutUnread(n: Names, p: Plan, v: Var)
    requires Different(n) && Shape(n, p) && Placed(n, p, false) && |p.usage| == 2 && p.usage[0] == FlowsAt(n, 0)
    requires 2 in Members(p, 0) && (v == n.b || v == n.d)
    ensures v in LiveOutVars(p, map[], 0) && !ConsumedIn(p, map[], 0, v, n.g)
  {
    hide HomeFor, UsesNode, Reads;
    assert DefinesAt(n, 2)[0] == n.b && DefinesAt(n, 2)[1] == n.d && v in p.nodes[2].defines;
    var c := Consumer(n.f, Some(1));
    assert HomeFor(p, 5, n.f) == Some(1);
    ReadsExact(n, p, v, c);
    assert ReadOutside(p, map[], 0, v);
    forall x: Consumer | x.flow == n.g
      ensures !Reads(p, map[], v, x)
    {
      ReadsExact(n, p, v, x);
    }
  }

  lemma TooWide(n: Names, p: Plan)
    requires Different(n) && Shape(n, p) && Placed(n, p, false) && |p.usage| == 2 && p.usage[0] == FlowsAt(n, 0)
    requires 2 in Members(p, 0)
    ensures !Narrow(p, map[], None, None, 0)
  {
    OutUnread(n, p, n.b);
    OutUnread(n, p, n.d);
    hide LiveOutVars, LiveInVars, ConsumedIn, Shape, Placed;
    HasTwo(Unread(p, map[], 0, n.g), n.b, n.d);
    assert n.g in p.usage[0];
  }

  lemma HasTwo<T>(s: set<T>, a: T, b: T)
    requires a in s && b in s && a != b
    ensures |s| >= 2
  {
    assert s == {a} + (s - {a}) && s - {a} == {b} + (s - {a} - {b});
  }

  lemma AtMostTwo(s: set<Var>, a: Var, b: Var)
    requires s <= {a, b}
    ensures |s| <= 2
  {
    var t := s - {a};
    if b in t { assert t == {b}; } else { assert t == {}; }
    if a in s { assert s == t + {a}; } else { assert s == t; }
  }

  /** Region 1 alone: its parameters are b and d, and it has no result. */
  lemma SecondNarrow(n: Names, p: Plan)
    requires Different(n) && Shape(n, p) && Placed(n, p, true) && |p.usage| == 2
    requires forall i: nat :: i < 6 ==> (i in Members(p, 1) <==> 3 <= i)
    ensures Narrow(p, map[], None, None, 1)
  {
    hide Shape, Placed, Members, IsLiveOut, ConsumedIn;
    assert WellFormed(p) by { ShapeFormed(n, p); }
    assert LiveInVars(p, 1) <= {n.b, n.d} by { SecondTakes(n, p); }
    AtMostTwo(LiveInVars(p, 1), n.b, n.d);
    assert LiveInVars(p, 1) - OptionSet(None) == LiveInVars(p, 1);
    forall d | d in LiveOutVars(p, map[], 1)
      ensures false
    {
      NoResult(n, p, d);
    }
    assert LiveOutVars(p, map[], 1) == {};
    hide LiveOutVars, LiveInVars;
    forall f
      ensures |Unread(p, map[], 1, f)| <= 1
    {
      assert Unread(p, map[], 1, f) == {};
    }
  }

  lemma ShapeFormed(n: Names, p: Plan)
    requires Shape(n, p)
    ensures WellFormed(p)
  {}

  lemma SecondTakes(n: Names, p: Plan)
    requires Different(n) && Shape(n, p) && forall i: nat :: i < 6 ==> (i in Members(p, 1) <==> 3 <= i)
    ensures LiveInVars(p, 1) <= {n.b, n.d}
  {
    assert forall m: nat :: m in Members(p, 1) ==> m < 6;
    hide UsesNode, Members, FlowsAt, PhaseAt, DefinesAt;
    forall u | u in LiveInVars(p, 1)
      ensures u in {n.b, n.d}
    {
      var m: nat :| m in Members(p, 1) && u in p.nodes[m].uses && u in p.definedBy && p.definedBy[u] !in Members(p, 1);
      assert u in UsesAt(n, m);
    }
  }

  lemma NoResult(n: Names, p: Plan, d: Var)
    requires Different(n) && Shape(n, p) && Placed(n, p, true) && |p.usage| == 2
    requires forall i: nat :: i < 6 ==> (i in Members(p, 1) <==> 3 <= i)
    ensures !IsLiveOut(p, map[], 1, d)
  {
    hide HomeFor, UsesNode, Members;
    if d in DefinedIn(p, Members(p, 1)) {
      var i :| i in Members(p, 1) && i < 6 && d in p.nodes[i].defines;
      assert d in DefinesAt(n, i) && d == n.c;
      forall c | Reads(p, map[], d, c)
        ensures c.home == Some(1)
      {
        var j: nat :| j < 6 && Sits(p, j, c) && d in p.nodes[j].uses;
        assert n.c in UsesAt(n, j);
        assert HomeFor(p, j, c.flow) == Some(1);
      }
    }
  }

  // ---- the stall ----

  /** Without region 0, its provider waits for all hooks, and region 1 holds one while it takes from that provider. */
  lemma RegionDraws(n: Names, p: Plan, f: Flow)
    requires Shape(n, p) && Placed(n, p, true) && f in FlowsAt(n, 3)
    ensures HookDraws(p, f) && !WellFounded(UnitGraph(p, f))
  {
    hide HomeFor, UsesNode, UsesAt, DefinesAt, DefinedAt;
    assert HomeFor(p, 4, f) == Some(1) && HomeFor(p, 5, f) == Some(1) && HomeFor(p, 2, f) == None;
    assert In(p, f, Region(1), 4) && IsHook(p.nodes[4]) && Hook(p, f, Region(1));
    assert In(p, f, Inline(2), 2) && IsProvider(p.nodes[2]);
    assert ProviderOnly(p, f, Inline(2)) by {
      assert forall i: nat :: i < 6 && In(p, f, Inline(2), i) ==> i == 2;
    }
    assert In(p, f, Region(1), 5) && UsesNode(p, 5, 2) && TakesFrom(p, f, Region(1), Inline(2));
    assert Region(1) in Units(p, f) && Inline(2) in Units(p, f) by { UnitHas(p, f, 4); UnitHas(p, f, 2); }
    hide TakesFrom, Hook, ProviderOnly, In, Shape, Placed, Units;
    assert Inline(2) in Succ(TakesGraph(p, f), Region(1));
    ReachEdge(TakesGraph(p, f), Region(1), Inline(2));
    SchedulableIff(p, f);
  }

  lemma UnitHas(p: Plan, f: Flow, i: nat)
    requires WellFormed(p) && InFlow(p, f, i)
    ensures UnitOf(p, f, i) in Units(p, f)
  {}

  lemma StuckMembers(n: Names)
    ensures |Stuck(n).memberOf| == |Stuck(n).nodes| == 6 && |Freed(n).memberOf| == |Freed(n).nodes| == 6
    ensures 2 in Members(Stuck(n), 0) && forall i: nat :: i < 6 ==> (i in Members(Freed(n), 1) <==> 3 <= i)
    ensures forall i: nat, k: nat :: i < 6 && k < 2 ==> (k in Stuck(n).memberOf[i] <==> i in TWO_GROUPS[k])
  {
    forall i: nat | i < 6
      ensures Stuck(n).memberOf[i] == [GroupOf(i)] && (i in Members(Freed(n), 1) <==> 3 <= i)
    {}
  }

  // ---- the width loop ----

  /** No root is shared or named, and no node answers a prelude demand. */
  function NoFacts(): Facts { Facts(map[], [], {}, i => false, i => false) }

  function Whole(n: Names): Partition { Partition(Stuck(n), [0, 1], map[]) }

  lemma {:induction false} NoPrelude(s: Partition, roots: map<Flow, set<Var>>, regions: seq<nat>)
    requires WellFormed(s.plan)
    ensures PreludeOut(NoFacts(), s, roots, regions) == None
  {
    if regions != [] { NoPrelude(s, roots, regions[..|regions| - 1]); }
  }

  /** Without facts, a region's width depends on nothing else. */
  lemma WidthAlone(s: Partition, r: nat)
    requires Formed(s) && r < |s.plan.usage| && s.embeds == map[]
    ensures Fits(NoFacts(), s, r) <==> Narrow(s.plan, map[], None, None, r)
  {
    hide Narrow, PreludeOut, UniqueDefinitions, OneHome;
    assert WellFormed(s.plan) by { UniqueFormed(s.plan); }
    assert RootsIn(NoFacts(), s.embeds) == map[];
    NoPrelude(s, map[], s.regions);
  }

  lemma NamesUnique(n: Names, i: nat)
    requires Different(n) && i < 6
    ensures Distinct(DefinesAt(n, i))
    ensures forall d :: d in DefinesAt(n, i) ==> d in DefinedAt(n) && DefinedAt(n)[d] == i
    ensures forall u :: u in UsesAt(n, i) ==> u in DefinedAt(n) && DefinedAt(n)[u] != i
  {}

  lemma StuckUnique(n: Names, p: Plan)
    requires Different(n) && Shape(n, p)
    ensures UniqueDefinitions(p)
  {
    assert DefinesAt(n, 0)[0] == n.a && DefinesAt(n, 2)[0] == n.b && DefinesAt(n, 2)[1] == n.d;
    assert DefinesAt(n, 3)[0] == n.c;
    assert forall v :: v in DefinedAt(n) ==> DefinedAt(n)[v] < 6 && v in DefinesAt(n, DefinedAt(n)[v]);
    hide UsesNode, UsesAt, DefinesAt, DefinedAt, FlowsAt, PhaseAt, Distinct;
    forall i: nat | i < 6
      ensures Distinct(DefinesAt(n, i))
      ensures forall d :: d in DefinesAt(n, i) ==> d in DefinedAt(n) && DefinedAt(n)[d] == i
      ensures forall u :: u in UsesAt(n, i) ==> u in DefinedAt(n) && DefinedAt(n)[u] != i
    {
      NamesUnique(n, i);
    }
  }

  lemma StuckEligible(n: Names, r: nat)
    requires Different(n) && r < 2
    ensures |Stuck(n).memberOf| == |Stuck(n).nodes| && Eligible(NoFacts(), Whole(n), r)
  {
    var p := Stuck(n);
    var k: nat := if r == 0 then 0 else 3;
    assert p.memberOf[k] == [r] && p.memberOf[k + 1] == [r];
    assert k in Members(p, r) && k + 1 in Members(p, r) && IsHook(p.nodes[k + 1]);
    HasTwo(Members(p, r), k, k + 1);
    HasTwo(p.usage[r], n.f, n.h);
  }

  lemma StuckScheduled(n: Names, flows: seq<Flow>)
    requires Different(n)
    ensures OneHome(Stuck(n)) && Plannable(Stuck(n), flows) && Schedulable(Stuck(n), flows)
  {
    StuckFormed(n);
    StuckPlaced(n);
    hide Shape, Placed, UnitGraph, NodeGraph, WellFounded, Acyclic, OneHome;
    forall g
      ensures Acyclic(NodeGraph(Stuck(n), g)) && WellFounded(UnitGraph(Stuck(n), g))
    {
      NodesOrdered(n, Stuck(n), g);
      FlowsScheduled(n, Stuck(n), g);
    }
  }

  lemma WholeEligible(n: Names)
    requires Different(n) && Formed(Whole(n))
    ensures AllEligible(NoFacts(), Whole(n))
  {
    StuckEligible(n, 0);
    StuckEligible(n, 1);
    hide Eligible, Formed, Stuck;
  }

  lemma WholeFormed(n: Names)
    requires Different(n)
    ensures Formed(Whole(n)) && Formed(Drop(Whole(n), 0))
    ensures Drop(Whole(n), 0) == Partition(Freed(n), [1], map[])
  {
    StuckFormed(n);
    StuckUnique(n, Stuck(n));
    StuckUnique(n, Freed(n));
    var s := Whole(n);
    var q := Drop(s, 0);
    hide UniqueDefinitions, OneHome, Shape, Freed;
    assert q.plan == Freed(n) by { FreedIs(n); }
    assert q.regions == [1] && q.embeds == map[];
    assert q.plan.usage == s.plan.usage;
  }

  lemma FreedIs(n: Names)
    ensures Freed(n) == Dissolve(Stuck(n), 0)
  {}

  lemma FirstUnfit(s: Partition)
    requires Formed(s) && s.regions == [0, 1] && s.embeds == map[] && 0 < |s.plan.usage|
    requires !Narrow(s.plan, map[], None, None, 0)
    ensures 0 in s.regions && FirstWide(NoFacts(), s, 0)
  {
    hide Narrow, Fits, UniqueDefinitions, OneHome;
    assert s.regions[..0] == [] && s.regions[0] == 0;
    WidthAlone(s, 0);
  }

  lemma OnlyFits(s: Partition)
    requires Formed(s) && s.regions == [1] && s.embeds == map[] && 1 < |s.plan.usage|
    requires Narrow(s.plan, map[], None, None, 1)
    ensures AllFit(NoFacts(), s, s.regions)
  {
    hide Narrow, Fits, UniqueDefinitions, OneHome;
    WidthAlone(s, 1);
  }

  lemma StuckUnfit(n: Names)
    requires Different(n)
    ensures Formed(Whole(n)) && FirstWide(NoFacts(), Whole(n), 0)
  {
    WholeFormed(n);
    StuckPlaced(n);
    StuckMembers(n);
    StuckFormed(n);
    assert Stuck(n).usage[0] == FlowsAt(n, 0);
    hide Shape, Placed, Formed, Members, Stuck, Freed;
    TooWide(n, Stuck(n));
    FirstUnfit(Whole(n));
  }

  lemma FreedFits(n: Names)
    requires Different(n)
    ensures var q := Drop(Whole(n), 0); q.regions == [1] && Formed(q) && AllFit(NoFacts(), q, q.regions)
  {
    WholeFormed(n);
    StuckPlaced(n);
    StuckMembers(n);
    StuckFormed(n);
    assert |Freed(n).usage| == 2;
    hide Shape, Placed, Formed, Members, Stuck, Freed;
    SecondNarrow(n, Freed(n));
    OnlyFits(Drop(Whole(n), 0));
  }

  /** A plan that formComponents forms, all of whose regions are eligible (several flows, several nodes, a hook) and all
      of whose flows can be scheduled; region 0 is the first that is too wide, and dissolving it, after which region 1
      fits and planning stops, leaves a flow whose hooks draw on a provider behind the barrier: it cannot be
      scheduled. */
  lemma MixedDissolveStalls(n: Names) returns (s: Partition, flows: seq<Flow>)
    requires Different(n)
    ensures flows == [n.f, n.g, n.h] && s.regions == [0, 1] && s.embeds == map[] && Formed(s)
    ensures Groups(Plan(s.plan.nodes, s.plan.definedBy, [], seq(|s.plan.nodes|, i => [])), {}, [], TWO_GROUPS)
    ensures |s.plan.nodes| == 6 &&
            forall i: nat, k: nat :: i < 6 && k < 2 ==> (k in s.plan.memberOf[i] <==> i in TWO_GROUPS[k])
    ensures s.plan.usage == [s.plan.nodes[0].flows, s.plan.nodes[3].flows] == [{n.f, n.g, n.h}, {n.f, n.h}]
    ensures Plannable(s.plan, flows) && Schedulable(s.plan, flows)
    ensures AllEligible(NoFacts(), s) && FirstWide(NoFacts(), s, 0)
    ensures var q := Drop(s, 0); q.regions == [1] && Formed(q) && AllFit(NoFacts(), q, q.regions)
    ensures var q := Dissolve(s.plan, 0); HookDraws(q, n.h) && !WellFounded(UnitGraph(q, n.h))
  {
    s, flows := Whole(n), [n.f, n.g, n.h];
    var p := s.plan;
    StuckFormed(n);
    StuckPlaced(n);
    StuckMembers(n);
    GroupsFormed(n);
    assert Plan(p.nodes, p.definedBy, [], seq(|p.nodes|, i => [])) == Bare(n);
    StuckScheduled(n, flows);
    StuckUnfit(n);
    FreedFits(n);
    WholeEligible(n);
    hide Groups, Shape, Placed, HookDraws, UnitGraph, WellFounded, Plannable, Schedulable, AllEligible, FirstWide,
         AllFit, Formed, OneHome;
    RegionDraws(n, Freed(n), n.h);
  }
}
