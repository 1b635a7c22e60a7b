/**
 The fragment planner of gen/fragment.go. A flow is a list of store nodes; some
 nodes are grouped into regions that become build functions. Each flow is
 ordered as units (whole regions and single inline nodes), producers first and
 setup hooks before providers; regions that cannot stay in one piece dissolve.
 Nodes carry their defined and used variables; parsing them out of expressions
 is not part of this model.
 */
module Fragments {
  import opened Basics
  import opened Graphs
  import opened Sorting
  import opened GenNodes

  /** The store with its current regions: usage[r] are the flows region r serves, memberOf[i] the regions that own
      node i. */
  datatype Plan = Plan(nodes: seq<Node>, definedBy: map<Var, nat>, usage: seq<set<Flow>>, memberOf: seq<seq<nat>>)

  ghost predicate WellFormed(p: Plan) {
    && |p.memberOf| == |p.nodes|
    && (forall v :: v in p.definedBy ==> p.definedBy[v] < |p.nodes|)
    && (forall i, k :: 0 <= i < |p.nodes| && 0 <= k < |p.memberOf[i]| ==> p.memberOf[i][k] < |p.usage|)
  }

  /** A node's regions serve different flows, so a flow finds a node in at most one of them. */
  ghost predicate OneHome(p: Plan) {
    && WellFormed(p)
    && forall i, k, m, f :: 0 <= i < |p.nodes| && 0 <= k < m < |p.memberOf[i]| ==>
                              !(f in p.usage[p.memberOf[i][k]] && f in p.usage[p.memberOf[i][m]])
  }

  function FirstServing(usage: seq<set<Flow>>, rs: seq<nat>, f: Flow): (r: Option<nat>)
    requires forall k :: 0 <= k < |rs| ==> rs[k] < |usage|
    ensures r.Some? ==> r.value in rs && r.value < |usage| && f in usage[r.value]
    ensures r.None? ==> forall k :: 0 <= k < |rs| ==> f !in usage[rs[k]]
  {
    if rs == [] then None
    else if f in usage[rs[0]] then Some(rs[0])
    else FirstServing(usage, rs[1..], f)
  }

  /** The region that owns node i in flow f. */
  function HomeFor(p: Plan, i: nat, f: Flow): (r: Option<nat>)
    requires WellFormed(p) && i < |p.nodes|
    ensures r.Some? ==> r.value in p.memberOf[i] && r.value < |p.usage| && f in p.usage[r.value]
  {
    FirstServing(p.usage, p.memberOf[i], f)
  }

  predicate InFlow(p: Plan, f: Flow, i: nat) {
    i < |p.nodes| && f in p.nodes[i].flows
  }

  predicate IsHook(n: Node) { n.phase == Setup }
  predicate IsProvider(n: Node) { n.phase == Wire || n.phase == Middleware || n.phase == Register }

  /** One schedulable piece of a flow. */
  datatype Unit = Region(r: nat) | Inline(i: nat)

  function UnitOf(p: Plan, f: Flow, i: nat): Unit
    requires WellFormed(p) && i < |p.nodes|
  {
    match HomeFor(p, i, f)
    case Some(r) => Region(r)
    case None => Inline(i)
  }

  function Units(p: Plan, f: Flow): set<Unit>
    requires WellFormed(p)
  {
    set i | 0 <= i < |p.nodes| && InFlow(p, f, i) :: UnitOf(p, f, i)
  }

  /** Node i uses a variable that node j defines. */
  predicate UsesNode(p: Plan, i: nat, j: nat) {
    i < |p.nodes| && exists v :: v in p.nodes[i].uses && v in p.definedBy && p.definedBy[v] == j
  }

  predicate In(p: Plan, f: Flow, u: Unit, i: nat)
    requires WellFormed(p)
  {
    InFlow(p, f, i) && UnitOf(p, f, i) == u
  }

  predicate Hook(p: Plan, f: Flow, u: Unit)
    requires WellFormed(p)
  {
    exists i: nat :: i < |p.nodes| && In(p, f, u, i) && IsHook(p.nodes[i])
  }

  predicate ProviderOnly(p: Plan, f: Flow, u: Unit)
    requires WellFormed(p)
  {
    !Hook(p, f, u) && exists i: nat :: i < |p.nodes| && In(p, f, u, i) && IsProvider(p.nodes[i])
  }

  /** u takes a value from d: one of its nodes uses a variable defined in d. A definition outside the flow counts
      through the region that carries it here. */
  predicate TakesFrom(p: Plan, f: Flow, u: Unit, d: Unit)
    requires WellFormed(p)
  {
    u != d &&
    exists i: nat, j: nat :: i < |p.nodes| && j < |p.nodes| && In(p, f, u, i) && UsesNode(p, i, j) &&
                             UnitOf(p, f, j) == d && (InFlow(p, f, j) || d.Region?)
  }

  /** u must come after d: it takes a value from d, or d is a hook and u only provides. */
  predicate After(p: Plan, f: Flow, u: Unit, d: Unit)
    requires WellFormed(p)
  {
    TakesFrom(p, f, u, d) || (ProviderOnly(p, f, u) && Hook(p, f, d))
  }

  function UnitGraph(p: Plan, f: Flow): Graph<Unit>
    requires WellFormed(p)
  {
    map u | u in Units(p, f) :: set d | d in Units(p, f) && After(p, f, u, d)
  }

  /** The values units take from one another, without the hook barrier. */
  function TakesGraph(p: Plan, f: Flow): Graph<Unit>
    requires WellFormed(p)
  {
    map u | u in Units(p, f) :: set d | d in Units(p, f) && TakesFrom(p, f, u, d)
  }

  /** A hook takes a value, directly or through other units, from a unit that has to wait for all hooks. */
  ghost predicate HookDraws(p: Plan, f: Flow)
    requires WellFormed(p)
  {
    exists h, u :: Hook(p, f, h) && ProviderOnly(p, f, u) && Reach(TakesGraph(p, f), h, u)
  }

  /** Node i must come after node j in flow f, whatever the grouping. */
  ghost predicate NodeAfter(p: Plan, f: Flow, i: nat, j: nat) {
    && InFlow(p, f, i) && InFlow(p, f, j) && i != j
    && (UsesNode(p, i, j) || (IsProvider(p.nodes[i]) && IsHook(p.nodes[j])))
  }

  ghost function NodeGraph(p: Plan, f: Flow): Graph<nat> {
    map i: nat | 0 <= i < |p.nodes| && InFlow(p, f, i) :: set j | 0 <= j < |p.nodes| && NodeAfter(p, f, i, j)
  }

  /** Region r does not hold both a hook and a provider. */
  ghost predicate Unmixed(p: Plan, r: nat)
    requires WellFormed(p)
  {
    forall i, j :: 0 <= i < |p.nodes| && 0 <= j < |p.nodes| && r in p.memberOf[i] && r in p.memberOf[j] ==>
                     !(IsHook(p.nodes[i]) && IsProvider(p.nodes[j]))
  }

  // ---- dissolving a region ----

  function Without(rs: seq<nat>, r: nat): (s: seq<nat>)
    ensures forall x :: x in s <==> x in rs && x != r
  {
    if rs == [] then [] else if rs[0] == r then Without(rs[1..], r) else [rs[0]] + Without(rs[1..], r)
  }

  function Dissolve(p: Plan, r: nat): Plan
    requires |p.memberOf| == |p.nodes|
  {
    p.(memberOf := seq(|p.nodes|, i requires 0 <= i < |p.nodes| => Without(p.memberOf[i], r)))
  }

  ghost predicate Apart(usage: seq<set<Flow>>, rs: seq<nat>) {
    && (forall k :: 0 <= k < |rs| ==> rs[k] < |usage|)
    && (forall k, m, f :: 0 <= k < m < |rs| ==> !(f in usage[rs[k]] && f in usage[rs[m]]))
  }

  lemma {:induction false} WithoutApart(usage: seq<set<Flow>>, rs: seq<nat>, r: nat, f: Flow)
    requires Apart(usage, rs)
    ensures Apart(usage, Without(rs, r))
    ensures var h := FirstServing(usage, rs, f);
            FirstServing(usage, Without(rs, r), f) == if h == Some(r) then None else h
  {
    if rs != [] {
      var rest := rs[1..];
      assert Apart(usage, rest);
      WithoutApart(usage, rest, r, f);
      var w := Without(rest, r);
      forall k, g | 0 <= k < |w|
        ensures w[k] in rest && !(g in usage[rs[0]] && g in usage[w[k]])
      {
        assert w[k] in w;
        var m :| 0 <= m < |rest| && rest[m] == w[k];
        assert rs[m + 1] == w[k];
      }
      assert rs[0] != r ==> Without(rs, r) == [rs[0]] + w;
      assert rs[0] == r ==> Without(rs, r) == w;
      FirstOf(usage, rs, f);
      hide Without;
      if rs[0] == r {
        if f in usage[r] { assert FirstServing(usage, rest, f).None?; }
      } else {
        ApartFront(usage, rs[0], w);
        assert ([rs[0]] + w)[1..] == w;
        FirstOf(usage, [rs[0]] + w, f);
      }
    }
  }

  lemma ApartFront(usage: seq<set<Flow>>, r: nat, w: seq<nat>)
    requires Apart(usage, w) && r < |usage| && forall k, g :: 0 <= k < |w| ==> !(g in usage[r] && g in usage[w[k]])
    ensures Apart(usage, [r] + w)
  {}

  lemma FirstOf(usage: seq<set<Flow>>, rs: seq<nat>, f: Flow)
    requires rs != [] && forall k :: 0 <= k < |rs| ==> rs[k] < |usage|
    ensures FirstServing(usage, rs, f) == if f in usage[rs[0]] then Some(rs[0]) else FirstServing(usage, rs[1..], f)
  {}

  /** After dissolving r, a node's home in f is what it was, or none if it was r. */
  lemma DissolveHome(p: Plan, r: nat, i: nat, f: Flow)
    requires OneHome(p) && i < |p.nodes|
    ensures WellFormed(Dissolve(p, r))
    ensures HomeFor(Dissolve(p, r), i, f) == if HomeFor(p, i, f) == Some(r) then None else HomeFor(p, i, f)
  {
    assert Apart(p.usage, p.memberOf[i]);
    WithoutApart(p.usage, p.memberOf[i], r, f);
    DissolveFormed(p, r);
  }

  lemma DissolveFormed(p: Plan, r: nat)
    requires OneHome(p)
    ensures OneHome(Dissolve(p, r))
  {
    var q := Dissolve(p, r);
    forall i | 0 <= i < |p.nodes|
      ensures Apart(p.usage, q.memberOf[i])
    {
      assert Apart(p.usage, p.memberOf[i]);
      WithoutApart(p.usage, p.memberOf[i], r, Flow(""));
    }
  }

  /** The unit of p that a unit of the plan without r came from. */
  ghost function Origin(p: Plan, f: Flow, r: nat, u: Unit): Unit
    requires WellFormed(p)
  {
    if u.Inline? && u.i < |p.nodes| && HomeFor(p, u.i, f) == Some(r) then Region(r) else u
  }

  /** Dissolving r only splits r's own unit. */
  lemma OriginOf(p: Plan, f: Flow, r: nat, i: nat)
    requires OneHome(p) && i < |p.nodes|
    ensures WellFormed(Dissolve(p, r))
    ensures Origin(p, f, r, UnitOf(Dissolve(p, r), f, i)) == UnitOf(p, f, i)
    ensures UnitOf(p, f, i) != Region(r) ==> UnitOf(Dissolve(p, r), f, i) == UnitOf(p, f, i)
    ensures UnitOf(p, f, i) == Region(r) ==> UnitOf(Dissolve(p, r), f, i) == Inline(i)
  {
    DissolveHome(p, r, i, f);
  }

  lemma OriginIn(p: Plan, f: Flow, r: nat, u: Unit, i: nat)
    requires OneHome(p) && WellFormed(Dissolve(p, r)) && In(Dissolve(p, r), f, u, i)
    ensures In(p, f, Origin(p, f, r, u), i)
  {
    OriginOf(p, f, r, i);
  }

  lemma OriginHook(p: Plan, f: Flow, r: nat, u: Unit)
    requires OneHome(p) && WellFormed(Dissolve(p, r)) && Hook(Dissolve(p, r), f, u)
    ensures Hook(p, f, Origin(p, f, r, u))
  {
    var q := Dissolve(p, r);
    var i: nat :| i < |q.nodes| && In(q, f, u, i) && IsHook(q.nodes[i]);
    OriginIn(p, f, r, u, i);
  }

  lemma OriginTakes(p: Plan, f: Flow, r: nat, u: Unit, d: Unit)
    requires OneHome(p) && WellFormed(Dissolve(p, r)) && TakesFrom(Dissolve(p, r), f, u, d)
    requires Origin(p, f, r, u) != Origin(p, f, r, d)
    ensures TakesFrom(p, f, Origin(p, f, r, u), Origin(p, f, r, d))
  {
    var q := Dissolve(p, r);
    var i: nat, j: nat :| i < |q.nodes| && j < |q.nodes| && In(q, f, u, i) && UsesNode(q, i, j) && UnitOf(q, f, j) == d
                          && (InFlow(q, f, j) || d.Region?);
    OriginIn(p, f, r, u, i);
    OriginOf(p, f, r, j);
    assert UsesNode(p, i, j);
  }

  /** Inside r, a freed node takes only what the node itself uses. */
  lemma InsideTakes(p: Plan, f: Flow, r: nat, i: nat, j: nat)
    requires OneHome(p) && WellFormed(Dissolve(p, r)) && TakesFrom(Dissolve(p, r), f, Inline(i), Inline(j))
    requires i < |p.nodes| && j < |p.nodes| && HomeFor(p, i, f) == Some(r) && HomeFor(p, j, f) == Some(r)
    ensures NodeAfter(p, f, i, j)
  {
    var q := Dissolve(p, r);
    var a: nat, b: nat :| a < |q.nodes| && b < |q.nodes| && In(q, f, Inline(i), a) && UsesNode(q, a, b)
                          && UnitOf(q, f, b) == Inline(j) && InFlow(q, f, b);
    assert UsesNode(p, i, j);
  }

  lemma InlineNode(q: Plan, f: Flow, i: nat)
    requires WellFormed(q) && i < |q.nodes|
    ensures Hook(q, f, Inline(i)) ==> IsHook(q.nodes[i])
    ensures ProviderOnly(q, f, Inline(i)) ==> IsProvider(q.nodes[i])
  {}

  ghost function Origins(p: Plan, f: Flow, r: nat, s: set<Unit>): set<Unit>
    requires WellFormed(p)
  {
    set u | u in s :: Origin(p, f, r, u)
  }

  /** Dissolving any region keeps the values in an order. */
  lemma DissolveTakes(p: Plan, f: Flow, r: nat)
    requires OneHome(p) && WellFounded(NodeGraph(p, f)) && WellFounded(TakesGraph(p, f))
    ensures WellFormed(Dissolve(p, r)) && WellFounded(TakesGraph(Dissolve(p, r), f))
  {
    DissolveFormed(p, r);
    var q := Dissolve(p, r);
    forall s: set<Unit> {:trigger HasMinimal(TakesGraph(q, f), s)} | s != {}
      ensures HasMinimal(TakesGraph(q, f), s)
    {
      DissolveMinimal(p, f, r, s);
    }
  }

  lemma DissolveMinimal(p: Plan, f: Flow, r: nat, s: set<Unit>)
    requires OneHome(p) && WellFounded(NodeGraph(p, f)) && WellFounded(TakesGraph(p, f)) && s != {}
    requires WellFormed(Dissolve(p, r))
    ensures HasMinimal(TakesGraph(Dissolve(p, r), f), s)
  {
    hide TakesFrom, NodeAfter, Origin;
    var q := Dissolve(p, r);
    var big := Origins(p, f, r, s);
    var w :| w in s;
    assert Origin(p, f, r, w) in big;
    assert HasMinimal(TakesGraph(p, f), big);
    var m :| m in big && Minimal(TakesGraph(p, f), big, m);
    var pick: Unit;
    var freed := set u | u in s && Origin(p, f, r, u) == m;
    var u0 :| u0 in s && Origin(p, f, r, u0) == m;
    assert u0 in freed;
    pick := FreedMinimal(p, f, r, m, freed);
    forall d | d in Succ(TakesGraph(q, f), pick)
      ensures d !in s
    {
      assert d in s ==> Origin(p, f, r, d) in big;
      UnitsOrigin(p, f, r, pick);
      UnitsOrigin(p, f, r, d);
      if d in s && d !in freed { OriginTakes(p, f, r, pick, d); }
    }
    assert Minimal(TakesGraph(q, f), s, pick);
  }

  lemma UnitsOrigin(p: Plan, f: Flow, r: nat, u: Unit)
    requires OneHome(p) && WellFormed(Dissolve(p, r)) && u in Units(Dissolve(p, r), f)
    ensures Origin(p, f, r, u) in Units(p, f)
  {
    var q := Dissolve(p, r);
    var i: nat :| i < |q.nodes| && InFlow(q, f, i) && UnitOf(q, f, i) == u;
    OriginOf(p, f, r, i);
  }

  /** Among the pieces of one former unit, some piece takes from no other of them. */
  lemma FreedMinimal(p: Plan, f: Flow, r: nat, m: Unit, freed: set<Unit>) returns (pick: Unit)
    requires OneHome(p) && WellFounded(NodeGraph(p, f)) && freed != {}
    requires WellFormed(Dissolve(p, r)) && forall u :: u in freed ==> Origin(p, f, r, u) == m
    ensures pick in freed && Succ(TakesGraph(Dissolve(p, r), f), pick) !! freed
  {
    hide TakesFrom, NodeAfter;
    pick :| pick in freed;
    if m == Region(r) {
      if Region(r) in freed {
        pick := Region(r);
        NoRegionLeft(p, f, r);
      } else {
        var inner: set<nat> := set u | u in freed && u.Inline? :: u.i;
        assert pick.Inline? && pick.i in inner;
        assert HasMinimal(NodeGraph(p, f), inner);
        var i :| i in inner && Minimal(NodeGraph(p, f), inner, i);
        pick := Inline(i);
        forall d | d in Succ(TakesGraph(Dissolve(p, r), f), pick)
          ensures d !in freed
        {
          assert d in freed ==> d.Inline? && d.i in inner;
          if d in freed {
            InsideTakes(p, f, r, i, d.i);
            NodeEdge(p, f, i, d.i);
          }
        }
      }
    } else {
      assert freed == {m};
      NoSelfTake(Dissolve(p, r), f, m);
    }
  }

  /** A flow can be scheduled exactly when its values have an order and no hook draws on a unit behind the barrier. */
  lemma SchedulableIff(p: Plan, f: Flow)
    requires WellFormed(p)
    ensures WellFounded(UnitGraph(p, f)) <==> WellFounded(TakesGraph(p, f)) && !HookDraws(p, f)
  {
    hide TakesFrom, Hook, ProviderOnly;
    if WellFounded(UnitGraph(p, f)) {
      TakesInOrder(p, f);
      WellFoundedIffAcyclic(UnitGraph(p, f));
      if h, u :| Hook(p, f, h) && ProviderOnly(p, f, u) && Reach(TakesGraph(p, f), h, u) {
        DrawsLoop(p, f, h, u);
      }
    }
    if WellFounded(TakesGraph(p, f)) && !HookDraws(p, f) {
      forall s: set<Unit> {:trigger HasMinimal(UnitGraph(p, f), s)} | s != {}
        ensures HasMinimal(UnitGraph(p, f), s)
      {
        BarrierMinimal(p, f, s);
      }
    }
  }

  lemma TakesInOrder(p: Plan, f: Flow)
    requires WellFormed(p) && WellFounded(UnitGraph(p, f))
    ensures WellFounded(TakesGraph(p, f))
  {
    hide TakesFrom, Hook, ProviderOnly;
    forall s: set<Unit> {:trigger HasMinimal(TakesGraph(p, f), s)} | s != {}
      ensures HasMinimal(TakesGraph(p, f), s)
    {
      assert HasMinimal(UnitGraph(p, f), s);
      var m :| m in s && Minimal(UnitGraph(p, f), s, m);
      TakesAfter(p, f, m);
      assert Minimal(TakesGraph(p, f), s, m);
    }
  }

  lemma TakesAfter(p: Plan, f: Flow, u: Unit)
    requires WellFormed(p)
    ensures Succ(TakesGraph(p, f), u) <= Succ(UnitGraph(p, f), u)
  {
    hide TakesFrom, Hook, ProviderOnly;
  }

  /** A hook that draws on a provider-only unit waits for itself. */
  lemma DrawsLoop(p: Plan, f: Flow, h: Unit, u: Unit)
    requires WellFormed(p) && Hook(p, f, h) && ProviderOnly(p, f, u) && Reach(TakesGraph(p, f), h, u)
    ensures OnCycle(UnitGraph(p, f), u)
  {
    var path: seq<Unit> :| IsPath(TakesGraph(p, f), path, h, u);
    hide TakesFrom;
    assert IsPath(UnitGraph(p, f), path, h, u);
    assert h in Units(p, f) && u in Units(p, f);
    assert h in Succ(UnitGraph(p, f), u);
  }

  /** The barrier costs nothing: below the hooks of s, or among units that are none, something is first. */
  lemma BarrierMinimal(p: Plan, f: Flow, s: set<Unit>)
    requires WellFormed(p) && WellFounded(TakesGraph(p, f)) && !HookDraws(p, f) && s != {}
    ensures HasMinimal(UnitGraph(p, f), s)
  {
    hide TakesFrom, Hook, ProviderOnly;
    var g := TakesGraph(p, f);
    if h :| h in s && Hook(p, f, h) {
      var below := set d | d in s && Reach(g, h, d);
      ReachRefl(g, h);
      assert h in below;
      assert HasMinimal(g, below);
      var m :| m in below && Minimal(g, below, m);
      assert !ProviderOnly(p, f, m);
      forall d | d in Succ(UnitGraph(p, f), m)
        ensures d !in s
      {
        assert d in Succ(g, m);
        ReachEdge(g, m, d);
        ReachTrans(g, h, m, d);
      }
      assert Minimal(UnitGraph(p, f), s, m);
    } else {
      assert HasMinimal(g, s);
      var m :| m in s && Minimal(g, s, m);
      assert Minimal(UnitGraph(p, f), s, m);
    }
  }

  // ---- what a dissolution exposes ----

  /** The nodes of the flow that region r holds. */
  function HeldIn(p: Plan, f: Flow, r: nat): set<nat>
    requires WellFormed(p)
  {
    set i: nat | i < |p.nodes| && In(p, f, Region(r), i)
  }

  /** Uses among the nodes that r holds. */
  function InnerGraph(p: Plan, f: Flow, r: nat): Graph<nat>
    requires WellFormed(p)
  {
    map i | i in HeldIn(p, f, r) :: set j | j in HeldIn(p, f, r) && j != i && UsesNode(p, i, j)
  }

  /** Values that units other than r take from one another. */
  function OuterGraph(p: Plan, f: Flow, r: nat): Graph<Unit>
    requires WellFormed(p)
  {
    map u | u in Units(p, f) && u != Region(r) ::
      set d | d in Units(p, f) && d != Region(r) && TakesFrom(p, f, u, d)
  }

  /** A node of unit w uses a value that node m defines. */
  ghost predicate TakesValue(p: Plan, f: Flow, w: Unit, m: nat)
    requires WellFormed(p)
  {
    exists i: nat :: i < |p.nodes| && In(p, f, w, i) && UsesNode(p, i, m)
  }

  /** Hook unit h takes a value of m, directly or through units other than r. */
  ghost predicate DrawnBy(p: Plan, f: Flow, r: nat, h: Unit, m: nat)
    requires WellFormed(p)
  {
    && h != Region(r) && Hook(p, f, h)
    && exists w :: w != Region(r) && Reach(OuterGraph(p, f, r), h, w) && TakesValue(p, f, w, m)
  }

  /** Member m of r is a hook, or a hook unit other than r draws on it. */
  ghost predicate Wanted(p: Plan, f: Flow, r: nat, m: nat)
    requires WellFormed(p)
  {
    m in HeldIn(p, f, r) && (IsHook(p.nodes[m]) || exists h :: DrawnBy(p, f, r, h, m))
  }

  /** Inside r, a member that hooks want uses, directly or through other members, what a provider of r defines. */
  ghost predicate Exposes(p: Plan, f: Flow, r: nat)
    requires WellFormed(p)
  {
    exists m: nat, u: nat ::
      Wanted(p, f, r, m) && u in HeldIn(p, f, r) && IsProvider(p.nodes[u]) && Reach(InnerGraph(p, f, r), m, u)
  }

  /** A member of r is a unit of its own once r dissolves. */
  lemma HeldFreed(p: Plan, f: Flow, r: nat, i: nat)
    requires OneHome(p) && WellFormed(Dissolve(p, r)) && i in HeldIn(p, f, r)
    ensures In(Dissolve(p, r), f, Inline(i), i) && Inline(i) in Units(Dissolve(p, r), f)
    ensures Origin(p, f, r, Inline(i)) == Region(r) && Region(r) in Units(p, f)
    ensures forall k: nat :: k < |p.nodes| && In(Dissolve(p, r), f, Inline(i), k) ==> k == i
  {
    OriginOf(p, f, r, i);
  }

  lemma InnerTakes(p: Plan, f: Flow, r: nat, i: nat, j: nat)
    requires OneHome(p) && WellFormed(Dissolve(p, r)) && j in Succ(InnerGraph(p, f, r), i)
    ensures Inline(j) in Succ(TakesGraph(Dissolve(p, r), f), Inline(i))
  {
    HeldFreed(p, f, r, i);
    HeldFreed(p, f, r, j);
    var q := Dissolve(p, r);
    assert UsesNode(q, i, j);
    assert TakesFrom(q, f, Inline(i), Inline(j));
  }

  /** Other units keep their nodes, so they take the same values. */
  lemma OuterTakes(p: Plan, f: Flow, r: nat, u: Unit, d: Unit)
    requires OneHome(p) && WellFormed(Dissolve(p, r)) && d in Succ(OuterGraph(p, f, r), u)
    ensures d in Succ(TakesGraph(Dissolve(p, r), f), u)
  {
    var q := Dissolve(p, r);
    var i: nat, j: nat :| i < |p.nodes| && j < |p.nodes| && In(p, f, u, i) && UsesNode(p, i, j) && UnitOf(p, f, j) == d
                          && (InFlow(p, f, j) || d.Region?);
    OriginOf(p, f, r, i);
    OriginOf(p, f, r, j);
    assert UsesNode(q, i, j);
    assert TakesFrom(q, f, u, d);
    UnitKept(p, f, r, u);
    UnitKept(p, f, r, d);
  }

  lemma UnitKept(p: Plan, f: Flow, r: nat, u: Unit)
    requires OneHome(p) && WellFormed(Dissolve(p, r)) && u in Units(p, f) && u != Region(r)
    ensures u in Units(Dissolve(p, r), f) && Origin(p, f, r, u) == u
    ensures Hook(p, f, u) <==> Hook(Dissolve(p, r), f, u)
    ensures ProviderOnly(p, f, u) <==> ProviderOnly(Dissolve(p, r), f, u)
  {
    var q := Dissolve(p, r);
    forall i: nat | i < |p.nodes|
      ensures In(p, f, u, i) <==> In(q, f, u, i)
    {
      OriginOf(p, f, r, i);
    }
    var k: nat :| k < |p.nodes| && InFlow(p, f, k) && UnitOf(p, f, k) == u;
    assert In(q, f, u, k);
  }

  lemma InnerReach(p: Plan, f: Flow, r: nat, m: nat, u: nat)
    requires OneHome(p) && WellFormed(Dissolve(p, r)) && Reach(InnerGraph(p, f, r), m, u)
    ensures Reach(TakesGraph(Dissolve(p, r), f), Inline(m), Inline(u))
  {
    var g := InnerGraph(p, f, r);
    var h := TakesGraph(Dissolve(p, r), f);
    var seen := set i | i in g.Keys + {m} && Reach(h, Inline(m), Inline(i));
    ReachRefl(h, Inline(m));
    forall a, b | a in seen && b in Succ(g, a)
      ensures b in seen
    {
      InnerTakes(p, f, r, a, b);
      ReachEdge(h, Inline(a), Inline(b));
      ReachTrans(h, Inline(m), Inline(a), Inline(b));
    }
    assert Closed(g, seen);
    ReachClosed(g, seen, m, u);
  }

  lemma OuterReach(p: Plan, f: Flow, r: nat, h: Unit, w: Unit)
    requires OneHome(p) && WellFormed(Dissolve(p, r)) && Reach(OuterGraph(p, f, r), h, w)
    ensures Reach(TakesGraph(Dissolve(p, r), f), h, w)
  {
    hide TakesFrom;
    var g, t := OuterGraph(p, f, r), TakesGraph(Dissolve(p, r), f);
    var seen := set i | i in g.Keys + {h} && Reach(t, h, i);
    ReachRefl(t, h);
    forall a, b | a in seen && b in Succ(g, a)
      ensures b in seen
    {
      OuterTakes(p, f, r, a, b);
      ReachEdge(t, a, b);
      ReachTrans(t, h, a, b);
    }
    assert Closed(g, seen);
    ReachClosed(g, seen, h, w);
  }

  /** A wanted member is reached from a hook once r dissolves. */
  lemma WantedReached(p: Plan, f: Flow, r: nat, m: nat) returns (h: Unit)
    requires OneHome(p) && WellFormed(Dissolve(p, r)) && Wanted(p, f, r, m)
    ensures Hook(Dissolve(p, r), f, h) && Reach(TakesGraph(Dissolve(p, r), f), h, Inline(m))
    ensures !IsHook(p.nodes[m]) ==> h != Region(r) && Hook(p, f, h) && h in Units(p, f)
  {
    var t := TakesGraph(Dissolve(p, r), f);
    HeldFreed(p, f, r, m);
    if IsHook(p.nodes[m]) {
      h := Inline(m);
      ReachRefl(t, h);
    } else {
      h :| DrawnBy(p, f, r, h, m);
      var w :| w != Region(r) && Reach(OuterGraph(p, f, r), h, w) && TakesValue(p, f, w, m);
      assert h in Units(p, f);
      UnitKept(p, f, r, h);
      hide TakesFrom, TakesValue, Hook, OuterGraph, TakesGraph, Units, HeldIn;
      OuterReach(p, f, r, h, w);
      WantedEdge(p, f, r, w, m);
      ReachEdge(t, w, Inline(m));
      ReachTrans(t, h, w, Inline(m));
    }
  }

  /** What a region exposes, its dissolution lets a hook draw on. */
  lemma ExposedDraws(p: Plan, f: Flow, r: nat)
    requires OneHome(p) && WellFormed(Dissolve(p, r)) && Exposes(p, f, r)
    ensures HookDraws(Dissolve(p, r), f)
  {
    var q := Dissolve(p, r);
    var m: nat, u: nat :|
      Wanted(p, f, r, m) && u in HeldIn(p, f, r) && IsProvider(p.nodes[u]) && Reach(InnerGraph(p, f, r), m, u);
    hide TakesGraph, Hook, ProviderOnly, Wanted, InnerGraph, HeldIn, OneHome, WellFormed, Dissolve;
    FreedProvider(p, f, r, u);
    InnerReach(p, f, r, m, u);
    var h := WantedReached(p, f, r, m);
    ReachTrans(TakesGraph(q, f), h, Inline(m), Inline(u));
  }

  lemma FreedProvider(p: Plan, f: Flow, r: nat, u: nat)
    requires OneHome(p) && WellFormed(Dissolve(p, r)) && u in HeldIn(p, f, r) && IsProvider(p.nodes[u])
    ensures ProviderOnly(Dissolve(p, r), f, Inline(u))
  {
    HeldFreed(p, f, r, u);
  }

  lemma WantedEdge(p: Plan, f: Flow, r: nat, w: Unit, m: nat)
    requires OneHome(p) && WellFormed(Dissolve(p, r)) && w != Region(r) && TakesValue(p, f, w, m)
    requires m in HeldIn(p, f, r)
    ensures Inline(m) in Succ(TakesGraph(Dissolve(p, r), f), w)
  {
    var q := Dissolve(p, r);
    var i: nat :| i < |p.nodes| && In(p, f, w, i) && UsesNode(p, i, m);
    HeldFreed(p, f, r, m);
    OriginOf(p, f, r, i);
    UnitKept(p, f, r, w);
    assert UsesNode(q, i, m);
    assert TakesFrom(q, f, w, Inline(m));
  }

  /** Inside r, node i is used, directly or through other members, by a member that hooks want. */
  ghost predicate WantedInside(p: Plan, f: Flow, r: nat, i: nat)
    requires WellFormed(p)
  {
    exists m: nat :: Wanted(p, f, r, m) && Reach(InnerGraph(p, f, r), m, i)
  }

  /** How a unit of the dissolved plan is reached from hook h: still outside r, inside r from a wanted member, or after
      r was left. */
  ghost predicate ReachedFrom(p: Plan, f: Flow, r: nat, h: Unit, x: Unit)
    requires WellFormed(p)
  {
    || (x != Region(r) && x in Units(p, f) && h != Region(r) && h in Units(p, f) && Hook(p, f, h)
        && Reach(OuterGraph(p, f, r), h, x))
    || (x.Inline? && x.i in HeldIn(p, f, r) && WantedInside(p, f, r, x.i))
    || (x != Region(r) && x in Units(p, f) && Reach(TakesGraph(p, f), Region(r), x))
  }

  lemma FreedOrKept(p: Plan, f: Flow, r: nat, u: Unit)
    requires OneHome(p) && WellFormed(Dissolve(p, r)) && u in Units(Dissolve(p, r), f)
    ensures (u.Inline? && u.i in HeldIn(p, f, r)) || (u in Units(p, f) && u != Region(r))
  {
    var q := Dissolve(p, r);
    var i: nat :| i < |q.nodes| && InFlow(q, f, i) && UnitOf(q, f, i) == u;
    OriginOf(p, f, r, i);
  }

  /** A step from a unit outside r: to another such unit, or to a member that is taken from. */
  lemma OutsideStep(p: Plan, f: Flow, r: nat, a: Unit, b: Unit)
    requires OneHome(p) && WellFormed(Dissolve(p, r)) && b in Succ(TakesGraph(Dissolve(p, r), f), a)
    requires a in Units(p, f) && a != Region(r)
    ensures if b.Inline? && b.i in HeldIn(p, f, r)
            then TakesValue(p, f, a, b.i) && Region(r) in Succ(TakesGraph(p, f), a)
            else b in Succ(OuterGraph(p, f, r), a) && b in Succ(TakesGraph(p, f), a)
  {
    var q := Dissolve(p, r);
    FreedOrKept(p, f, r, b);
    UnitKept(p, f, r, a);
    var i: nat, j: nat :| i < |q.nodes| && j < |q.nodes| && In(q, f, a, i) && UsesNode(q, i, j) && UnitOf(q, f, j) == b
                          && (InFlow(q, f, j) || b.Region?);
    OriginOf(p, f, r, i);
    OriginOf(p, f, r, j);
    assert UsesNode(p, i, j);
    if b.Inline? && b.i in HeldIn(p, f, r) {
      HeldFreed(p, f, r, b.i);
      assert j == b.i;
      assert TakesFrom(p, f, a, Region(r));
    } else {
      UnitKept(p, f, r, b);
      assert TakesFrom(p, f, a, b);
    }
  }

  /** A step from a member of r: to another member, or out of r. */
  lemma InsideStep(p: Plan, f: Flow, r: nat, i: nat, b: Unit)
    requires OneHome(p) && WellFormed(Dissolve(p, r)) && b in Succ(TakesGraph(Dissolve(p, r), f), Inline(i))
    requires i in HeldIn(p, f, r)
    ensures if b.Inline? && b.i in HeldIn(p, f, r) then b.i in Succ(InnerGraph(p, f, r), i)
            else b in Units(p, f) && b != Region(r) && b in Succ(TakesGraph(p, f), Region(r))
  {
    var q := Dissolve(p, r);
    FreedOrKept(p, f, r, b);
    HeldFreed(p, f, r, i);
    var k: nat, j: nat :| k < |q.nodes| && j < |q.nodes| && In(q, f, Inline(i), k) && UsesNode(q, k, j)
                          && UnitOf(q, f, j) == b && (InFlow(q, f, j) || b.Region?);
    OriginOf(p, f, r, j);
    assert k == i && UsesNode(p, i, j);
    if b.Inline? && b.i in HeldIn(p, f, r) {
      HeldFreed(p, f, r, b.i);
      assert j == b.i && j != i;
    } else {
      UnitKept(p, f, r, b);
      assert TakesFrom(p, f, Region(r), b);
    }
  }

  lemma ReachedStep(p: Plan, f: Flow, r: nat, h: Unit, a: Unit, b: Unit)
    requires OneHome(p) && WellFormed(Dissolve(p, r)) && WellFounded(TakesGraph(p, f))
    requires b in Succ(TakesGraph(Dissolve(p, r), f), a) && ReachedFrom(p, f, r, h, a)
    ensures ReachedFrom(p, f, r, h, b)
  {
    hide TakesFrom, Hook, ProviderOnly, TakesValue, In, HeldIn, Units, WellFounded, TakesGraph, OuterGraph, InnerGraph;
    if a.Inline? && a.i in HeldIn(p, f, r) && WantedInside(p, f, r, a.i) {
      var m: nat :| Wanted(p, f, r, m) && Reach(InnerGraph(p, f, r), m, a.i);
      InsideStep(p, f, r, a.i, b);
      if b.Inline? && b.i in HeldIn(p, f, r) {
        ReachEdge(InnerGraph(p, f, r), a.i, b.i);
        ReachTrans(InnerGraph(p, f, r), m, a.i, b.i);
      } else {
        ReachEdge(TakesGraph(p, f), Region(r), b);
      }
    } else {
      OutsideStep(p, f, r, a, b);
      if b.Inline? && b.i in HeldIn(p, f, r) {
        if Reach(TakesGraph(p, f), Region(r), a) {
          NoReturn(p, f, r, a);
        } else {
          assert DrawnBy(p, f, r, h, b.i);
          assert Wanted(p, f, r, b.i);
          ReachRefl(InnerGraph(p, f, r), b.i);
        }
      } else {
        OuterUnits(p, f, r, a, b);
        ReachEdge(OuterGraph(p, f, r), a, b);
        ReachEdge(TakesGraph(p, f), a, b);
        if Reach(OuterGraph(p, f, r), h, a) { ReachTrans(OuterGraph(p, f, r), h, a, b); }
        if Reach(TakesGraph(p, f), Region(r), a) { ReachTrans(TakesGraph(p, f), Region(r), a, b); }
      }
    }
  }

  lemma OuterUnits(p: Plan, f: Flow, r: nat, a: Unit, b: Unit)
    requires WellFormed(p) && b in Succ(OuterGraph(p, f, r), a)
    ensures b in Units(p, f) && b != Region(r)
  {}

  /** Where values are in order, no way leads out of r and back. */
  lemma NoReturn(p: Plan, f: Flow, r: nat, a: Unit)
    requires WellFormed(p) && WellFounded(TakesGraph(p, f)) && Reach(TakesGraph(p, f), Region(r), a)
    ensures Region(r) !in Succ(TakesGraph(p, f), a)
  {
    WellFoundedIffAcyclic(TakesGraph(p, f));
    if Region(r) in Succ(TakesGraph(p, f), a) { assert OnCycle(TakesGraph(p, f), a); }
  }

  /** In a schedulable plan, only what r exposes is drawn on once r dissolves. */
  lemma DrawsExposed(p: Plan, f: Flow, r: nat)
    requires OneHome(p) && WellFormed(Dissolve(p, r)) && WellFounded(UnitGraph(p, f)) && HookDraws(Dissolve(p, r), f)
    ensures Exposes(p, f, r)
  {
    SchedulableIff(p, f);
    hide TakesFrom, UnitGraph, WellFounded, ReachedFrom, Exposes;
    var q := Dissolve(p, r);
    var t := TakesGraph(q, f);
    var h, u :| Hook(q, f, h) && ProviderOnly(q, f, u) && Reach(t, h, u);
    assert h in Units(q, f) && u in Units(q, f);
    HookReached(p, f, r, h);
    var seen := set x | x in Units(q, f) && ReachedFrom(p, f, r, h, x);
    forall a, b | a in seen && b in Succ(t, a)
      ensures b in seen
    {
      ReachedStep(p, f, r, h, a, b);
    }
    assert Closed(t, seen);
    ReachClosed(t, seen, h, u);
    ProviderReached(p, f, r, h, u);
  }

  lemma HookReached(p: Plan, f: Flow, r: nat, h: Unit)
    requires OneHome(p) && WellFormed(Dissolve(p, r)) && Hook(Dissolve(p, r), f, h)
    ensures ReachedFrom(p, f, r, h, h)
  {
    assert h in Units(Dissolve(p, r), f);
    FreedOrKept(p, f, r, h);
    if h.Inline? && h.i in HeldIn(p, f, r) {
      HeldFreed(p, f, r, h.i);
      assert Wanted(p, f, r, h.i);
      ReachRefl(InnerGraph(p, f, r), h.i);
    } else {
      UnitKept(p, f, r, h);
      ReachRefl(OuterGraph(p, f, r), h);
    }
  }

  /** The provider that the hook reaches is one of r's: any other was drawn on before. */
  lemma ProviderReached(p: Plan, f: Flow, r: nat, h: Unit, u: Unit)
    requires OneHome(p) && WellFormed(Dissolve(p, r)) && !HookDraws(p, f) && Hook(Dissolve(p, r), f, h)
    requires ProviderOnly(Dissolve(p, r), f, u) && Reach(TakesGraph(Dissolve(p, r), f), h, u)
    requires ReachedFrom(p, f, r, h, u)
    ensures Exposes(p, f, r)
  {
    var q := Dissolve(p, r);
    assert u in Units(q, f);
    FreedOrKept(p, f, r, u);
    if u.Inline? && u.i in HeldIn(p, f, r) {
      HeldFreed(p, f, r, u.i);
      assert IsProvider(p.nodes[u.i]);
    } else {
      UnitKept(p, f, r, u);
      OriginHook(p, f, r, h);
      OriginReach(p, f, r, h, u);
    }
  }

  lemma OriginReach(p: Plan, f: Flow, r: nat, h: Unit, u: Unit)
    requires OneHome(p) && WellFormed(Dissolve(p, r)) && Reach(TakesGraph(Dissolve(p, r), f), h, u)
    ensures Reach(TakesGraph(p, f), Origin(p, f, r, h), Origin(p, f, r, u))
  {
    hide TakesFrom, Origin;
    var q := Dissolve(p, r);
    var g := TakesGraph(p, f);
    var H := Origin(p, f, r, h);
    var seen := set d | d in Units(q, f) + {h} && Reach(g, H, Origin(p, f, r, d));
    ReachRefl(g, H);
    forall a, b | a in seen && b in Succ(TakesGraph(q, f), a)
      ensures b in seen
    {
      OriginStep(p, f, r, a, b);
      ReachTrans(g, H, Origin(p, f, r, a), Origin(p, f, r, b));
    }
    assert Closed(TakesGraph(q, f), seen);
    ReachClosed(TakesGraph(q, f), seen, h, u);
  }

  lemma OriginStep(p: Plan, f: Flow, r: nat, a: Unit, b: Unit)
    requires OneHome(p) && WellFormed(Dissolve(p, r)) && b in Succ(TakesGraph(Dissolve(p, r), f), a)
    ensures b in Units(Dissolve(p, r), f) && Reach(TakesGraph(p, f), Origin(p, f, r, a), Origin(p, f, r, b))
  {
    var A, B := Origin(p, f, r, a), Origin(p, f, r, b);
    UnitsOrigin(p, f, r, a);
    UnitsOrigin(p, f, r, b);
    if A == B {
      ReachRefl(TakesGraph(p, f), A);
    } else {
      OriginTakes(p, f, r, a, b);
      hide TakesFrom;
      ReachEdge(TakesGraph(p, f), A, B);
    }
  }

  /** Exactly when: dissolving r keeps a schedulable flow schedulable if and only if r does not expose a provider: a
      member that is a hook, or on which a hook unit draws from outside, uses what a provider of r defines. */
  lemma DissolveKeepsIff(p: Plan, f: Flow, r: nat)
    requires OneHome(p) && WellFounded(NodeGraph(p, f)) && WellFounded(UnitGraph(p, f))
    ensures WellFormed(Dissolve(p, r)) && (WellFounded(UnitGraph(Dissolve(p, r), f)) <==> !Exposes(p, f, r))
  {
    hide WellFounded, HookDraws, UnitGraph, TakesGraph, NodeGraph, Exposes;
    SchedulableIff(p, f);
    DissolveTakes(p, f, r);
    SchedulableIff(Dissolve(p, r), f);
    if HookDraws(Dissolve(p, r), f) { DrawsExposed(p, f, r); }
    if Exposes(p, f, r) { ExposedDraws(p, f, r); }
  }

  /** In a schedulable plan an unmixed region exposes nothing: it would have been drawn on as a whole. */
  lemma UnmixedHides(p: Plan, f: Flow, r: nat)
    requires OneHome(p) && Unmixed(p, r) && WellFormed(Dissolve(p, r)) && Exposes(p, f, r)
    ensures HookDraws(p, f)
  {
    var m: nat, u: nat :|
      Wanted(p, f, r, m) && u in HeldIn(p, f, r) && IsProvider(p.nodes[u]) && Reach(InnerGraph(p, f, r), m, u);
    HeldMember(p, f, r, u);
    assert m in HeldIn(p, f, r);
    HeldMember(p, f, r, m);
    assert !IsHook(p.nodes[m]);
    HeldProvider(p, f, r, u);
    HeldFreed(p, f, r, m);
    hide TakesGraph, Hook, ProviderOnly, Wanted, InnerGraph, HeldIn, Unmixed;
    var h := WantedReached(p, f, r, m);
    OriginReach(p, f, r, h, Inline(m));
    UnitKept(p, f, r, h);
  }

  lemma HeldProvider(p: Plan, f: Flow, r: nat, u: nat)
    requires WellFormed(p) && Unmixed(p, r) && u in HeldIn(p, f, r) && IsProvider(p.nodes[u])
    ensures ProviderOnly(p, f, Region(r))
  {
    HeldMember(p, f, r, u);
    forall k: nat | k < |p.nodes| && In(p, f, Region(r), k)
      ensures !IsHook(p.nodes[k])
    {
      HeldMember(p, f, r, k);
    }
  }

  lemma HeldMember(p: Plan, f: Flow, r: nat, i: nat)
    requires WellFormed(p) && i in HeldIn(p, f, r)
    ensures r in p.memberOf[i]
  {}

  /** Dissolving an unmixed region keeps a schedulable flow schedulable. */
  lemma DissolveKeeps(p: Plan, f: Flow, r: nat)
    requires OneHome(p) && Unmixed(p, r) && WellFounded(NodeGraph(p, f)) && WellFounded(UnitGraph(p, f))
    ensures WellFormed(Dissolve(p, r)) && WellFounded(UnitGraph(Dissolve(p, r), f))
  {
    hide WellFounded, HookDraws, UnitGraph, TakesGraph, NodeGraph, Unmixed, Exposes;
    DissolveKeepsIff(p, f, r);
    SchedulableIff(p, f);
    if Exposes(p, f, r) { UnmixedHides(p, f, r); }
  }

  lemma UnitEdge(q: Plan, f: Flow, u: Unit, d: Unit)
    requires WellFormed(q) && u in Units(q, f) && d in Units(q, f) && After(q, f, u, d)
    ensures d in Succ(UnitGraph(q, f), u)
  {}

  lemma NodeEdge(p: Plan, f: Flow, i: nat, j: nat)
    requires NodeAfter(p, f, i, j)
    ensures j in Succ(NodeGraph(p, f), i)
  {}

  lemma NoSelfTake(q: Plan, f: Flow, u: Unit)
    requires WellFormed(q)
    ensures u !in Succ(TakesGraph(q, f), u)
  {}

  lemma NoRegionLeft(p: Plan, f: Flow, r: nat)
    requires OneHome(p) && WellFormed(Dissolve(p, r))
    ensures Region(r) !in Units(Dissolve(p, r), f)
  {
    var q := Dissolve(p, r);
    forall i: nat | i < |q.nodes|
      ensures UnitOf(q, f, i) != Region(r)
    {
      OriginOf(p, f, r, i);
    }
  }

  // ---- ordering one flow ----

  /** steps are different units of the flow, each after everything it must come after. */
  ghost predicate Schedule(p: Plan, f: Flow, steps: seq<Unit>)
    requires WellFormed(p)
  {
    && Distinct(steps) && Elements(steps) <= Units(p, f)
    && forall k :: 0 <= k < |steps| ==> Succ(UnitGraph(p, f), steps[k]) <= Elements(steps[..k])
  }

  ghost predicate Blocked(p: Plan, f: Flow, emitted: set<Unit>, u: Unit)
    requires WellFormed(p)
  {
    !(Succ(UnitGraph(p, f), u) <= emitted)
  }

  /** Node i is the first of units[k], and the units of all earlier nodes stand before it. */
  ghost predicate FirstAt(p: Plan, f: Flow, units: seq<Unit>, k: nat, i: nat)
    requires WellFormed(p) && k < |units|
  {
    && i < |p.nodes| && In(p, f, units[k], i)
    && forall j: nat :: j < i && InFlow(p, f, j) ==> UnitOf(p, f, j) in units[..k]
  }

  ghost predicate Opened(p: Plan, f: Flow, units: seq<Unit>, k: nat, n: nat)
    requires WellFormed(p) && k < |units|
  {
    exists i: nat :: i < n && FirstAt(p, f, units, k, i)
  }

  ghost predicate StoreOrder(p: Plan, f: Flow, units: seq<Unit>, n: nat)
    requires WellFormed(p)
  {
    && Distinct(units) && (forall i: nat :: i < n && InFlow(p, f, i) ==> UnitOf(p, f, i) in units)
    && (forall k: nat {:trigger Opened(p, f, units, k, n)} :: k < |units| ==> Opened(p, f, units, k, n))
  }

  lemma StoreOrderNext(p: Plan, f: Flow, units: seq<Unit>, n: nat)
    requires WellFormed(p) && StoreOrder(p, f, units, n) && n < |p.nodes|
    ensures var u := UnitOf(p, f, n);
            StoreOrder(p, f, if InFlow(p, f, n) && u !in units then units + [u] else units, n + 1)
  {
    hide UnitOf, Units;
    var u := UnitOf(p, f, n);
    if InFlow(p, f, n) && u !in units {
      var more := units + [u];
      forall k: nat {:trigger Opened(p, f, more, k, n + 1)} | k < |more|
        ensures Opened(p, f, more, k, n + 1)
      {
        assert k < |units| ==> Opened(p, f, units, k, n);
        assert k < |units| ==> more[..k] == units[..k];
        assert more[..|units|] == units;
        if k < |units| {
          var i: nat :| i < n && FirstAt(p, f, units, k, i);
          assert FirstAt(p, f, more, k, i);
        } else {
          assert FirstAt(p, f, more, k, n);
        }
      }
    } else {
      forall k: nat {:trigger Opened(p, f, units, k, n + 1)} | k < |units|
        ensures Opened(p, f, units, k, n + 1)
      {
        assert Opened(p, f, units, k, n);
      }
    }
  }

  /** Units in store order of their first node. */
  method CollectUnits(p: Plan, f: Flow) returns (units: seq<Unit>)
    requires WellFormed(p)
    ensures StoreOrder(p, f, units, |p.nodes|) && Elements(units) == Units(p, f)
  {
    hide UnitOf;
    units := [];
    for n := 0 to |p.nodes|
      invariant StoreOrder(p, f, units, n)
    {
      StoreOrderNext(p, f, units, n);
      if InFlow(p, f, n) && UnitOf(p, f, n) !in units {
        units := units + [UnitOf(p, f, n)];
      }
    }
    forall u
      ensures u in units <==> u in Units(p, f)
    {
      if u in units {
        var k: nat :| k < |units| && units[k] == u;
        assert Opened(p, f, units, k, |p.nodes|);
        var i: nat :| i < |p.nodes| && FirstAt(p, f, units, k, i);
      }
    }
  }

  /** The barrier counter: hooks not yet emitted. */
  function HooksLeft(p: Plan, f: Flow, units: seq<Unit>, emitted: set<Unit>): (n: nat)
    requires WellFormed(p)
    ensures n > 0 <==> exists k :: 0 <= k < |units| && units[k] !in emitted && Hook(p, f, units[k])
  {
    if units == [] then 0
    else
      var rest := HooksLeft(p, f, units[1..], emitted);
      assert forall k :: 0 < k < |units| ==> units[k] == units[1..][k - 1];
      if units[0] !in emitted && Hook(p, f, units[0]) then rest + 1 else rest
  }

  lemma {:induction false} HooksLeftStep(p: Plan, f: Flow, units: seq<Unit>, emitted: set<Unit>, u: Unit)
    requires WellFormed(p) && Distinct(units) && u !in emitted
    ensures HooksLeft(p, f, units, emitted) ==
            HooksLeft(p, f, units, emitted + {u}) + if u in units && Hook(p, f, u) then 1 else 0
  {
    if units != [] { HooksLeftStep(p, f, units[1..], emitted, u); }
  }

  /** Ready as the loop decides it: producers emitted, and no hook outstanding if u only provides. */
  lemma ReadyIff(p: Plan, f: Flow, units: seq<Unit>, emitted: set<Unit>, u: Unit)
    requires WellFormed(p) && Elements(units) == Units(p, f) && u in units
    ensures !Blocked(p, f, emitted, u) <==>
            (forall d :: d in units && TakesFrom(p, f, u, d) ==> d in emitted) &&
            !(ProviderOnly(p, f, u) && HooksLeft(p, f, units, emitted) > 0)
  {
    hide TakesFrom, Hook, HooksLeft;
    assert forall d :: d in units <==> d in Units(p, f);
    if ProviderOnly(p, f, u) && HooksLeft(p, f, units, emitted) > 0 {
      var k :| 0 <= k < |units| && units[k] !in emitted && Hook(p, f, units[k]);
      assert units[k] in Succ(UnitGraph(p, f), u);
    }
    if Blocked(p, f, emitted, u) {
      var d :| d in Succ(UnitGraph(p, f), u) && d !in emitted;
      assert d in units;
      var k :| 0 <= k < |units| && units[k] == d;
    }
  }

  /** The first unemitted unit, in store order, that is ready. */
  method NextReady(p: Plan, f: Flow, units: seq<Unit>, emitted: set<Unit>, hooksLeft: nat) returns (k: nat)
    requires WellFormed(p) && Elements(units) == Units(p, f) && hooksLeft == HooksLeft(p, f, units, emitted)
    ensures k <= |units|
    ensures k < |units| ==> units[k] !in emitted && !Blocked(p, f, emitted, units[k])
    ensures forall j :: 0 <= j < k ==> units[j] in emitted || Blocked(p, f, emitted, units[j])
  {
    hide TakesFrom, Hook, HooksLeft, Blocked, ProviderOnly;
    k := 0;
    while k < |units|
      invariant k <= |units|
      invariant forall j :: 0 <= j < k ==> units[j] in emitted || Blocked(p, f, emitted, units[j])
    {
      var u := units[k];
      ReadyIff(p, f, units, emitted, u);
      if u !in emitted {
        var ready := forall d | d in units :: TakesFrom(p, f, u, d) ==> d in emitted;
        if ready && !(ProviderOnly(p, f, u) && hooksLeft > 0) {
          return;
        }
      }
      k := k + 1;
    }
  }

  lemma ScheduleNone(p: Plan, f: Flow)
    requires WellFormed(p)
    ensures Schedule(p, f, []) && StoreGreedy(p, f, [])
  {}

  lemma ScheduleExtend(p: Plan, f: Flow, steps: seq<Unit>, u: Unit)
    requires WellFormed(p) && Schedule(p, f, steps) && u in Units(p, f) && u !in steps
    requires !Blocked(p, f, Elements(steps), u)
    ensures Schedule(p, f, steps + [u])
  {
    var longer := steps + [u];
    assert forall k :: 0 <= k < |steps| ==> longer[..k] == steps[..k];
    assert longer[..|steps|] == steps;
    assert Elements(longer) == Elements(steps) + {u};
  }

  /** u's first node comes no later than any node of v. */
  ghost predicate Precedes(p: Plan, f: Flow, u: Unit, v: Unit)
    requires WellFormed(p)
  {
    exists i: nat :: In(p, f, u, i) && forall j: nat :: In(p, f, v, j) ==> i <= j
  }

  /** Each step is, among the units ready at that point, the one that comes first in the store. */
  ghost predicate StoreGreedy(p: Plan, f: Flow, steps: seq<Unit>)
    requires WellFormed(p)
  {
    forall k, u {:trigger Precedes(p, f, steps[k], u)} ::
      0 <= k < |steps| && u in Units(p, f) && u !in steps[..k] && !Blocked(p, f, Elements(steps[..k]), u) ==>
        Precedes(p, f, steps[k], u)
  }

  lemma StorePrecedes(p: Plan, f: Flow, units: seq<Unit>, a: nat, b: nat)
    requires WellFormed(p) && StoreOrder(p, f, units, |p.nodes|) && a <= b < |units|
    ensures Precedes(p, f, units[a], units[b])
  {
    assert Opened(p, f, units, a, |p.nodes|);
    var i: nat :| i < |p.nodes| && FirstAt(p, f, units, a, i);
    forall j: nat | In(p, f, units[b], j)
      ensures i <= j
    {
      assert units[b] !in units[..a];
    }
  }

  lemma GreedyExtend(p: Plan, f: Flow, units: seq<Unit>, steps: seq<Unit>, k: nat)
    requires WellFormed(p) && StoreOrder(p, f, units, |p.nodes|) && Elements(units) == Units(p, f) && k < |units|
    requires StoreGreedy(p, f, steps)
    requires forall j :: 0 <= j < k ==> units[j] in Elements(steps) || Blocked(p, f, Elements(steps), units[j])
    ensures StoreGreedy(p, f, steps + [units[k]])
  {
    hide StoreOrder, Blocked, Precedes, Units;
    var longer := steps + [units[k]];
    assert longer[..|steps|] == steps;
    forall m, u {:trigger Precedes(p, f, longer[m], u)} | 0 <= m < |longer| && u in Units(p, f) && u !in longer[..m]
                                                          && !Blocked(p, f, Elements(longer[..m]), u)
      ensures Precedes(p, f, longer[m], u)
    {
      if m < |steps| {
        assert longer[..m] == steps[..m];
        assert Precedes(p, f, steps[m], u);
      } else {
        assert u in Elements(units);
        var j :| 0 <= j < |units| && units[j] == u;
        StorePrecedes(p, f, units, k, j);
      }
    }
  }

  /** orderFlow: greedy in store order. Either every unit is emitted, or the rest block one another and the first
      region among them, if any, is named. */
  method OrderFlow(p: Plan, f: Flow) returns (steps: seq<Unit>, broken: Option<nat>)
    requires WellFormed(p)
    ensures Schedule(p, f, steps) && StoreGreedy(p, f, steps)
    ensures var rest := Units(p, f) - Elements(steps);
            && (forall u :: u in rest ==> Blocked(p, f, Elements(steps), u))
            && (broken.Some? ==> Region(broken.value) in rest)
            && (broken.None? ==> forall u :: u in rest ==> u.Inline?)
  {
    hide TakesFrom, Hook, HooksLeft, Blocked, ProviderOnly, UnitGraph, Opened, Schedule, StoreGreedy;
    var units := CollectUnits(p, f);
    var emitted: set<Unit> := {};
    var hooksLeft := HooksLeft(p, f, units, emitted);
    steps, broken := [], None;
    ScheduleNone(p, f);
    while true
      invariant Schedule(p, f, steps) && StoreGreedy(p, f, steps) && emitted == Elements(steps)
      invariant hooksLeft == HooksLeft(p, f, units, emitted)
      decreases Units(p, f) - emitted
    {
      var k := NextReady(p, f, units, emitted, hooksLeft);
      if k == |units| {
        assert forall u :: u in Units(p, f) - Elements(steps) ==> u in units;
        break;
      }
      ScheduleExtend(p, f, steps, units[k]);
      GreedyExtend(p, f, units, steps, k);
      HooksLeftStep(p, f, units, emitted, units[k]);
      assert units[k] in Elements(units);
      steps := steps + [units[k]];
      emitted := emitted + {units[k]};
      if Hook(p, f, units[k]) { hooksLeft := hooksLeft - 1; }
    }
    broken := FirstRegion(units, emitted);
    assert Elements(units) - emitted == Units(p, f) - Elements(steps);
  }

  method FirstRegion(units: seq<Unit>, emitted: set<Unit>) returns (broken: Option<nat>)
    ensures broken.Some? ==> Region(broken.value) in Elements(units) - emitted
    ensures broken.None? ==> forall u :: u in Elements(units) - emitted ==> u.Inline?
  {
    for k := 0 to |units|
      invariant forall j :: 0 <= j < k ==> units[j] in emitted || units[j].Inline?
    {
      if units[k] !in emitted && units[k].Region? {
        return Some(units[k].r);
      }
    }
    broken := None;
  }

  // ---- stalls ----

  /** Units that block one another form a set without a minimal member. */
  lemma StallNotWellFounded(p: Plan, f: Flow, emitted: set<Unit>, rest: set<Unit>)
    requires WellFormed(p) && rest == Units(p, f) - emitted && rest != {}
    requires forall u :: u in rest ==> Blocked(p, f, emitted, u)
    ensures !WellFounded(UnitGraph(p, f))
  {
    hide After;
    forall m | m in rest
      ensures !Minimal(UnitGraph(p, f), rest, m)
    {
      var d :| d in Succ(UnitGraph(p, f), m) && d !in emitted;
      assert d in rest;
    }
    assert !HasMinimal(UnitGraph(p, f), rest);
  }

  /** If only inline nodes are left and they block one another, the nodes themselves form a cycle. */
  lemma InlineStall(p: Plan, f: Flow, emitted: set<Unit>, rest: set<Unit>)
    requires WellFormed(p) && rest == Units(p, f) - emitted && rest != {}
    requires forall u :: u in rest ==> Blocked(p, f, emitted, u) && u.Inline?
    ensures !WellFounded(NodeGraph(p, f))
  {
    hide After, NodeAfter;
    var inner: set<nat> := set u | u in rest :: u.i;
    var w :| w in rest;
    assert w.i in inner;
    forall i | i in inner
      ensures !Minimal(NodeGraph(p, f), inner, i)
    {
      assert Inline(i) in rest;
      var d :| d in Succ(UnitGraph(p, f), Inline(i)) && d !in emitted;
      assert d in rest && d.i in inner;
      InlineAfter(p, f, i, d.i);
      NodeEdge(p, f, i, d.i);
    }
    assert !HasMinimal(NodeGraph(p, f), inner);
  }

  lemma InlineAfter(p: Plan, f: Flow, i: nat, j: nat)
    requires WellFormed(p) && After(p, f, Inline(i), Inline(j))
    requires Inline(i) in Units(p, f) && Inline(j) in Units(p, f)
    ensures NodeAfter(p, f, i, j)
  {
    InlineNode(p, f, i);
    InlineNode(p, f, j);
  }

  /** A complete schedule shows that the flow is schedulable. */
  lemma ScheduledWellFounded(p: Plan, f: Flow, steps: seq<Unit>)
    requires WellFormed(p) && Schedule(p, f, steps) && Elements(steps) == Units(p, f)
    ensures WellFounded(UnitGraph(p, f))
  {
    hide After;
    forall s: set<Unit> {:trigger HasMinimal(UnitGraph(p, f), s)} | s != {}
      ensures HasMinimal(UnitGraph(p, f), s)
    {
      if s !! Units(p, f) {
        var u :| u in s;
        assert Minimal(UnitGraph(p, f), s, u);
      } else {
        var u :| u in s && u in Units(p, f);
        assert u in Elements(steps);
        var k: nat :| k < |steps| && steps[k] == u;
        EarliestMinimal(p, f, steps, s, k);
      }
    }
  }

  lemma EarliestMinimal(p: Plan, f: Flow, steps: seq<Unit>, s: set<Unit>, k: nat)
    requires WellFormed(p) && Schedule(p, f, steps) && k < |steps| && steps[k] in s
    ensures HasMinimal(UnitGraph(p, f), s)
    decreases k
  {
    if j: nat :| j < k && steps[j] in s {
      EarliestMinimal(p, f, steps, s, j);
    } else {
      assert Elements(steps[..k]) !! s;
      assert Minimal(UnitGraph(p, f), s, steps[k]);
    }
  }

  // ---- planning all flows ----

  /** What planning is given: flows whose nodes can be ordered at all. */
  ghost predicate Plannable(p: Plan, flows: seq<Flow>) {
    WellFormed(p) && forall f :: f in flows ==> Acyclic(NodeGraph(p, f))
  }

  /** No region holds both a hook and a provider. */
  ghost predicate AllUnmixed(p: Plan)
    requires WellFormed(p)
  {
    forall r: nat :: Unmixed(p, r)
  }

  function Live(p: Plan): set<nat>
    requires WellFormed(p)
  {
    set i, k | 0 <= i < |p.nodes| && 0 <= k < |p.memberOf[i]| :: p.memberOf[i][k]
  }

  lemma DissolveWellFormed(p: Plan, r: nat)
    requires WellFormed(p)
    ensures WellFormed(Dissolve(p, r))
  {
    var q := Dissolve(p, r);
    forall i: nat, k: nat | i < |q.nodes| && k < |q.memberOf[i]|
      ensures q.memberOf[i][k] < |q.usage|
    {
      assert q.memberOf[i][k] in Without(p.memberOf[i], r);
    }
  }

  lemma DissolveLive(p: Plan, r: nat)
    requires WellFormed(p)
    ensures WellFormed(Dissolve(p, r)) && Live(Dissolve(p, r)) == Live(p) - {r}
  {
    DissolveWellFormed(p, r);
    var q := Dissolve(p, r);
    forall x
      ensures x in Live(q) <==> x in Live(p) && x != r
    {
      if x in Live(p) && x != r {
        var i: nat, k: nat :| i < |p.nodes| && k < |p.memberOf[i]| && p.memberOf[i][k] == x;
        assert x in q.memberOf[i];
      }
      if x in Live(q) {
        var i: nat, k: nat :| i < |q.nodes| && k < |q.memberOf[i]| && q.memberOf[i][k] == x;
        assert x in p.memberOf[i];
      }
    }
  }

  lemma DissolvePlannable(p: Plan, flows: seq<Flow>, r: nat)
    requires Plannable(p, flows)
    ensures Plannable(Dissolve(p, r), flows)
  {
    DissolveWellFormed(p, r);
    var q := Dissolve(p, r);
    forall f | f in flows
      ensures Acyclic(NodeGraph(q, f))
    {
      SameNodes(p, q, f);
    }
  }

  lemma DissolveUnmixed(p: Plan, r: nat)
    requires WellFormed(p) && WellFormed(Dissolve(p, r)) && AllUnmixed(p)
    ensures AllUnmixed(Dissolve(p, r))
  {
    forall s: nat
      ensures Unmixed(Dissolve(p, r), s)
    {
      assert Unmixed(p, s);
    }
  }

  lemma SameNodes(p: Plan, q: Plan, f: Flow)
    requires p.nodes == q.nodes && p.definedBy == q.definedBy
    ensures NodeGraph(p, f) == NodeGraph(q, f)
  {
    forall i: nat, j: nat
      ensures NodeAfter(p, f, i, j) <==> NodeAfter(q, f, i, j)
    {
      assert UsesNode(p, i, j) <==> UsesNode(q, i, j);
    }
    var a, b := NodeGraph(p, f), NodeGraph(q, f);
    assert a.Keys == b.Keys;
    forall i | i in a
      ensures a[i] == b[i]
    {}
  }

  /** The flow is delivered: its steps are exactly its units, in an order that respects every constraint. */
  ghost predicate Complete(p: Plan, f: Flow, steps: seq<Unit>)
    requires WellFormed(p)
  {
    Schedule(p, f, steps) && Elements(steps) == Units(p, f)
  }

  ghost predicate Schedulable(p: Plan, flows: seq<Flow>)
    requires WellFormed(p)
  {
    forall f :: f in flows ==> WellFounded(UnitGraph(p, f))
  }

  ghost predicate ValuesOrdered(p: Plan, flows: seq<Flow>)
    requires WellFormed(p)
  {
    forall f :: f in flows ==> WellFounded(TakesGraph(p, f))
  }

  lemma OrderedOrBroken(p: Plan, flows: seq<Flow>, f: Flow, steps: seq<Unit>)
    requires Plannable(p, flows) && f in flows && Schedule(p, f, steps)
    requires forall u :: u in Units(p, f) - Elements(steps) ==> Blocked(p, f, Elements(steps), u) && u.Inline?
    ensures Complete(p, f, steps) && WellFounded(UnitGraph(p, f))
  {
    var rest := Units(p, f) - Elements(steps);
    WellFoundedIffAcyclic(NodeGraph(p, f));
    if rest != {} { InlineStall(p, f, Elements(steps), rest); }
    assert Elements(steps) == Units(p, f) by {
      assert forall u :: u in Units(p, f) ==> u in Elements(steps) || u in rest;
    }
    ScheduledWellFounded(p, f, steps);
  }

  /** Ordering flow f as far as it goes leaves region r among units that all wait for one another. */
  ghost predicate LeftBlocked(p: Plan, f: Flow, r: nat)
    requires WellFormed(p)
  {
    exists steps :: Schedule(p, f, steps) && StuckAfter(p, f, steps) && Region(r) in Units(p, f) - Elements(steps)
  }

  ghost predicate StuckAfter(p: Plan, f: Flow, steps: seq<Unit>)
    requires WellFormed(p)
  {
    forall u :: u in Units(p, f) - Elements(steps) ==> Blocked(p, f, Elements(steps), u)
  }

  /** Region r cannot stay in one piece in some flow. */
  ghost predicate Breaks(p: Plan, flows: seq<Flow>, r: nat)
    requires WellFormed(p)
  {
    exists f :: f in flows && LeftBlocked(p, f, r)
  }

  /** A flow that leaves a region blocked is one that cannot be scheduled, in any order. */
  lemma BrokenFlow(p: Plan, f: Flow, r: nat)
    requires WellFormed(p) && LeftBlocked(p, f, r)
    ensures !WellFounded(UnitGraph(p, f)) && forall steps :: !Complete(p, f, steps)
  {
    hide Blocked, UnitGraph, Schedule;
    var steps :| Schedule(p, f, steps) && StuckAfter(p, f, steps) && Region(r) in Units(p, f) - Elements(steps);
    StallNotWellFounded(p, f, Elements(steps), Units(p, f) - Elements(steps));
    forall other | Complete(p, f, other)
      ensures false
    {
      ScheduledWellFounded(p, f, other);
    }
  }

  /** findUnschedulable: a region that some flow leaves blocked, or none when every flow can be scheduled. */
  method FindUnschedulable(p: Plan, flows: seq<Flow>) returns (broken: Option<nat>)
    requires Plannable(p, flows)
    ensures broken.None? <==> Schedulable(p, flows)
    ensures broken.Some? ==> broken.value in Live(p) && Breaks(p, flows, broken.value)
  {
    hide Schedule, Blocked, Units, UnitGraph, NodeGraph, Plannable, StoreGreedy;
    assert WellFormed(p) by { PlannableFormed(p, flows); }
    for k := 0 to |flows|
      invariant Schedulable(p, flows[..k])
    {
      var steps;
      steps, broken := OrderFlow(p, flows[k]);
      if broken.Some? {
        RegionLive(p, flows[k], broken.value);
        assert StuckAfter(p, flows[k], steps);
        assert LeftBlocked(p, flows[k], broken.value);
        BrokenFlow(p, flows[k], broken.value);
        return;
      }
      OrderedOrBroken(p, flows, flows[k], steps);
    }
    assert flows[..|flows|] == flows;
    broken := None;
  }

  lemma PlannableFormed(p: Plan, flows: seq<Flow>)
    requires Plannable(p, flows)
    ensures WellFormed(p)
  {}

  lemma RegionLive(p: Plan, f: Flow, r: nat)
    requires WellFormed(p) && Region(r) in Units(p, f)
    ensures r in Live(p)
  {
    var i: nat :| i < |p.nodes| && InFlow(p, f, i) && UnitOf(p, f, i) == Region(r);
    var k: nat :| k < |p.memberOf[i]| && p.memberOf[i][k] == r;
  }

  lemma DissolveOrdered(p: Plan, flows: seq<Flow>, r: nat)
    requires Plannable(p, flows) && OneHome(p) && ValuesOrdered(p, flows)
    ensures WellFormed(Dissolve(p, r)) && ValuesOrdered(Dissolve(p, r), flows)
  {
    DissolveFormed(p, r);
    forall f | f in flows
      ensures WellFounded(TakesGraph(Dissolve(p, r), f))
    {
      WellFoundedIffAcyclic(NodeGraph(p, f));
      DissolveTakes(p, f, r);
    }
  }

  lemma DissolveSchedulable(p: Plan, flows: seq<Flow>, r: nat)
    requires Plannable(p, flows) && OneHome(p) && AllUnmixed(p) && Schedulable(p, flows)
    ensures WellFormed(Dissolve(p, r)) && AllUnmixed(Dissolve(p, r)) && Schedulable(Dissolve(p, r), flows)
  {
    DissolveFormed(p, r);
    DissolveUnmixed(p, r);
    forall f | f in flows
      ensures WellFounded(UnitGraph(Dissolve(p, r), f))
    {
      WellFoundedIffAcyclic(NodeGraph(p, f));
      DissolveKeeps(p, f, r);
    }
  }

  lemma ScheduledOrdered(p: Plan, flows: seq<Flow>)
    requires WellFormed(p) && Schedulable(p, flows)
    ensures ValuesOrdered(p, flows)
  {
    forall f | f in flows
      ensures WellFounded(TakesGraph(p, f))
    {
      TakesInOrder(p, f);
    }
  }

  /** Every flow is ordered as far as it goes: to its end exactly when it can be scheduled, which for values in an order
      means that no hook draws on a unit behind the barrier. */
  method OrderAll(p: Plan, flows: seq<Flow>) returns (steps: map<Flow, seq<Unit>>)
    requires WellFormed(p)
    ensures steps.Keys == Elements(flows)
    ensures forall f :: f in flows ==> Schedule(p, f, steps[f]) && StoreGreedy(p, f, steps[f])
    ensures forall f :: f in flows ==> (Complete(p, f, steps[f]) <==> WellFounded(UnitGraph(p, f)))
    ensures forall f :: f in flows && WellFounded(TakesGraph(p, f)) ==> (Complete(p, f, steps[f]) <==> !HookDraws(p, f))
  {
    hide Complete, Blocked, Schedule, StoreGreedy, HookDraws, TakesGraph, WellFounded, UnitGraph, WellFormed;
    steps := map[];
    for k := 0 to |flows|
      invariant steps.Keys == Elements(flows[..k])
      invariant forall f :: f in steps ==> Schedule(p, f, steps[f]) && StoreGreedy(p, f, steps[f])
      invariant forall f :: f in steps ==> (Complete(p, f, steps[f]) <==> WellFounded(UnitGraph(p, f)))
      invariant forall f :: f in steps && WellFounded(TakesGraph(p, f)) ==>
                              (Complete(p, f, steps[f]) <==> !HookDraws(p, f))
    {
      var s, broken := OrderFlow(p, flows[k]);
      CompleteIff(p, flows[k], s);
      assert flows[..k + 1] == flows[..k] + [flows[k]];
      steps := steps[flows[k] := s];
    }
    assert flows[..|flows|] == flows;
  }

  lemma HomeFormed(p: Plan)
    requires OneHome(p)
    ensures WellFormed(p)
  {}

  /** A greedy schedule that cannot go on is complete exactly when the flow can be scheduled. */
  lemma CompleteIff(p: Plan, f: Flow, steps: seq<Unit>)
    requires WellFormed(p) && Schedule(p, f, steps)
    requires forall u :: u in Units(p, f) - Elements(steps) ==> Blocked(p, f, Elements(steps), u)
    ensures Complete(p, f, steps) <==> WellFounded(UnitGraph(p, f))
    ensures WellFounded(TakesGraph(p, f)) ==> (Complete(p, f, steps) <==> !HookDraws(p, f))
  {
    hide HookDraws, TakesGraph;
    SchedulableIff(p, f);
    if Complete(p, f, steps) { ScheduledWellFounded(p, f, steps); }
    if WellFounded(UnitGraph(p, f)) { CompleteIfWellFounded(p, f, steps); }
  }

  lemma CompleteIfWellFounded(p: Plan, f: Flow, steps: seq<Unit>)
    requires WellFormed(p) && WellFounded(UnitGraph(p, f)) && Schedule(p, f, steps)
    requires forall u :: u in Units(p, f) - Elements(steps) ==> Blocked(p, f, Elements(steps), u)
    ensures Complete(p, f, steps)
  {
    var rest := Units(p, f) - Elements(steps);
    if rest != {} { StallNotWellFounded(p, f, Elements(steps), rest); }
    assert forall u :: u in Units(p, f) ==> u in Elements(steps) || u in rest;
  }

  // ---- what a complete schedule means for nodes ----

  ghost predicate At(p: Plan, f: Flow, steps: seq<Unit>, i: nat, k: nat)
    requires WellFormed(p)
  {
    k < |steps| && In(p, f, steps[k], i)
  }

  /** Every node of the flow is covered by exactly one step. */
  lemma CoveredOnce(p: Plan, f: Flow, steps: seq<Unit>, i: nat) returns (k: nat)
    requires WellFormed(p) && Complete(p, f, steps) && InFlow(p, f, i)
    ensures At(p, f, steps, i, k) && forall m: nat :: At(p, f, steps, i, m) ==> m == k
  {
    assert UnitOf(p, f, i) in Elements(steps);
    k :| k < |steps| && steps[k] == UnitOf(p, f, i);
  }

  /** A producer outside the consumer's own unit comes first, and every hook before every provider-only unit. */
  lemma ProducersFirst(p: Plan, f: Flow, steps: seq<Unit>, i: nat, j: nat, k: nat, m: nat)
    requires WellFormed(p) && Complete(p, f, steps) && At(p, f, steps, i, k) && At(p, f, steps, j, m)
    ensures UsesNode(p, i, j) && k != m ==> m < k
    ensures ProviderOnly(p, f, steps[k]) && IsHook(p.nodes[j]) ==> m < k
  {
    if (UsesNode(p, i, j) && k != m) || (ProviderOnly(p, f, steps[k]) && IsHook(p.nodes[j])) {
      assert steps[m] in Units(p, f) && steps[k] in Units(p, f);
      assert k != m;
      assert After(p, f, steps[k], steps[m]);
      assert steps[m] in Elements(steps[..k]);
      var q: nat :| q < k && steps[q] == steps[m];
    }
  }
}
