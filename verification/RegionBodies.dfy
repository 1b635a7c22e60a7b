/**
 The body of a region's function (writeRegionFunc of gen/fragment_emit.go): the
 members are written phase by phase, each phase through the block layout of
 gen/render.go. The body runs in producer order exactly as far as layout can
 give one: nothing uses what a later phase defines, and no phase has a cycle.
 */
module RegionBodies {
  import opened Basics
  import opened Graphs
  import opened Sorting
  import opened GenNodes
  import opened Fragments
  import opened Outlining
  import Colocation
  import Layout
  import PhaseCycles
  import RegionSignatures

  /** phaseLabels of gen/gen.go. */
  const PHASES: seq<Phase> := [Config, Setup, Wire, Middleware, Register]

  function Rank(ph: Phase): (k: nat)
    ensures k < |PHASES| && PHASES[k] == ph
  {
    match ph
    case Config => 0
    case Setup => 1
    case Wire => 2
    case Middleware => 3
    case Register => 4
  }

  function PhaseRank(p: Plan, i: nat): nat
    requires i < |p.nodes|
  {
    Rank(p.nodes[i].phase)
  }

  ghost predicate Within(p: Plan, ids: seq<nat>) {
    forall k :: 0 <= k < |ids| ==> ids[k] < |p.nodes|
  }

  /** The members of one phase, in order. */
  function Section(p: Plan, members: seq<nat>, ph: Phase): (ids: seq<nat>)
    requires Within(p, members)
    ensures Within(p, ids) && forall i :: i in ids <==> i in members && i < |p.nodes| && p.nodes[i].phase == ph
    ensures Distinct(members) ==> Distinct(ids)
  {
    if members == [] then [] else
      var front, last := members[..|members| - 1], members[|members| - 1];
      assert members == front + [last];
      var ids := Section(p, front, ph);
      if p.nodes[last].phase == ph then ids + [last] else ids
  }

  function NodesAt(p: Plan, ids: seq<nat>): seq<Node>
    requires Within(p, ids)
  {
    seq(|ids|, k requires 0 <= k < |ids| => p.nodes[ids[k]])
  }

  ghost predicate Before(s: seq<nat>, a: nat, b: nat) {
    exists i, j :: 0 <= i < j < |s| && s[i] == a && s[j] == b
  }

  /** In one phase, layout sees a dependency exactly where one member uses what another defines. */
  lemma DependsExact(p: Plan, ids: seq<nat>, a: nat, b: nat)
    requires UniqueDefinitions(p) && Within(p, ids) && Distinct(ids) && a < |ids| && b < |ids|
    ensures PhaseCycles.DependsOn(NodesAt(p, ids), a, b) <==> UsesNode(p, ids[a], ids[b])
  {
    var nodes := NodesAt(p, ids);
    if UsesNode(p, ids[a], ids[b]) {
      var v :| v in p.nodes[ids[a]].uses && v in p.definedBy && p.definedBy[v] == ids[b];
      assert PhaseCycles.Owns(nodes, v, b);
    }
    if PhaseCycles.DependsOn(nodes, a, b) {
      var v :| v in nodes[a].uses && PhaseCycles.Owns(nodes, v, b);
      assert v in p.nodes[ids[b]].defines;
    }
  }

  /** Whatever a node of s uses of s comes before it. */
  ghost predicate UsesInOrder(p: Plan, s: seq<nat>) {
    forall a, b :: a in s && b in s && UsesNode(p, a, b) ==> Before(s, b, a)
  }

  function Picked(ids: seq<nat>, order: seq<nat>): seq<nat>
    requires forall k :: 0 <= k < |order| ==> order[k] < |ids|
  {
    seq(|order|, k requires 0 <= k < |order| => ids[order[k]])
  }

  /** One phase of the body. */
  method WriteSection(p: Plan, ids: seq<nat>, c: Layout.Context) returns (part: seq<nat>)
    requires UniqueDefinitions(p) && Within(p, ids) && Distinct(ids)
    ensures Distinct(part) && forall i :: i in part <==> i in ids
    ensures Acyclic(Layout.LayoutGraph(NodesAt(p, ids))) ==> UsesInOrder(p, part)
  {
    var blocks;
    ghost var fellBack;
    blocks, fellBack := Layout.Lay(NodesAt(p, ids), c);
    var order := Layout.Flatten(blocks);
    forall k | 0 <= k < |order|
      ensures order[k] < |ids|
    {
      assert order[k] in order;
    }
    part := Picked(ids, order);
    PickedAll(ids, order);
    if !fellBack { LaidInOrder(p, ids, order); }
  }

  lemma PickedAll(ids: seq<nat>, order: seq<nat>)
    requires Layout.Arranges(order, |ids|) && Distinct(ids)
    requires forall k :: 0 <= k < |order| ==> order[k] < |ids|
    ensures Distinct(Picked(ids, order)) && forall i :: i in Picked(ids, order) <==> i in ids
  {
    var part := Picked(ids, order);
    forall i | i in ids
      ensures i in part
    {
      var k: nat :| k < |ids| && ids[k] == i;
      assert k in order;
      var m :| 0 <= m < |order| && order[m] == k;
      assert part[m] == i;
    }
  }

  lemma LaidInOrder(p: Plan, ids: seq<nat>, order: seq<nat>)
    requires UniqueDefinitions(p) && Within(p, ids) && Distinct(ids) && Layout.Arranges(order, |ids|)
    requires forall k :: 0 <= k < |order| ==> order[k] < |ids|
    requires Layout.InDependencyOrder(Layout.LayoutGraph(NodesAt(p, ids)), order)
    ensures UsesInOrder(p, Picked(ids, order))
  {
    var part := Picked(ids, order);
    var g := Layout.LayoutGraph(NodesAt(p, ids));
    forall a, b | a in part && b in part && UsesNode(p, a, b)
      ensures Before(part, b, a)
    {
      var k: nat :| k < |part| && part[k] == a;
      var m: nat :| m < |part| && part[m] == b;
      DependsExact(p, ids, order[k], order[m]);
      hide UniqueDefinitions, UsesNode, PhaseCycles.DependsOn, Distinct;
      assert Layout.WaitsFor(NodesAt(p, ids), order[k], order[m]);
      assert order[m] in Succ(g, order[k]);
      var q :| 0 <= q < k && order[..k][q] == order[m];
      assert part[q] == b;
    }
  }

  // ---- the body ----

  ghost predicate PhaseSorted(p: Plan, body: seq<nat>) {
    Within(p, body) && forall i, j :: 0 <= i < j < |body| ==> PhaseRank(p, body[i]) <= PhaseRank(p, body[j])
  }

  predicate SamePhase(p: Plan, body: seq<nat>, a: nat, b: nat) {
    a in body && b in body && a < |p.nodes| && b < |p.nodes| && PhaseRank(p, a) == PhaseRank(p, b)
  }

  /** Within each phase, uses are in order. */
  ghost predicate PhasesInOrder(p: Plan, body: seq<nat>)
    requires Within(p, body)
  {
    forall a: nat, b: nat :: SamePhase(p, body, a, b) && UsesNode(p, a, b) ==> Before(body, b, a)
  }

  /** Dependencies and batches of every phase can be laid out. */
  ghost predicate CanLay(p: Plan, members: seq<nat>, phases: nat)
    requires Within(p, members) && phases <= |PHASES|
  {
    forall k :: 0 <= k < phases ==> Acyclic(Layout.LayoutGraph(NodesAt(p, Section(p, members, PHASES[k]))))
  }

  /** body holds the members of the phases before k. */
  ghost predicate Written(p: Plan, members: seq<nat>, body: seq<nat>, k: nat) {
    && PhaseSorted(p, body) && Distinct(body)
    && forall i: nat :: i in body <==> i in members && i < |p.nodes| && PhaseRank(p, i) < k
  }

  ghost predicate IsSection(p: Plan, members: seq<nat>, part: seq<nat>, k: nat)
    requires k < |PHASES|
  {
    Distinct(part) && forall i: nat :: i in part <==> i in members && i < |p.nodes| && p.nodes[i].phase == PHASES[k]
  }

  lemma SectionRank(p: Plan, k: nat, i: nat)
    requires k < |PHASES| && i < |p.nodes|
    ensures PhaseRank(p, i) == k <==> p.nodes[i].phase == PHASES[k]
  {}

  lemma AddSection(p: Plan, members: seq<nat>, body: seq<nat>, part: seq<nat>, k: nat)
    requires k < |PHASES| && Written(p, members, body, k) && IsSection(p, members, part, k)
    ensures Written(p, members, body + part, k + 1)
  {
    var more := body + part;
    hide PhaseRank;
    forall i: nat | i < |p.nodes|
      ensures PhaseRank(p, i) == k <==> p.nodes[i].phase == PHASES[k]
    {
      SectionRank(p, k, i);
    }
    forall i | 0 <= i < |more|
      ensures more[i] < |p.nodes| && (if i < |body| then PhaseRank(p, more[i]) < k else PhaseRank(p, more[i]) == k)
    {
      if i < |body| { assert more[i] in body; } else { assert more[i] in part; }
    }
  }

  lemma AddInOrder(p: Plan, members: seq<nat>, body: seq<nat>, part: seq<nat>, k: nat)
    requires k < |PHASES| && Written(p, members, body, k) && IsSection(p, members, part, k)
    requires Written(p, members, body + part, k + 1) && PhasesInOrder(p, body) && UsesInOrder(p, part)
    ensures PhasesInOrder(p, body + part)
  {
    var more := body + part;
    hide PhaseRank, UsesNode, Before, PhaseSorted, Distinct;
    forall a: nat, b: nat | SamePhase(p, more, a, b) && UsesNode(p, a, b)
      ensures Before(more, b, a)
    {
      SectionsApart(p, members, body, part, k, a, b);
      if a in body {
        BeforeLonger([], body, part, b, a);
        assert [] + body + part == more;
      } else {
        BeforeLonger(body, part, [], b, a);
        assert body + part + [] == more;
      }
    }
  }

  /** Nodes of one phase are in the same section. */
  lemma SectionsApart(p: Plan, members: seq<nat>, body: seq<nat>, part: seq<nat>, k: nat, a: nat, b: nat)
    requires k < |PHASES| && Written(p, members, body, k) && IsSection(p, members, part, k)
    requires SamePhase(p, body + part, a, b)
    ensures if a in body then SamePhase(p, body, a, b) else a in part && b in part
  {
    SectionRank(p, k, a);
    SectionRank(p, k, b);
    hide PhaseRank, PhaseSorted, Distinct;
  }

  lemma BeforeLonger(left: seq<nat>, s: seq<nat>, right: seq<nat>, a: nat, b: nat)
    requires Before(s, a, b)
    ensures Before(left + s + right, a, b)
  {
    var i, j :| 0 <= i < j < |s| && s[i] == a && s[j] == b;
    var t := left + s + right;
    assert t[|left| + i] == a && t[|left| + j] == b;
  }

  /** No member uses what a member of a later phase defines. */
  ghost predicate NoLaterUse(p: Plan, members: seq<nat>)
    requires Within(p, members)
  {
    forall a: nat, b: nat :: a in members && b in members && a < |p.nodes| && b < |p.nodes| && UsesNode(p, a, b) ==>
                               PhaseRank(p, b) <= PhaseRank(p, a)
  }

  /** given are the variables that members use and others define. */
  ghost predicate Parameters(p: Plan, members: seq<nat>, given: set<Var>)
    requires Within(p, members)
  {
    && (forall i: nat, u :: i in members && i < |p.nodes| && u in p.nodes[i].uses && u in p.definedBy ==>
                              p.definedBy[u] in members || u in given)
    && (forall u :: u in given ==> u in p.definedBy && p.definedBy[u] !in members)
  }

  /** Every phase's members can be ordered by what they use of each other. */
  ghost predicate PhasesAcyclic(p: Plan, members: seq<nat>)
    requires Within(p, members)
  {
    forall k :: 0 <= k < |PHASES| ==> Acyclic(PhaseCycles.PhaseGraph(NodesAt(p, Section(p, members, PHASES[k]))))
  }

  /** writeRegionFunc: the body lists the members phase by phase. It is in producer order if every phase can be laid out
      and no member uses what a later phase defines, and only if no phase has a cycle of uses and the same. */
  method WriteBody(p: Plan, members: seq<nat>, ctx: Phase -> Layout.Context, ghost given: set<Var>)
    returns (body: seq<nat>)
    requires UniqueDefinitions(p) && Within(p, members) && Distinct(members) && Parameters(p, members, given)
    ensures Distinct(body) && forall i :: i in body <==> i in members
    ensures PhaseSorted(p, body)
    ensures CanLay(p, members, |PHASES|) && NoLaterUse(p, members) ==> ProducerOrder(p, given, body)
    ensures ProducerOrder(p, given, body) ==> PhasesAcyclic(p, members) && NoLaterUse(p, members)
  {
    hide UniqueDefinitions, Distinct, Layout.LayoutGraph, UsesInOrder, PhasesInOrder, PhaseSorted, Parameters,
         NoLaterUse, ProducerOrder, PhasesAcyclic, Section, NodesAt, Acyclic;
    body := [];
    assert Within(p, body) && PhasesInOrder(p, body) && Written(p, members, body, 0) by { Blank(p, members); }
    hide Written, IsSection;
    for k := 0 to |PHASES|
      invariant Within(p, body) && Written(p, members, body, k)
      invariant CanLay(p, members, k) ==> PhasesInOrder(p, body)
    {
      var ids := Section(p, members, PHASES[k]);
      var part := WriteSection(p, ids, ctx(PHASES[k]));
      assert IsSection(p, members, part, k) by { SectionOf(p, members, ids, part, k); }
      AddSection(p, members, body, part, k);
      WrittenWithin(p, members, body + part, k + 1);
      if CanLay(p, members, k + 1) { AddInOrder(p, members, body, part, k); }
      body := body + part;
    }
    WrittenWithin(p, members, body, |PHASES|);
    if CanLay(p, members, |PHASES|) && NoLaterUse(p, members) { LaidProduces(p, members, body, given); }
    if ProducerOrder(p, given, body) { ProducesLaid(p, members, body, given); }
  }

  lemma Blank(p: Plan, members: seq<nat>)
    ensures Within(p, []) && PhasesInOrder(p, []) && Written(p, members, [], 0)
  {}

  lemma SectionOf(p: Plan, members: seq<nat>, ids: seq<nat>, part: seq<nat>, k: nat)
    requires Within(p, members) && k < |PHASES| && ids == Section(p, members, PHASES[k])
    requires Distinct(part) && forall i :: i in part <==> i in ids
    ensures IsSection(p, members, part, k)
  {}

  lemma WrittenWithin(p: Plan, members: seq<nat>, body: seq<nat>, k: nat)
    requires Within(p, members) && Written(p, members, body, k)
    ensures Within(p, body) && PhaseSorted(p, body) && Distinct(body)
    ensures k == |PHASES| ==> forall i :: i in body <==> i in members
  {}

  lemma LaidProduces(p: Plan, members: seq<nat>, body: seq<nat>, given: set<Var>)
    requires UniqueDefinitions(p) && Within(p, members) && Parameters(p, members, given) && NoLaterUse(p, members)
    requires Distinct(body) && (forall i :: i in body <==> i in members) && PhaseSorted(p, body)
    requires PhasesInOrder(p, body)
    ensures ProducerOrder(p, given, body)
  {
    forall k, u | 0 <= k < |body| && u in p.nodes[body[k]].uses
      ensures u in given || (u in p.definedBy && p.definedBy[u] in body[..k])
    {
      assert body[k] in body && u in p.definedBy;
      var b := p.definedBy[u];
      if b in members {
        assert UsesNode(p, body[k], b);
        hide UniqueDefinitions, UsesNode, Parameters;
        UsedBefore(p, members, body, k, b);
      }
    }
  }

  lemma UsedBefore(p: Plan, members: seq<nat>, body: seq<nat>, k: nat, b: nat)
    requires Within(p, members) && NoLaterUse(p, members) && Distinct(body) && PhaseSorted(p, body)
    requires (forall i :: i in body <==> i in members) && PhasesInOrder(p, body)
    requires k < |body| && b in members && b < |p.nodes| && UsesNode(p, body[k], b)
    ensures b in body[..k]
  {
    hide UsesNode;
    var a := body[k];
    assert a in body && b in body;
    var q :| 0 <= q < |body| && body[q] == b;
    if PhaseRank(p, b) == PhaseRank(p, a) {
      assert Before(body, b, a);
      var i, j :| 0 <= i < j < |body| && body[i] == b && body[j] == a;
      assert j == k && body[..k][i] == b;
    } else {
      assert PhaseRank(p, b) < PhaseRank(p, a);
      assert q < k;
      assert body[..k][q] == b;
    }
  }

  lemma ProducesLaid(p: Plan, members: seq<nat>, body: seq<nat>, given: set<Var>)
    requires UniqueDefinitions(p) && Within(p, members) && Distinct(members) && Parameters(p, members, given)
    requires Distinct(body) && (forall i :: i in body <==> i in members) && PhaseSorted(p, body)
    requires ProducerOrder(p, given, body)
    ensures PhasesAcyclic(p, members) && NoLaterUse(p, members)
  {
    forall a: nat, b: nat | a in members && b in members && UsesNode(p, a, b)
      ensures Before(body, b, a)
    {
      UseComesFirst(p, members, body, given, a, b);
    }
    hide ProducerOrder, UniqueDefinitions, Parameters, UsesNode, Distinct, Section, NodesAt, PhaseCycles.PhaseGraph,
         Acyclic;
    forall a: nat, b: nat | a in members && b in members && a < |p.nodes| && b < |p.nodes| && UsesNode(p, a, b)
      ensures PhaseRank(p, b) <= PhaseRank(p, a)
    {
      assert Before(body, b, a);
    }
    forall k | 0 <= k < |PHASES|
      ensures Acyclic(PhaseCycles.PhaseGraph(NodesAt(p, Section(p, members, PHASES[k]))))
    {
      OrderedAcyclic(p, members, body, Section(p, members, PHASES[k]));
    }
  }

  lemma UseComesFirst(p: Plan, members: seq<nat>, body: seq<nat>, given: set<Var>, a: nat, b: nat)
    requires Within(p, members) && Parameters(p, members, given) && ProducerOrder(p, given, body)
    requires (forall i :: i in body <==> i in members) && a in members && b in members && UsesNode(p, a, b)
    ensures Before(body, b, a)
  {
    var v :| v in p.nodes[a].uses && v in p.definedBy && p.definedBy[v] == b;
    assert a in body;
    var k :| 0 <= k < |body| && body[k] == a;
    assert v !in given;
    var i :| 0 <= i < |body[..k]| && body[..k][i] == b;
    assert body[i] == b;
  }

  function Position(s: seq<nat>, x: nat): (k: nat)
    ensures k <= |s| && (x in s ==> k < |s| && s[k] == x)
  {
    if s == [] then 0 else if s[0] == x then 0 else 1 + Position(s[1..], x)
  }

  function PositionAt(body: seq<nat>, ids: seq<nat>, i: nat): nat {
    if i < |ids| then Position(body, ids[i]) else 0
  }

  lemma OrderedAcyclic(p: Plan, members: seq<nat>, body: seq<nat>, ids: seq<nat>)
    requires UniqueDefinitions(p) && Within(p, ids) && Distinct(ids) && Distinct(body)
    requires (forall i :: i in ids ==> i in members) && (forall i :: i in body <==> i in members)
    requires forall a: nat, b: nat :: a in members && b in members && UsesNode(p, a, b) ==> Before(body, b, a)
    ensures Acyclic(PhaseCycles.PhaseGraph(NodesAt(p, ids)))
  {
    var g := PhaseCycles.PhaseGraph(NodesAt(p, ids));
    var rank: nat -> nat := i => PositionAt(body, ids, i);
    forall a: nat, b: nat | b in Succ(g, a)
      ensures rank(b) < rank(a)
    {
      EdgeForward(p, members, body, ids, a, b);
    }
    RankedWellFounded(g, rank);
    WellFoundedIffAcyclic(g);
  }

  lemma EdgeForward(p: Plan, members: seq<nat>, body: seq<nat>, ids: seq<nat>, a: nat, b: nat)
    requires UniqueDefinitions(p) && Within(p, ids) && Distinct(ids) && Distinct(body)
    requires (forall i :: i in ids ==> i in members) && (forall i :: i in body <==> i in members)
    requires forall a: nat, b: nat :: a in members && b in members && UsesNode(p, a, b) ==> Before(body, b, a)
    requires b in Succ(PhaseCycles.PhaseGraph(NodesAt(p, ids)), a)
    ensures a < |ids| && b < |ids| && Position(body, ids[b]) < Position(body, ids[a])
  {
    assert a < |ids| && b < |ids| && PhaseCycles.DependsOn(NodesAt(p, ids), a, b);
    DependsExact(p, ids, a, b);
    hide UniqueDefinitions, UsesNode, PhaseCycles.DependsOn;
    assert ids[a] in ids && ids[b] in ids;
    assert Before(body, ids[b], ids[a]);
  }

  // ---- the functions of all regions ----

  /** A region's members, ascending. */
  function MemberSeq(p: Plan, r: nat, n: nat): (s: seq<nat>)
    requires |p.memberOf| == |p.nodes| && n <= |p.nodes|
    ensures Within(p, s) && Distinct(s) && forall i: nat :: i in s <==> i < n && i in Members(p, r)
  {
    if n == 0 then [] else
      var front := MemberSeq(p, r, n - 1);
      assert forall k :: 0 <= k < |front| ==> front[k] in front;
      if r in p.memberOf[n - 1] then front + [n - 1] else front
  }

  function MembersIn(p: Plan, r: nat): (s: seq<nat>)
    requires |p.memberOf| == |p.nodes|
    ensures Within(p, s) && Distinct(s) && forall i: nat :: i in s <==> i in Members(p, r)
  {
    MemberSeq(p, r, |p.nodes|)
  }

  /** Region r's phases can be laid out, and none uses what a later one defines. */
  ghost predicate Laid(p: Plan, r: nat)
    requires WellFormed(p)
  {
    CanLay(p, MembersIn(p, r), |PHASES|) && NoLaterUse(p, MembersIn(p, r))
  }

  /** Region r's phases have no cycle of uses, and none uses what a later one defines. */
  ghost predicate Orderable(p: Plan, r: nat)
    requires WellFormed(p)
  {
    PhasesAcyclic(p, MembersIn(p, r)) && NoLaterUse(p, MembersIn(p, r))
  }

  /** fn is the function of region r: its live-ins, its live-outs, its members. */
  ghost predicate FunctionOf(p: Plan, roots: map<Flow, set<Var>>, r: nat, fn: Function)
    requires WellFormed(p) && r < |p.usage|
  {
    && (forall u :: u in fn.ins <==> IsLiveIn(p, r, u)) && (forall d :: d in fn.outs <==> IsLiveOut(p, roots, r, d))
    && Within(p, fn.body) && Distinct(fn.body) && Elements(fn.body) == Members(p, r)
  }

  lemma InsParameters(p: Plan, r: nat, ins: set<Var>)
    requires UniqueDefinitions(p) && forall u :: u in ins <==> IsLiveIn(p, r, u)
    ensures Parameters(p, MembersIn(p, r), ins)
  {}

  method WriteRegion(p: Plan, roots: map<Flow, set<Var>>, r: nat, cs: Consumers, ctx: Phase -> Layout.Context)
    returns (fn: Function)
    requires UniqueDefinitions(p) && r < |p.usage| && forall v, c :: Noted(cs, v, c) <==> Reads(p, roots, v, c)
    ensures FunctionOf(p, roots, r, fn)
    ensures Laid(p, r) ==> ProducerOrder(p, fn.ins, fn.body)
    ensures ProducerOrder(p, fn.ins, fn.body) ==> Orderable(p, r)
  {
    hide UniqueDefinitions, Reads, IsLiveIn, IsLiveOut, Distinct, MembersIn, CanLay, NoLaterUse, PhasesAcyclic,
         ProducerOrder, PhaseSorted, Parameters;
    assert WellFormed(p) by { RegionSignatures.UniqueFormed(p); }
    var members := MembersIn(p, r);
    var ins := LiveIns(p, r, members);
    var outs := LiveOuts(p, roots, r, members, cs);
    var given := set u | u in ins;
    InsParameters(p, r, given);
    var body := WriteBody(p, members, ctx, given);
    var results := set d | d in outs;
    fn := Function(given, results, body);
    assert Within(p, body) by {
      forall k | 0 <= k < |body| ensures body[k] < |p.nodes| { assert body[k] in body; }
    }
    assert Elements(body) == Members(p, r);
  }

  /** The functions of all regions. They are what outlining asks for if every region can be laid out, and only if no
      region of the flow has a cycle of uses in a phase or a use of a later phase. */
  method WriteRegions(p: Plan, roots: map<Flow, set<Var>>, regions: seq<nat>, ctx: (nat, Phase) -> Layout.Context)
    returns (fns: map<nat, Function>)
    requires UniqueDefinitions(p) && forall r :: r in regions ==> r < |p.usage|
    requires forall r :: r in Live(p) ==> r in regions
    ensures fns.Keys == Elements(regions) && forall r :: r in regions ==> FunctionOf(p, roots, r, fns[r])
    ensures (forall r :: r in regions ==> Laid(p, r)) ==> forall f :: Outlined(p, roots, f, fns)
    ensures forall f, r: nat :: Outlined(p, roots, f, fns) && Region(r) in Units(p, f) ==> Orderable(p, r)
  {
    hide UniqueDefinitions, Reads, FunctionOf, Laid, Orderable, ProducerOrder, Outlined, Live, Units;
    assert WellFormed(p) by { RegionSignatures.UniqueFormed(p); }
    var cs := CollectConsumers(p, roots);
    fns := map[];
    for k := 0 to |regions|
      invariant fns.Keys == Elements(regions[..k])
      invariant forall r :: r in fns ==> r < |p.usage| && FunctionOf(p, roots, r, fns[r])
      invariant forall r :: r in fns && Laid(p, r) ==> ProducerOrder(p, fns[r].ins, fns[r].body)
      invariant forall r :: r in fns && ProducerOrder(p, fns[r].ins, fns[r].body) ==> Orderable(p, r)
    {
      var r := regions[k];
      assert r in regions;
      var fn := WriteRegion(p, roots, r, cs, ph => ctx(r, ph));
      fns := fns[r := fn];
      assert regions[..k + 1] == regions[..k] + [r];
    }
    assert regions[..|regions|] == regions;
    if forall r :: r in regions ==> Laid(p, r) {
      forall f
        ensures Outlined(p, roots, f, fns)
      {
        AllOutlined(p, roots, f, fns);
      }
    }
    forall f, r: nat | Outlined(p, roots, f, fns) && Region(r) in Units(p, f)
      ensures Orderable(p, r)
    {
      OutlinedOrders(p, roots, f, fns, r);
      RegionLive(p, f, r);
    }
  }

  lemma OutlinedOrders(p: Plan, roots: map<Flow, set<Var>>, f: Flow, fns: map<nat, Function>, r: nat)
    requires WellFormed(p) && Outlined(p, roots, f, fns) && Region(r) in Units(p, f)
    ensures r in fns && ProducerOrder(p, fns[r].ins, fns[r].body)
  {}

  lemma AllOutlined(p: Plan, roots: map<Flow, set<Var>>, f: Flow, fns: map<nat, Function>)
    requires WellFormed(p) && forall r :: r in Live(p) ==> r in fns
    requires forall r :: r in fns ==> r < |p.usage| && FunctionOf(p, roots, r, fns[r])
    requires forall r :: r in fns ==> ProducerOrder(p, fns[r].ins, fns[r].body)
    ensures Outlined(p, roots, f, fns)
  {
    hide Live, Units, ProducerOrder, IsLiveIn, IsLiveOut, Members, Distinct;
    forall r: nat | Region(r) in Units(p, f)
      ensures r in fns
    {
      RegionLive(p, f, r);
    }
  }

  // ---- every plan can be outlined ----

  function FilterBy(s: seq<nat>, keep: set<nat>): (r: seq<nat>)
    ensures forall x :: x in r <==> x in s && x in keep
    ensures Distinct(s) ==> Distinct(r)
  {
    if s == [] then [] else
      var front, last := s[..|s| - 1], s[|s| - 1];
      assert s == front + [last];
      if last in keep then FilterBy(front, keep) + [last] else FilterBy(front, keep)
  }

  /** What precedes a kept element is what was kept before it. */
  lemma {:induction false} FilterAt(s: seq<nat>, keep: set<nat>, k: nat) returns (q: nat)
    requires k < |FilterBy(s, keep)|
    ensures q < |s| && s[q] == FilterBy(s, keep)[k] && FilterBy(s, keep)[..k] == FilterBy(s[..q], keep)
  {
    var front, last := s[..|s| - 1], s[|s| - 1];
    var r := FilterBy(front, keep);
    if k < |r| {
      q := FilterAt(front, keep, k);
      assert FilterBy(s, keep)[..k] == r[..k] && front[..q] == s[..q];
    } else {
      q := |s| - 1;
      assert FilterBy(s, keep)[..k] == r;
    }
  }

  lemma FilterProduces(p: Plan, f: Flow, r: nat, inline: seq<nat>, ins: set<Var>)
    requires UniqueDefinitions(p) && ProducerOrder(p, {}, inline) && forall u :: u in ins <==> IsLiveIn(p, r, u)
    requires Members(p, r) <= Elements(inline)
    ensures ProducerOrder(p, ins, FilterBy(inline, Members(p, r)))
    ensures Elements(FilterBy(inline, Members(p, r))) == Members(p, r)
  {
    var body := FilterBy(inline, Members(p, r));
    assert Distinct(body);
    forall k | 0 <= k < |body|
      ensures body[k] < |p.nodes|
    {
      assert body[k] in body;
    }
    forall k: nat, u | k < |body| && u in p.nodes[body[k]].uses
      ensures u in ins || (u in p.definedBy && p.definedBy[u] in body[..k])
    {
      KeptUse(p, r, inline, k, u);
    }
  }

  lemma KeptUse(p: Plan, r: nat, inline: seq<nat>, k: nat, u: Var)
    requires UniqueDefinitions(p) && ProducerOrder(p, {}, inline) && k < |FilterBy(inline, Members(p, r))|
    requires var m := FilterBy(inline, Members(p, r))[k]; m < |p.nodes| && u in p.nodes[m].uses
    ensures IsLiveIn(p, r, u) || (u in p.definedBy && p.definedBy[u] in FilterBy(inline, Members(p, r))[..k])
  {
    var body := FilterBy(inline, Members(p, r));
    assert body[k] in body && body[k] in Members(p, r);
    var q := FilterAt(inline, Members(p, r), k);
    assert inline[q] == body[k] && u in p.definedBy && p.definedBy[u] in inline[..q];
    hide UniqueDefinitions, ProducerOrder, FilterBy;
    if p.definedBy[u] !in Members(p, r) { assert IsLiveIn(p, r, u); }
  }

  /** The premise of the preservation results can be met: for every inline order of a flow, the functions that run each
      region's members in that order are as outlining asks for. */
  lemma OutlinedExists(p: Plan, roots: map<Flow, set<Var>>, f: Flow, inline: seq<nat>) returns (fns: map<nat, Function>)
    requires OneHome(p) && UniqueDefinitions(p) && Colocation.MembersServe(p)
    requires ProducerOrder(p, {}, inline) && Elements(inline) == FlowNodes(p, f)
    ensures Outlined(p, roots, f, fns)
  {
    fns := map r: nat | r < |p.usage| :: Function(RegionSignatures.LiveInVars(p, r),
                                                  RegionSignatures.LiveOutVars(p, roots, r),
                                                  FilterBy(inline, Members(p, r)));
    forall r, k | r in fns && 0 <= k < |fns[r].body|
      ensures fns[r].body[k] < |p.nodes|
    {
      assert fns[r].body[k] in Members(p, r);
    }
    forall r: nat | Region(r) in Units(p, f)
      ensures r < |p.usage| && ProducerOrder(p, fns[r].ins, fns[r].body) && Elements(fns[r].body) == Members(p, r)
      ensures forall u :: u in fns[r].ins <==> IsLiveIn(p, r, u)
      ensures forall d :: d in fns[r].outs <==> IsLiveOut(p, roots, r, d)
    {
      hide OneHome, UniqueDefinitions, Colocation.MembersServe, ProducerOrder, IsLiveIn, IsLiveOut, Units;
      ServedMembers(p, f, r);
      VarsExact(p, roots, r);
      FilterProduces(p, f, r, inline, fns[r].ins);
    }
  }

  lemma ServedMembers(p: Plan, f: Flow, r: nat)
    requires WellFormed(p) && Colocation.MembersServe(p) && Region(r) in Units(p, f)
    ensures r < |p.usage| && Members(p, r) <= FlowNodes(p, f)
  {
    var j: nat :| j < |p.nodes| && InFlow(p, f, j) && UnitOf(p, f, j) == Region(r);
    assert HomeFor(p, j, f) == Some(r);
  }

  lemma VarsExact(p: Plan, roots: map<Flow, set<Var>>, r: nat)
    requires UniqueDefinitions(p) && r < |p.usage|
    ensures forall u :: u in RegionSignatures.LiveInVars(p, r) <==> IsLiveIn(p, r, u)
    ensures forall d :: d in RegionSignatures.LiveOutVars(p, roots, r) <==> IsLiveOut(p, roots, r, d)
  {
    forall d | IsLiveOut(p, roots, r, d)
      ensures d in p.definedBy
    {
      var i :| i in Members(p, r) && i < |p.nodes| && d in p.nodes[i].defines;
    }
  }
}
