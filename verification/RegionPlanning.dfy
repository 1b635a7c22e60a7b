/**
 Region planning as one pass (planRegions of gen/fragment.go): groups become
 regions, shared roots and config loads join them, regions dissolve until they
 are eligible, every flow can be scheduled and every signature is narrow, and
 every flow is ordered. Running the result with regions as functions then gives
 the values of running it inline.
 */
module RegionPlanning {
  import opened Basics
  import opened Graphs
  import opened Sorting
  import opened GenNodes
  import opened Fragments
  import opened RegionForming
  import opened Outlining
  import opened Colocation
  import opened RegionSignatures

  // ---- the trail of dissolutions ----

  datatype Why = Ineligible | Unschedulable | TooWide

  datatype Removal = Removal(region: nat, why: Why)

  /** The partitions that planning went through, and what it took out between them. */
  datatype Trail = Trail(states: seq<Partition>, removed: seq<Removal>)

  ghost predicate AllEligible(x: Facts, s: Partition)
    requires Formed(s)
  {
    forall r :: r in s.regions ==> Eligible(x, s, r)
  }

  /** A region goes only if it cannot stay: it is not worth extracting, some flow stalls on it, or it is the first whose
      signature is too wide; the last two are looked at only when all regions are eligible. */
  ghost predicate Justified(x: Facts, flows: seq<Flow>, s: Partition, rm: Removal) {
    && Formed(s) && rm.region in s.regions
    && match rm.why
       case Ineligible => !Eligible(x, s, rm.region)
       case Unschedulable => AllEligible(x, s) && Breaks(s.plan, flows, rm.region)
       case TooWide => AllEligible(x, s) && FirstWide(x, s, rm.region)
  }

  function Stage(why: Why): nat {
    match why
    case Ineligible => 0
    case Unschedulable => 1
    case TooWide => 2
  }

  /** From s0, each step drops one region for a reason, in three stages. */
  ghost predicate Follows(x: Facts, flows: seq<Flow>, s0: Partition, t: Trail) {
    && |t.states| == |t.removed| + 1 && t.states[0] == s0
    && (forall k :: 0 <= k < |t.removed| ==>
                      Justified(x, flows, t.states[k], t.removed[k]) &&
                      t.states[k + 1] == Drop(t.states[k], t.removed[k].region))
    && (forall j, k :: 0 <= j < k < |t.removed| ==> Stage(t.removed[j].why) <= Stage(t.removed[k].why))
  }

  ghost predicate Reaches(x: Facts, flows: seq<Flow>, s0: Partition, t: Trail, s: Partition, stage: nat) {
    && Follows(x, flows, s0, t) && t.states[|t.removed|] == s
    && forall k :: 0 <= k < |t.removed| ==> Stage(t.removed[k].why) <= stage
  }

  ghost function Extend(t: Trail, rm: Removal, s: Partition): Trail {
    Trail(t.states + [s], t.removed + [rm])
  }

  lemma ReachesNext(x: Facts, flows: seq<Flow>, s0: Partition, t: Trail, s: Partition, rm: Removal)
    requires Reaches(x, flows, s0, t, s, Stage(rm.why)) && Justified(x, flows, s, rm)
    ensures Reaches(x, flows, s0, Extend(t, rm, Drop(s, rm.region)), Drop(s, rm.region), Stage(rm.why))
  {
    hide Justified, Drop;
  }

  // ---- assembled roots ----

  /** Region r assembles a root that names the variable v of some node. */
  predicate Assembles(x: Facts, s: Partition, r: nat, v: Var) {
    r in s.embeds && s.embeds[r] < |x.shared| && v in x.shared[s.embeds[r]].idents && v in s.plan.definedBy
  }

  /** A region that assembles a root has the nodes that define what the root names. */
  ghost predicate OwnsInputs(x: Facts, s: Partition) {
    WellFormed(s.plan) && forall r: nat, v :: Assembles(x, s, r, v) ==> r in s.plan.memberOf[s.plan.definedBy[v]]
  }

  lemma DropOwns(x: Facts, s: Partition, r: nat)
    requires Formed(s) && OwnsInputs(x, s)
    ensures OwnsInputs(x, Drop(s, r))
  {
    DissolveWellFormed(s.plan, r);
    hide UniqueDefinitions;
    forall q: nat, v | Assembles(x, Drop(s, r), q, v)
      ensures q in Drop(s, r).plan.memberOf[s.plan.definedBy[v]]
    {
      assert Assembles(x, s, q, v);
    }
  }

  /** Dissolving a region gives its root back, so the others still own their inputs. */
  lemma {:induction false} TrailOwns(x: Facts, flows: seq<Flow>, s0: Partition, t: Trail, k: nat)
    requires Follows(x, flows, s0, t) && k < |t.states| && OwnsInputs(x, s0)
    ensures OwnsInputs(x, t.states[k])
  {
    hide OwnsInputs, Drop, Justified, Formed;
    if k > 0 {
      TrailOwns(x, flows, s0, t, k - 1);
      JustifiedFormed(x, flows, t.states[k - 1], t.removed[k - 1]);
      DropOwns(x, t.states[k - 1], t.removed[k - 1].region);
    }
  }

  lemma JustifiedFormed(x: Facts, flows: seq<Flow>, s: Partition, rm: Removal)
    requires Justified(x, flows, s, rm)
    ensures Formed(s) && |s.plan.memberOf| == |s.plan.nodes|
  {
    FormedHas(s);
  }

  /** What is embedded when regions are formed is owned, and colocation moves only config loads. */
  lemma PlacedOwns(x: Facts, config: seq<nat>, formed: Plan, s: Partition)
    requires Embedded(formed, x.shared, s.embeds) && WellFormed(s.plan)
    requires s.plan.nodes == formed.nodes && s.plan.definedBy == formed.definedBy
    requires forall i :: i in config ==> i < |formed.nodes| && formed.memberOf[i] == []
    requires forall j: nat :: j < |formed.nodes| && j !in config ==> s.plan.memberOf[j] == formed.memberOf[j]
    ensures OwnsInputs(x, s)
  {
    forall r: nat, v | Assembles(x, s, r, v)
      ensures r in s.plan.memberOf[s.plan.definedBy[v]]
    {
      assert Targets(formed, x.shared[s.embeds[r]], r);
      assert formed.memberOf[s.plan.definedBy[v]] == [r];
    }
  }

  // ---- the pass ----

  /** What the definitions and the uses of the nodes promise, whatever regions there are. */
  ghost predicate Demands(p: Plan) {
    UniqueDefinitions(p) && UsageClosed(p) && MembersServe(p)
  }

  /** Dissolving a region takes nothing from the nodes and leaves fewer members to serve. */
  lemma DissolveDemands(p: Plan, r: nat)
    requires Demands(p)
    ensures Demands(Dissolve(p, r))
  {
    DissolveWellFormed(p, r);
    var q := Dissolve(p, r);
    forall i: nat, j: nat
      ensures UsesNode(q, i, j) <==> UsesNode(p, i, j)
    {}
    forall i: nat, k: nat | i < |q.nodes| && k in q.memberOf[i]
      ensures k in p.memberOf[i]
    {}
  }

  /** Closed usage, and members that serve their regions' flows, are the demand that outlining asks for. */
  lemma DemandsClosed(p: Plan, f: Flow)
    requires Demands(p)
    ensures DemandClosed(p, f)
  {
    forall i: nat, j: nat | InFlow(p, f, i) && UsesNode(p, i, j)
      ensures InFlow(p, f, j)
    {
      assert j < |p.nodes|;
    }
  }

  lemma DissolveUnique(p: Plan, r: nat)
    requires UniqueDefinitions(p)
    ensures UniqueDefinitions(Dissolve(p, r))
  {
    DissolveWellFormed(p, r);
  }

  /** What every dissolution keeps of the partition planning began with. */
  ghost predicate Keeps(s0: Partition, s: Partition, flows: seq<Flow>) {
    && Formed(s0) && Formed(s) && Plannable(s.plan, flows)
    && s.plan.nodes == s0.plan.nodes && s.plan.definedBy == s0.plan.definedBy && s.plan.usage == s0.plan.usage
    && (forall r :: r in s.regions ==> r in s0.regions)
    && (forall r :: r in Live(s.plan) ==> r in s.regions)
    && (OneHome(s0.plan) ==> OneHome(s.plan)) && (Demands(s0.plan) ==> Demands(s.plan))
    && (AllUnmixed(s0.plan) ==> AllUnmixed(s.plan))
  }

  lemma DropKeeps(s0: Partition, s: Partition, flows: seq<Flow>, r: nat)
    requires Keeps(s0, s, flows)
    ensures Keeps(s0, Drop(s, r), flows)
    ensures Elements(Drop(s, r).regions) == Elements(s.regions) - {r}
  {
    DissolveUnique(s.plan, r);
    if OneHome(s.plan) { DissolveFormed(s.plan, r); }
    DissolvePlannable(s.plan, flows, r);
    DissolveLive(s.plan, r);
    if Demands(s.plan) { DissolveDemands(s.plan, r); }
    if AllUnmixed(s.plan) { DissolveUnmixed(s.plan, r); }
    hide Plannable, Demands, AllUnmixed, Live, UniqueDefinitions, OneHome;
    assert forall q :: q in Drop(s, r).regions <==> q in s.regions && q != r;
  }

  lemma DropAllEligible(x: Facts, s: Partition, r: nat)
    requires Formed(s) && Formed(Drop(s, r)) && AllEligible(x, s)
    ensures AllEligible(x, Drop(s, r))
  {
    hide Eligible, Formed;
    assert |s.plan.memberOf| == |s.plan.nodes| by { assert Formed(s); FormedHas(s); }
    forall q | q in Drop(s, r).regions
      ensures Eligible(x, Drop(s, r), q)
    {
      DropEligible(x, s, r, q);
    }
  }

  lemma FormedHas(s: Partition)
    requires Formed(s)
    ensures UniqueDefinitions(s.plan) && WellFormed(s.plan)
  {}

  method DropIneligible(x: Facts, flows: seq<Flow>, s0: Partition) returns (s: Partition, ghost t: Trail)
    requires Keeps(s0, s0, flows) && Distinct(s0.regions)
    ensures Keeps(s0, s, flows) && Reaches(x, flows, s0, t, s, 0) && AllEligible(x, s)
  {
    hide Keeps, Formed, Eligible, Reaches, Drop;
    s, t := s0, Trail([s0], []);
    Start(x, flows, s0);
    for k := 0 to |s0.regions|
      invariant Keeps(s0, s, flows) && Reaches(x, flows, s0, t, s, 0)
      invariant Formed(s) && |s.plan.memberOf| == |s.plan.nodes|
      invariant forall j :: k <= j < |s0.regions| ==> s0.regions[j] in s.regions
      invariant forall r :: r in s.regions ==> r in s0.regions[k..] || Eligible(x, s, r)
    {
      var r := s0.regions[k];
      assert s0.regions[k..] == [r] + s0.regions[k + 1..];
      if !Eligible(x, s, r) {
        ghost var before := s;
        ghost var rm := Removal(r, Ineligible);
        assert Justified(x, flows, s, rm);
        ReachesNext(x, flows, s0, t, s, rm);
        DropKeeps(s0, s, flows, r);
        s := Drop(s, r);
        t := Extend(t, rm, s);
        assert Formed(s) && |s.plan.memberOf| == |s.plan.nodes| by { KeepsFormed(s0, s, flows); }
        DroppedRegions(x, before, r);
      }
    }
  }

  lemma Start(x: Facts, flows: seq<Flow>, s: Partition)
    requires Keeps(s, s, flows)
    ensures Reaches(x, flows, s, Trail([s], []), s, 0) && Formed(s) && |s.plan.memberOf| == |s.plan.nodes|
  {
    KeepsFormed(s, s, flows);
  }

  lemma KeepsFormed(s0: Partition, s: Partition, flows: seq<Flow>)
    requires Keeps(s0, s, flows)
    ensures Formed(s0) && WellFormed(s0.plan) && Formed(s) && UniqueDefinitions(s.plan)
    ensures OneHome(s0.plan) ==> OneHome(s.plan)
    ensures WellFormed(s.plan) && Plannable(s.plan, flows) && |s.plan.memberOf| == |s.plan.nodes|
  {
    FormedHas(s0);
    FormedHas(s);
  }

  lemma DroppedRegions(x: Facts, s: Partition, r: nat)
    requires |s.plan.memberOf| == |s.plan.nodes|
    ensures forall q :: q in Drop(s, r).regions <==> q in s.regions && q != r
    ensures forall q :: q != r ==> (Eligible(x, Drop(s, r), q) <==> Eligible(x, s, q))
  {
    hide Eligible;
    forall q: nat | q != r
      ensures Eligible(x, Drop(s, r), q) <==> Eligible(x, s, q)
    {
      DropEligible(x, s, r, q);
    }
  }

  method DropUnschedulable(x: Facts, flows: seq<Flow>, s0: Partition, s1: Partition, ghost t1: Trail)
    returns (s: Partition, ghost t: Trail)
    requires Keeps(s0, s1, flows) && Reaches(x, flows, s0, t1, s1, 0) && AllEligible(x, s1)
    ensures Keeps(s0, s, flows) && Reaches(x, flows, s0, t, s, 1) && AllEligible(x, s) && Schedulable(s.plan, flows)
  {
    hide Keeps, Formed, Eligible, Reaches, Drop, Plannable, OneHome, UniqueDefinitions, Schedulable, Breaks;
    s, t := s1, t1;
    assert Reaches(x, flows, s0, t, s, 1) by { LaterStage(x, flows, s0, t1, s1, 0, 1); }
    KeepsFormed(s0, s, flows);
    var broken := FindUnschedulable(s.plan, flows);
    while broken.Some?
      invariant Keeps(s0, s, flows) && Reaches(x, flows, s0, t, s, 1) && Formed(s) && AllEligible(x, s)
      invariant WellFormed(s.plan) && Plannable(s.plan, flows)
      invariant broken.None? <==> Schedulable(s.plan, flows)
      invariant broken.Some? ==> broken.value in Live(s.plan) && Breaks(s.plan, flows, broken.value)
      decreases Elements(s.regions)
    {
      ghost var rm := Removal(broken.value, Unschedulable);
      LiveRegion(s0, s, flows, rm.region);
      assert Justified(x, flows, s, rm);
      ReachesNext(x, flows, s0, t, s, rm);
      DropKeeps(s0, s, flows, rm.region);
      KeepsFormed(s0, Drop(s, rm.region), flows);
      DropAllEligible(x, s, rm.region);
      s := Drop(s, broken.value);
      t := Extend(t, rm, s);
      broken := FindUnschedulable(s.plan, flows);
    }
  }

  lemma LiveRegion(s0: Partition, s: Partition, flows: seq<Flow>, r: nat)
    requires Keeps(s0, s, flows) && WellFormed(s.plan) && r in Live(s.plan)
    ensures r in s.regions && r in Elements(s.regions)
  {}

  lemma LaterStage(x: Facts, flows: seq<Flow>, s0: Partition, t: Trail, s: Partition, a: nat, b: nat)
    requires Reaches(x, flows, s0, t, s, a) && a <= b
    ensures Reaches(x, flows, s0, t, s, b)
  {
    hide Follows;
  }

  /** From its a-th state on the trail narrows: every flow could be scheduled there, and what goes is too wide. */
  ghost predicate Narrowing(flows: seq<Flow>, t: Trail, a: nat) {
    && a <= |t.removed| < |t.states| && WellFormed(t.states[a].plan) && Schedulable(t.states[a].plan, flows)
    && forall k :: a <= k < |t.removed| ==> t.removed[k].why == TooWide
  }

  lemma NarrowingNext(flows: seq<Flow>, t: Trail, a: nat, rm: Removal, s: Partition)
    requires Narrowing(flows, t, a) && |t.states| == |t.removed| + 1 && rm.why == TooWide
    ensures Narrowing(flows, Extend(t, rm, s), a)
  {
    hide Schedulable, WellFormed;
  }

  /** The width loop. It does not look at the flows again, but where each node has one home in a flow, the values of a
      flow keep an order, and regions that do not mix hooks and providers keep every flow schedulable. */
  method DropWide(x: Facts, flows: seq<Flow>, s0: Partition, s1: Partition, ghost t1: Trail)
    returns (s: Partition, ghost t: Trail)
    requires Keeps(s0, s1, flows) && Reaches(x, flows, s0, t1, s1, 1) && AllEligible(x, s1)
    requires Schedulable(s1.plan, flows)
    ensures Keeps(s0, s, flows) && Reaches(x, flows, s0, t, s, 2) && AllEligible(x, s) && AllFit(x, s, s.regions)
    ensures Narrowing(flows, t, |t1.removed|)
    ensures OneHome(s0.plan) ==> ValuesOrdered(s.plan, flows)
    ensures OneHome(s0.plan) && AllUnmixed(s0.plan) ==> Schedulable(s.plan, flows)
  {
    hide Keeps, Formed, Eligible, Drop, Plannable, OneHome, UniqueDefinitions, Schedulable, ValuesOrdered, AllUnmixed,
         FirstWide, AllFit, Follows, Narrowing, Extend;
    s, t := s1, t1;
    assert Reaches(x, flows, s0, t, s, 2) by { LaterStage(x, flows, s0, t1, s1, 1, 2); }
    KeepsFormed(s0, s, flows);
    ScheduledOrdered(s.plan, flows);
    assert Narrowing(flows, t, |t1.removed|) by { NarrowingStart(x, flows, s0, t1, s1); }
    hide Reaches;
    var wide := FindWide(x, s);
    while wide.Some?
      invariant Keeps(s0, s, flows) && Reaches(x, flows, s0, t, s, 2) && Formed(s0) && Formed(s) && AllEligible(x, s)
      invariant WellFormed(s.plan) && WellFormed(s0.plan) && Narrowing(flows, t, |t1.removed|)
      invariant OneHome(s0.plan) ==> ValuesOrdered(s.plan, flows)
      invariant OneHome(s0.plan) && AllUnmixed(s0.plan) ==> Schedulable(s.plan, flows)
      invariant wide.None? <==> AllFit(x, s, s.regions)
      invariant wide.Some? ==> wide.value in s.regions && FirstWide(x, s, wide.value)
      decreases Elements(s.regions)
    {
      var r := wide.value;
      ghost var rm := Removal(r, TooWide);
      assert Justified(x, flows, s, rm);
      ReachesNext(x, flows, s0, t, s, rm);
      NarrowingStep(x, flows, s0, t, s, |t1.removed|, rm);
      DropKeeps(s0, s, flows, r);
      KeepsFormed(s0, Drop(s, r), flows);
      DropAllEligible(x, s, r);
      if OneHome(s0.plan) { DropOrdered(s0, s, flows, r); }
      assert r in Elements(s.regions);
      s := Drop(s, r);
      t := Extend(t, rm, s);
      wide := FindWide(x, s);
    }
  }

  lemma NarrowingStart(x: Facts, flows: seq<Flow>, s0: Partition, t: Trail, s: Partition)
    requires Reaches(x, flows, s0, t, s, 1) && WellFormed(s.plan) && Schedulable(s.plan, flows)
    ensures Narrowing(flows, t, |t.removed|)
  {
    hide Schedulable, WellFormed;
  }

  lemma NarrowingStep(x: Facts, flows: seq<Flow>, s0: Partition, t: Trail, s: Partition, a: nat, rm: Removal)
    requires Reaches(x, flows, s0, t, s, 2) && Narrowing(flows, t, a) && rm.why == TooWide
    requires |s.plan.memberOf| == |s.plan.nodes|
    ensures Narrowing(flows, Extend(t, rm, Drop(s, rm.region)), a)
  {
    hide Narrowing, Drop, Justified;
    NarrowingNext(flows, t, a, rm, Drop(s, rm.region));
  }

  lemma DropOrdered(s0: Partition, s: Partition, flows: seq<Flow>, r: nat)
    requires Keeps(s0, s, flows) && OneHome(s0.plan) && ValuesOrdered(s.plan, flows)
    requires AllUnmixed(s0.plan) ==> Schedulable(s.plan, flows)
    ensures WellFormed(Drop(s, r).plan) && ValuesOrdered(Drop(s, r).plan, flows)
    ensures AllUnmixed(s0.plan) ==> Schedulable(Drop(s, r).plan, flows)
  {
    hide Plannable, ValuesOrdered, Schedulable, AllUnmixed, Demands, Live, UniqueDefinitions, OneHome;
    KeepsFormed(s0, s, flows);
    DissolveOrdered(s.plan, flows, r);
    if AllUnmixed(s0.plan) { DissolveSchedulable(s.plan, flows, r); }
  }

  // ---- which dissolutions a flow survives ----

  lemma {:induction false} TrailKeeps(x: Facts, flows: seq<Flow>, s0: Partition, t: Trail, k: nat)
    requires Follows(x, flows, s0, t) && k < |t.states| && Keeps(s0, s0, flows)
    ensures Keeps(s0, t.states[k], flows)
  {
    hide Keeps, Drop, Justified;
    if k > 0 {
      TrailKeeps(x, flows, s0, t, k - 1);
      KeepsFormed(s0, t.states[k - 1], flows);
      DropKeeps(s0, t.states[k - 1], flows, t.removed[k - 1].region);
    }
  }

  ghost predicate SchedulableAt(t: Trail, f: Flow, k: nat) {
    k < |t.states| && WellFormed(t.states[k].plan) && WellFounded(UnitGraph(t.states[k].plan, f))
  }

  /** The k-th dissolution takes apart a region that exposes a provider to the hooks of flow f. */
  ghost predicate ExposesAt(t: Trail, f: Flow, k: nat) {
    && k < |t.removed| && k < |t.states| && WellFormed(t.states[k].plan)
    && Exposes(t.states[k].plan, f, t.removed[k].region)
  }

  lemma TrailStep(x: Facts, flows: seq<Flow>, s0: Partition, t: Trail, f: Flow, k: nat)
    requires Follows(x, flows, s0, t) && Keeps(s0, s0, flows) && OneHome(s0.plan) && f in flows
    requires k < |t.removed| && SchedulableAt(t, f, k)
    ensures SchedulableAt(t, f, k + 1) <==> !ExposesAt(t, f, k)
  {
    TrailKeeps(x, flows, s0, t, k);
    var p := t.states[k].plan;
    assert OneHome(p) && Acyclic(NodeGraph(p, f));
    assert t.states[k + 1] == Drop(t.states[k], t.removed[k].region);
    hide OneHome, NodeGraph, UnitGraph, Exposes, Keeps, Follows, WellFounded, Acyclic, WellFormed;
    WellFoundedIffAcyclic(NodeGraph(p, f));
    DissolveKeepsIff(p, f, t.removed[k].region);
    assert WellFormed(p) by { HomeFormed(p); }
  }

  /** Exactly when: along a trail, a flow that can be scheduled at state a can be scheduled at every state up to k if
      and only if no dissolution on the way takes apart a region that exposes a provider to its hooks. */
  lemma {:induction false} TrailKeepsIff(x: Facts, flows: seq<Flow>, s0: Partition, t: Trail, f: Flow, a: nat, k: nat)
    requires Follows(x, flows, s0, t) && Keeps(s0, s0, flows) && OneHome(s0.plan) && f in flows
    requires a <= k <= |t.removed| && SchedulableAt(t, f, a)
    ensures (forall j: nat :: a <= j <= k ==> SchedulableAt(t, f, j)) <==>
            forall j: nat :: a <= j < k ==> !ExposesAt(t, f, j)
  {
    hide Follows, Keeps, OneHome, SchedulableAt, ExposesAt;
    if a < k {
      TrailKeepsIff(x, flows, s0, t, f, a, k - 1);
      if SchedulableAt(t, f, k - 1) { TrailStep(x, flows, s0, t, f, k - 1); }
    }
  }

  /** The planning loops after colocation. They take out a region only for a reason, and those that stay are eligible
      and narrow together. A flow is delivered whole exactly when it can be scheduled in the end. The width loop does
      not look at the flows again: where each node has one home in a flow, that means that no hook draws on a unit
      behind the barrier, which is so if the width loop takes apart no region that exposes a provider, and so if regions
      do not mix hooks and providers. */
  method PlanRegions(x: Facts, flows: seq<Flow>, s0: Partition)
    returns (s: Partition, steps: map<Flow, seq<Unit>>, ghost t: Trail, ghost a: nat)
    requires Keeps(s0, s0, flows) && Distinct(s0.regions)
    ensures Keeps(s0, s, flows) && Reaches(x, flows, s0, t, s, 2) && AllEligible(x, s) && AllFit(x, s, s.regions)
    ensures Ordered(s.plan, flows, steps) && Narrowing(flows, t, a)
    ensures OneHome(s0.plan) ==> forall f :: f in flows ==> (Complete(s.plan, f, steps[f]) <==> !HookDraws(s.plan, f))
    ensures OneHome(s0.plan) ==>
              forall f :: f in flows && (forall k: nat :: a <= k < |t.removed| ==> !ExposesAt(t, f, k)) ==>
                            Complete(s.plan, f, steps[f])
    ensures OneHome(s0.plan) && AllUnmixed(s0.plan) ==> forall f :: f in flows ==> Complete(s.plan, f, steps[f])
  {
    hide Keeps, Formed, Reaches, AllFit, AllEligible, OneHome, UniqueDefinitions, Schedulable, AllUnmixed, Complete,
         HookDraws, Schedule, StoreGreedy, Narrowing, ExposesAt, TakesGraph, UnitGraph, WellFounded;
    s, t := DropIneligible(x, flows, s0);
    s, t := DropUnschedulable(x, flows, s0, s, t);
    a := |t.removed|;
    s, t := DropWide(x, flows, s0, s, t);
    KeepsFormed(s0, s, flows);
    steps := OrderAll(s.plan, flows);
    if OneHome(s0.plan) {
      forall f | f in flows && forall k: nat :: a <= k < |t.removed| ==> !ExposesAt(t, f, k)
        ensures Complete(s.plan, f, steps[f])
      {
        NarrowedWhole(x, flows, s0, t, s, f, a);
      }
      if AllUnmixed(s0.plan) { AllScheduled(s.plan, flows); }
    }
  }

  lemma AllScheduled(p: Plan, flows: seq<Flow>)
    requires WellFormed(p) && Schedulable(p, flows)
    ensures forall f :: f in flows ==> WellFounded(UnitGraph(p, f))
  {}

  lemma NarrowedWhole(x: Facts, flows: seq<Flow>, s0: Partition, t: Trail, s: Partition, f: Flow, a: nat)
    requires Reaches(x, flows, s0, t, s, 2) && Narrowing(flows, t, a) && Keeps(s0, s0, flows) && OneHome(s0.plan)
    requires f in flows && forall k: nat :: a <= k < |t.removed| ==> !ExposesAt(t, f, k)
    ensures WellFormed(s.plan) && WellFounded(UnitGraph(s.plan, f))
  {
    assert SchedulableAt(t, f, a);
    hide Keeps, OneHome, Follows, ExposesAt;
    TrailKeepsIff(x, flows, s0, t, f, a, |t.removed|);
    assert SchedulableAt(t, f, |t.removed|);
  }

  /** Every flow has steps in an order that can be run, and they are all of it exactly when it can be scheduled. */
  ghost predicate Ordered(p: Plan, flows: seq<Flow>, steps: map<Flow, seq<Unit>>) {
    && WellFormed(p) && steps.Keys == Elements(flows)
    && (forall f :: f in flows ==> Schedule(p, f, steps[f]) && StoreGreedy(p, f, steps[f]))
    && (forall f :: f in flows ==> (Complete(p, f, steps[f]) <==> WellFounded(UnitGraph(p, f))))
  }

  // ---- from the nodes to the steps ----

  /** The store before any region is formed. */
  function Bare(nodes: seq<Node>, definedBy: map<Var, nat>): Plan {
    Plan(nodes, definedBy, [], seq(|nodes|, i => []))
  }

  function Loads(config: seq<nat>): set<nat> { set i | i in config }

  /** What planning is given: nodes with unique definitions, flows that can be ordered, and config loads with the
      variable each defines. */
  ghost predicate Input(nodes: seq<Node>, definedBy: map<Var, nat>, config: seq<nat>, vars: map<nat, Var>,
                        flows: seq<Flow>) {
    && UniqueDefinitions(Bare(nodes, definedBy)) && Distinct(config)
    && (forall f :: f in flows ==> Acyclic(NodeGraph(Bare(nodes, definedBy), f)))
    && (forall i :: i in config ==> i < |nodes| && i in vars && vars[i] in definedBy && definedBy[vars[i]] == i)
  }

  /** Config loads are neither hooks nor providers, and no hook is connected with a provider that has its flows. */
  ghost predicate UnmixedInput(bare: Plan, config: seq<nat>, shared: seq<SharedRoot>) {
    var loads := Loads(config);
    && (forall i :: i in config && i < |bare.nodes| ==> !IsHook(bare.nodes[i]) && !IsProvider(bare.nodes[i]))
    && (forall i: nat, j: nat :: i < |bare.nodes| && j < |bare.nodes| && i !in loads && j !in loads &&
                                 IsHook(bare.nodes[i]) && IsProvider(bare.nodes[j]) ==>
                                   !Reach(JoinGraph(bare, loads, shared), i, j))
  }

  /** A plan whose steps can be run. */
  ghost predicate Output(p: Plan, flows: seq<Flow>, steps: map<Flow, seq<Unit>>) {
    && OneHome(p) && Demands(p) && Ordered(p, flows, steps)
    && (forall f :: f in flows ==> (Complete(p, f, steps[f]) <==> !HookDraws(p, f)))
  }

  /** How regions come about: the groups, the regions they became, the roots these assemble, and the plans between
      config loads. */
  datatype Course = Course(groups: seq<seq<nat>>, formed: Plan, embeds: map<nat, nat>, plans: seq<Plan>)

  /** Each region is one group and serves the flows of the group's members. */
  ghost predicate FromGroups(bare: Plan, config: seq<nat>, shared: seq<SharedRoot>, groups: seq<seq<nat>>, p: Plan) {
    && p.nodes == bare.nodes && p.definedBy == bare.definedBy && WellFormed(p)
    && Groups(bare, Loads(config), shared, groups) && |p.usage| == |groups|
    && (forall i: nat, k: nat {:trigger k in p.memberOf[i]} ::
          i < |p.nodes| ==> (k in p.memberOf[i] <==> k < |groups| && i in groups[k]))
    && (forall i: nat, k: nat {:trigger k in p.memberOf[i]} ::
          i < |p.nodes| && k in p.memberOf[i] ==> p.usage[k] == p.nodes[i].flows && p.memberOf[i] == [k])
  }

  /** s0 comes from the store by grouping, embedding and colocation. */
  ghost predicate Prepared(x: Facts, bare: Plan, config: seq<nat>, vars: map<nat, Var>, c: Course, s0: Partition) {
    && FromGroups(bare, config, x.shared, c.groups, c.formed)
    && Embedded(c.formed, x.shared, c.embeds)
    && Placements(RootsIn(x, c.embeds), config, vars, c.plans) && c.plans[0] == c.formed
    && s0 == Partition(c.plans[|config|], Numbers(|c.groups|), c.embeds)
  }

  /** Groups become regions, which take in shared roots and config loads. */
  method FormRegions(x: Facts, nodes: seq<Node>, definedBy: map<Var, nat>, config: seq<nat>, vars: map<nat, Var>,
                     flows: seq<Flow>) returns (s0: Partition, ghost c: Course)
    requires Input(nodes, definedBy, config, vars, flows)
    ensures s0.plan.nodes == nodes && s0.plan.definedBy == definedBy
    ensures Prepared(x, Bare(nodes, definedBy), config, vars, c, s0)
    ensures Keeps(s0, s0, flows) && Distinct(s0.regions) && OwnsInputs(x, s0)
    ensures UsageClosed(Bare(nodes, definedBy)) ==> OneHome(s0.plan) && Demands(s0.plan)
    ensures UnmixedInput(Bare(nodes, definedBy), config, x.shared) ==> AllUnmixed(s0.plan)
  {
    hide Groups, Placement, Targets, UsageClosed, MembersServe, OneHome, UniqueDefinitions, UnmixedInput, AllUnmixed,
         Demands, Plannable, NodeGraph, Live, RootsIn, Numbers, Distinct, OwnsInputs, WellServed;
    var bare, loads := Bare(nodes, definedBy), Loads(config);
    UniqueFormed(bare);
    var groups := FormComponents(bare, loads, x.shared);
    var formed := Regions(nodes, definedBy, loads, x.shared, groups);
    assert WellFormed(formed) by { HomeFormed(formed); }
    ConfigsFree(bare, loads, x.shared, groups, formed, config);
    var embeds := EmbedSharedRoots(formed, x.shared);
    var placed;
    ghost var plans;
    placed, plans := ColocateConfigs(formed, RootsIn(x, embeds), config, vars);
    PlacedUnique(bare, placed);
    if UsageClosed(bare) { PlacedServed(bare, formed, placed); }
    PlacedPlannable(bare, placed, flows);
    s0 := Partition(placed, Numbers(|groups|), embeds);
    c := Course(groups, formed, embeds, plans);
    PlacedOwns(x, config, formed, s0);
    NumbersDistinct(|groups|);
    Begins(s0, flows);
    if UnmixedInput(bare, config, x.shared) { PlacedUnmixed(bare, config, x.shared, groups, formed, placed); }
  }

  lemma Begins(s0: Partition, flows: seq<Flow>)
    requires Plannable(s0.plan, flows) && UniqueDefinitions(s0.plan) && s0.regions == Numbers(|s0.plan.usage|)
    ensures Keeps(s0, s0, flows)
  {
    LiveBound(s0.plan);
  }

  /** planRegions from the nodes to the steps: regions are formed, and only unfit ones dissolve. Where a node's usage
      includes the flows of its users, the result can be run. */
  method PlanFragments(x: Facts, nodes: seq<Node>, definedBy: map<Var, nat>, config: seq<nat>, vars: map<nat, Var>,
                       flows: seq<Flow>)
    returns (s: Partition, steps: map<Flow, seq<Unit>>, ghost c: Course, ghost s0: Partition, ghost t: Trail)
    requires Input(nodes, definedBy, config, vars, flows)
    ensures s.plan.nodes == nodes && s.plan.definedBy == definedBy && Ordered(s.plan, flows, steps)
    ensures Prepared(x, Bare(nodes, definedBy), config, vars, c, s0) && Reaches(x, flows, s0, t, s, 2)
    ensures Formed(s) && AllEligible(x, s) && AllFit(x, s, s.regions)
    ensures OwnsInputs(x, s) && forall r :: r in Live(s.plan) ==> r in s.regions
    ensures UsageClosed(Bare(nodes, definedBy)) ==> Output(s.plan, flows, steps)
    ensures UsageClosed(Bare(nodes, definedBy)) && UnmixedInput(Bare(nodes, definedBy), config, x.shared) ==>
              forall f :: f in flows ==> Complete(s.plan, f, steps[f])
  {
    hide Input, Bare, Prepared, OwnsInputs, Reaches, Eligible, Fits, Demands, UnmixedInput, AllUnmixed, Complete,
         Ordered, OneHome, UniqueDefinitions, Plannable, UsageClosed, HookDraws;
    var before;
    before, c := FormRegions(x, nodes, definedBy, config, vars, flows);
    s0 := before;
    ghost var a;
    s, steps, t, a := PlanRegions(x, flows, before);
    KeepsFormed(s0, s, flows);
    ReachedOwns(x, flows, s0, t, s);
  }

  lemma ReachedOwns(x: Facts, flows: seq<Flow>, s0: Partition, t: Trail, s: Partition)
    requires Reaches(x, flows, s0, t, s, 2) && OwnsInputs(x, s0)
    ensures OwnsInputs(x, s)
  {
    TrailOwns(x, flows, s0, t, |t.removed|);
  }

  /** Regions of an unmixed input are unmixed: their members are connected, and a config load is neither. */
  lemma PlacedUnmixed(bare: Plan, config: seq<nat>, shared: seq<SharedRoot>, groups: seq<seq<nat>>, formed: Plan,
                      placed: Plan)
    requires UnmixedInput(bare, config, shared) && FromGroups(bare, config, shared, groups, formed)
    requires WellFormed(placed) && placed.nodes == formed.nodes
    requires forall j: nat :: j < |formed.nodes| && j !in config ==> placed.memberOf[j] == formed.memberOf[j]
    ensures AllUnmixed(placed)
  {
    hide Reach, JoinGraph, IsHook, IsProvider;
    forall r: nat, i: nat, j: nat | i < |placed.nodes| && j < |placed.nodes| && r in placed.memberOf[i]
                                    && r in placed.memberOf[j]
      ensures !(IsHook(placed.nodes[i]) && IsProvider(placed.nodes[j]))
    {
      if i !in config && j !in config {
        assert r in formed.memberOf[i] && r in formed.memberOf[j];
        assert i in groups[r] && j in groups[r];
      }
    }
  }

  function Numbers(n: nat): (s: seq<nat>)
    ensures forall r: nat :: r in s <==> r < n
  {
    if n == 0 then [] else Numbers(n - 1) + [n - 1]
  }

  lemma {:induction false} NumbersDistinct(n: nat)
    ensures Distinct(Numbers(n))
  {
    if n > 0 {
      NumbersDistinct(n - 1);
      assert n - 1 !in Numbers(n - 1);
    }
  }

  lemma PlacedUnique(p: Plan, q: Plan)
    requires UniqueDefinitions(p) && q.nodes == p.nodes && q.definedBy == p.definedBy && WellFormed(q)
    ensures UniqueDefinitions(q)
  {}

  /** Closed usage carries over from the bare store, and colocation keeps what it needs. */
  lemma PlacedServed(bare: Plan, formed: Plan, placed: Plan)
    requires UsageClosed(bare) && formed.nodes == bare.nodes && formed.definedBy == bare.definedBy
    requires OneHome(formed) && MembersServe(formed) && (WellServed(formed) ==> WellServed(placed))
    requires UniqueDefinitions(placed)
    ensures OneHome(placed) && Demands(placed)
  {
    hide UniqueDefinitions;
    forall i: nat, j: nat
      ensures UsesNode(formed, i, j) <==> UsesNode(bare, i, j)
    {}
    assert UsageClosed(formed);
  }

  lemma PlacedPlannable(bare: Plan, p: Plan, flows: seq<Flow>)
    requires WellFormed(p) && p.nodes == bare.nodes && p.definedBy == bare.definedBy
    requires forall f :: f in flows ==> Acyclic(NodeGraph(bare, f))
    ensures Plannable(p, flows)
  {
    forall f | f in flows
      ensures Acyclic(NodeGraph(p, f))
    {
      SameNodes(bare, p, f);
    }
  }

  /** Config loads are in no group, so they start without a region. */
  lemma ConfigsFree(bare: Plan, loads: set<nat>, shared: seq<SharedRoot>, groups: seq<seq<nat>>, p: Plan,
                    config: seq<nat>)
    requires Groups(bare, loads, shared, groups) && p.nodes == bare.nodes && |p.memberOf| == |p.nodes|
    requires forall i: nat, k: nat {:trigger k in p.memberOf[i]} ::
               i < |p.nodes| ==> (k in p.memberOf[i] <==> k < |groups| && i in groups[k])
    requires loads == Loads(config) && forall i :: i in config ==> i < |p.nodes|
    ensures forall i :: i in config ==> p.memberOf[i] == []
  {
    forall i | i in config
      ensures p.memberOf[i] == []
    {
      assert i in loads;
      assert !exists k :: 0 <= k < |groups| && i in groups[k];
      assert forall k: nat :: k !in p.memberOf[i];
      SomeIn(p.memberOf[i]);
    }
  }

  lemma LiveBound(p: Plan)
    requires WellFormed(p)
    ensures forall r :: r in Live(p) ==> r < |p.usage|
  {}

  /** Value preservation of the planner's own output: in every flow without a hook that draws on a unit behind the
      barrier, and for every order in which the flow's nodes could have run inline, running the planned steps with each
      region as a function succeeds and gives every variable it sets, and every scope root, the inline value. */
  lemma PlannedPreserves<V(!new)>(p: Plan, flows: seq<Flow>, steps: map<Flow, seq<Unit>>, sem: Meaning<V>,
                                  roots: map<Flow, set<Var>>, f: Flow, fns: map<nat, Function>, inline: seq<nat>)
    requires Output(p, flows, steps) && f in flows && !HookDraws(p, f) && Outlined(p, roots, f, fns)
    requires ProducerOrder(p, {}, inline) && Elements(inline) == FlowNodes(p, f)
    ensures var run, plain := RunSteps(p, sem, fns, steps[f]), RunNodes(p, sem, map[], inline);
            && run.Some? && plain.Some? && Agrees(run.value, plain.value)
            && (forall v :: f in roots && v in roots[f] && v in p.definedBy && InFlow(p, f, p.definedBy[v]) ==>
                              v in run.value && v in plain.value && run.value[v] == plain.value[v])
  {
    hide Outlined, HookDraws, Complete, StoreGreedy, Schedule, ProducerOrder, RunSteps, RunNodes, FlowNodes;
    DemandsClosed(p, f);
    OutliningPreserves(p, sem, roots, f, fns, steps[f], inline);
  }

  /** The roots that regions assemble: when region r's function runs in the planned steps, everything that its root
      names has the inline value in the body, and so has the expression. */
  lemma AssembledPreserves<V(!new)>(x: Facts, s: Partition, flows: seq<Flow>, steps: map<Flow, seq<Unit>>,
                                    sem: Meaning<V>, roots: map<Flow, set<Var>>, f: Flow, fns: map<nat, Function>,
                                    inline: seq<nat>, k: nat, r: nat)
    requires Output(s.plan, flows, steps) && f in flows && !HookDraws(s.plan, f) && Outlined(s.plan, roots, f, fns)
    requires ProducerOrder(s.plan, {}, inline) && Elements(inline) == FlowNodes(s.plan, f)
    requires OwnsInputs(x, s) && k < |steps[f]| && steps[f][k] == Region(r)
    ensures var p := s.plan;
            var env, plain := RunSteps(p, sem, fns, steps[f][..k]), RunNodes(p, sem, map[], inline);
            && env.Some? && plain.Some? && r in fns
            && var local := RunNodes(p, sem, Restrict(env.value, fns[r].ins), fns[r].body);
               && local.Some?
               && forall v :: Assembles(x, s, r, v) ==>
                                v in local.value && v in plain.value && local.value[v] == plain.value[v]
  {
    hide Outlined, HookDraws, Complete, StoreGreedy, Schedule, ProducerOrder, RunSteps, RunNodes, FlowNodes;
    DemandsClosed(s.plan, f);
    AssemblyPreserves(s.plan, sem, roots, f, fns, steps[f], inline, k, r);
    hide Demands, OneHome;
    forall v | Assembles(x, s, r, v)
      ensures s.plan.definedBy[v] in Members(s.plan, r)
    {}
  }
}
