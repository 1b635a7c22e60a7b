/**
 What a region's build function is called with and returns: the scope roots it
 assembles (embedSharedRoots of gen/fragment.go), what makes it worth extracting
 (regionEligible and regionAnchored of gen/fragment.go), and how wide its
 signature is (regionNarrow and consumedIn of gen/fragment_emit.go).
 */
module RegionSignatures {
  import opened Basics
  import opened Graphs
  import opened Sorting
  import opened GenNodes
  import opened Fragments
  import opened RegionForming
  import opened Outlining
  import opened Colocation

  /** What planning knows besides the store: the variables each scope's own roots read, the compound roots that several
      scopes share, the variables that are roots by themselves, the nodes whose demand has a name or is a singleton, and
      the nodes that answer a prelude demand. */
  datatype Facts = Facts(roots: map<Flow, set<Var>>, shared: seq<SharedRoot>, idents: set<Var>, named: nat -> bool,
                         prelude: nat -> bool)

  /** The plan, the regions left in it, and the shared root that a region assembles. */
  datatype Partition = Partition(plan: Plan, regions: seq<nat>, embeds: map<nat, nat>)

  ghost predicate Formed(s: Partition) {
    UniqueDefinitions(s.plan) && forall r :: r in s.regions ==> r < |s.plan.usage|
  }

  /** dissolve: the members go back to being inline nodes and the scopes get the region's shared root back. */
  function Drop(s: Partition, r: nat): Partition
    requires |s.plan.memberOf| == |s.plan.nodes|
  {
    Partition(Dissolve(s.plan, r), Without(s.regions, r), map e | e in s.embeds && e != r :: s.embeds[e])
  }

  // ---- shared roots ----

  /** What a scope reads of a shared root: its value if a region assembles it, else the variables it names. */
  function SharedReads(s: SharedRoot, embedded: bool): set<Var> {
    if embedded then {s.result} else set v | v in s.idents
  }

  /** The variables that the roots of each scope read. */
  function RootsIn(x: Facts, embeds: map<nat, nat>): map<Flow, set<Var>> {
    map f | f in x.roots ::
      x.roots[f] + set k, v | 0 <= k < |x.shared| && f in x.shared[k].flows &&
                              v in SharedReads(x.shared[k], k in embeds.Values) :: v
  }

  /** The variable that region r's assembled root is bound to. */
  function Primary(x: Facts, embeds: map<nat, nat>, r: nat): Option<Var> {
    if r in embeds && embeds[r] < |x.shared| then Some(x.shared[embeds[r]].result) else None
  }

  /** Region r defines everything that the root names, serves exactly its flows, and there is something to define. */
  ghost predicate Targets(p: Plan, s: SharedRoot, r: nat)
    requires WellFormed(p)
  {
    && r < |p.usage| && p.usage[r] == s.flows && |s.flows| >= 2
    && (exists v :: v in s.idents && v in p.definedBy)
    && (forall v :: v in s.idents && v in p.definedBy ==> p.memberOf[p.definedBy[v]] == [r])
  }

  method TargetOf(p: Plan, s: SharedRoot) returns (target: Option<nat>)
    requires WellFormed(p)
    ensures target.Some? ==> Targets(p, s, target.value)
    ensures forall r: nat :: Targets(p, s, r) ==> target == Some(r)
  {
    target := None;
    var ok := true;
    for k := 0 to |s.idents|
      invariant ok && target.None? ==> forall v :: v in s.idents[..k] ==> v !in p.definedBy
      invariant ok && target.Some? ==> target.value < |p.usage| && exists v :: v in s.idents[..k] && v in p.definedBy
      invariant ok && target.Some? ==>
                  forall v :: v in s.idents[..k] && v in p.definedBy ==> p.memberOf[p.definedBy[v]] == [target.value]
      invariant !ok ==> forall r :: !Targets(p, s, r)
    {
      var v := s.idents[k];
      assert s.idents[..k + 1] == s.idents[..k] + [v];
      assert forall u :: u in s.idents[..k] ==> u in s.idents;
      assert v in s.idents;
      if v in p.definedBy {
        var rs := p.memberOf[p.definedBy[v]];
        if |rs| != 1 || (target.Some? && target.value != rs[0]) {
          assert ok && target.Some? && |rs| == 1 ==> forall r :: !Targets(p, s, r);
          ok := false;
        } else {
          assert rs == [rs[0]];
          target := Some(rs[0]);
        }
      }
    }
    assert s.idents[..|s.idents|] == s.idents;
    if !ok || (target.Some? && (p.usage[target.value] != s.flows || |s.flows| < 2)) { target := None; }
  }

  /** Each region assembles the first shared root that it targets, and only such a root. */
  ghost predicate Embedded(p: Plan, shared: seq<SharedRoot>, embeds: map<nat, nat>) {
    && WellFormed(p)
    && (forall r :: r in embeds ==> embeds[r] < |shared| && Targets(p, shared[embeds[r]], r))
    && (forall r, k: nat :: k < |shared| && Targets(p, shared[k], r) ==> r in embeds && embeds[r] <= k)
  }

  /** embedSharedRoots. */
  method EmbedSharedRoots(p: Plan, shared: seq<SharedRoot>) returns (embeds: map<nat, nat>)
    requires WellFormed(p)
    ensures Embedded(p, shared, embeds)
  {
    hide Targets;
    embeds := map[];
    for n := 0 to |shared|
      invariant forall r :: r in embeds ==> embeds[r] < n && Targets(p, shared[embeds[r]], r)
      invariant forall r, k: nat :: k < n && Targets(p, shared[k], r) ==> r in embeds && embeds[r] <= k
    {
      var target := TargetOf(p, shared[n]);
      if target.Some? && target.value !in embeds { embeds := embeds[target.value := n]; }
    }
  }

  // ---- eligibility ----

  /** regionAnchored: it assembles a root, or a member defines a root, is a hook, or answers a nameable demand. */
  predicate Anchored(x: Facts, s: Partition, r: nat)
    requires |s.plan.memberOf| == |s.plan.nodes|
  {
    || r in s.embeds
    || exists i | i in Members(s.plan, r) ::
         IsHook(s.plan.nodes[i]) || x.named(i) || exists d | d in s.plan.nodes[i].defines :: d in x.idents
  }

  /** regionEligible: several flows, several members, and an anchor to name the function by. */
  predicate Eligible(x: Facts, s: Partition, r: nat)
    requires |s.plan.memberOf| == |s.plan.nodes|
  {
    r < |s.plan.usage| && |s.plan.usage[r]| >= 2 && |Members(s.plan, r)| >= 2 && Anchored(x, s, r)
  }

  /** The region that builds the config sources: a member answers a prelude demand. */
  predicate PreludeRegion(x: Facts, s: Partition, r: nat)
    requires |s.plan.memberOf| == |s.plan.nodes|
  {
    r !in s.embeds && exists i | i in Members(s.plan, r) :: !IsHook(s.plan.nodes[i]) && x.prelude(i)
  }

  lemma DropMembers(p: Plan, r: nat, q: nat)
    requires |p.memberOf| == |p.nodes| && q != r
    ensures Members(Dissolve(p, r), q) == Members(p, q)
  {}

  /** Dissolving one region changes nothing about the eligibility of another. */
  lemma DropEligible(x: Facts, s: Partition, r: nat, q: nat)
    requires |s.plan.memberOf| == |s.plan.nodes| && q != r
    ensures Eligible(x, Drop(s, r), q) <==> Eligible(x, s, q)
    ensures PreludeRegion(x, Drop(s, r), q) <==> PreludeRegion(x, s, q)
  {
    hide Members, IsHook;
    DropMembers(s.plan, r, q);
  }

  // ---- signature width ----

  ghost function LiveInVars(p: Plan, r: nat): set<Var>
    requires WellFormed(p)
  {
    set u | u in p.definedBy && IsLiveIn(p, r, u)
  }

  ghost function LiveOutVars(p: Plan, roots: map<Flow, set<Var>>, r: nat): set<Var>
    requires WellFormed(p) && r < |p.usage|
  {
    set d | d in p.definedBy && IsLiveOut(p, roots, r, d)
  }

  /** consumedIn: somebody outside region r reads v in flow f. */
  ghost predicate ConsumedIn(p: Plan, roots: map<Flow, set<Var>>, r: nat, v: Var, f: Flow)
    requires WellFormed(p)
  {
    exists c :: Reads(p, roots, v, c) && c.flow == f && c.home != Some(r)
  }

  /** The results of r that nobody reads in flow f. */
  ghost function Unread(p: Plan, roots: map<Flow, set<Var>>, r: nat, f: Flow): (vs: set<Var>)
    requires WellFormed(p) && r < |p.usage|
    ensures vs <= LiveOutVars(p, roots, r)
  {
    set v | v in LiveOutVars(p, roots, r) && !ConsumedIn(p, roots, r, v, f)
  }

  function One(b: bool): nat { if b then 1 else 0 }

  /** regionNarrow: at most four parameters besides the prelude's result, at most three results counting the assembled
      root, and at most one of them unread in a flow. */
  ghost predicate Narrow(p: Plan, roots: map<Flow, set<Var>>, primary: Option<Var>, opts: Option<Var>, r: nat)
    requires WellFormed(p) && r < |p.usage|
  {
    && |LiveInVars(p, r) - OptionSet(opts)| <= 4
    && |LiveOutVars(p, roots, r)| + One(primary.Some?) <= 3
    && forall f :: f in p.usage[r] ==> |Unread(p, roots, r, f)| + One(PrimaryUnread(p, roots, primary, r, f)) <= 1
  }

  ghost function OptionSet<T>(o: Option<T>): set<T> { if o.Some? then {o.value} else {} }

  ghost predicate PrimaryUnread(p: Plan, roots: map<Flow, set<Var>>, primary: Option<Var>, r: nat, f: Flow)
    requires WellFormed(p)
  {
    primary.Some? && !ConsumedIn(p, roots, r, primary.value, f)
  }

  /** The only result of the last prelude region, which is passed on apart from the other parameters. */
  ghost function PreludeOut(x: Facts, s: Partition, roots: map<Flow, set<Var>>, regions: seq<nat>): Option<Var>
    requires WellFormed(s.plan)
  {
    if regions == [] then None else
    var r := regions[|regions| - 1];
    if r < |s.plan.usage| && PreludeRegion(x, s, r) && |LiveOutVars(s.plan, roots, r)| == 1
    then (var v :| v in LiveOutVars(s.plan, roots, r); Some(v))
    else PreludeOut(x, s, roots, regions[..|regions| - 1])
  }

  /** Region r is narrow in the partition as it stands. */
  ghost predicate Fits(x: Facts, s: Partition, r: nat)
    requires Formed(s) && r < |s.plan.usage|
  {
    var roots := RootsIn(x, s.embeds);
    Narrow(s.plan, roots, Primary(x, s.embeds, r), PreludeOut(x, s, roots, s.regions), r)
  }

  ghost predicate AllFit(x: Facts, s: Partition, regions: seq<nat>)
    requires Formed(s)
  {
    forall r :: r in regions ==> r < |s.plan.usage| && Fits(x, s, r)
  }

  /** r is the first region that is too wide. */
  ghost predicate FirstWide(x: Facts, s: Partition, r: nat)
    requires Formed(s) && r in s.regions
  {
    !Fits(x, s, r) && exists k: nat :: k < |s.regions| && s.regions[k] == r && AllFit(x, s, s.regions[..k])
  }

  /** consumedIn, over the consumers collected so far. */
  predicate Consumed(cs: Consumers, r: nat, v: Var, f: Flow) {
    v in cs && exists c | c in cs[v] :: c.flow == f && c.home != Some(r)
  }

  lemma ConsumedExact(p: Plan, roots: map<Flow, set<Var>>, cs: Consumers, r: nat, v: Var, f: Flow)
    requires WellFormed(p) && forall x, c :: Noted(cs, x, c) <==> Reads(p, roots, x, c)
    ensures Consumed(cs, r, v, f) <==> ConsumedIn(p, roots, r, v, f)
  {
    hide Reads;
    if Consumed(cs, r, v, f) {
      var c :| c in cs[v] && c.flow == f && c.home != Some(r);
      assert Noted(cs, v, c);
    }
    if ConsumedIn(p, roots, r, v, f) {
      var c :| Reads(p, roots, v, c) && c.flow == f && c.home != Some(r);
      assert Noted(cs, v, c);
    }
  }

  method MembersOf(p: Plan, r: nat) returns (members: seq<nat>)
    requires WellFormed(p)
    ensures Distinct(members) && forall i: nat :: i in members <==> i in Members(p, r)
  {
    members := [];
    for i := 0 to |p.nodes|
      invariant Distinct(members) && forall k: nat :: k in members <==> k < i && r in p.memberOf[k]
    {
      if r in p.memberOf[i] { members := members + [i]; }
    }
  }

  /** How many results nobody reads in flow f. */
  method CountUnread(p: Plan, roots: map<Flow, set<Var>>, r: nat, outs: seq<Var>, cs: Consumers, f: Flow)
    returns (discarded: nat)
    requires WellFormed(p) && r < |p.usage| && Distinct(outs) && Elements(outs) == LiveOutVars(p, roots, r)
    requires forall v, c :: Noted(cs, v, c) <==> Reads(p, roots, v, c)
    ensures discarded == |Unread(p, roots, r, f)|
  {
    hide LiveOutVars, Reads, ConsumedIn, Consumed, Distinct, WellFormed;
    discarded := 0;
    ghost var seen: set<Var> := {};
    for k := 0 to |outs|
      invariant forall v :: v in seen <==> v in outs[..k] && !ConsumedIn(p, roots, r, v, f)
      invariant discarded == |seen|
    {
      var v := outs[k];
      ConsumedExact(p, roots, cs, r, v, f);
      NotBefore(outs, k);
      assert outs[..k + 1] == outs[..k] + [v];
      if !Consumed(cs, r, v, f) {
        discarded := discarded + 1;
        seen := seen + {v};
      }
    }
    assert outs[..|outs|] == outs;
    assert forall v :: v in outs <==> v in Elements(outs);
    assert seen == Unread(p, roots, r, f);
  }

  lemma NotBefore<T>(s: seq<T>, k: nat)
    requires Distinct(s) && k < |s|
    ensures s[k] !in s[..k]
  {}

  lemma OutVars(p: Plan, roots: map<Flow, set<Var>>, r: nat, outs: seq<Var>)
    requires UniqueDefinitions(p) && r < |p.usage| && Distinct(outs)
    requires forall d :: d in outs <==> IsLiveOut(p, roots, r, d)
    ensures Elements(outs) == LiveOutVars(p, roots, r) && |outs| == |LiveOutVars(p, roots, r)|
  {
    hide ReadOutside;
    DistinctSize(outs);
    forall d
      ensures d in outs <==> d in LiveOutVars(p, roots, r)
    {
      if d in outs {
        var i :| i in Members(p, r) && i < |p.nodes| && d in p.nodes[i].defines;
      }
    }
  }

  lemma InVars(p: Plan, r: nat, ins: seq<Var>, opts: Option<Var>)
    requires WellFormed(p) && Distinct(ins) && forall u :: u in ins <==> IsLiveIn(p, r, u)
    ensures |ins| - One(opts.Some? && opts.value in ins) == |LiveInVars(p, r) - OptionSet(opts)|
  {
    DistinctSize(ins);
    assert Elements(ins) == LiveInVars(p, r);
    if opts.Some? && opts.value in ins {
      assert LiveInVars(p, r) == (LiveInVars(p, r) - {opts.value}) + {opts.value};
    } else {
      assert LiveInVars(p, r) - OptionSet(opts) == LiveInVars(p, r);
    }
  }

  /** regionNarrow, on freshly analyzed live-ins and live-outs. */
  method RegionNarrow(p: Plan, roots: map<Flow, set<Var>>, primary: Option<Var>, opts: Option<Var>, r: nat,
                      cs: Consumers) returns (narrow: bool)
    requires UniqueDefinitions(p) && r < |p.usage| && forall v, c :: Noted(cs, v, c) <==> Reads(p, roots, v, c)
    ensures narrow <==> Narrow(p, roots, primary, opts, r)
  {
    hide UniqueDefinitions, Reads, IsLiveIn, IsLiveOut, LiveInVars, LiveOutVars, Unread, Distinct, OptionSet,
         ConsumedIn, Consumed;
    assert WellFormed(p) by { UniqueFormed(p); }
    var members := MembersOf(p, r);
    var ins := LiveIns(p, r, members);
    var outs := LiveOuts(p, roots, r, members, cs);
    InVars(p, r, ins, opts);
    OutVars(p, roots, r, outs);
    var parameters := |ins| - One(opts.Some? && opts.value in ins);
    if parameters > 4 || |outs| + One(primary.Some?) > 3 { return false; }
    var rest := p.usage[r];
    while rest != {}
      invariant rest <= p.usage[r]
      invariant forall f :: f in p.usage[r] - rest ==>
                              |Unread(p, roots, r, f)| + One(PrimaryUnread(p, roots, primary, r, f)) <= 1
      decreases rest
    {
      var f :| f in rest;
      var discarded := CountUnread(p, roots, r, outs, cs, f);
      if primary.Some? {
        ConsumedExact(p, roots, cs, r, primary.value, f);
        if !Consumed(cs, r, primary.value, f) { discarded := discarded + 1; }
      }
      if discarded > 1 { return false; }
      rest := rest - {f};
    }
    narrow := true;
  }

  lemma UniqueFormed(p: Plan)
    requires UniqueDefinitions(p)
    ensures WellFormed(p)
  {}

  /** analyzeRegions: the prelude's result, if a region builds it as its only one. */
  method FindPrelude(x: Facts, s: Partition, roots: map<Flow, set<Var>>, cs: Consumers) returns (out: Option<Var>)
    requires Formed(s) && forall v, c :: Noted(cs, v, c) <==> Reads(s.plan, roots, v, c)
    ensures out == PreludeOut(x, s, roots, s.regions)
  {
    hide UniqueDefinitions, Reads, LiveOutVars, IsLiveOut, OneHome, Distinct, PreludeRegion;
    assert WellFormed(s.plan) by { UniqueFormed(s.plan); }
    out := None;
    for k := 0 to |s.regions|
      invariant out == PreludeOut(x, s, roots, s.regions[..k])
    {
      var r := s.regions[k];
      assert r in s.regions;
      assert s.regions[..k + 1][..k] == s.regions[..k];
      if PreludeRegion(x, s, r) {
        var members := MembersOf(s.plan, r);
        var outs := LiveOuts(s.plan, roots, r, members, cs);
        OutVars(s.plan, roots, r, outs);
        if |outs| == 1 {
          OnlyElement(outs, LiveOutVars(s.plan, roots, r));
          out := Some(outs[0]);
        }
      }
    }
    assert s.regions[..|s.regions|] == s.regions;
  }

  lemma OnlyElement<T>(s: seq<T>, e: set<T>)
    requires |s| == 1 && e == Elements(s)
    ensures forall v :: v in e <==> v == s[0]
  {}

  /** The first region whose signature is too wide, if any. */
  method FindWide(x: Facts, s: Partition) returns (wide: Option<nat>)
    requires Formed(s)
    ensures wide.None? <==> AllFit(x, s, s.regions)
    ensures wide.Some? ==> wide.value in s.regions && FirstWide(x, s, wide.value)
  {
    hide UniqueDefinitions, Narrow, Reads, OneHome, RootsIn, PreludeOut, Primary;
    assert WellFormed(s.plan) by { UniqueFormed(s.plan); }
    var roots := RootsIn(x, s.embeds);
    var cs := CollectConsumers(s.plan, roots);
    var opts := FindPrelude(x, s, roots, cs);
    for k := 0 to |s.regions|
      invariant AllFit(x, s, s.regions[..k])
    {
      var r := s.regions[k];
      assert r in s.regions;
      var narrow := RegionNarrow(s.plan, roots, Primary(x, s.embeds, r), opts, r, cs);
      if !narrow { return Some(r); }
      assert s.regions[..k + 1] == s.regions[..k] + [r];
    }
    assert s.regions[..|s.regions|] == s.regions;
    wide := None;
  }
}
