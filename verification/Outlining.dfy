/**
 Outlining of shared regions, gen/fragment_emit.go: what each region takes in
 and gives out (analyzeRegions), and the proof that running a flow with its
 regions as functions gives every outside reader the value it would get if all
 nodes ran inline.
 */
module Outlining {
  import opened Basics
  import opened Sorting
  import opened GenNodes
  import opened Fragments

  type Env<V> = map<Var, V>

  /** What node i assigns to the variable it defines, given the values of its uses in order. */
  type Meaning<!V> = (nat, Var, seq<V>) -> V

  /** Definitions are unique and every used variable is defined by some node. */
  ghost predicate UniqueDefinitions(p: Plan) {
    && WellFormed(p)
    && (forall i: nat :: i < |p.nodes| ==> Distinct(p.nodes[i].defines))
    && (forall i: nat, d :: i < |p.nodes| && d in p.nodes[i].defines ==> d in p.definedBy && p.definedBy[d] == i)
    && (forall v :: v in p.definedBy ==> v in p.nodes[p.definedBy[v]].defines)
    && (forall i: nat, u :: i < |p.nodes| && u in p.nodes[i].uses ==> u in p.definedBy && p.definedBy[u] != i)
  }

  /** Demand is closed: what a node of the flow uses is in the flow, and a region's members serve all its flows. */
  ghost predicate DemandClosed(p: Plan, f: Flow) {
    && WellFormed(p)
    && (forall i: nat, j: nat :: InFlow(p, f, i) && UsesNode(p, i, j) ==> InFlow(p, f, j))
    && (forall i: nat, r: nat, g :: i < |p.nodes| && r in p.memberOf[i] && g in p.usage[r] ==> g in p.nodes[i].flows)
  }

  // ---- running nodes ----

  function Args<V>(env: Env<V>, uses: seq<Var>): seq<V>
    requires forall u :: u in uses ==> u in env
  {
    seq(|uses|, k requires 0 <= k < |uses| => env[uses[k]])
  }

  /** Runs node i; none when it reads a variable that is not set. */
  function RunNode<V>(p: Plan, sem: Meaning<V>, env: Env<V>, i: nat): Option<Env<V>>
    requires i < |p.nodes|
  {
    if forall u :: u in p.nodes[i].uses ==> u in env then
      Some(env + map d | d in p.nodes[i].defines :: sem(i, d, Args(env, p.nodes[i].uses)))
    else None
  }

  function RunNodes<V>(p: Plan, sem: Meaning<V>, env: Env<V>, order: seq<nat>): Option<Env<V>>
    requires forall k :: 0 <= k < |order| ==> order[k] < |p.nodes|
  {
    if order == [] then Some(env)
    else
      match RunNodes(p, sem, env, order[..|order| - 1])
      case None => None
      case Some(e) => RunNode(p, sem, e, order[|order| - 1])
  }

  function Restrict<V>(env: Env<V>, vars: set<Var>): Env<V> {
    map v | v in env && v in vars :: env[v]
  }

  /** A region's function: its body sees only the live-ins, its caller only the live-outs. */
  datatype Function = Function(ins: set<Var>, outs: set<Var>, body: seq<nat>)

  function RunFunction<V>(p: Plan, sem: Meaning<V>, env: Env<V>, fn: Function): Option<Env<V>>
    requires forall k :: 0 <= k < |fn.body| ==> fn.body[k] < |p.nodes|
  {
    if !(fn.ins <= env.Keys) then None
    else
      match RunNodes(p, sem, Restrict(env, fn.ins), fn.body)
      case None => None
      case Some(local) => if fn.outs <= local.Keys then Some(env + Restrict(local, fn.outs)) else None
  }

  ghost predicate Bodies(p: Plan, fns: map<nat, Function>) {
    forall r, k :: r in fns && 0 <= k < |fns[r].body| ==> fns[r].body[k] < |p.nodes|
  }

  function RunUnit<V>(p: Plan, sem: Meaning<V>, fns: map<nat, Function>, env: Env<V>, u: Unit): Option<Env<V>>
    requires Bodies(p, fns)
  {
    match u
    case Inline(i) => if i < |p.nodes| then RunNode(p, sem, env, i) else None
    case Region(r) => if r in fns then RunFunction(p, sem, env, fns[r]) else None
  }

  function RunSteps<V>(p: Plan, sem: Meaning<V>, fns: map<nat, Function>, steps: seq<Unit>): Option<Env<V>>
    requires Bodies(p, fns)
  {
    if steps == [] then Some(map[])
    else
      match RunSteps(p, sem, fns, steps[..|steps| - 1])
      case None => None
      case Some(env) => RunUnit(p, sem, fns, env, steps[|steps| - 1])
  }

  // ---- the inline run solves the flow's equations ----

  /** Every node of the set has its inputs set, and its variables hold what it computes from them. */
  ghost predicate Solves<V(!new)>(p: Plan, sem: Meaning<V>, nodes: set<nat>, env: Env<V>) {
    forall i :: i in nodes && i < |p.nodes| ==>
                  && (forall u :: u in p.nodes[i].uses ==> u in env)
                  && (forall d :: d in p.nodes[i].defines ==>
                                    d in env && env[d] == sem(i, d, Args(env, p.nodes[i].uses)))
  }

  /** order lists nodes so that whatever a node uses is defined earlier in it or was set before. */
  ghost predicate ProducerOrder(p: Plan, given: set<Var>, order: seq<nat>) {
    && Distinct(order) && (forall k :: 0 <= k < |order| ==> order[k] < |p.nodes|)
    && forall k, u :: 0 <= k < |order| && u in p.nodes[order[k]].uses ==>
                        u in given || (u in p.definedBy && p.definedBy[u] in order[..k])
  }

  ghost function DefinedIn(p: Plan, nodes: set<nat>): set<Var> {
    set i, d | i in nodes && i < |p.nodes| && d in p.nodes[i].defines :: d
  }

  ghost predicate Agrees<V>(env: Env<V>, other: Env<V>) {
    forall v :: v in env ==> v in other && env[v] == other[v]
  }

  lemma ProducerOrderPrefix(p: Plan, given: set<Var>, order: seq<nat>)
    requires ProducerOrder(p, given, order) && order != []
    ensures ProducerOrder(p, given, order[..|order| - 1])
  {
    var init := order[..|order| - 1];
    assert forall k :: 0 <= k < |init| ==> init[..k] == order[..k];
  }

  ghost function DefinedBy(p: Plan, i: nat): set<Var>
    requires i < |p.nodes|
  {
    set d | d in p.nodes[i].defines
  }

  lemma DefinedInMore(p: Plan, nodes: set<nat>, i: nat)
    requires i < |p.nodes|
    ensures DefinedIn(p, nodes + {i}) == DefinedIn(p, nodes) + DefinedBy(p, i)
  {}

  lemma DefinedInHas(p: Plan, nodes: set<nat>, v: Var)
    requires UniqueDefinitions(p) && v in p.definedBy
    ensures v in DefinedIn(p, nodes) <==> p.definedBy[v] in nodes
  {}

  lemma StepAgrees<V(!new)>(p: Plan, sem: Meaning<V>, env: Env<V>, i: nat, e: Env<V>)
    requires i < |p.nodes| && Solves(p, sem, {i}, e) && Agrees(env, e)
    requires forall u :: u in p.nodes[i].uses ==> u in env
    ensures var r := RunNode(p, sem, env, i);
            r.Some? && Agrees(r.value, e) && r.value.Keys == env.Keys + DefinedBy(p, i)
  {
    assert i in {i};
    assert Args(env, p.nodes[i].uses) == Args(e, p.nodes[i].uses);
  }

  /** Running nodes in producer order from values that agree with a solution stays in agreement with it and sets
      exactly the given variables and those the nodes define. */
  lemma {:induction false} RunAgrees<V(!new)>(p: Plan, sem: Meaning<V>, env: Env<V>, order: seq<nat>, e: Env<V>)
    requires UniqueDefinitions(p) && ProducerOrder(p, env.Keys, order) && Agrees(env, e)
    requires Solves(p, sem, Elements(order), e)
    ensures var r := RunNodes(p, sem, env, order);
            r.Some? && Agrees(r.value, e) && r.value.Keys == env.Keys + DefinedIn(p, Elements(order))
  {
    hide RunNode, Agrees, DefinedIn, DefinedBy;
    if order == [] {
      assert Elements(order) == {} && DefinedIn(p, {}) == {} by { DefinedInNone(p); }
    } else {
      var init, i := order[..|order| - 1], order[|order| - 1];
      ProducerOrderPrefix(p, env.Keys, order);
      assert Elements(order) == Elements(init) + {i};
      RunAgrees(p, sem, env, init, e);
      var before := RunNodes(p, sem, env, init).value;
      forall u | u in p.nodes[i].uses
        ensures u in before
      {
        DefinedInHas(p, Elements(init), u);
      }
      StepAgrees(p, sem, before, i, e);
      DefinedInMore(p, Elements(init), i);
    }
  }

  lemma DefinedInNone(p: Plan)
    ensures DefinedIn(p, {}) == {}
  {}

  lemma NotRedefined(p: Plan, nodes: set<nat>, i: nat)
    requires UniqueDefinitions(p) && i < |p.nodes| && i !in nodes
    ensures DefinedIn(p, nodes) !! DefinedBy(p, i)
  {
    forall v | v in DefinedIn(p, nodes)
      ensures v !in p.nodes[i].defines
    {
      var j :| j in nodes && j < |p.nodes| && v in p.nodes[j].defines;
      assert p.definedBy[v] == j;
    }
  }

  lemma StepSolves<V(!new)>(p: Plan, sem: Meaning<V>, nodes: set<nat>, env: Env<V>, i: nat)
    requires UniqueDefinitions(p) && i < |p.nodes| && i !in nodes && Solves(p, sem, nodes, env)
    requires env.Keys == DefinedIn(p, nodes) && forall u :: u in p.nodes[i].uses ==> u in env
    ensures var r := RunNode(p, sem, env, i);
            r.Some? && Solves(p, sem, nodes + {i}, r.value) && r.value.Keys == DefinedIn(p, nodes + {i})
  {
    NotRedefined(p, nodes, i);
    DefinedInMore(p, nodes, i);
    hide UniqueDefinitions, DefinedIn, Solves;
    RunKeeps(p, sem, env, i);
    var after := RunNode(p, sem, env, i).value;
    SolvesMore(p, sem, nodes, env, after);
    SolvesBoth(p, sem, nodes, i, after);
  }

  lemma RunKeeps<V(!new)>(p: Plan, sem: Meaning<V>, env: Env<V>, i: nat)
    requires i < |p.nodes| && env.Keys !! DefinedBy(p, i) && forall u :: u in p.nodes[i].uses ==> u in env
    ensures var r := RunNode(p, sem, env, i);
            r.Some? && Agrees(env, r.value) && Solves(p, sem, {i}, r.value) &&
                r.value.Keys == env.Keys + DefinedBy(p, i)
  {
    var after := RunNode(p, sem, env, i).value;
    assert Args(after, p.nodes[i].uses) == Args(env, p.nodes[i].uses);
  }

  lemma SolvesBoth<V(!new)>(p: Plan, sem: Meaning<V>, nodes: set<nat>, i: nat, env: Env<V>)
    requires Solves(p, sem, nodes, env) && Solves(p, sem, {i}, env)
    ensures Solves(p, sem, nodes + {i}, env)
  {}

  /** Later nodes neither set again nor change what earlier ones read, so the final values solve all equations. */
  lemma {:induction false} RunSolves<V(!new)>(p: Plan, sem: Meaning<V>, order: seq<nat>)
    requires UniqueDefinitions(p) && ProducerOrder(p, {}, order)
    ensures var r := RunNodes(p, sem, map[], order);
            r.Some? && Solves(p, sem, Elements(order), r.value) && r.value.Keys == DefinedIn(p, Elements(order))
  {
    hide RunNode, DefinedIn, Solves;
    if order == [] {
      assert Elements(order) == {};
      SolvesNone(p, sem);
    } else {
      var init, i := order[..|order| - 1], order[|order| - 1];
      ProducerOrderPrefix(p, {}, order);
      assert Elements(order) == Elements(init) + {i};
      RunSolves(p, sem, init);
      var before := RunNodes(p, sem, map[], init).value;
      forall u | u in p.nodes[i].uses
        ensures u in before
      {
        DefinedInHas(p, Elements(init), u);
      }
      assert i !in Elements(init);
      StepSolves(p, sem, Elements(init), before, i);
    }
  }

  lemma SolvesNone<V(!new)>(p: Plan, sem: Meaning<V>)
    ensures Solves(p, sem, {}, map[]) && DefinedIn(p, {}) == {}
  {}

  lemma SolvesMore<V(!new)>(p: Plan, sem: Meaning<V>, nodes: set<nat>, env: Env<V>, more: Env<V>)
    requires Solves(p, sem, nodes, env) && Agrees(env, more)
    ensures Solves(p, sem, nodes, more)
  {
    forall i | i in nodes && i < |p.nodes|
      ensures (forall u :: u in p.nodes[i].uses ==> u in more) &&
              Args(more, p.nodes[i].uses) == Args(env, p.nodes[i].uses)
    {}
  }

  // ---- live-ins and live-outs ----

  function Members(p: Plan, r: nat): set<nat>
    requires |p.memberOf| == |p.nodes|
  {
    set i | 0 <= i < |p.nodes| && r in p.memberOf[i]
  }

  /** A use of a variable: in a flow, inside a region or, with no region, in the flow's own body. */
  datatype Consumer = Consumer(flow: Flow, home: Option<nat>)

  /** Node j, placed as c says, is one of c's flow. */
  ghost predicate Sits(p: Plan, j: nat, c: Consumer)
    requires WellFormed(p)
  {
    j < |p.nodes| && c.flow in p.nodes[j].flows && HomeFor(p, j, c.flow) == c.home
  }

  /** One of the first n nodes reads v at c. */
  ghost predicate NodeReads(p: Plan, n: nat, v: Var, c: Consumer)
    requires WellFormed(p)
  {
    exists j: nat :: j < n && Sits(p, j, c) && v in p.nodes[j].uses
  }

  ghost predicate RootReads(roots: map<Flow, set<Var>>, v: Var, c: Consumer) {
    c.home.None? && c.flow in roots && v in roots[c.flow]
  }

  ghost predicate Reads(p: Plan, roots: map<Flow, set<Var>>, v: Var, c: Consumer)
    requires WellFormed(p)
  {
    NodeReads(p, |p.nodes|, v, c) || RootReads(roots, v, c)
  }

  ghost predicate IsLiveIn(p: Plan, r: nat, u: Var)
    requires WellFormed(p)
  {
    exists m :: m in Members(p, r) && u in p.nodes[m].uses && u in p.definedBy && p.definedBy[u] !in Members(p, r)
  }

  /** d is read outside r in a flow that r serves. */
  ghost predicate IsLiveOut(p: Plan, roots: map<Flow, set<Var>>, r: nat, d: Var)
    requires WellFormed(p) && r < |p.usage|
  {
    && d in DefinedIn(p, Members(p, r))
    && ReadOutside(p, roots, r, d)
  }

  type Consumers = map<Var, set<Consumer>>

  predicate Noted(cs: Consumers, v: Var, c: Consumer) {
    v in cs && c in cs[v]
  }

  function Note(cs: Consumers, v: Var, c: Consumer): (r: Consumers)
    ensures forall x, y :: Noted(r, x, y) <==> Noted(cs, x, y) || (x == v && y == c)
  {
    cs[v := (if v in cs then cs[v] else {}) + {c}]
  }

  /** Notes a use of v in every flow of node j. */
  method NoteFlows(p: Plan, j: nat, v: Var, cs0: Consumers) returns (cs: Consumers)
    requires WellFormed(p) && j < |p.nodes|
    ensures forall x, c :: Noted(cs, x, c) <==> Noted(cs0, x, c) || (x == v && Sits(p, j, c))
  {
    hide Note, HomeFor, Noted;
    cs := cs0;
    var rest := p.nodes[j].flows;
    while rest != {}
      invariant rest <= p.nodes[j].flows
      invariant forall x, c :: Noted(cs, x, c) <==> Noted(cs0, x, c) || (x == v && Sits(p, j, c) && c.flow !in rest)
      decreases rest
    {
      var f :| f in rest;
      rest := rest - {f};
      cs := Note(cs, v, Consumer(f, HomeFor(p, j, f)));
    }
  }

  /** The consumers of every variable: node by node, then the scope roots of every flow. */
  method CollectConsumers(p: Plan, roots: map<Flow, set<Var>>) returns (cs: Consumers)
    requires WellFormed(p)
    ensures forall v, c :: Noted(cs, v, c) <==> Reads(p, roots, v, c)
  {
    hide HomeFor, Noted, Sits;
    cs := map[];
    assert forall v, c :: !Noted(cs, v, c) by { NotedNone(); }
    for n := 0 to |p.nodes|
      invariant forall v, c :: Noted(cs, v, c) <==> NodeReads(p, n, v, c)
    {
      for k := 0 to |p.nodes[n].uses|
        invariant forall v, c :: Noted(cs, v, c) <==>
                    NodeReads(p, n, v, c) || (v in p.nodes[n].uses[..k] && Sits(p, n, c))
      {
        cs := NoteFlows(p, n, p.nodes[n].uses[k], cs);
      }
      forall v, c
        ensures NodeReads(p, n + 1, v, c) <==> NodeReads(p, n, v, c) || (v in p.nodes[n].uses && Sits(p, n, c))
      {
        if NodeReads(p, n, v, c) {
          var j: nat :| j < n && Sits(p, j, c) && v in p.nodes[j].uses;
        }
      }
      assert p.nodes[n].uses[..|p.nodes[n].uses|] == p.nodes[n].uses;
    }
    cs := NoteRoots(roots, cs);
  }

  lemma NotedNone()
    ensures forall v, c :: !Noted(map[], v, c)
  {}

  method NoteRoots(roots: map<Flow, set<Var>>, cs0: Consumers) returns (cs: Consumers)
    ensures forall v, c :: Noted(cs, v, c) <==> Noted(cs0, v, c) || RootReads(roots, v, c)
  {
    hide Note, Noted;
    cs := cs0;
    var flows := roots.Keys;
    while flows != {}
      invariant flows <= roots.Keys
      invariant forall v, c :: Noted(cs, v, c) <==> Noted(cs0, v, c) || (RootReads(roots, v, c) && c.flow !in flows)
      decreases flows
    {
      var f :| f in flows;
      flows := flows - {f};
      var vars := roots[f];
      while vars != {}
        invariant vars <= roots[f]
        invariant forall v, c :: Noted(cs, v, c) <==>
                                 Noted(cs0, v, c) ||
                                     (RootReads(roots, v, c) && c.flow !in flows && !(c.flow == f && v in vars))
        decreases vars
      {
        var v :| v in vars;
        vars := vars - {v};
        cs := Note(cs, v, Consumer(f, None));
      }
    }
  }

  /** A region's parameters: used by a member, defined outside; each once. */
  method LiveIns(p: Plan, r: nat, members: seq<nat>) returns (ins: seq<Var>)
    requires WellFormed(p) && forall i: nat :: i in members <==> i in Members(p, r)
    ensures Distinct(ins) && forall u :: u in ins <==> IsLiveIn(p, r, u)
  {
    ins := [];
    var k := 0;
    while k < |members|
      invariant k <= |members| && Distinct(ins)
      invariant forall u :: u in ins <==> exists m :: m in members[..k] && TakesIn(p, members, m, u)
    {
      var m := members[k];
      assert m in members;
      var uses := p.nodes[m].uses;
      for n := 0 to |uses|
        invariant Distinct(ins)
        invariant forall u :: u in ins <==> (exists m :: m in members[..k] && TakesIn(p, members, m, u)) ||
                                            (u in uses[..n] && TakesIn(p, members, m, u))
      {
        var u := uses[n];
        if u in p.definedBy && p.definedBy[u] !in members && u !in ins {
          ins := ins + [u];
        }
      }
      assert uses[..|uses|] == uses && members[..k + 1] == members[..k] + [m];
      k := k + 1;
    }
    assert members[..k] == members;
    forall u
      ensures u in ins <==> IsLiveIn(p, r, u)
    {}
  }

  ghost predicate TakesIn(p: Plan, members: seq<nat>, m: nat, u: Var) {
    m < |p.nodes| && u in p.nodes[m].uses && u in p.definedBy && p.definedBy[u] !in members
  }

  /** A region's results: defined by a member, read outside it in a flow it serves. */
  method LiveOuts(p: Plan, roots: map<Flow, set<Var>>, r: nat, members: seq<nat>, cs: Consumers)
      returns (outs: seq<Var>)
    requires WellFormed(p) && r < |p.usage| && forall i: nat :: i in members <==> i in Members(p, r)
    requires forall v, c :: Noted(cs, v, c) <==> Reads(p, roots, v, c)
    ensures forall d :: d in outs <==> IsLiveOut(p, roots, r, d)
    ensures UniqueDefinitions(p) && Distinct(members) ==> Distinct(outs)
  {
    hide Reads, UniqueDefinitions, Distinct;
    outs := [];
    assert Distinct(outs) by { NoneTwice(); }
    for k := 0 to |members|
      invariant UniqueDefinitions(p) && Distinct(members) ==> Distinct(outs)
      invariant forall d :: d in outs <==>
                  && ReadOutside(p, roots, r, d)
                  && exists m :: m in members[..k] && m < |p.nodes| && d in p.nodes[m].defines
    {
      var m := members[k];
      assert m in members;
      var ds := p.nodes[m].defines;
      for n := 0 to |ds|
        invariant UniqueDefinitions(p) && Distinct(members) ==> Distinct(outs)
        invariant forall d :: d in outs <==>
                              ReadOutside(p, roots, r, d) &&
                              ((exists m :: m in members[..k] && m < |p.nodes| && d in p.nodes[m].defines) ||
                               d in ds[..n])
      {
        var d := ds[n];
        var escapes := d in cs && exists c | c in cs[d] :: c.flow in p.usage[r] && c.home != Some(r);
        assert escapes <==> ReadOutside(p, roots, r, d) by {
          if ReadOutside(p, roots, r, d) {
            var c :| Reads(p, roots, d, c) && c.flow in p.usage[r] && c.home != Some(r);
            assert Noted(cs, d, c);
          }
          if escapes {
            var c :| c in cs[d] && c.flow in p.usage[r] && c.home != Some(r);
            assert Noted(cs, d, c);
          }
        }
        if UniqueDefinitions(p) && Distinct(members) { DefinedOnce(p, members, k, n, outs); }
        if escapes { outs := outs + [d]; }
      }
      assert ds[..|ds|] == ds && members[..k + 1] == members[..k] + [m];
    }
    assert members[..|members|] == members;
  }

  lemma NoneTwice()
    ensures Distinct<Var>([])
  {}

  /** With unique definitions the next result is a new one. */
  lemma DefinedOnce(p: Plan, members: seq<nat>, k: nat, n: nat, outs: seq<Var>)
    requires UniqueDefinitions(p) && Distinct(members) && k < |members| && members[k] < |p.nodes| && Distinct(outs)
    requires n < |p.nodes[members[k]].defines|
    requires forall d :: d in outs ==> (exists m :: m in members[..k] && m < |p.nodes| && d in p.nodes[m].defines) ||
                                       d in p.nodes[members[k]].defines[..n]
    ensures Distinct(outs + [p.nodes[members[k]].defines[n]])
  {
    var ds := p.nodes[members[k]].defines;
    assert Distinct(ds) && ds[n] in ds;
    assert ds[n] !in ds[..n];
    assert p.definedBy[ds[n]] == members[k];
    assert forall x: nat :: x < |p.nodes| && ds[n] in p.nodes[x].defines ==> p.definedBy[ds[n]] == x;
    forall m | m in members[..k] && m < |p.nodes|
      ensures ds[n] !in p.nodes[m].defines
    {
      var i: nat :| i < k && members[..k][i] == m;
      assert members[i] != members[k];
    }
  }

  ghost predicate ReadOutside(p: Plan, roots: map<Flow, set<Var>>, r: nat, d: Var)
    requires WellFormed(p) && r < |p.usage|
  {
    exists c :: Reads(p, roots, d, c) && c.flow in p.usage[r] && c.home != Some(r)
  }

  // ---- outlining preserves values ----

  ghost function FlowNodes(p: Plan, f: Flow): set<nat> {
    set i | 0 <= i < |p.nodes| && InFlow(p, f, i)
  }

  /** The functions emitted for the regions of flow f: live-ins, live-outs, and the members in producer order. */
  ghost predicate Outlined(p: Plan, roots: map<Flow, set<Var>>, f: Flow, fns: map<nat, Function>)
    requires WellFormed(p)
  {
    && Bodies(p, fns)
    && forall r: nat :: Region(r) in Units(p, f) ==>
                          && r in fns && r < |p.usage|
                          && (forall u :: u in fns[r].ins <==> IsLiveIn(p, r, u))
                          && (forall d :: d in fns[r].outs <==> IsLiveOut(p, roots, r, d))
                          && ProducerOrder(p, fns[r].ins, fns[r].body) && Elements(fns[r].body) == Members(p, r)
  }

  /** What a flow's own body may read: variables of inline nodes, and live-outs of regions. */
  ghost predicate Offered(p: Plan, roots: map<Flow, set<Var>>, u: Unit, v: Var)
    requires WellFormed(p)
  {
    match u
    case Inline(i) => i < |p.nodes| && v in p.nodes[i].defines
    case Region(r) => r < |p.usage| && IsLiveOut(p, roots, r, v)
  }

  lemma MembersOf(p: Plan, f: Flow, r: nat, i: nat)
    requires OneHome(p) && DemandClosed(p, f) && Region(r) in Units(p, f)
    ensures r < |p.usage| && f in p.usage[r]
    ensures i in Members(p, r) <==> In(p, f, Region(r), i)
  {
    var j: nat :| j < |p.nodes| && InFlow(p, f, j) && UnitOf(p, f, j) == Region(r);
    assert HomeFor(p, j, f) == Some(r);
    if i in Members(p, r) {
      assert Apart(p.usage, p.memberOf[i]);
      ServedBy(p.usage, p.memberOf[i], r, f);
    }
  }

  lemma {:induction false} ServedBy(usage: seq<set<Flow>>, rs: seq<nat>, r: nat, f: Flow)
    requires Apart(usage, rs) && r in rs && f in usage[r]
    ensures FirstServing(usage, rs, f) == Some(r)
  {
    if rs[0] != r {
      assert r in rs[1..];
      ServedBy(usage, rs[1..], r, f);
      var k :| 0 < k < |rs| && rs[k] == r;
    }
  }

  /** A value used in unit u and defined in another unit is offered by that unit. */
  lemma ProducerOffers(p: Plan, roots: map<Flow, set<Var>>, f: Flow, i: nat, v: Var)
    requires OneHome(p) && UniqueDefinitions(p) && DemandClosed(p, f) && InFlow(p, f, i) && v in p.nodes[i].uses
    requires UnitOf(p, f, p.definedBy[v]) != UnitOf(p, f, i)
    ensures InFlow(p, f, p.definedBy[v]) && Offered(p, roots, UnitOf(p, f, p.definedBy[v]), v)
    ensures TakesFrom(p, f, UnitOf(p, f, i), UnitOf(p, f, p.definedBy[v]))
  {
    var j := p.definedBy[v];
    assert UsesNode(p, i, j);
    var d := UnitOf(p, f, j);
    assert In(p, f, UnitOf(p, f, i), i);
    if d.Region? {
      assert d in Units(p, f);
      MembersOf(p, f, d.r, j);
      var c := Consumer(f, HomeFor(p, i, f));
      assert Sits(p, i, c);
      assert NodeReads(p, |p.nodes|, v, c);
      assert v in DefinedIn(p, Members(p, d.r));
    }
  }

  /** What the steps before k offer is set when step k runs. */
  ghost predicate Delivered<V>(p: Plan, roots: map<Flow, set<Var>>, steps: seq<Unit>, env: Env<V>)
    requires WellFormed(p)
  {
    forall u, v :: u in steps && Offered(p, roots, u, v) ==> v in env
  }

  lemma UnitRuns<V(!new)>(p: Plan, sem: Meaning<V>, roots: map<Flow, set<Var>>, f: Flow, fns: map<nat, Function>,
                          before: seq<Unit>, u: Unit, env: Env<V>, e: Env<V>)
    requires OneHome(p) && UniqueDefinitions(p) && DemandClosed(p, f) && Outlined(p, roots, f, fns)
    requires u in Units(p, f) && forall d :: d in Units(p, f) && TakesFrom(p, f, u, d) ==> d in before
    requires Solves(p, sem, FlowNodes(p, f), e) && Agrees(env, e) && Delivered(p, roots, before, env)
    ensures var r := RunUnit(p, sem, fns, env, u);
            && r.Some? && Agrees(r.value, e) && env.Keys <= r.value.Keys
            && forall v :: Offered(p, roots, u, v) ==> v in r.value
  {
    hide Units, RunNode, RunNodes, TakesFrom, Solves, Offered, OneHome, UniqueDefinitions, DemandClosed;
    match u {
      case Inline(i) => InlineRuns(p, sem, roots, f, before, i, env, e);
      case Region(r) => RegionRuns(p, sem, roots, f, fns, before, r, env, e);
    }
  }

  lemma InlineRuns<V(!new)>(p: Plan, sem: Meaning<V>, roots: map<Flow, set<Var>>, f: Flow, before: seq<Unit>, i: nat,
                            env: Env<V>, e: Env<V>)
    requires OneHome(p) && UniqueDefinitions(p) && DemandClosed(p, f)
    requires Inline(i) in Units(p, f) && forall d :: d in Units(p, f) && TakesFrom(p, f, Inline(i), d) ==> d in before
    requires Solves(p, sem, FlowNodes(p, f), e) && Agrees(env, e) && Delivered(p, roots, before, env)
    ensures i < |p.nodes|
    ensures var r := RunNode(p, sem, env, i);
            && r.Some? && Agrees(r.value, e) && env.Keys <= r.value.Keys
            && forall v :: Offered(p, roots, Inline(i), v) ==> v in r.value
  {
    InlineInFlow(p, f, i);
    forall v | v in p.nodes[i].uses
      ensures v in env
    {
      InlineApart(p, f, i, p.definedBy[v]);
      ProducerOffers(p, roots, f, i, v);
    }
    SolvesOne(p, sem, FlowNodes(p, f), i, e);
    StepAgrees(p, sem, env, i, e);
  }

  lemma InlineInFlow(p: Plan, f: Flow, i: nat)
    requires WellFormed(p) && Inline(i) in Units(p, f)
    ensures InFlow(p, f, i) && UnitOf(p, f, i) == Inline(i) && i in FlowNodes(p, f)
  {}

  lemma InlineApart(p: Plan, f: Flow, i: nat, j: nat)
    requires WellFormed(p) && i < |p.nodes| && j < |p.nodes| && i != j && UnitOf(p, f, i) == Inline(i)
    ensures UnitOf(p, f, j) != Inline(i)
  {}

  lemma SolvesOne<V(!new)>(p: Plan, sem: Meaning<V>, nodes: set<nat>, i: nat, e: Env<V>)
    requires Solves(p, sem, nodes, e) && i in nodes
    ensures Solves(p, sem, {i}, e)
  {}

  lemma SolvesSome<V(!new)>(p: Plan, sem: Meaning<V>, nodes: set<nat>, some: set<nat>, e: Env<V>)
    requires Solves(p, sem, nodes, e) && some <= nodes
    ensures Solves(p, sem, some, e)
  {}

  /** The body of a region's function, run on its live-ins, gives its members' variables the inline values. */
  lemma BodyRuns<V(!new)>(p: Plan, sem: Meaning<V>, roots: map<Flow, set<Var>>, f: Flow, fns: map<nat, Function>,
                          before: seq<Unit>, r: nat, env: Env<V>, e: Env<V>)
    requires OneHome(p) && UniqueDefinitions(p) && DemandClosed(p, f) && Outlined(p, roots, f, fns)
    requires Region(r) in Units(p, f) && forall d :: d in Units(p, f) && TakesFrom(p, f, Region(r), d) ==> d in before
    requires Solves(p, sem, FlowNodes(p, f), e) && Agrees(env, e) && Delivered(p, roots, before, env)
    ensures r in fns && fns[r].ins <= env.Keys
    ensures var x := RunNodes(p, sem, Restrict(env, fns[r].ins), fns[r].body);
            x.Some? && Agrees(x.value, e) && x.value.Keys == fns[r].ins + DefinedIn(p, Elements(fns[r].body))
  {
    hide Units, RunNode, RunNodes, TakesFrom, DefinedIn, DemandClosed;
    var fn := fns[r];
    forall u | u in fn.ins
      ensures u in env
    {
      InsDelivered(p, roots, f, before, r, u, env);
    }
    forall i | i in Members(p, r)
      ensures i in FlowNodes(p, f)
    {
      MembersOf(p, f, r, i);
    }
    SolvesSome(p, sem, FlowNodes(p, f), Elements(fn.body), e);
    var given := Restrict(env, fn.ins);
    assert given.Keys == fn.ins;
    RunAgrees(p, sem, given, fn.body, e);
  }

  lemma RegionRuns<V(!new)>(p: Plan, sem: Meaning<V>, roots: map<Flow, set<Var>>, f: Flow, fns: map<nat, Function>,
                            before: seq<Unit>, r: nat, env: Env<V>, e: Env<V>)
    requires OneHome(p) && UniqueDefinitions(p) && DemandClosed(p, f) && Outlined(p, roots, f, fns)
    requires Region(r) in Units(p, f) && forall d :: d in Units(p, f) && TakesFrom(p, f, Region(r), d) ==> d in before
    requires Solves(p, sem, FlowNodes(p, f), e) && Agrees(env, e) && Delivered(p, roots, before, env)
    ensures r in fns
    ensures var x := RunFunction(p, sem, env, fns[r]);
            && x.Some? && Agrees(x.value, e) && env.Keys <= x.value.Keys
            && forall v :: Offered(p, roots, Region(r), v) ==> v in x.value
  {
    BodyRuns(p, sem, roots, f, fns, before, r, env, e);
    OutsDefined(p, roots, f, fns, r);
    assert Bodies(p, fns);
    hide Units, RunNodes, TakesFrom, DemandClosed, UniqueDefinitions, OneHome, Solves, Delivered, Outlined, Offered,
         DefinedIn;
  }

  lemma OutsDefined(p: Plan, roots: map<Flow, set<Var>>, f: Flow, fns: map<nat, Function>, r: nat)
    requires WellFormed(p) && Outlined(p, roots, f, fns) && Region(r) in Units(p, f)
    ensures r in fns && fns[r].outs <= DefinedIn(p, Elements(fns[r].body))
    ensures forall v :: Offered(p, roots, Region(r), v) ==> v in fns[r].outs
  {
    hide Units, DefinedIn, ReadOutside;
  }

  lemma InsDelivered<V>(p: Plan, roots: map<Flow, set<Var>>, f: Flow, before: seq<Unit>, r: nat, u: Var, env: Env<V>)
    requires OneHome(p) && UniqueDefinitions(p) && DemandClosed(p, f) && IsLiveIn(p, r, u)
    requires Region(r) in Units(p, f) && forall d :: d in Units(p, f) && TakesFrom(p, f, Region(r), d) ==> d in before
    requires Delivered(p, roots, before, env)
    ensures u in env
  {
    var m :| m in Members(p, r) && u in p.nodes[m].uses && u in p.definedBy && p.definedBy[u] !in Members(p, r);
    MembersOf(p, f, r, m);
    var j := p.definedBy[u];
    MembersOf(p, f, r, j);
    assert UsesNode(p, m, j) && InFlow(p, f, j);
    ProducerOffers(p, roots, f, m, u);
  }

  /** Along the steps, everything set in the flow's body agrees with the inline run, and nothing read is missing. */
  lemma {:induction false} StepsAgree<V(!new)>(p: Plan, sem: Meaning<V>, roots: map<Flow, set<Var>>, f: Flow,
                                               fns: map<nat, Function>, steps: seq<Unit>, k: nat, e: Env<V>)
    requires OneHome(p) && UniqueDefinitions(p) && DemandClosed(p, f) && Outlined(p, roots, f, fns)
    requires Schedule(p, f, steps) && k <= |steps| && Solves(p, sem, FlowNodes(p, f), e)
    ensures var r := RunSteps(p, sem, fns, steps[..k]);
            r.Some? && Agrees(r.value, e) && Delivered(p, roots, steps[..k], r.value)
  {
    assert WellFormed(p) && Bodies(p, fns);
    hide Units, UnitGraph, RunUnit, Solves, Offered, OneHome, UniqueDefinitions, DemandClosed, Outlined, Agrees;
    if k == 0 {
      AgreesNone(e);
    } else {
      StepsAgree(p, sem, roots, f, fns, steps, k - 1, e);
      var init := steps[..k - 1];
      assert steps[..k] == init + [steps[k - 1]] && steps[..k][..k - 1] == init;
      StepAfter(p, f, steps, k - 1);
      UnitRuns(p, sem, roots, f, fns, init, steps[k - 1], RunSteps(p, sem, fns, init).value, e);
    }
  }

  lemma AgreesNone<V>(e: Env<V>)
    ensures Agrees(map[], e)
  {}

  lemma StepAfter(p: Plan, f: Flow, steps: seq<Unit>, k: nat)
    requires WellFormed(p) && Schedule(p, f, steps) && k < |steps|
    ensures steps[k] in Units(p, f)
    ensures forall d :: d in Units(p, f) && TakesFrom(p, f, steps[k], d) ==> d in steps[..k]
  {
    assert steps[k] in Elements(steps);
    forall d | d in Units(p, f) && TakesFrom(p, f, steps[k], d)
      ensures d in steps[..k]
    {
      UnitEdge(p, f, steps[k], d);
      assert d in Elements(steps[..k]);
    }
  }

  /** Outlining preserves values: for every order in which the flow's nodes could have run inline, running the planned
      steps succeeds, every variable it sets has the inline value, and every scope root is set. */
  lemma OutliningPreserves<V(!new)>(p: Plan, sem: Meaning<V>, roots: map<Flow, set<Var>>, f: Flow,
                                    fns: map<nat, Function>, steps: seq<Unit>, inline: seq<nat>)
    requires OneHome(p) && UniqueDefinitions(p) && DemandClosed(p, f) && Outlined(p, roots, f, fns)
    requires Complete(p, f, steps)
    requires ProducerOrder(p, {}, inline) && Elements(inline) == FlowNodes(p, f)
    ensures var run, plain := RunSteps(p, sem, fns, steps), RunNodes(p, sem, map[], inline);
            && run.Some? && plain.Some? && Agrees(run.value, plain.value)
            && (forall v :: f in roots && v in roots[f] && v in p.definedBy && InFlow(p, f, p.definedBy[v]) ==>
                              v in run.value && v in plain.value && run.value[v] == plain.value[v])
  {
    assert Bodies(p, fns);
    hide RunSteps, RunNodes, Solves, Outlined, UnitGraph;
    RunSolves(p, sem, inline);
    var plain := RunNodes(p, sem, map[], inline).value;
    StepsAgree(p, sem, roots, f, fns, steps, |steps|, plain);
    assert steps[..|steps|] == steps;
    var run := RunSteps(p, sem, fns, steps).value;
    forall v | f in roots && v in roots[f] && v in p.definedBy && InFlow(p, f, p.definedBy[v])
      ensures v in run
    {
      RootOffered(p, roots, f, v);
      assert UnitOf(p, f, p.definedBy[v]) in Elements(steps);
    }
  }

  /** When a region's function runs, its body gives every variable that a member defines the inline value, so a root
      expression that the region assembles from them has its inline value. */
  lemma AssemblyPreserves<V(!new)>(p: Plan, sem: Meaning<V>, roots: map<Flow, set<Var>>, f: Flow,
                                   fns: map<nat, Function>, steps: seq<Unit>, inline: seq<nat>, k: nat, r: nat)
    requires OneHome(p) && UniqueDefinitions(p) && DemandClosed(p, f) && Outlined(p, roots, f, fns)
    requires Complete(p, f, steps) && k < |steps| && steps[k] == Region(r)
    requires ProducerOrder(p, {}, inline) && Elements(inline) == FlowNodes(p, f)
    ensures var env, plain := RunSteps(p, sem, fns, steps[..k]), RunNodes(p, sem, map[], inline);
            && env.Some? && plain.Some? && r in fns
            && var local := RunNodes(p, sem, Restrict(env.value, fns[r].ins), fns[r].body);
               && local.Some?
               && forall v :: v in p.definedBy && p.definedBy[v] in Members(p, r) ==>
                                v in local.value && v in plain.value && local.value[v] == plain.value[v]
  {
    assert Bodies(p, fns);
    hide RunSteps, RunNodes, Solves, UnitGraph;
    RunSolves(p, sem, inline);
    var plain := RunNodes(p, sem, map[], inline).value;
    StepsAgree(p, sem, roots, f, fns, steps, k, plain);
    StepAfter(p, f, steps, k);
    var env := RunSteps(p, sem, fns, steps[..k]).value;
    BodyRuns(p, sem, roots, f, fns, steps[..k], r, env, plain);
    forall v | v in p.definedBy && p.definedBy[v] in Members(p, r)
      ensures v in DefinedIn(p, Elements(fns[r].body))
    {
      hide ProducerOrder, DemandClosed, OneHome, Complete;
      DefinedInHas(p, Elements(fns[r].body), v);
    }
  }

  lemma RootOffered(p: Plan, roots: map<Flow, set<Var>>, f: Flow, v: Var)
    requires OneHome(p) && UniqueDefinitions(p) && DemandClosed(p, f) && f in roots && v in roots[f]
    requires v in p.definedBy && InFlow(p, f, p.definedBy[v])
    ensures Offered(p, roots, UnitOf(p, f, p.definedBy[v]), v)
  {
    var j := p.definedBy[v];
    var d := UnitOf(p, f, j);
    if d.Region? {
      assert d in Units(p, f);
      MembersOf(p, f, d.r, j);
      assert RootReads(roots, v, Consumer(f, None));
      assert Reads(p, roots, v, Consumer(f, None));
      assert v in DefinedIn(p, Members(p, d.r));
    }
  }
}
