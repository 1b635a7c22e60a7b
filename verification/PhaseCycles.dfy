/**
 Phase validation of gen/validate.go: within one phase of one flow, a
 three-colour depth-first search looks for a dependency cycle and reports it as
 a chain of nodes that ends where it starts.
 */
module PhaseCycles {
  import opened Basics
  import opened Graphs
  import opened Sorting
  import opened GenNodes

  /** Node i is the last one to define v. */
  ghost predicate Owns(nodes: seq<Node>, v: Var, i: nat) {
    i < |nodes| && v in nodes[i].defines && forall j :: i < j < |nodes| ==> v !in nodes[j].defines
  }

  /** Node i uses a variable that another node, j, owns. */
  ghost predicate DependsOn(nodes: seq<Node>, i: nat, j: nat) {
    i < |nodes| && j != i && exists v :: v in nodes[i].uses && Owns(nodes, v, j)
  }

  method Owners(nodes: seq<Node>) returns (owner: map<Var, nat>)
    ensures forall v, j: nat :: (v in owner && owner[v] == j) <==> Owns(nodes, v, j)
  {
    owner := map[];
    for i := 0 to |nodes|
      invariant forall v, j: nat :: (v in owner && owner[v] == j) <==> Owns(nodes[..i], v, j)
    {
      ghost var before := owner;
      owner := owner + map v | v in nodes[i].defines :: i;
      forall v, j: nat {:trigger Owns(nodes[..i + 1], v, j)}
        ensures (v in owner && owner[v] == j) <==> Owns(nodes[..i + 1], v, j)
      {
        assert nodes[..i + 1] == nodes[..i] + [nodes[i]];
        assert Owns(nodes[..i + 1], v, j) <==> if v in nodes[i].defines then j == i else Owns(nodes[..i], v, j);
      }
    }
    assert nodes[..|nodes|] == nodes;
  }

  ghost predicate DependencyLists(nodes: seq<Node>, deps: seq<seq<nat>>) {
    |deps| == |nodes| && forall i: nat, j: nat :: i < |nodes| ==> (j in deps[i] <==> DependsOn(nodes, i, j))
  }

  method Dependencies(nodes: seq<Node>) returns (deps: seq<seq<nat>>)
    ensures DependencyLists(nodes, deps) && InRange(deps)
  {
    var owner := Owners(nodes);
    deps := [];
    for i := 0 to |nodes|
      invariant |deps| == i
      invariant forall a: nat, j: nat :: a < i ==> (j in deps[a] <==> DependsOn(nodes, a, j))
    {
      var ds: seq<nat> := [];
      for k := 0 to |nodes[i].uses|
        invariant forall j: nat :: j in ds <==> j != i && exists m :: 0 <= m < k && Owns(nodes, nodes[i].uses[m], j)
      {
        var u := nodes[i].uses[k];
        ghost var before := ds;
        if u in owner && owner[u] != i { ds := ds + [owner[u]]; }
        forall j: nat
          ensures j in ds <==> j != i && exists m :: 0 <= m < k + 1 && Owns(nodes, nodes[i].uses[m], j)
        {
          assert j in ds <==> j in before || (j != i && Owns(nodes, u, j));
        }
      }
      forall j: nat
        ensures j in ds <==> DependsOn(nodes, i, j)
      {
        if DependsOn(nodes, i, j) {
          var v :| v in nodes[i].uses && Owns(nodes, v, j);
          var m :| 0 <= m < |nodes[i].uses| && nodes[i].uses[m] == v;
        }
      }
      deps := deps + [ds];
    }
    forall i, k | 0 <= i < |deps| && 0 <= k < |deps[i]|
      ensures deps[i][k] < |deps|
    {
      assert deps[i][k] in deps[i];
    }
  }

  // ---- the search ----

  ghost predicate InRange(deps: seq<seq<nat>>) {
    forall i, k :: 0 <= i < |deps| && 0 <= k < |deps[i]| ==> deps[i][k] < |deps|
  }

  function GraphOf(deps: seq<seq<nat>>): Graph<nat> {
    map i: nat | i < |deps| :: set j | j in deps[i]
  }

  /** A closed walk without repetition: it starts and ends at one node and every step is an edge. */
  ghost predicate IsCycle(g: Graph<nat>, c: seq<nat>) {
    |c| > 1 && IsPath(g, c, c[0], c[0]) && Distinct(c[1..])
  }

  lemma CycleOnCycle(g: Graph<nat>, c: seq<nat>)
    requires IsCycle(g, c)
    ensures OnCycle(g, c[0]) && !Acyclic(g)
  {
    assert IsPath(g, c[1..], c[1], c[0]);
    assert c[0 + 1] in Succ(g, c[0]);
  }

  datatype Color = White | Gray | Black

  ghost function Nodes(color: seq<Color>, c: Color): set<nat> {
    set i: nat | i < |color| && color[i] == c
  }

  /** The grey nodes are the chain, a path; the black nodes lead only to black ones and hold no cycle. */
  ghost predicate Searching(deps: seq<seq<nat>>, color: seq<Color>, chain: seq<nat>) {
    && InRange(deps) && |color| == |deps| && Distinct(chain)
    && (forall i: nat :: i in chain <==> i < |color| && color[i] == Gray)
    && (chain != [] ==> IsPath(GraphOf(deps), chain, chain[0], chain[|chain| - 1]))
    && Closed(GraphOf(deps), Nodes(color, Black))
    && NoCycleIn(GraphOf(deps), Nodes(color, Black))
  }

  /** The chain is empty or its last node depends on i. */
  ghost predicate Leads(deps: seq<seq<nat>>, chain: seq<nat>, i: nat) {
    chain == [] || (chain[|chain| - 1] < |deps| && i in deps[chain[|chain| - 1]])
  }

  ghost predicate NoCycleIn(g: Graph<nat>, black: set<nat>) {
    forall s: set<nat> {:trigger HasMinimal(g, s)} :: s != {} && s <= black ==> HasMinimal(g, s)
  }

  lemma BlackGrows(g: Graph<nat>, black: set<nat>, i: nat)
    requires Closed(g, black) && NoCycleIn(g, black) && i !in black && Succ(g, i) <= black
    ensures Closed(g, black + {i}) && NoCycleIn(g, black + {i})
  {
    forall s: set<nat> {:trigger HasMinimal(g, s)} | s != {} && s <= black + {i}
      ensures HasMinimal(g, s)
    {
      if s == {i} {
        assert Minimal(g, s, i);
      } else {
        var t := s - {i};
        assert HasMinimal(g, t);
        var m :| m in t && Minimal(g, t, m);
        assert Minimal(g, s, m);
      }
    }
  }

  lemma AllBlack(deps: seq<seq<nat>>, color: seq<Color>)
    requires Searching(deps, color, []) && forall i: nat :: i < |color| ==> i in Nodes(color, Black)
    ensures Acyclic(GraphOf(deps))
  {
    var g := GraphOf(deps);
    forall s: set<nat> {:trigger HasMinimal(g, s)} | s != {}
      ensures HasMinimal(g, s)
    {
      if s <= Nodes(color, Black) {
      } else {
        var m :| m in s && m !in Nodes(color, Black);
        assert Minimal(g, s, m);
      }
    }
    WellFoundedIffAcyclic(g);
  }

  predicate IntLeq(a: int, b: int) { a <= b }

  class Search {
    const deps: seq<seq<nat>>
    var color: seq<Color>
    var chain: seq<nat>
    var cycle: seq<nat>

    constructor (deps: seq<seq<nat>>)
      requires InRange(deps)
      ensures this.deps == deps && Searching(deps, color, chain) && chain == [] && cycle == []
      ensures forall i :: 0 <= i < |deps| ==> color[i] == White
    {
      this.deps := deps;
      color := seq(|deps|, i => White);
      chain := [];
      cycle := [];
      new;
      assert Nodes(color, Black) == {};
    }

    /** Searches from a white node. It finds a cycle, or blackens the node and everything it leads to and leaves the
        chain as it was. */
    method Visit(i: nat) returns (found: bool)
      requires Searching(deps, color, chain) && i < |deps| && color[i] == White && cycle == []
      requires Leads(deps, chain, i)
      modifies this
      ensures found ==> IsCycle(GraphOf(deps), cycle)
      ensures !found ==> Searching(deps, color, chain) && chain == old(chain) && cycle == []
      ensures !found ==> color[i] == Black && Nodes(color, White) < old(Nodes(color, White))
      ensures !found ==> old(Nodes(color, Black)) <= Nodes(color, Black)
      decreases Nodes(color, White)
    {
      hide NoCycleIn, Closed, Distinct;
      color := color[i := Gray];
      chain := chain + [i];
      GreyExtends(deps, old(color), old(chain), i);
      var sorted := Ascending(deps[i]);
      for k := 0 to |sorted|
        invariant Searching(deps, color, chain) && chain == old(chain) + [i] && cycle == []
        invariant Nodes(color, White) < old(Nodes(color, White))
        invariant old(Nodes(color, Black)) <= Nodes(color, Black)
        invariant forall m :: 0 <= m < k ==> sorted[m] in Nodes(color, Black)
      {
        var j := sorted[k];
        InAscending(deps, i, k);
        if color[j] == Gray {
          var start := IndexOf(chain, j);
          cycle := chain[start..] + [j];
          ChainCloses(deps, chain, start, j);
          return true;
        }
        if color[j] == White {
          var deeper := Visit(j);
          if deeper { return true; }
        }
      }
      ghost var grey := color;
      chain := chain[..|chain| - 1];
      color := color[i := Black];
      assert chain == old(chain);
      BlackExtends(deps, grey, old(chain), i, sorted);
      found := false;
    }

    method Run() returns (found: bool)
      requires Searching(deps, color, chain) && chain == [] && cycle == []
      modifies this
      ensures found <==> !Acyclic(GraphOf(deps))
      ensures if found then IsCycle(GraphOf(deps), cycle) else cycle == []
    {
      hide NoCycleIn, Closed;
      for i := 0 to |deps|
        invariant Searching(deps, color, chain) && chain == [] && cycle == []
        invariant forall a: nat :: a < i ==> a in Nodes(color, Black)
      {
        if color[i] == White {
          var hit := Visit(i);
          if hit {
            CycleOnCycle(GraphOf(deps), cycle);
            return true;
          }
        } else {
          assert i !in chain;
        }
      }
      AllBlack(deps, color);
      found := false;
    }
  }

  method IndexOf(s: seq<nat>, x: nat) returns (k: nat)
    requires x in s
    ensures k < |s| && s[k] == x
  {
    k := 0;
    while s[k] != x
      invariant k < |s| && x in s[k..]
      decreases |s| - k
    {
      k := k + 1;
    }
  }

  function Ascending(ds: seq<nat>): (r: seq<nat>)
    ensures forall j :: j in r <==> j in ds
  {
    var r := Sort<nat>(ds, IntLeq);
    assert forall j :: j in r <==> j in ds by {
      forall j
        ensures j in r <==> j in ds
      {
        InMultiset(r, ds, j);
      }
    }
    r
  }

  lemma InAscending(deps: seq<seq<nat>>, i: nat, k: nat)
    requires InRange(deps) && i < |deps| && k < |Ascending(deps[i])|
    ensures Ascending(deps[i])[k] < |deps| && Ascending(deps[i])[k] in deps[i]
  {
    var j := Ascending(deps[i])[k];
    assert j in deps[i];
  }

  lemma GreyExtends(deps: seq<seq<nat>>, color: seq<Color>, chain: seq<nat>, i: nat)
    requires Searching(deps, color, chain) && i < |deps| && color[i] == White
    requires Leads(deps, chain, i)
    ensures Searching(deps, color[i := Gray], chain + [i])
    ensures Nodes(color[i := Gray], White) < Nodes(color, White)
    ensures Nodes(color[i := Gray], Black) == Nodes(color, Black)
  {
    hide NoCycleIn, Closed, Distinct;
    assert i in Nodes(color, White);
    assert Nodes(color[i := Gray], Black) == Nodes(color, Black);
    assert i !in chain;
    assert Distinct(chain + [i]) by { DistinctMore(chain, i); }
    var c := chain + [i];
    forall a, b | 0 <= a < |c| && b == a + 1 && b < |c|
      ensures c[b] in Succ(GraphOf(deps), c[a])
    {
      if b < |chain| { assert chain[b] in Succ(GraphOf(deps), chain[a]); }
    }
    assert IsPath(GraphOf(deps), c, c[0], i);
  }

  lemma DistinctMore(chain: seq<nat>, i: nat)
    requires Distinct(chain) && i !in chain
    ensures Distinct(chain + [i])
  {}

  lemma BlackExtends(deps: seq<seq<nat>>, color: seq<Color>, chain: seq<nat>, i: nat, sorted: seq<nat>)
    requires Searching(deps, color, chain + [i]) && i < |deps| && sorted == Ascending(deps[i])
    requires forall m :: 0 <= m < |sorted| ==> sorted[m] in Nodes(color, Black)
    ensures Searching(deps, color[i := Black], chain)
    ensures Nodes(color[i := Black], White) == Nodes(color, White)
    ensures Nodes(color[i := Black], Black) == Nodes(color, Black) + {i}
  {
    hide NoCycleIn, Closed;
    assert (chain + [i])[|chain|] == i && i in chain + [i];
    assert Nodes(color[i := Black], Black) == Nodes(color, Black) + {i};
    assert Succ(GraphOf(deps), i) <= Nodes(color, Black) by {
      forall j | j in deps[i]
        ensures j in Nodes(color, Black)
      {
        assert j in sorted;
      }
    }
    BlackGrows(GraphOf(deps), Nodes(color, Black), i);
    forall a: nat
      ensures a in chain <==> a in chain + [i] && a != i
    {
      if a in chain {
        var k :| 0 <= k < |chain| && chain[k] == a;
        assert (chain + [i])[k] == a;
      }
    }
    forall a, b | 0 <= a < b < |chain|
      ensures chain[a] != chain[b]
    {
      assert (chain + [i])[a] != (chain + [i])[b];
    }
    if chain != [] {
      var c := chain + [i];
      assert forall a :: 0 <= a < |chain| ==> chain[a] == c[a];
      assert IsPath(GraphOf(deps), chain, chain[0], chain[|chain| - 1]);
    }
  }

  lemma ChainCloses(deps: seq<seq<nat>>, chain: seq<nat>, start: nat, j: nat)
    requires chain != [] && IsPath(GraphOf(deps), chain, chain[0], chain[|chain| - 1]) && Distinct(chain)
    requires chain[|chain| - 1] < |deps| && j in deps[chain[|chain| - 1]]
    requires start < |chain| && chain[start] == j
    ensures IsCycle(GraphOf(deps), chain[start..] + [j])
  {
    var g := GraphOf(deps);
    var c := chain[start..] + [j];
    forall a, b | 0 <= a < |c| && b == a + 1 && b < |c|
      ensures c[b] in Succ(g, c[a])
    {
      assert c[a] == chain[start + a];
      if b < |c| - 1 { assert chain[start + a + 1] == c[b]; }
    }
    forall a, b | 0 <= a < b < |c[1..]|
      ensures c[1..][a] != c[1..][b]
    {
      assert c[1..][a] == chain[start + 1 + a];
      assert c[1..][b] == if b == |c| - 2 then chain[start] else chain[start + 1 + b];
    }
  }

  // ---- one phase, and all of them ----

  ghost function PhaseGraph(nodes: seq<Node>): Graph<nat> {
    map i: nat {:trigger nodes[i]} | i < |nodes| :: set j: nat | j < |nodes| && DependsOn(nodes, i, j)
  }

  lemma DepsGraph(nodes: seq<Node>, deps: seq<seq<nat>>)
    requires DependencyLists(nodes, deps) && InRange(deps)
    ensures GraphOf(deps) == PhaseGraph(nodes)
  {
    forall i: nat | i < |nodes|
      ensures GraphOf(deps)[i] == PhaseGraph(nodes)[i]
    {
      forall j: nat
        ensures j in GraphOf(deps)[i] <==> j in PhaseGraph(nodes)[i]
      {
        assert j in deps[i] <==> DependsOn(nodes, i, j);
      }
    }
  }

  /** The cycle of one phase, if it has one. */
  method PhaseCycle(nodes: seq<Node>) returns (cycle: seq<nat>)
    ensures cycle == [] <==> Acyclic(PhaseGraph(nodes))
    ensures cycle != [] ==> IsCycle(PhaseGraph(nodes), cycle)
  {
    if |nodes| < 2 {
      FewNodes(nodes);
      return [];
    }
    var deps := Dependencies(nodes);
    DepsGraph(nodes, deps);
    var search := new Search(deps);
    var found := search.Run();
    cycle := search.cycle;
  }

  lemma FewNodes(nodes: seq<Node>)
    requires |nodes| < 2
    ensures Acyclic(PhaseGraph(nodes))
  {
    var g := PhaseGraph(nodes);
    forall a: nat
      ensures Succ(g, a) == {}
    {
      assert forall j :: j in Succ(g, a) ==> a < |nodes| && j < |nodes| && DependsOn(nodes, a, j);
    }
  }

  function InPhase(nodes: seq<Node>, phase: Phase): (r: seq<Node>)
    ensures forall n :: n in r <==> n in nodes && n.phase == phase
  {
    if nodes == [] then []
    else (if nodes[0].phase == phase then [nodes[0]] else []) + InPhase(nodes[1..], phase)
  }

  datatype Report = Report(phase: Phase, cycle: seq<nat>)

  ghost predicate Reported(nodes: seq<Node>, phases: seq<Phase>, reports: seq<Report>) {
    && (forall r :: r in reports ==> r.phase in phases && IsCycle(PhaseGraph(InPhase(nodes, r.phase)), r.cycle))
    && (forall phase :: phase in phases ==>
          (Acyclic(PhaseGraph(InPhase(nodes, phase))) <==> forall r :: r in reports ==> r.phase != phase))
  }

  /** validatePhaseCycles: one report for each phase whose dependency graph has a cycle, and the reported chain is
      one. */
  method ValidatePhases(nodes: seq<Node>, phases: seq<Phase>) returns (reports: seq<Report>)
    ensures Reported(nodes, phases, reports)
  {
    hide Acyclic, IsCycle, PhaseGraph;
    reports := [];
    for k := 0 to |phases|
      invariant Reported(nodes, phases[..k], reports)
    {
      var cycle := PhaseCycle(InPhase(nodes, phases[k]));
      ghost var before := reports;
      if cycle != [] { reports := reports + [Report(phases[k], cycle)]; }
      assert phases[..k + 1] == phases[..k] + [phases[k]];
      assert forall r :: r in reports <==> r in before || (cycle != [] && r == Report(phases[k], cycle));
    }
    assert phases[..|phases|] == phases;
  }
}
