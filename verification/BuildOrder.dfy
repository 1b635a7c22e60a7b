/**
 dependencyComponents of assets/graph.go, second half: the components are
 condensed and emitted by Kahn's algorithm, dependencies before importers and
 the least name first among the ready ones.
 */
module BuildOrder {
  import opened Basics
  import opened Graphs
  import opened Sorting
  import opened Components
  import opened AssetGraph

  datatype Component<T> = Component(nodes: seq<T>, cyclic: bool)

  ghost predicate Placed<T>(lists: seq<seq<T>>, n: nat, v: T) {
    exists j :: 0 <= j < n && j < |lists| && v in lists[j]
  }

  /** lists are exactly the strongly connected components: every node in one of them, mutual reachability inside each
      and only there, each listed in order without repeats. */
  ghost predicate IsDecomposition<T(!new)>(g: Graph<T>, leq: (T, T) -> bool, lists: seq<seq<T>>) {
    && (forall k :: 0 <= k < |lists| ==> lists[k] != [] && SortedBy(lists[k], leq) && Distinct(lists[k]))
    && (forall v :: v in g <==> Placed(lists, |lists|, v))
    && (forall j, k, v :: 0 <= j < k < |lists| && v in lists[j] ==> v !in lists[k])
    && (forall k, v, w :: 0 <= k < |lists| && v in lists[k] && w in lists[k] ==> Mutual(g, v, w))
    && (forall k, v, w :: 0 <= k < |lists| && v in lists[k] && Mutual(g, v, w) ==> w in lists[k])
  }

  ghost predicate DependenciesFirst<T>(g: Graph<T>, lists: seq<seq<T>>) {
    forall k, v, w :: 0 <= k < |lists| && v in lists[k] && w in Succ(g, v) ==> Placed(lists, k + 1, w)
  }

  /** Everything the members of c depend on is in c or in the first n lists. */
  ghost predicate Ready<T>(g: Graph<T>, lists: seq<seq<T>>, n: nat, c: seq<T>) {
    forall v, w :: v in c && w in Succ(g, v) ==> w in c || Placed(lists, n, w)
  }

  /** At each position stands the least name among the components ready at that point. */
  ghost predicate LeastFirst<T>(g: Graph<T>, leq: (T, T) -> bool, lists: seq<seq<T>>) {
    forall k, m :: 0 <= k <= m < |lists| && lists[k] != [] && lists[m] != [] && Ready(g, lists, k, lists[m]) ==>
                     leq(lists[k][0], lists[m][0])
  }

  lemma DecompositionOf<T(!new)>(deps: Deps<T>, leq: (T, T) -> bool, r: (T, T) -> bool, s: Search<T>,
                                 lists: seq<seq<T>>)
    requires IsReach(GraphOf(deps), r) && Inv(GraphOf(deps), r, s, {}) && deps.Keys <= s.indices.Keys
    requires |lists| == |s.comps| && forall k :: 0 <= k < |lists| ==> Lists(lists[k], s.comps[k], leq)
    ensures IsDecomposition(GraphOf(deps), leq, lists)
    ensures DependenciesFirst(GraphOf(deps), lists)
  {
    var g := GraphOf(deps);
    Finished(g, r, s);
    forall n: nat, v
      ensures Placed(lists, n, v) <==> Emitted(s.comps, n, v)
    {
      if Emitted(s.comps, n, v) {
        var k :| 0 <= k < n && k < |s.comps| && v in s.comps[k];
        assert v in lists[k];
      }
    }
    forall k | 0 <= k < |lists|
      ensures lists[k] != []
    {
      assert IsComponent(g, r, s.comps[k]);
      var v :| v in s.comps[k];
      assert v in lists[k];
    }
    forall v
      ensures v in g <==> Placed(lists, |lists|, v)
    {
      if v in g && v !in deps {
        var n :| n in deps && v in deps[n];
        assert v in Succ(g, n);
      }
    }
    forall v, w
      ensures Mutual(g, v, w) <==> Both(r, v, w)
    {
      assert Reach(g, v, w) <==> r(v, w);
      assert Reach(g, w, v) <==> r(w, v);
    }
  }

  /** Tarjan's search over the whole map yields the strongly connected components, dependencies first. */
  method StronglyConnected<T(==,!new)>(deps: Deps<T>, leq: (T, T) -> bool, nodes: seq<T>)
    returns (components: seq<seq<T>>)
    requires TotalOrder(leq) && forall v :: v in nodes <==> v in deps
    ensures IsDecomposition(GraphOf(deps), leq, components)
    ensures DependenciesFirst(GraphOf(deps), components)
  {
    ghost var g := GraphOf(deps);
    ghost var r := (a: T, b: T) => Reach(g, a, b);
    assert IsReach(g, r);
    hide Inv, IsReach, TotalOrder;
    var search := new Tarjan(deps, leq, r);
    search.Run(nodes, r);
    components := search.components;
    DecompositionOf(deps, leq, r, search.st, components);
  }

  // ---- condensation ----

  /** The component that holds v. */
  ghost predicate HomeOf<T>(lists: seq<seq<T>>, home: map<T, nat>) {
    && (forall v :: v in home ==> home[v] < |lists| && v in lists[home[v]])
    && (forall k, v :: 0 <= k < |lists| && v in lists[k] ==> v in home && home[v] == k)
  }

  /** i depends on j: a member of component i names a member of the different component j. */
  ghost predicate DependsOn<T>(deps: Deps<T>, lists: seq<seq<T>>, i: nat, j: nat) {
    && i < |lists| && j < |lists| && i != j
    && exists v, w :: v in lists[i] && w in DepsOf(deps, v) && w in lists[j]
  }

  method ComponentByNode<T(==)>(lists: seq<seq<T>>) returns (home: map<T, nat>)
    requires forall j, k, v :: 0 <= j < k < |lists| && v in lists[j] ==> v !in lists[k]
    ensures HomeOf(lists, home)
  {
    home := map[];
    for k := 0 to |lists|
      invariant HomeOf(lists[..k], home)
    {
      for m := 0 to |lists[k]|
        invariant forall v :: v in home ==> home[v] <= k && v in lists[home[v]]
        invariant forall j, v :: 0 <= j < k && v in lists[j] ==> v in home && home[v] == j
        invariant forall v :: v in lists[k][..m] ==> v in home && home[v] == k
      {
        home := home[lists[k][m] := k];
      }
    }
    assert lists[..|lists|] == lists;
  }

  /** What each component waits for and what waits for it, collected over the dependency map in any order. */
  method Condense<T(==)>(deps: Deps<T>, lists: seq<seq<T>>, home: map<T, nat>)
    returns (waits: seq<set<nat>>, dependents: seq<set<nat>>)
    requires HomeOf(lists, home) && forall n, d :: n in deps && d in deps[n] ==> n in home && d in home
    requires forall n :: n in deps ==> n in home
    ensures |waits| == |lists| && |dependents| == |lists|
    ensures forall i, j :: 0 <= i < |lists| ==> (j in waits[i] <==> DependsOn(deps, lists, i, j))
    ensures forall i, j :: 0 <= j < |lists| ==> (i in dependents[j] <==> DependsOn(deps, lists, i, j))
  {
    hide HomeOf, DependsOn, Collected;
    waits := seq(|lists|, i => {});
    dependents := seq(|lists|, i => {});
    var rest := deps.Keys;
    ghost var edges: set<(T, T)> := {};
    CollectedNone(home, waits, dependents);
    while rest != {}
      invariant rest <= deps.Keys && |waits| == |lists| && |dependents| == |lists|
      invariant forall n, d :: (n, d) in edges <==> n in deps && n !in rest && d in deps[n]
      invariant Collected(home, edges, waits, dependents)
      decreases rest
    {
      var node :| node in rest;
      rest := rest - {node};
      for i := 0 to |deps[node]|
        invariant |waits| == |lists| && |dependents| == |lists|
        invariant forall n, d :: (n, d) in edges <==> n in deps && n !in rest && d in deps[n] &&
                                                      (n == node ==> d in deps[node][..i])
        invariant Collected(home, edges, waits, dependents)
      {
        var d := deps[node][i];
        HomeBound(lists, home, node);
        HomeBound(lists, home, d);
        CollectedStep(home, edges, waits, dependents, node, d);
        var from, to := home[node], home[d];
        edges := edges + {(node, d)};
        if from != to {
          waits := waits[from := waits[from] + {to}];
          dependents := dependents[to := dependents[to] + {from}];
        }
      }
    }
    CollectedAll(deps, lists, home, edges, waits, dependents);
  }

  lemma HomeBound<T>(lists: seq<seq<T>>, home: map<T, nat>, v: T)
    requires HomeOf(lists, home) && v in home
    ensures home[v] < |lists|
  {}

  lemma CollectedNone<T>(home: map<T, nat>, waits: seq<set<nat>>, dependents: seq<set<nat>>)
    requires forall i :: 0 <= i < |waits| ==> waits[i] == {}
    requires forall i :: 0 <= i < |dependents| ==> dependents[i] == {}
    ensures Collected(home, {}, waits, dependents)
  {}

  lemma CollectedStep<T>(home: map<T, nat>, edges: set<(T, T)>, waits: seq<set<nat>>, dependents: seq<set<nat>>,
                         n: T, d: T)
    requires Collected(home, edges, waits, dependents) && n in home && d in home
    requires home[n] < |waits| && home[d] < |dependents|
    ensures var from, to := home[n], home[d];
            Collected(home, edges + {(n, d)}, if from != to then waits[from := waits[from] + {to}] else waits,
                      if from != to then dependents[to := dependents[to] + {from}] else dependents)
  {
    forall i: nat, j: nat
      ensures Crossing(home, edges + {(n, d)}, i, j) <==>
              Crossing(home, edges, i, j) || (i != j && home[n] == i && home[d] == j)
    {
      if Crossing(home, edges + {(n, d)}, i, j) {
        var e :| e in edges + {(n, d)} && e.0 in home && e.1 in home && home[e.0] == i && home[e.1] == j;
      }
      if i != j && home[n] == i && home[d] == j {
        assert (n, d) in edges + {(n, d)};
      }
    }
  }

  /** waits and dependents hold exactly the links between different components made by edges. */
  ghost predicate Collected<T>(home: map<T, nat>, edges: set<(T, T)>, waits: seq<set<nat>>, dependents: seq<set<nat>>) {
    && (forall e :: e in edges ==> e.0 in home && e.1 in home)
    && (forall i, j :: 0 <= i < |waits| ==> (j in waits[i] <==> Crossing(home, edges, i, j)))
    && (forall i, j :: 0 <= j < |dependents| ==> (i in dependents[j] <==> Crossing(home, edges, i, j)))
  }

  ghost predicate Crossing<T>(home: map<T, nat>, edges: set<(T, T)>, i: nat, j: nat) {
    i != j && exists e :: e in edges && e.0 in home && e.1 in home && home[e.0] == i && home[e.1] == j
  }

  lemma CollectedAll<T>(deps: Deps<T>, lists: seq<seq<T>>, home: map<T, nat>, edges: set<(T, T)>,
                        waits: seq<set<nat>>, dependents: seq<set<nat>>)
    requires HomeOf(lists, home) && |waits| == |lists| && |dependents| == |lists|
    requires forall n, d :: n in deps && d in deps[n] ==> n in home && d in home
    requires forall n, d :: (n, d) in edges <==> n in deps && d in deps[n]
    requires Collected(home, edges, waits, dependents)
    ensures forall i, j :: 0 <= i < |lists| ==> (j in waits[i] <==> DependsOn(deps, lists, i, j))
    ensures forall i, j :: 0 <= j < |lists| ==> (i in dependents[j] <==> DependsOn(deps, lists, i, j))
  {
    forall i: nat, j: nat
      ensures Crossing(home, edges, i, j) <==> DependsOn(deps, lists, i, j)
    {
      if DependsOn(deps, lists, i, j) {
        var v, w :| v in lists[i] && w in DepsOf(deps, v) && w in lists[j];
        assert (v, w) in edges;
      }
      if Crossing(home, edges, i, j) {
        var e :| e in edges && e.0 in home && e.1 in home && home[e.0] == i && home[e.1] == j;
        assert e == (e.0, e.1);
      }
    }
  }

  // ---- Kahn's algorithm over the condensation ----

  /** i has not been emitted and everything it waits for has. */
  ghost predicate Unblocked(waits: seq<set<nat>>, done: seq<nat>, i: nat) {
    i < |waits| && i !in done && forall j: nat :: j in waits[i] ==> j in done
  }

  /** Each emitted component was unblocked, and came before every other one unblocked at that point. */
  ghost predicate Greedy(waits: seq<set<nat>>, before: (nat, nat) -> bool, order: seq<nat>) {
    && (forall k :: 0 <= k < |order| ==> Unblocked(waits, order[..k], order[k]))
    && (forall k: nat, i: nat :: 0 <= k < |order| && Unblocked(waits, order[..k], i) ==> before(order[k], i))
  }

  /** ready lists the unblocked components once each, least first; pending is what the others still wait for. */
  ghost predicate Frontier(waits: seq<set<nat>>, before: (nat, nat) -> bool, order: seq<nat>,
                           pending: seq<set<nat>>, ready: seq<nat>) {
    && |pending| == |waits| && Distinct(ready) && SortedBy(ready, before)
    && (forall i: nat :: 0 <= i < |waits| && i !in order ==> pending[i] == waits[i] - Elements(order))
    && (forall i: nat :: i in ready <==> Unblocked(waits, order, i))
  }

  lemma GreedyExtend(waits: seq<set<nat>>, before: (nat, nat) -> bool, order: seq<nat>, c: nat)
    requires Greedy(waits, before, order) && Unblocked(waits, order, c)
    requires forall i: nat :: Unblocked(waits, order, i) ==> before(c, i)
    ensures Greedy(waits, before, order + [c])
  {
    var longer := order + [c];
    forall k | 0 <= k < |longer|
      ensures longer[..k] == order[..k]
    {}
    assert order[..|order|] == order;
  }

  /** The frontier before it is sorted. */
  ghost predicate Loose(waits: seq<set<nat>>, order: seq<nat>, pending: seq<set<nat>>, ready: seq<nat>) {
    && |pending| == |waits| && Distinct(ready)
    && (forall i: nat :: i < |waits| && i !in order ==> pending[i] == waits[i] - Elements(order))
    && (forall i: nat :: i in ready <==> i < |waits| && i !in order && pending[i] == {})
  }

  /** dependents is the converse of waits, and components only wait for earlier ones. */
  ghost predicate Linked(waits: seq<set<nat>>, dependents: seq<set<nat>>) {
    && |dependents| == |waits|
    && (forall i: nat, j: nat :: i < |waits| && j in waits[i] ==> j < i)
    && (forall i: nat, j: nat :: j < |waits| ==> (i in dependents[j] <==> i < |waits| && j in waits[i]))
  }

  /** What still waits for an unblocked component has not been emitted. */
  lemma DependentsLeft(waits: seq<set<nat>>, dependents: seq<set<nat>>, before: (nat, nat) -> bool, order: seq<nat>,
                       c: nat, d: nat)
    requires Linked(waits, dependents) && Greedy(waits, before, order) && Unblocked(waits, order, c) &&
             d in dependents[c]
    ensures d < |waits| && d !in order && d != c
  {
    assert c in waits[d];
    forall k | 0 <= k < |order|
      ensures order[k] != d
    {
      assert Unblocked(waits, order[..k], order[k]);
      assert c !in order[..k];
    }
  }

  /** Emits the head of the frontier: removes it from everything that waits for it, appending what becomes unblocked,
      in any order. */
  method Release(waits: seq<set<nat>>, dependents: seq<set<nat>>, ghost before: (nat, nat) -> bool,
                 ghost order: seq<nat>, pending0: seq<set<nat>>, ready0: seq<nat>)
    returns (pending: seq<set<nat>>, ready: seq<nat>)
    requires Linked(waits, dependents) && Greedy(waits, before, order)
    requires Loose(waits, order, pending0, ready0) && ready0 != [] && Unblocked(waits, order, ready0[0])
    ensures Loose(waits, order + [ready0[0]], pending, ready)
  {
    var c := ready0[0];
    ghost var order' := order + [c];
    assert Elements(order') == Elements(order) + {c};
    forall d | d in dependents[c]
      ensures d < |waits| && d !in order'
    {
      DependentsLeft(waits, dependents, before, order, c, d);
    }
    hide Greedy, Unblocked;
    pending, ready := pending0, ready0[1..];
    var todo := dependents[c];
    while todo != {}
      invariant todo <= dependents[c] && |pending| == |waits| && Distinct(ready)
      invariant forall i: nat :: i < |waits| && i !in order' ==>
                                   pending[i] == waits[i] - (if i in todo then Elements(order) else Elements(order'))
      invariant forall i: nat :: i in ready <==> i < |waits| && i !in order' && pending[i] == {}
      decreases todo
    {
      var d :| d in todo;
      assert c in waits[d] && c in pending[d];
      todo := todo - {d};
      pending := pending[d := pending[d] - {c}];
      if pending[d] == {} {
        ready := ready + [d];
      }
    }
  }

  lemma NothingLeft(a: set<nat>, b: set<nat>)
    requires a - b == {}
    ensures a <= b
  {
    assert forall x :: x in a && x !in b ==> x in a - b;
  }

  lemma FrontierSort(waits: seq<set<nat>>, before: (nat, nat) -> bool, order: seq<nat>,
                     pending: seq<set<nat>>, ready: seq<nat>)
    requires TotalOrder(before) && Loose(waits, order, pending, ready)
    ensures Frontier(waits, before, order, pending, Sort(ready, before))
    ensures Loose(waits, order, pending, Sort(ready, before))
  {
    SortSorted(ready, before);
    SortDistinct(ready, before);
    forall i: nat
      ensures i in ready <==> Unblocked(waits, order, i)
    {
      if i in ready { NothingLeft(waits[i], Elements(order)); }
      if Unblocked(waits, order, i) {
        assert waits[i] - Elements(order) == {};
      }
    }
  }

  /** If some component is left, one is unblocked: the first one left, as it only waits for earlier ones. */
  lemma NeverStalls(waits: seq<set<nat>>, order: seq<nat>, i: nat)
    requires forall i: nat, j: nat :: i < |waits| && j in waits[i] ==> j < i
    requires i < |waits| && i !in order
    ensures exists m: nat :: m <= i && Unblocked(waits, order, m)
  {
    if !Unblocked(waits, order, i) {
      var j :| j in waits[i] && j !in order;
      NeverStalls(waits, order, j);
    }
  }

  lemma AllEmitted(waits: seq<set<nat>>, dependents: seq<set<nat>>, before: (nat, nat) -> bool, order: seq<nat>,
                   pending: seq<set<nat>>)
    requires Linked(waits, dependents) && Frontier(waits, before, order, pending, [])
    ensures forall i: nat :: i < |waits| ==> i in order
  {
    forall i: nat | i < |waits|
      ensures i in order
    {
      if i !in order { NeverStalls(waits, order, i); }
    }
  }

  function Indices(n: nat): (s: set<nat>)
    ensures forall i: nat :: i in s <==> i < n
  {
    if n == 0 then {} else Indices(n - 1) + {n - 1}
  }

  lemma Shrinks(n: nat, order: seq<nat>, c: nat)
    requires c < n && c !in order
    ensures Indices(n) - Elements(order + [c]) < Indices(n) - Elements(order)
  {
    assert c in Indices(n) - Elements(order);
  }

  lemma LeastReady(waits: seq<set<nat>>, before: (nat, nat) -> bool, order: seq<nat>,
                   pending: seq<set<nat>>, ready: seq<nat>)
    requires TotalOrder(before) && Frontier(waits, before, order, pending, ready) && ready != []
    requires Greedy(waits, before, order)
    ensures Unblocked(waits, order, ready[0]) && ready[0] < |waits| && ready[0] !in order
    ensures Greedy(waits, before, order + [ready[0]])
  {
    forall i: nat | Unblocked(waits, order, i)
      ensures before(ready[0], i)
    {
      assert i in ready;
    }
    GreedyExtend(waits, before, order, ready[0]);
  }

  /** The Kahn loop: emits every component once, each time the least unblocked one. */
  method Kahn(waits: seq<set<nat>>, dependents: seq<set<nat>>, before: (nat, nat) -> bool) returns (order: seq<nat>)
    requires TotalOrder(before) && Linked(waits, dependents)
    ensures Distinct(order) && forall i: nat :: i in order <==> i < |waits|
    ensures Greedy(waits, before, order)
  {
    order := [];
    var pending := waits;
    var ready: seq<nat> := [];
    for i := 0 to |waits|
      invariant Distinct(ready) && forall j: nat :: j in ready <==> j < i && waits[j] == {}
    {
      if waits[i] == {} { ready := ready + [i]; }
    }
    hide TotalOrder, Sort, Frontier, Loose, Greedy, Unblocked, Linked, Indices;
    FrontierSort(waits, before, order, pending, ready);
    GreedyNone(waits, before);
    ready := Sort(ready, before);
    while ready != []
      invariant Frontier(waits, before, order, pending, ready) && Loose(waits, order, pending, ready)
      invariant Greedy(waits, before, order) && Distinct(order) && forall i :: i in order ==> i < |waits|
      decreases Indices(|waits|) - Elements(order)
    {
      LeastReady(waits, before, order, pending, ready);
      var c := ready[0];
      pending, ready := Release(waits, dependents, before, order, pending, ready);
      Shrinks(|waits|, order, c);
      order := order + [c];
      FrontierSort(waits, before, order, pending, ready);
      ready := Sort(ready, before);
    }
    AllEmitted(waits, dependents, before, order, pending);
  }

  lemma GreedyNone(waits: seq<set<nat>>, before: (nat, nat) -> bool)
    ensures Greedy(waits, before, [])
  {}

  // ---- the whole of dependencyComponents ----

  /** A component is cyclic when it has several members or its only member names itself. */
  predicate IsCyclic<T(==)>(deps: Deps<T>, members: seq<T>) {
    |members| > 1 || (|members| == 1 && members[0] in DepsOf(deps, members[0]))
  }

  /** The flag says exactly whether the members lie on a cycle, self-loops included. */
  lemma CyclicIffOnCycle<T(!new)>(deps: Deps<T>, leq: (T, T) -> bool, lists: seq<seq<T>>, k: nat, v: T)
    requires IsDecomposition(GraphOf(deps), leq, lists) && k < |lists| && v in lists[k]
    ensures IsCyclic(deps, lists[k]) <==> OnCycle(GraphOf(deps), v)
  {
    var g := GraphOf(deps);
    var c := lists[k];
    if OnCycle(g, v) {
      var b :| b in Succ(g, v) && Reach(g, b, v);
      ReachEdge(g, v, b);
      assert Mutual(g, v, b);
      assert b in c;
    }
    if |c| > 1 {
      var w := if c[0] == v then c[1] else c[0];
      assert w in c && w != v && Mutual(g, v, w);
      StepTowards(g, v, w);
    } else if IsCyclic(deps, c) {
      ReachRefl(g, v);
    }
  }

  /** A path to a different node starts with an edge. */
  lemma StepTowards<T(!new)>(g: Graph<T>, v: T, w: T)
    requires Mutual(g, v, w) && v != w
    ensures OnCycle(g, v)
  {
    var p: seq<T> :| IsPath(g, p, v, w);
    assert IsPath(g, p[1..], p[1], w);
    ReachTrans(g, p[1], w, v);
    assert p[1] in Succ(g, p[0]);
  }

  predicate Named<T>(lists: seq<seq<T>>, k: nat) {
    k < |lists| && lists[k] != []
  }

  /** Components compare by their first member; indices that name no component come last. */
  predicate NameBefore<T>(lists: seq<seq<T>>, leq: (T, T) -> bool, i: nat, j: nat) {
    if Named(lists, i) && Named(lists, j) then leq(lists[i][0], lists[j][0])
    else Named(lists, i) || (!Named(lists, j) && i <= j)
  }

  lemma NameOrder<T(!new)>(lists: seq<seq<T>>, leq: (T, T) -> bool, before: (nat, nat) -> bool)
    requires TotalOrder(leq) && forall i, j :: before(i, j) <==> NameBefore(lists, leq, i, j)
    requires forall j, k, v :: 0 <= j < k < |lists| && v in lists[j] ==> v !in lists[k]
    ensures TotalOrder(before)
  {
    forall i: nat, j: nat | before(i, j) && before(j, i)
      ensures i == j
    {
      assert NameBefore(lists, leq, i, j) && NameBefore(lists, leq, j, i);
      if Named(lists, i) {
        assert lists[i][0] == lists[j][0] && lists[i][0] in lists[i] && lists[j][0] in lists[j];
      }
    }
  }

  ghost predicate Converse<T>(deps: Deps<T>, lists: seq<seq<T>>, waits: seq<set<nat>>) {
    |waits| == |lists| && forall i: nat, j: nat :: i < |lists| ==> (j in waits[i] <==> DependsOn(deps, lists, i, j))
  }

  lemma EarlierOnly<T(!new)>(deps: Deps<T>, leq: (T, T) -> bool, lists: seq<seq<T>>, i: nat, j: nat)
    requires IsDecomposition(GraphOf(deps), leq, lists) && DependenciesFirst(GraphOf(deps), lists)
    requires DependsOn(deps, lists, i, j)
    ensures j < i
  {
    var v, w :| v in lists[i] && w in DepsOf(deps, v) && w in lists[j];
    assert w in Succ(GraphOf(deps), v);
    assert Placed(lists, i + 1, w);
  }

  function Permuted<T>(lists: seq<seq<T>>, order: seq<nat>): seq<seq<T>>
    requires forall k :: 0 <= k < |order| ==> order[k] < |lists|
  {
    seq(|order|, k requires 0 <= k < |order| => lists[order[k]])
  }

  ghost predicate IsOrder(order: seq<nat>, n: nat) {
    && Distinct(order) && (forall i: nat :: i in order <==> i < n)
    && (forall k :: 0 <= k < |order| ==> order[k] < n)
  }

  lemma PermutedPlaced<T>(lists: seq<seq<T>>, order: seq<nat>, n: nat, i: nat, v: T)
    requires IsOrder(order, |lists|) && i < |lists| && v in lists[i] && n <= |order|
    requires forall j, k, v :: 0 <= j < k < |lists| && v in lists[j] ==> v !in lists[k]
    ensures Placed(Permuted(lists, order), n, v) <==> i in order[..n]
  {
    if i in order[..n] {
      var k :| 0 <= k < n && order[k] == i;
      assert v in Permuted(lists, order)[k];
    }
  }

  lemma PermutedDecomposition<T(!new)>(g: Graph<T>, leq: (T, T) -> bool, lists: seq<seq<T>>, order: seq<nat>)
    requires IsDecomposition(g, leq, lists) && IsOrder(order, |lists|)
    ensures IsDecomposition(g, leq, Permuted(lists, order))
  {
    var p := Permuted(lists, order);
    assert order[..|order|] == order;
    forall v
      ensures v in g <==> Placed(p, |p|, v)
    {
      if v in g {
        var i :| 0 <= i < |lists| && v in lists[i];
        PermutedPlaced(lists, order, |order|, i, v);
      }
      if Placed(p, |p|, v) {
        var k :| 0 <= k < |p| && v in p[k];
        assert v in lists[order[k]];
      }
    }
  }

  lemma PermutedFirst<T(!new)>(deps: Deps<T>, leq: (T, T) -> bool, lists: seq<seq<T>>, waits: seq<set<nat>>,
                               before: (nat, nat) -> bool, order: seq<nat>)
    requires IsDecomposition(GraphOf(deps), leq, lists) && Converse(deps, lists, waits) && IsOrder(order, |lists|)
    requires Greedy(waits, before, order)
    ensures DependenciesFirst(GraphOf(deps), Permuted(lists, order))
  {
    var g := GraphOf(deps);
    var p := Permuted(lists, order);
    forall k, v, w | 0 <= k < |p| && v in p[k] && w in Succ(g, v)
      ensures Placed(p, k + 1, w)
    {
      assert Placed(lists, |lists|, w);
      var j :| 0 <= j < |lists| && w in lists[j];
      assert Unblocked(waits, order[..k], order[k]);
      if j != order[k] { assert DependsOn(deps, lists, order[k], j); }
      assert order[..k + 1] == order[..k] + [order[k]];
      PermutedPlaced(lists, order, k + 1, j, w);
    }
  }

  /** A component ready at position k was unblocked there. */
  lemma ReadyUnblocked<T(!new)>(deps: Deps<T>, leq: (T, T) -> bool, lists: seq<seq<T>>, waits: seq<set<nat>>,
                                order: seq<nat>, k: nat, m: nat)
    requires IsDecomposition(GraphOf(deps), leq, lists) && Converse(deps, lists, waits) && IsOrder(order, |lists|)
    requires k <= m < |order| && Ready(GraphOf(deps), Permuted(lists, order), k, lists[order[m]])
    ensures Unblocked(waits, order[..k], order[m])
  {
    forall j | j in waits[order[m]]
      ensures j in order[..k]
    {
      assert DependsOn(deps, lists, order[m], j);
      var v, w :| v in lists[order[m]] && w in DepsOf(deps, v) && w in lists[j];
      assert w in Succ(GraphOf(deps), v);
      assert w !in lists[order[m]];
      PermutedPlaced(lists, order, k, j, w);
    }
  }

  lemma PermutedLeast<T(!new)>(deps: Deps<T>, leq: (T, T) -> bool, lists: seq<seq<T>>, waits: seq<set<nat>>,
                               before: (nat, nat) -> bool, order: seq<nat>)
    requires IsDecomposition(GraphOf(deps), leq, lists) && Converse(deps, lists, waits) && IsOrder(order, |lists|)
    requires forall i, j :: before(i, j) <==> NameBefore(lists, leq, i, j)
    requires Greedy(waits, before, order)
    ensures LeastFirst(GraphOf(deps), leq, Permuted(lists, order))
  {
    hide IsDecomposition, Converse, Ready;
    var p := Permuted(lists, order);
    forall k, m | 0 <= k <= m < |p| && p[k] != [] && p[m] != [] && Ready(GraphOf(deps), p, k, p[m])
      ensures leq(p[k][0], p[m][0])
    {
      ReadyUnblocked(deps, leq, lists, waits, order, k, m);
      assert before(order[k], order[m]);
    }
  }

  function NodesOf<T>(ordered: seq<Component<T>>): seq<seq<T>> {
    seq(|ordered|, k requires 0 <= k < |ordered| => ordered[k].nodes)
  }

  /** The keys of a map, in whatever order the runtime yields them. */
  method KeysOf<T(==)>(keys: set<T>) returns (s: seq<T>)
    ensures forall v :: v in s <==> v in keys
  {
    s := [];
    var rest := keys;
    while rest != {}
      invariant rest <= keys && forall v :: v in s <==> v in keys && v !in rest
      decreases rest
    {
      var v :| v in rest;
      s, rest := s + [v], rest - {v};
    }
  }

  /** Strongly connected components, dependencies first, least name first among the ready ones. */
  method DependencyComponents<T(==,!new)>(deps: Deps<T>, leq: (T, T) -> bool) returns (ordered: seq<Component<T>>)
    requires TotalOrder(leq)
    ensures IsDecomposition(GraphOf(deps), leq, NodesOf(ordered))
    ensures DependenciesFirst(GraphOf(deps), NodesOf(ordered))
    ensures LeastFirst(GraphOf(deps), leq, NodesOf(ordered))
    ensures forall k, v :: 0 <= k < |ordered| && v in ordered[k].nodes ==>
                             (ordered[k].cyclic <==> OnCycle(GraphOf(deps), v))
  {
    var nodes := KeysOf(deps.Keys);
    var sorted := Sort(nodes, leq);
    forall v
      ensures v in sorted <==> v in deps
    {
      InMultiset(sorted, nodes, v);
    }
    var lists := StronglyConnected(deps, leq, sorted);
    var home := ComponentByNode(lists);
    HomeCovers(deps, leq, lists, home);
    var waits, dependents := Condense(deps, lists, home);
    var before := (i: nat, j: nat) => NameBefore(lists, leq, i, j);
    NameOrder(lists, leq, before);
    forall i: nat, j: nat | DependsOn(deps, lists, i, j)
      ensures j < i
    {
      EarlierOnly(deps, leq, lists, i, j);
    }
    assert Linked(waits, dependents);
    var order := Kahn(waits, dependents, before);
    ordered := Emit(deps, lists, order);
    PermutedDecomposition(GraphOf(deps), leq, lists, order);
    PermutedFirst(deps, leq, lists, waits, before, order);
    PermutedLeast(deps, leq, lists, waits, before, order);
    assert NodesOf(ordered) == Permuted(lists, order);
    forall k, v | 0 <= k < |ordered| && v in ordered[k].nodes
      ensures ordered[k].cyclic <==> OnCycle(GraphOf(deps), v)
    {
      CyclicIffOnCycle(deps, leq, NodesOf(ordered), k, v);
    }
  }

  method Emit<T(==)>(deps: Deps<T>, lists: seq<seq<T>>, order: seq<nat>) returns (ordered: seq<Component<T>>)
    requires forall k :: 0 <= k < |order| ==> order[k] < |lists|
    ensures |ordered| == |order|
    ensures forall k :: 0 <= k < |order| ==>
                          ordered[k] == Component(lists[order[k]], IsCyclic(deps, lists[order[k]]))
  {
    ordered := [];
    for i := 0 to |order|
      invariant |ordered| == i
      invariant forall k :: 0 <= k < i ==> ordered[k] == Component(lists[order[k]], IsCyclic(deps, lists[order[k]]))
    {
      var members := lists[order[i]];
      ordered := ordered + [Component(members, IsCyclic(deps, members))];
    }
  }

  lemma HomeCovers<T(!new)>(deps: Deps<T>, leq: (T, T) -> bool, lists: seq<seq<T>>, home: map<T, nat>)
    requires IsDecomposition(GraphOf(deps), leq, lists) && HomeOf(lists, home)
    ensures forall n :: n in deps ==> n in home
    ensures forall n, d :: n in deps && d in deps[n] ==> d in home
  {
    forall v | v in GraphOf(deps)
      ensures v in home
    {
      assert Placed(lists, |lists|, v);
    }
  }

  // ---- the result is determined by the graph ----

  lemma SameComponent<T(!new)>(g: Graph<T>, leq: (T, T) -> bool, a: seq<seq<T>>, b: seq<seq<T>>, i: nat, j: nat, v: T)
    requires TotalOrder(leq) && IsDecomposition(g, leq, a) && IsDecomposition(g, leq, b)
    requires i < |a| && j < |b| && v in a[i] && v in b[j]
    ensures a[i] == b[j]
  {
    forall w
      ensures w in a[i] <==> w in b[j]
    {
      assert w in a[i] <==> Mutual(g, v, w);
      assert w in b[j] <==> Mutual(g, v, w);
    }
    DistinctMultiset(a[i], b[j]);
    SortedUnique(a[i], b[j], leq);
  }

  lemma FirstMember<T(!new)>(g: Graph<T>, leq: (T, T) -> bool, a: seq<seq<T>>, k: nat)
    requires IsDecomposition(g, leq, a) && k < |a|
    ensures a[k] != [] && a[k][0] in a[k] && a[k][0] in g
  {
    assert a[k][0] in a[k];
    assert Placed(a, |a|, a[k][0]);
  }

  lemma Locate<T(!new)>(g: Graph<T>, leq: (T, T) -> bool, b: seq<seq<T>>, v: T) returns (m: nat)
    requires IsDecomposition(g, leq, b) && v in g
    ensures m < |b| && v in b[m]
  {
    assert Placed(b, |b|, v);
    m :| m < |b| && v in b[m];
  }

  lemma OneHome<T(!new)>(g: Graph<T>, leq: (T, T) -> bool, a: seq<seq<T>>, i: nat, j: nat, v: T)
    requires IsDecomposition(g, leq, a) && i < |a| && j < |a| && v in a[i] && v in a[j]
    ensures i == j
  {}

  /** The component standing at k in a is ready at k in b, when the two agree before k. */
  lemma ReadyInOther<T(!new)>(g: Graph<T>, leq: (T, T) -> bool, a: seq<seq<T>>, b: seq<seq<T>>, k: nat)
    requires TotalOrder(leq) && IsDecomposition(g, leq, a) && IsDecomposition(g, leq, b) && DependenciesFirst(g, a)
    requires LeastFirst(g, leq, b) && k < |a| && k <= |b| && a[..k] == b[..k]
    ensures k < |b| && a[k] != [] && b[k] != [] && leq(b[k][0], a[k][0])
  {
    hide IsDecomposition, TotalOrder;
    assert forall q :: 0 <= q < k ==> a[q] == a[..k][q] && b[q] == b[..k][q];
    FirstMember(g, leq, a, k);
    var v := a[k][0];
    var m := Locate(g, leq, b, v);
    if m < k { OneHome(g, leq, a, k, m, v); }
    FirstMember(g, leq, b, k);
    SameComponent(g, leq, a, b, k, m, v);
    forall u, w | u in b[m] && w in Succ(g, u) && w !in b[m]
      ensures Placed(b, k, w)
    {
      assert Placed(a, k + 1, w);
      var j :| 0 <= j < k + 1 && w in a[j];
      assert w in b[j];
    }
    assert Ready(g, b, k, b[m]);
  }

  lemma {:induction false} AgreeUpTo<T(!new)>(g: Graph<T>, leq: (T, T) -> bool, a: seq<seq<T>>, b: seq<seq<T>>, k: nat)
    requires TotalOrder(leq) && IsDecomposition(g, leq, a) && IsDecomposition(g, leq, b)
    requires DependenciesFirst(g, a) && DependenciesFirst(g, b) && LeastFirst(g, leq, a) && LeastFirst(g, leq, b)
    requires k <= |a|
    ensures k <= |b| && a[..k] == b[..k]
  {
    if k > 0 {
      AgreeUpTo(g, leq, a, b, k - 1);
      ReadyInOther(g, leq, a, b, k - 1);
      ReadyInOther(g, leq, b, a, k - 1);
      SameComponent(g, leq, a, b, k - 1, k - 1, a[k - 1][0]);
      assert a[..k] == a[..k - 1] + [a[k - 1]] && b[..k] == b[..k - 1] + [b[k - 1]];
    }
  }

  /** The order is determined by the graph: no choice made while iterating over a map can change it. */
  lemma OrderUnique<T(!new)>(g: Graph<T>, leq: (T, T) -> bool, a: seq<seq<T>>, b: seq<seq<T>>)
    requires TotalOrder(leq) && IsDecomposition(g, leq, a) && IsDecomposition(g, leq, b)
    requires DependenciesFirst(g, a) && DependenciesFirst(g, b) && LeastFirst(g, leq, a) && LeastFirst(g, leq, b)
    ensures a == b
  {
    AgreeUpTo(g, leq, a, b, |a|);
    AgreeUpTo(g, leq, b, a, |b|);
    assert a[..|a|] == a && b[..|a|] == b;
  }
}
