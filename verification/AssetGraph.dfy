/**
 dependencyComponents of assets/graph.go, first half: Tarjan's search over the
 dependency map, mutating its numbering, stack and result list in place.
 */
module AssetGraph {
  import opened Basics
  import opened Graphs
  import opened Sorting
  import opened Components

  /** What each asset depends on. The search never looks inside a node, so nodes are left abstract; assets are
      identified by their logical paths, ordered by StringLeq. */
  type Deps<!T(==)> = map<T, seq<T>>

  function DepsOf<T>(deps: Deps<T>, n: T): seq<T> {
    if n in deps then deps[n] else []
  }

  /** Every node the search can meet: the keys and everything they name. */
  function Nodes<T>(deps: Deps<T>): set<T> {
    deps.Keys + set n, d | n in deps && d in deps[n] :: d
  }

  function GraphOf<T>(deps: Deps<T>): Graph<T> {
    map n | n in Nodes(deps) :: set d | d in DepsOf(deps, n)
  }

  /** The members of a component as the search reports them: in order, without repeats. */
  ghost predicate Lists<T(!new)>(members: seq<T>, c: set<T>, leq: (T, T) -> bool) {
    SortedBy(members, leq) && Distinct(members) && forall v :: v in members <==> v in c
  }

  class Tarjan<T(==,!new)> {
    const deps: Deps<T>
    const leq: (T, T) -> bool
    var index: nat
    var indices: map<T, nat>
    var lowlink: map<T, nat>
    var onStack: set<T>
    var stack: seq<T>
    var components: seq<seq<T>>
    ghost var st: Search<T>

    /** The stack is numbered upwards and holds the nodes marked as stacked; the components list the emitted sets. */
    ghost predicate Stacked()
      reads this`indices, this`onStack, this`stack, this`components, this`st
    {
      && (forall i :: 0 <= i < |stack| ==> stack[i] in indices)
      && (forall i, j :: 0 <= i < j < |stack| ==> indices[stack[i]] < indices[stack[j]])
      && (forall v :: v in stack <==> v in onStack)
      && |components| == |st.comps|
      && (forall k :: 0 <= k < |components| ==> Lists(components[k], st.comps[k], leq))
    }

    /** The fields agree with the snapshot the proofs speak about. */
    ghost predicate Linked()
      reads this
    {
      && st.index == index && st.indices == indices && st.onStack == onStack
      && lowlink.Keys == indices.Keys && Stacked()
    }

    ghost predicate Valid(r: (T, T) -> bool, grey: set<T>)
      reads this
    {
      TotalOrder(leq) && Linked() && IsReach(GraphOf(deps), r) && Inv(GraphOf(deps), r, st, grey)
    }

    constructor (deps: Deps<T>, leq: (T, T) -> bool, ghost r: (T, T) -> bool)
      requires TotalOrder(leq) && IsReach(GraphOf(deps), r)
      ensures this.deps == deps && this.leq == leq && Valid(r, {}) && indices == map[] && stack == []
    {
      this.deps := deps;
      this.leq := leq;
      index, indices, lowlink, onStack, stack, components := 0, map[], map[], {}, [], [];
      st := Search(0, map[], {}, {}, []);
    }

    /** Numbers node and pushes it. */
    method Enter(node: T, ghost r: (T, T) -> bool, ghost grey: set<T>)
      requires Valid(r, grey) && node !in indices
      modifies this
      ensures st == Pushed(old(st), node) && Linked()
      ensures stack == old(stack) + [node]
      ensures lowlink == old(lowlink)[node := old(index)]
    {
      hide Inv, Lists;
      InvNumbers(GraphOf(deps), r, st, grey);
      st := Pushed(st, node);
      indices := indices[node := index];
      lowlink := lowlink[node := index];
      index := index + 1;
      stack := stack + [node];
      onStack := onStack + {node};
    }

    /** Pops the stack down to and including node. */
    method PopTo(node: T, ghost base: nat) returns (component: seq<T>)
      requires base < |stack| && stack[base] == node && Distinct(stack)
      requires forall v :: v in stack <==> v in onStack
      modifies this`stack, this`onStack
      ensures stack == old(stack)[..base] && forall v :: v in stack <==> v in onStack
      ensures Distinct(component) && forall v :: v in component <==> v in old(stack)[base..]
    {
      ghost var full := stack;
      component := [];
      while true
        invariant base < |stack| <= |full| && stack == full[..|stack|]
        invariant forall v :: v in component <==> v in full[|stack|..]
        invariant forall v :: v in stack <==> v in onStack
        invariant Distinct(component)
        decreases |stack|
      {
        var last := |stack| - 1;
        var member := stack[last];
        assert full[last..] == [member] + full[last + 1..];
        assert full[..last + 1] == full[..last] + [member];
        assert member !in full[last + 1..] && member !in full[..last];
        stack := stack[..last];
        onStack := onStack - {member};
        component := component + [member];
        if member == node { break; }
      }
    }

    /** Emits node's component: everything on the stack from node up, sorted. */
    method Emit(node: T, ghost base: nat)
      requires TotalOrder(leq) && Linked() && base < |stack| && stack[base] == node
      modifies this
      ensures st == Popped(old(st), old(indices)[node]) && Linked()
      ensures stack == old(stack)[..base] && lowlink == old(lowlink)
    {
      assert TotalPreorder(leq);
      hide TotalOrder, TotalPreorder, SortedBy, Distinct, Sort;
      SegmentIsTop(stack, st, base);
      var component := PopTo(node, base);
      SortSorted(component, leq);
      SortDistinct(component, leq);
      components := components + [Sort(component, leq)];
      st := Popped(st, indices[node]);
    }

    /** Looks at one neighbour of node and lowers lowlink[node] accordingly. */
    method Follow(node: T, dependency: T, ghost r: (T, T) -> bool, ghost grey: set<T>, ghost s0: Search<T>,
                  ghost seen: set<T>)
      requires Valid(r, grey + {node}) && node in indices && dependency in Succ(GraphOf(deps), node)
      requires Ahead(GraphOf(deps), r, s0, st, grey, node, seen, lowlink[node])
      modifies this
      ensures Valid(r, grey + {node}) && old(indices).Keys <= indices.Keys && old(stack) <= stack && node in indices
      ensures Ahead(GraphOf(deps), r, s0, st, grey, node, seen + {dependency}, lowlink[node])
      ensures forall u :: u in old(lowlink) && u != node ==> u in lowlink && lowlink[u] == old(lowlink)[u]
      decreases GraphOf(deps).Keys - indices.Keys, 1
    {
      hide Inv, Ahead, GraphOf, IsReach, TotalOrder, Tarjan.Stacked;
      ghost var g := GraphOf(deps);
      ghost var s := st;
      if dependency !in indices {
        AheadReach(g, r, s0, st, grey, node, seen, lowlink[node], dependency);
        SuccInGraph(deps, node, dependency);
        Connect(dependency, r, grey + {node});
        AheadVisited(g, r, s0, s, st, grey, node, seen, lowlink[node], dependency, lowlink[dependency]);
        lowlink := lowlink[node := if lowlink[dependency] < lowlink[node] then lowlink[dependency] else lowlink[node]];
      } else {
        AheadSeen(g, r, s0, st, grey, node, seen, lowlink[node], dependency);
        if dependency in onStack {
          var low := if indices[dependency] < lowlink[node] then indices[dependency] else lowlink[node];
          lowlink := lowlink[node := low];
        }
      }
    }

    /** Visits node and everything it newly reaches, emitting each component that closes. */
    method Connect(node: T, ghost r: (T, T) -> bool, ghost grey: set<T>)
      requires Valid(r, grey) && node !in indices && node in GraphOf(deps)
      requires forall x :: x in grey ==> r(x, node)
      modifies this
      ensures Valid(r, grey) && old(stack) <= stack && old(indices).Keys <= indices.Keys && node in indices
      ensures Visited(GraphOf(deps), r, old(st), st, grey, node, lowlink[node])
      ensures forall u :: u in old(lowlink) ==> u in lowlink && lowlink[u] == old(lowlink)[u]
      decreases GraphOf(deps).Keys - indices.Keys, 0
    {
      hide Inv, Ahead, GraphOf, IsReach, TotalOrder, Sort, Tarjan.Stacked;
      ghost var g := GraphOf(deps);
      InvNumbers(g, r, st, grey);
      AheadStart(g, r, st, grey, node);
      Enter(node, r, grey);
      AheadInv(g, r, old(st), st, grey, node, {}, lowlink[node]);
      var neighbors := Sort(DepsOf(deps, node), leq);
      var i := 0;
      assert Elements(neighbors[..i]) == {};
      while i < |neighbors|
        invariant i <= |neighbors| && old(stack) + [node] <= stack && Valid(r, grey + {node}) && node in indices
        invariant Ahead(g, r, old(st), st, grey, node, Elements(neighbors[..i]), lowlink[node])
        invariant forall u :: u in old(lowlink) ==> u in lowlink && lowlink[u] == old(lowlink)[u]
        invariant indices.Keys > old(indices).Keys
      {
        assert Elements(neighbors[..i + 1]) == Elements(neighbors[..i]) + {neighbors[i]};
        SortedNeighbor(deps, node, neighbors, neighbors[i]);
        Follow(node, neighbors[i], r, grey, old(st), Elements(neighbors[..i]));
        i := i + 1;
      }
      assert neighbors[..i] == neighbors && Succ(g, node) == Elements(neighbors) by {
        forall w { SortedNeighbor(deps, node, neighbors, w); }
      }
      AheadInv(g, r, old(st), st, grey, node, Succ(g, node), lowlink[node]);
      if lowlink[node] != indices[node] {
        VisitedOpen(g, r, old(st), st, grey, node, lowlink[node]);
      } else {
        VisitedClosed(g, r, old(st), st, grey, node);
        Emit(node, |old(stack)|);
      }
    }

    /** Visits every node, in the given order. */
    method Run(nodes: seq<T>, ghost r: (T, T) -> bool)
      requires Valid(r, {}) && forall v :: v in nodes ==> v in deps
      modifies this
      ensures Valid(r, {}) && forall v :: v in nodes ==> v in indices
    {
      hide Inv, Visited, IsReach, TotalOrder, Tarjan.Linked;
      for i := 0 to |nodes|
        invariant Valid(r, {}) && forall v :: v in nodes[..i] ==> v in indices
      {
        assert nodes[..i + 1] == nodes[..i] + [nodes[i]];
        if nodes[i] !in indices {
          Connect(nodes[i], r, {});
        }
      }
      assert nodes[..|nodes|] == nodes;
    }
  }

  lemma SuccInGraph<T>(deps: Deps<T>, n: T, d: T)
    requires d in Succ(GraphOf(deps), n)
    ensures d in GraphOf(deps)
  {}

  lemma SortedNeighbor<T>(deps: Deps<T>, n: T, neighbors: seq<T>, w: T)
    requires multiset(neighbors) == multiset(DepsOf(deps, n))
    ensures w in Succ(GraphOf(deps), n) <==> w in neighbors
  {
    InMultiset(neighbors, DepsOf(deps, n), w);
  }

  /** The stack is numbered upwards, so its top part holds exactly the nodes numbered from its first one on. */
  lemma SegmentIsTop<T(!new)>(stack: seq<T>, s: Search<T>, base: nat)
    requires base < |stack| && (forall i :: 0 <= i < |stack| ==> stack[i] in s.indices)
    requires forall i, j :: 0 <= i < j < |stack| ==> s.indices[stack[i]] < s.indices[stack[j]]
    requires forall v :: v in stack <==> v in s.onStack
    ensures forall v :: v in stack[base..] <==> v in Segment(s, s.indices[stack[base]])
    ensures forall v :: v in stack[..base] <==> v in s.onStack - Segment(s, s.indices[stack[base]])
    ensures Distinct(stack)
  {}
}
