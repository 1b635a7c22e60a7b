/**
 Demand usage of gen/usage.go: which flows need which demand. Each demand notes
 the flow it was recorded in and the demand it was recorded under; usage then
 spreads along those edges to a fixed point.
 */
module Usage {
  import opened Basics
  import opened Graphs

  type Demands<!K(==), F> = map<K, set<F>>

  function FlowsOf<K, F>(demands: Demands<K, F>, k: K): set<F> {
    if k in demands then demands[k] else {}
  }

  /** f was recorded at some demand from which k is reached. */
  ghost predicate Needed<K(!new), F>(edges: Graph<K>, demands: Demands<K, F>, k: K, f: F) {
    exists d :: f in FlowsOf(demands, d) && Reach(edges, d, k)
  }

  ghost predicate Sound<K(!new), F(!new)>(edges: Graph<K>, recorded: Demands<K, F>, demands: Demands<K, F>) {
    && (forall k, f {:trigger Needed(edges, recorded, k, f)} ::
          f in FlowsOf(demands, k) ==> Needed(edges, recorded, k, f))
    && (forall k :: FlowsOf(recorded, k) <= FlowsOf(demands, k))
  }

  /** Usage has reached every child of the parents in done. */
  ghost predicate Settled<K(!new), F>(edges: Graph<K>, demands: Demands<K, F>, done: set<K>) {
    forall p, c :: p in done && c in Succ(edges, p) ==> FlowsOf(demands, p) <= FlowsOf(demands, c)
  }

  /** At a fixed point usage is exactly what is needed. */
  lemma FixpointExact<K(!new), F(!new)>(edges: Graph<K>, recorded: Demands<K, F>, demands: Demands<K, F>)
    requires Sound(edges, recorded, demands) && Settled(edges, demands, edges.Keys)
    ensures forall k, f {:trigger Needed(edges, recorded, k, f)} ::
              f in FlowsOf(demands, k) <==> Needed(edges, recorded, k, f)
  {
    forall k, f {:trigger Needed(edges, recorded, k, f)} | Needed(edges, recorded, k, f)
      ensures f in FlowsOf(demands, k)
    {
      var d :| f in FlowsOf(recorded, d) && Reach(edges, d, k);
      var path: seq<K> :| IsPath(edges, path, d, k);
      FlowsAlong(edges, demands, path, |path| - 1, f);
    }
  }

  lemma {:induction false} FlowsAlong<K(!new), F>(edges: Graph<K>, demands: Demands<K, F>, path: seq<K>, i: nat, f: F)
    requires i < |path| && IsPath(edges, path, path[0], path[|path| - 1])
    requires Settled(edges, demands, edges.Keys) && f in FlowsOf(demands, path[0])
    ensures f in FlowsOf(demands, path[i])
  {
    if i > 0 { FlowsAlong(edges, demands, path, i - 1, f); }
  }

  lemma NeededChild<K(!new), F(!new)>(edges: Graph<K>, recorded: Demands<K, F>, p: K, c: K, f: F)
    requires Needed(edges, recorded, p, f) && c in Succ(edges, p)
    ensures Needed(edges, recorded, c, f)
  {
    var d :| f in FlowsOf(recorded, d) && Reach(edges, d, p);
    ReachEdge(edges, p, c);
    ReachTrans(edges, d, p, c);
  }

  lemma NeededSelf<K(!new), F(!new)>(edges: Graph<K>, recorded: Demands<K, F>)
    ensures forall k, f {:trigger Needed(edges, recorded, k, f)} ::
              f in FlowsOf(recorded, k) ==> Needed(edges, recorded, k, f)
  {
    forall k, f {:trigger Needed(edges, recorded, k, f)} | f in FlowsOf(recorded, k)
      ensures Needed(edges, recorded, k, f)
    {
      ReachRefl(edges, k);
    }
  }

  lemma SoundStep<K(!new), F(!new)>(edges: Graph<K>, recorded: Demands<K, F>, demands: Demands<K, F>, p: K, c: K)
    requires Sound(edges, recorded, demands) && c in Succ(edges, p)
    ensures Sound(edges, recorded, demands[c := FlowsOf(demands, c) + FlowsOf(demands, p)])
  {
    forall f {:trigger Needed(edges, recorded, c, f)} | f in FlowsOf(demands, p)
      ensures Needed(edges, recorded, c, f)
    {
      assert Needed(edges, recorded, p, f);
      NeededChild(edges, recorded, p, c, f);
    }
  }

  /** The demand/flow pairs that usage could still gain: bounded, since flows only spread along edges. */
  ghost function Room<K(!new), F(!new)>(edges: Graph<K>, recorded: Demands<K, F>, demands: Demands<K, F>): set<(K, F)> {
    set p, c, d, f | p in edges && c in edges[p] && d in recorded && f in recorded[d] &&
        f !in FlowsOf(demands, c) :: (c, f)
  }

  lemma RoomShrinks<K(!new), F(!new)>(edges: Graph<K>, recorded: Demands<K, F>, demands: Demands<K, F>, p: K, c: K)
    requires Sound(edges, recorded, demands) && c in Succ(edges, p) && !(FlowsOf(demands, p) <= FlowsOf(demands, c))
    ensures Room(edges, recorded, demands[c := FlowsOf(demands, c) + FlowsOf(demands, p)]) <
            Room(edges, recorded, demands)
  {
    var f :| f in FlowsOf(demands, p) && f !in FlowsOf(demands, c);
    assert Needed(edges, recorded, p, f);
    var d :| f in FlowsOf(recorded, d) && Reach(edges, d, p);
    var more := demands[c := FlowsOf(demands, c) + FlowsOf(demands, p)];
    assert (c, f) in Room(edges, recorded, demands);
    assert (c, f) !in Room(edges, recorded, more);
    forall x | x in Room(edges, recorded, more)
      ensures x in Room(edges, recorded, demands)
    {}
  }

  class DemandStore<K(==,!new), F(==,!new)> {
    var demands: Demands<K, F>
    var edges: Graph<K>

    constructor ()
      ensures demands == map[] && edges == map[]
    {
      demands, edges := map[], map[];
    }

    /** Notes the edge from the active demand, and the active flow; during validation or an epilogue there is none. */
    method Record(k: K, active: Option<K>, flow: Option<F>)
      modifies this
      ensures forall p, c :: c in Succ(edges, p) <==>
                c in old(Succ(edges, p)) || (active == Some(p) && p != k && c == k)
      ensures forall d, f :: f in FlowsOf(demands, d) <==> f in old(FlowsOf(demands, d)) || (d == k && flow == Some(f))
    {
      if active.Some? && active.value != k {
        edges := edges[active.value := Succ(edges, active.value) + {k}];
      }
      if flow.Some? {
        demands := demands[k := FlowsOf(demands, k) + {flow.value}];
      }
    }

    /** Spreads usage along the edges, in any order, until nothing changes. */
    method Propagate()
      modifies this`demands
      ensures forall k, f :: f in FlowsOf(demands, k) <==> Needed(edges, old(demands), k, f)
    {
      hide Needed, Room;
      ghost var recorded := demands;
      NeededSelf(edges, recorded);
      var changed := true;
      while changed
        invariant Sound(edges, recorded, demands)
        invariant !changed ==> Settled(edges, demands, edges.Keys)
        decreases Room(edges, recorded, demands), if changed then 1 else 0
      {
        ghost var room := Room(edges, recorded, demands);
        changed := false;
        var parents := edges.Keys;
        while parents != {}
          invariant parents <= edges.Keys && Sound(edges, recorded, demands)
          invariant !changed ==> Settled(edges, demands, edges.Keys - parents) && Room(edges, recorded, demands) == room
          invariant changed ==> Room(edges, recorded, demands) < room
          decreases parents
        {
          var parent :| parent in parents;
          parents := parents - {parent};
          var grew := Spread(parent, recorded);
          changed := changed || grew;
        }
      }
      FixpointExact(edges, recorded, demands);
    }

    /** Gives every child of a parent the parent's flows. */
    method Spread(parent: K, ghost recorded: Demands<K, F>) returns (grew: bool)
      requires parent in edges && Sound(edges, recorded, demands)
      modifies this`demands
      ensures Sound(edges, recorded, demands)
      ensures !grew
              ==> (forall k :: FlowsOf(demands, k) == old(FlowsOf(demands, k))) && Settled(edges, demands, {parent})
      ensures !grew ==> Room(edges, recorded, demands) == old(Room(edges, recorded, demands))
      ensures grew ==> Room(edges, recorded, demands) < old(Room(edges, recorded, demands))
    {
      hide Needed, Room, Sound;
      grew := false;
      var children := edges[parent];
      while children != {}
        invariant children <= edges[parent] && Sound(edges, recorded, demands)
        invariant !grew ==> demands == old(demands)
        invariant !grew ==> forall c :: c in edges[parent] - children ==>
                  FlowsOf(demands, parent) <= FlowsOf(demands, c)
        invariant grew ==> Room(edges, recorded, demands) < old(Room(edges, recorded, demands))
        decreases children
      {
        var child :| child in children;
        children := children - {child};
        if !(FlowsOf(demands, parent) <= FlowsOf(demands, child)) {
          SoundStep(edges, recorded, demands, parent, child);
          RoomShrinks(edges, recorded, demands, parent, child);
          demands := demands[child := FlowsOf(demands, child) + FlowsOf(demands, parent)];
          grew := true;
        }
      }
    }
  }
}
