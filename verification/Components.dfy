/**
 Strongly connected components of the asset dependency graph: Tarjan's search
 of assets/graph.go. This module proves what each move of the search keeps, on
 snapshots of its state; module AssetGraph holds the search itself.
 */
module Components {
  import opened Graphs

  /** The search state: numbers given out, nodes on the stack, components emitted and their union. */
  datatype Search<!T(==)> = Search(index: nat, indices: map<T, nat>, onStack: set<T>, done: set<T>, comps: seq<set<T>>)

  /** r is reachability in g. The search is reasoned about through r, so that a reachability fact stays one atom. */
  ghost predicate IsReach<T(!new)>(g: Graph<T>, r: (T, T) -> bool) {
    forall a, b {:trigger Reach(g, a, b)} :: r(a, b) <==> Reach(g, a, b)
  }

  ghost predicate Both<T>(r: (T, T) -> bool, a: T, b: T) {
    r(a, b) && r(b, a)
  }

  lemma RelRefl<T(!new)>(g: Graph<T>, r: (T, T) -> bool, a: T)
    requires IsReach(g, r)
    ensures r(a, a)
  {
    ReachRefl(g, a);
  }

  lemma RelEdge<T(!new)>(g: Graph<T>, r: (T, T) -> bool, a: T, b: T)
    requires IsReach(g, r) && b in Succ(g, a)
    ensures r(a, b)
  {
    ReachEdge(g, a, b);
  }

  lemma RelTrans<T(!new)>(g: Graph<T>, r: (T, T) -> bool, a: T, b: T, c: T)
    requires IsReach(g, r) && r(a, b) && r(b, c)
    ensures r(a, c)
  {
    assert Reach(g, a, b) && Reach(g, b, c);
    ReachTrans(g, a, b, c);
  }

  lemma RelClosed<T(!new)>(g: Graph<T>, r: (T, T) -> bool, s: set<T>, a: T, b: T)
    requires IsReach(g, r) && Closed(g, s) && a in s && r(a, b)
    ensures b in s
  {
    assert Reach(g, a, b);
    ReachClosed(g, s, a, b);
  }

  /** members is one whole class of mutual reachability. */
  ghost predicate IsComponent<T(!new)>(g: Graph<T>, r: (T, T) -> bool, members: set<T>) {
    && members != {}
    && (forall v, w :: v in members && w in members ==> Both(r, v, w))
    && (forall v, w :: v in members && Both(r, v, w) ==> w in members)
  }

  ghost predicate Emitted<T>(comps: seq<set<T>>, n: nat, v: T) {
    exists k :: 0 <= k < n && k < |comps| && v in comps[k]
  }

  /** Real components, pairwise disjoint, each after everything it depends on. */
  ghost predicate Emission<T(!new)>(g: Graph<T>, r: (T, T) -> bool, comps: seq<set<T>>) {
    && (forall k :: 0 <= k < |comps| ==> IsComponent(g, r, comps[k]))
    && (forall j, k :: 0 <= j < k < |comps| ==> comps[j] !! comps[k])
    && (forall k, v, w :: 0 <= k < |comps| && v in comps[k] && w in Succ(g, v) ==> Emitted(comps, k + 1, w))
  }

  ghost predicate Bookkeeping<T(!new)>(g: Graph<T>, s: Search<T>) {
    && s.indices.Keys == s.onStack + s.done && s.onStack !! s.done && s.indices.Keys <= g.Keys
    && (forall v :: v in s.indices ==> s.indices[v] < s.index)
    && (forall v, w :: v in s.indices && w in s.indices && s.indices[v] == s.indices[w] ==> v == w)
    && (forall v :: v in s.done <==> Emitted(s.comps, |s.comps|, v))
  }

  /** Some node still being visited has a number at most y's and is reached from y. */
  ghost predicate Anchored<T(!new)>(g: Graph<T>, r: (T, T) -> bool, s: Search<T>, grey: set<T>, y: T)
    requires y in s.indices && grey <= s.indices.Keys
  {
    exists x :: x in grey && s.indices[x] <= s.indices[y] && r(y, x)
  }

  /** What holds between the moves of the search; grey holds the nodes being visited. */
  ghost predicate Inv<T(!new)>(g: Graph<T>, r: (T, T) -> bool, s: Search<T>, grey: set<T>) {
    && Bookkeeping(g, s) && Emission(g, r, s.comps) && grey <= s.onStack && Closed(g, s.done)
    && (forall v {:trigger Succ(g, v)} :: v in s.onStack && v !in grey ==> Succ(g, v) <= s.indices.Keys)
    && (forall y {:trigger Anchored(g, r, s, grey, y)} :: y in s.onStack ==> Anchored(g, r, s, grey, y))
    && (forall x, y :: x in grey && y in s.onStack && s.indices[x] <= s.indices[y] ==> r(x, y))
  }

  lemma InvNumbers<T(!new)>(g: Graph<T>, r: (T, T) -> bool, s: Search<T>, grey: set<T>)
    requires Inv(g, r, s, grey)
    ensures s.onStack <= s.indices.Keys && grey <= s.onStack
    ensures forall v :: v in s.indices ==> s.indices[v] < s.index
  {}

  /** t continues s: numbers, stacked nodes and components are kept, and new numbers are larger. */
  ghost predicate Extends<T(!new)>(s: Search<T>, t: Search<T>) {
    && s.onStack <= t.onStack && s.comps <= t.comps && s.index <= t.index
    && (forall v :: v in s.indices ==> v in t.indices && t.indices[v] == s.indices[v])
    && (forall v :: v in t.indices && v !in s.indices ==> s.index <= t.indices[v])
  }

  /** low is the number of a stacked node that v reaches. */
  ghost predicate LowReached<T(!new)>(g: Graph<T>, r: (T, T) -> bool, s: Search<T>, v: T, low: nat) {
    exists y :: y in s.onStack && y in s.indices && s.indices[y] == low && r(v, y)
  }

  /** Edges from stacked nodes numbered from num on to stacked nodes below num end at low or above; of v's own edges
      only those in seen count. */
  ghost predicate NoneBelow<T>(g: Graph<T>, s: Search<T>, num: nat, v: T, seen: set<T>, low: nat)
    requires s.onStack <= s.indices.Keys
  {
    forall u, w :: u in s.onStack && w in s.onStack && w in Succ(g, u) && s.indices[w] < num <= s.indices[u] ==>
                     (u != v || w in seen) ==> low <= s.indices[w]
  }

  // ---- entering v ----

  function Pushed<T>(s: Search<T>, v: T): Search<T> {
    s.(index := s.index + 1, indices := s.indices[v := s.index], onStack := s.onStack + {v})
  }

  lemma PushInv<T(!new)>(g: Graph<T>, r: (T, T) -> bool, s: Search<T>, grey: set<T>, v: T)
    requires IsReach(g, r)
    requires Inv(g, r, s, grey) && v !in s.indices && v in g
    requires forall x :: x in grey ==> r(x, v)
    ensures Inv(g, r, Pushed(s, v), grey + {v}) && Extends(s, Pushed(s, v))
    ensures LowReached(g, r, Pushed(s, v), v, s.index)
    ensures NoneBelow(g, Pushed(s, v), s.index, v, {}, s.index)
  {
    RelRefl(g, r, v);
    var t := Pushed(s, v);
    forall y {:trigger Anchored(g, r, t, grey + {v}, y)} | y in t.onStack
      ensures Anchored(g, r, t, grey + {v}, y)
    {
      if y != v {
        assert Anchored(g, r, s, grey, y);
      }
    }
  }

  // ---- one neighbour w of v ----

  /** Between two neighbours of v, entered at s0: the search found nothing below low among v's neighbours seen so far
      and everything newly stacked, and low is the number of a stacked node that v reaches. */
  ghost predicate Ahead<T(!new)>(g: Graph<T>, r: (T, T) -> bool, s0: Search<T>, s: Search<T>, grey: set<T>, v: T,
                                 seen: set<T>, low: nat) {
    && Inv(g, r, s, grey + {v}) && Extends(s0, s) && v !in grey && v !in s0.indices && grey <= s0.onStack
    && v in s.onStack && v in s.indices && s.indices[v] == s0.index && low <= s0.index && seen <= s.indices.Keys
    && (forall x :: x in grey ==> x in s.indices && s.indices[x] < s0.index)
    && (forall u :: u in s.onStack && u in s0.indices ==> u in s0.onStack)
    && LowReached(g, r, s, v, low) && NoneBelow(g, s, s0.index, v, seen, low)
  }

  /** The effect of a whole visit of w that started at s and ended at t with result low. */
  ghost predicate Visited<T(!new)>(g: Graph<T>, r: (T, T) -> bool, s: Search<T>, t: Search<T>, grey: set<T>, w: T,
                                   low: nat) {
    && Inv(g, r, t, grey) && Extends(s, t) && w in t.indices
    && (forall u :: u in t.onStack && u in s.indices ==> u in s.onStack)
    && NoneBelow(g, t, s.index, w, Succ(g, w), low)
    && (low == t.indices[w] || LowReached(g, r, t, w, low))
  }

  lemma AheadInv<T(!new)>(g: Graph<T>, r: (T, T) -> bool, s0: Search<T>, s: Search<T>, grey: set<T>, v: T,
                          seen: set<T>, low: nat)
    requires Ahead(g, r, s0, s, grey, v, seen, low)
    ensures Inv(g, r, s, grey + {v}) && s.indices[v] == s0.index && low <= s0.index
  {}

  lemma AheadStart<T(!new)>(g: Graph<T>, r: (T, T) -> bool, s: Search<T>, grey: set<T>, v: T)
    requires IsReach(g, r) && Inv(g, r, s, grey) && v !in s.indices && v in g
    requires forall x :: x in grey ==> r(x, v)
    ensures Ahead(g, r, s, Pushed(s, v), grey, v, {}, s.index)
  {
    PushInv(g, r, s, grey, v);
  }

  /** Every grey node reaches any neighbour of v, so the neighbour may be visited. */
  lemma AheadReach<T(!new)>(g: Graph<T>, r: (T, T) -> bool, s0: Search<T>, s: Search<T>, grey: set<T>, v: T,
                            seen: set<T>, low: nat, w: T)
    requires IsReach(g, r) && Ahead(g, r, s0, s, grey, v, seen, low) && w in Succ(g, v)
    ensures forall x :: x in grey + {v} ==> r(x, w)
  {
    RelEdge(g, r, v, w);
    forall x | x in grey + {v}
      ensures r(x, w)
    {
      RelTrans(g, r, x, v, w);
    }
  }

  lemma AheadSeen<T(!new)>(g: Graph<T>, r: (T, T) -> bool, s0: Search<T>, s: Search<T>, grey: set<T>, v: T,
                           seen: set<T>, low: nat, w: T)
    requires IsReach(g, r) && Ahead(g, r, s0, s, grey, v, seen, low) && w in Succ(g, v) && w in s.indices
    ensures var low' := if w in s.onStack && s.indices[w] < low then s.indices[w] else low;
            Ahead(g, r, s0, s, grey, v, seen + {w}, low')
  {
    RelEdge(g, r, v, w);
  }

  lemma LowVisited<T(!new)>(g: Graph<T>, r: (T, T) -> bool, s: Search<T>, t: Search<T>, v: T, low: nat, w: T, wlow: nat)
    requires IsReach(g, r) && Extends(s, t) && w in Succ(g, v) && LowReached(g, r, s, v, low)
    requires wlow < low ==> LowReached(g, r, t, w, wlow)
    ensures LowReached(g, r, t, v, if wlow < low then wlow else low)
  {
    if wlow < low {
      RelEdge(g, r, v, w);
      var z :| z in t.onStack && z in t.indices && t.indices[z] == wlow && r(w, z);
      RelTrans(g, r, v, w, z);
    }
  }

  lemma NoneBelowVisited<T(!new)>(g: Graph<T>, s: Search<T>, t: Search<T>, num: nat, v: T, seen: set<T>, low: nat,
                                  w: T, wlow: nat)
    requires s.onStack <= s.indices.Keys && t.onStack <= t.indices.Keys && Extends(s, t) && num <= s.index
    requires forall u :: u in s.indices ==> s.indices[u] < s.index
    requires v in s.indices && w !in s.indices
    requires forall u :: u in t.onStack && u in s.indices ==> u in s.onStack
    requires NoneBelow(g, s, num, v, seen, low) && NoneBelow(g, t, s.index, w, Succ(g, w), wlow)
    requires w in t.indices && num <= t.indices[w]
    ensures NoneBelow(g, t, num, v, seen + {w}, if wlow < low then wlow else low)
  {
    var low' := if wlow < low then wlow else low;
    forall u, x | u in t.onStack && x in t.onStack && x in Succ(g, u) && t.indices[x] < num <= t.indices[u]
                  && (u != v || x in seen + {w})
      ensures low' <= t.indices[x]
    {
      assert x in s.indices;
    }
  }

  lemma AheadVisited<T(!new)>(g: Graph<T>, r: (T, T) -> bool, s0: Search<T>, s: Search<T>, t: Search<T>, grey: set<T>,
                              v: T, seen: set<T>, low: nat, w: T, wlow: nat)
    requires IsReach(g, r) && Ahead(g, r, s0, s, grey, v, seen, low) && w in Succ(g, v) && w !in s.indices
    requires Visited(g, r, s, t, grey + {v}, w, wlow)
    ensures Ahead(g, r, s0, t, grey, v, seen + {w}, if wlow < low then wlow else low)
  {
    LowVisited(g, r, s, t, v, low, w, wlow);
    NoneBelowVisited(g, s, t, s0.index, v, seen, low, w, wlow);
  }

  // ---- leaving v ----

  /** v reaches a lower node: it stays on the stack and is no longer grey. */
  lemma LeaveInv<T(!new)>(g: Graph<T>, r: (T, T) -> bool, s: Search<T>, grey: set<T>, v: T, low: nat)
    requires IsReach(g, r)
    requires Inv(g, r, s, grey + {v}) && v !in grey && Succ(g, v) <= s.indices.Keys
    requires LowReached(g, r, s, v, low) && low < s.indices[v]
    ensures Inv(g, r, s, grey)
  {
    var z :| z in s.onStack && s.indices[z] == low && r(v, z);
    assert Anchored(g, r, s, grey + {v}, z);
    var a :| a in grey + {v} && s.indices[a] <= s.indices[z] && r(z, a);
    RelTrans(g, r, v, z, a);
    forall y {:trigger Anchored(g, r, s, grey, y)} | y in s.onStack
      ensures Anchored(g, r, s, grey, y)
    {
      assert Anchored(g, r, s, grey + {v}, y);
      var x :| x in grey + {v} && s.indices[x] <= s.indices[y] && r(y, x);
      if x == v { RelTrans(g, r, y, v, a); }
    }
  }

  /** The stacked nodes numbered from num on. */
  function Segment<T(!new)>(s: Search<T>, num: nat): set<T> {
    set y | y in s.onStack && y in s.indices && num <= s.indices[y]
  }

  function Popped<T(!new)>(s: Search<T>, num: nat): Search<T> {
    var seg := Segment(s, num);
    s.(onStack := s.onStack - seg, done := s.done + seg, comps := s.comps + [seg])
  }

  /** v is the root of its component: nothing visited from v on leads below v. */
  ghost predicate AtRoot<T(!new)>(g: Graph<T>, r: (T, T) -> bool, s: Search<T>, grey: set<T>, v: T) {
    && Inv(g, r, s, grey + {v}) && v in s.onStack
    && (forall x :: x in grey ==> s.indices[x] < s.indices[v])
    && Succ(g, v) <= s.indices.Keys
    && NoneBelow(g, s, s.indices[v], v, Succ(g, v), s.indices[v])
  }

  lemma RootClosed<T(!new)>(g: Graph<T>, r: (T, T) -> bool, s: Search<T>, grey: set<T>, v: T)
    requires IsReach(g, r)
    requires AtRoot(g, r, s, grey, v)
    ensures Closed(g, s.done + Segment(s, s.indices[v]))
  {}

  lemma SegmentMutual<T(!new)>(g: Graph<T>, r: (T, T) -> bool, s: Search<T>, grey: set<T>, v: T, y: T)
    requires IsReach(g, r)
    requires AtRoot(g, r, s, grey, v) && y in Segment(s, s.indices[v])
    ensures Both(r, v, y)
  {
    assert Anchored(g, r, s, grey + {v}, y);
    var x :| x in grey + {v} && s.indices[x] <= s.indices[y] && r(y, x);
    assert r(x, v);
    RelTrans(g, r, y, x, v);
  }

  lemma SegmentComponent<T(!new)>(g: Graph<T>, r: (T, T) -> bool, s: Search<T>, grey: set<T>, v: T)
    requires IsReach(g, r)
    requires AtRoot(g, r, s, grey, v)
    ensures IsComponent(g, r, Segment(s, s.indices[v]))
  {
    var members := Segment(s, s.indices[v]);
    assert v in members;
    forall x, y | x in members && y in members
      ensures Both(r, x, y)
    {
      SegmentMutual(g, r, s, grey, v, x);
      SegmentMutual(g, r, s, grey, v, y);
      RelTrans(g, r, x, v, y);
      RelTrans(g, r, y, v, x);
    }
    forall x, w | x in members && Both(r, x, w)
      ensures w in members
    {
      RootClosed(g, r, s, grey, v);
      RelClosed(g, r, s.done + members, x, w);
      if w in s.done { RelClosed(g, r, s.done, w, x); }
    }
  }

  lemma EmittedMore<T>(comps: seq<set<T>>, c: set<T>, n: nat, v: T)
    ensures n <= |comps| ==> (Emitted(comps + [c], n, v) <==> Emitted(comps, n, v))
    ensures Emitted(comps + [c], |comps| + 1, v) <==> Emitted(comps, |comps|, v) || v in c
  {
    if v in c { assert (comps + [c])[|comps|] == c; }
    if Emitted(comps, |comps|, v) {
      var k :| 0 <= k < |comps| && v in comps[k];
      assert v in (comps + [c])[k];
    }
    if Emitted(comps, n, v) {
      var k :| 0 <= k < n && k < |comps| && v in comps[k];
      assert v in (comps + [c])[k];
    }
  }

  lemma PopEmission<T(!new)>(g: Graph<T>, r: (T, T) -> bool, s: Search<T>, grey: set<T>, v: T)
    requires IsReach(g, r)
    requires AtRoot(g, r, s, grey, v)
    ensures Emission(g, r, Popped(s, s.indices[v]).comps)
  {
    var seg := Segment(s, s.indices[v]);
    var comps := s.comps + [seg];
    SegmentComponent(g, r, s, grey, v);
    forall j, k | 0 <= j < k < |comps|
      ensures comps[j] !! comps[k]
    {
      if k == |s.comps| {
        forall u | u in comps[j]
          ensures u !in seg
        {
          assert Emitted(s.comps, |s.comps|, u);
        }
      }
    }
    forall k, u, w | 0 <= k < |comps| && u in comps[k] && w in Succ(g, u)
      ensures Emitted(comps, k + 1, w)
    {
      EmittedMore(s.comps, seg, k + 1, w);
      if k == |s.comps| { RootClosed(g, r, s, grey, v); }
    }
  }

  /** Popping at a root emits exactly one component and restores the invariant without v. */
  lemma PopInv<T(!new)>(g: Graph<T>, r: (T, T) -> bool, s: Search<T>, grey: set<T>, v: T)
    requires IsReach(g, r)
    requires AtRoot(g, r, s, grey, v)
    ensures Inv(g, r, Popped(s, s.indices[v]), grey)
  {
    var t := Popped(s, s.indices[v]);
    PopEmission(g, r, s, grey, v);
    RootClosed(g, r, s, grey, v);
    forall u
      ensures u in t.done <==> Emitted(t.comps, |t.comps|, u)
    {
      EmittedMore(s.comps, Segment(s, s.indices[v]), 0, u);
    }
    forall y {:trigger Anchored(g, r, t, grey, y)} | y in t.onStack
      ensures Anchored(g, r, t, grey, y)
    {
      assert Anchored(g, r, s, grey + {v}, y);
    }
  }

  /** All neighbours seen and v reaches below itself: the visit ends with v on the stack. */
  lemma VisitedOpen<T(!new)>(g: Graph<T>, r: (T, T) -> bool, s0: Search<T>, s: Search<T>, grey: set<T>, v: T, low: nat)
    requires IsReach(g, r) && Ahead(g, r, s0, s, grey, v, Succ(g, v), low) && low < s0.index
    ensures Visited(g, r, s0, s, grey, v, low)
  {
    LeaveInv(g, r, s, grey, v, low);
  }

  /** All neighbours seen and nothing below v found: the visit ends by emitting v's component. */
  lemma VisitedClosed<T(!new)>(g: Graph<T>, r: (T, T) -> bool, s0: Search<T>, s: Search<T>, grey: set<T>, v: T)
    requires IsReach(g, r) && Ahead(g, r, s0, s, grey, v, Succ(g, v), s0.index)
    requires s0.onStack <= s0.indices.Keys && forall x :: x in s0.indices ==> s0.indices[x] < s0.index
    ensures Visited(g, r, s0, Popped(s, s0.index), grey, v, s0.index)
  {
    assert AtRoot(g, r, s, grey, v);
    PopInv(g, r, s, grey, v);
  }

  /** With nothing left to visit the stack is empty, and what was visited is closed. */
  lemma Finished<T(!new)>(g: Graph<T>, r: (T, T) -> bool, s: Search<T>)
    requires Inv(g, r, s, {})
    ensures s.onStack == {} && s.done == s.indices.Keys && Closed(g, s.done)
  {
    forall y
      ensures y !in s.onStack
    {
      assert y in s.onStack ==> Anchored(g, r, s, {}, y);
    }
  }
}
