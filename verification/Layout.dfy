/**
 Block layout of gen/render.go: one phase's nodes are emitted in blocks of
 related nodes. Dependencies and the order inside a batch are hard constraints;
 affinity decides which ready node continues the current block, and source
 anchors break ties. Affinity scores and the anchor order are parameters.
 */
module Layout {
  import opened Basics
  import opened Graphs
  import opened Sorting
  import opened GenNodes
  import opened PhaseCycles

  const BLOCK_MAX: nat := 10
  const AFFINITY_THRESHOLD: int := 40

  // ---- batches ----

  datatype Slot = Slot(seqNo: int, ix: nat)

  predicate BySeq(a: Slot, b: Slot) { a.seqNo <= b.seqNo }

  /** Sequence number first, emission order among equals. */
  predicate Before(a: Slot, b: Slot) { a.seqNo < b.seqNo || (a.seqNo == b.seqNo && a.ix < b.ix) }

  ghost predicate InBatch(nodes: seq<Node>, b: string, s: Slot) {
    s.ix < |nodes| && nodes[s.ix].batch == Some(b) && nodes[s.ix].seqNo == s.seqNo
  }

  /** The members of batch b from node n on, in emission order. */
  function Batch(nodes: seq<Node>, b: string, n: nat): (r: seq<Slot>)
    requires n <= |nodes|
    ensures forall s :: s in r <==> n <= s.ix && InBatch(nodes, b, s)
    ensures forall i, j :: 0 <= i < j < |r| ==> r[i].ix < r[j].ix
    decreases |nodes| - n
  {
    if n == |nodes| then []
    else if nodes[n].batch == Some(b) then [Slot(nodes[n].seqNo, n)] + Batch(nodes, b, n + 1)
    else Batch(nodes, b, n + 1)
  }

  /** sort.SliceStable on the sequence numbers of a batch. */
  function BatchOrder(nodes: seq<Node>, b: string): seq<Slot> {
    Sort(Batch(nodes, b, 0), BySeq)
  }

  /** Stability: equal sequence numbers stay in emission order. */
  lemma {:induction false} SortStable(s: seq<Slot>)
    requires forall i, j :: 0 <= i < j < |s| ==> s[i].ix < s[j].ix
    ensures SortedBy(Sort(s, BySeq), Before)
    ensures forall x :: x in Sort(s, BySeq) <==> x in s
  {
    if s != [] {
      SortStable(s[1..]);
      InsertStable(s[0], Sort(s[1..], BySeq));
    }
    forall x
      ensures x in Sort(s, BySeq) <==> x in s
    {
      InMultiset(Sort(s, BySeq), s, x);
    }
  }

  lemma {:induction false} InsertStable(x: Slot, s: seq<Slot>)
    requires SortedBy(s, Before) && forall y :: y in s ==> x.ix < y.ix
    ensures SortedBy(Insert(x, s, BySeq), Before)
  {
    if s != [] && !BySeq(x, s[0]) {
      InsertStable(x, s[1..]);
      var r := Insert(x, s[1..], BySeq);
      forall i | 0 <= i < |r|
        ensures Before(s[0], r[i])
      {
        assert r[i] in multiset(r);
        if r[i] != x { assert r[i] in s[1..]; }
      }
    }
  }

  lemma BatchOrdered(nodes: seq<Node>, b: string)
    ensures SortedBy(BatchOrder(nodes, b), Before)
    ensures forall s :: s in BatchOrder(nodes, b) <==> InBatch(nodes, b, s)
  {
    SortStable(Batch(nodes, b, 0));
  }

  /** j directly precedes i in a batch. */
  ghost predicate BatchPrevious(nodes: seq<Node>, i: nat, j: nat) {
    && i < |nodes| && nodes[i].batch.Some?
    && var ids := BatchOrder(nodes, nodes[i].batch.value);
       exists k, m :: 0 <= k < m < |ids| && m == k + 1 && ids[k].ix == j && ids[m].ix == i
  }

  /** What node i waits for. */
  ghost predicate WaitsFor(nodes: seq<Node>, i: nat, j: nat) {
    DependsOn(nodes, i, j) || BatchPrevious(nodes, i, j)
  }

  ghost function LayoutGraph(nodes: seq<Node>): Graph<nat> {
    map i: nat {:trigger nodes[i]} | i < |nodes| :: set j: nat | j < |nodes| && WaitsFor(nodes, i, j)
  }

  ghost predicate WaitLists(nodes: seq<Node>, deps: seq<seq<nat>>) {
    |deps| == |nodes| && InRange(deps)
    && forall i: nat, j: nat :: i < |nodes| ==> (j in deps[i] <==> WaitsFor(nodes, i, j))
  }

  method Batches(nodes: seq<Node>) returns (names: set<string>)
    ensures forall b :: b in names <==> exists i :: 0 <= i < |nodes| && nodes[i].batch == Some(b)
  {
    names := {};
    for i := 0 to |nodes|
      invariant forall b :: b in names <==> exists k :: 0 <= k < i && nodes[k].batch == Some(b)
    {
      if nodes[i].batch.Some? { names := names + {nodes[i].batch.value}; }
    }
  }

  /** Chains each batch: every member waits for the one before it. */
  method ChainBatches(nodes: seq<Node>, deps0: seq<seq<nat>>) returns (deps: seq<seq<nat>>)
    requires DependencyLists(nodes, deps0) && InRange(deps0)
    ensures WaitLists(nodes, deps)
  {
    deps := deps0;
    var names := Batches(nodes);
    ghost var all := names;
    while names != {}
      invariant names <= all && |deps| == |nodes| && InRange(deps)
      invariant forall i: nat, j: nat {:trigger j in deps[i]} :: i < |nodes| ==>
                  (j in deps[i] <==>
                     DependsOn(nodes, i, j) || (BatchPrevious(nodes, i, j) && nodes[i].batch.value in all - names))
      decreases names
    {
      var b :| b in names;
      ghost var left := names;
      names := names - {b};
      var was := deps;
      deps := ChainBatch(nodes, b, deps);
      forall i: nat, j: nat | i < |nodes|
        ensures j in deps[i]
                <==> DependsOn(nodes, i, j) || (BatchPrevious(nodes, i, j) && nodes[i].batch.value in all - names)
      {
        assert j in was[i]
               <==> DependsOn(nodes, i, j) || (BatchPrevious(nodes, i, j) && nodes[i].batch.value in all - left);
      }
    }
  }

  method ChainBatch(nodes: seq<Node>, b: string, deps0: seq<seq<nat>>) returns (deps: seq<seq<nat>>)
    requires |deps0| == |nodes| && InRange(deps0)
    ensures |deps| == |nodes| && InRange(deps)
    ensures forall i: nat, j: nat {:trigger j in deps[i]} :: i < |nodes| ==>
              (j in deps[i] <==> j in deps0[i] || (nodes[i].batch == Some(b) && BatchPrevious(nodes, i, j)))
  {
    var ids := BatchOrder(nodes, b);
    BatchOrdered(nodes, b);
    hide SortedBy, BatchOrder, Chained, BatchPrevious;
    deps := deps0;
    assert forall i: nat, j: nat :: !Chained(ids, 1, i, j) by { ChainedNone(ids); }
    if |ids| > 0 {
      for k := 1 to |ids|
        invariant |deps| == |nodes| && InRange(deps)
        invariant forall i: nat, j: nat {:trigger j in deps[i]} :: i < |nodes| ==>
                    (j in deps[i] <==> j in deps0[i] || Chained(ids, k, i, j))
      {
        var prev, next := ids[k - 1].ix, ids[k].ix;
        assert ids[k - 1] in ids && ids[k] in ids;
        ghost var was := deps;
        deps := deps[next := deps[next] + [prev]];
        forall i: nat, j: nat {:trigger j in deps[i]} | i < |nodes|
          ensures j in deps[i] <==> j in deps0[i] || Chained(ids, k + 1, i, j)
        {
          assert j in deps[i] <==> j in was[i] || (i == next && j == prev);
          ChainedNext(ids, k, i, j);
        }
      }
    }
    forall i: nat, j: nat | i < |nodes|
      ensures Chained(ids, |ids|, i, j) <==> nodes[i].batch == Some(b) && BatchPrevious(nodes, i, j)
    {
      ChainedAll(nodes, b, i, j);
    }
    if |ids| == 0 { ChainedNone(ids); }
  }

  lemma ChainedNone(ids: seq<Slot>)
    ensures forall i: nat, j: nat :: !Chained(ids, 1, i, j)
    ensures forall i: nat, j: nat :: !Chained(ids, 0, i, j)
  {}

  lemma ChainedNext(ids: seq<Slot>, k: nat, i: nat, j: nat)
    requires 1 <= k < |ids|
    ensures Chained(ids, k + 1, i, j) <==> Chained(ids, k, i, j) || (i == ids[k].ix && j == ids[k - 1].ix)
  {
    if i == ids[k].ix && j == ids[k - 1].ix {
      var a := k - 1;
      assert ids[a].ix == j;
    }
  }

  lemma ChainedAll(nodes: seq<Node>, b: string, i: nat, j: nat)
    requires i < |nodes|
    ensures Chained(BatchOrder(nodes, b), |BatchOrder(nodes, b)|, i, j) <==>
            nodes[i].batch == Some(b) && BatchPrevious(nodes, i, j)
  {
    BatchOrdered(nodes, b);
    var ids := BatchOrder(nodes, b);
    hide SortedBy, BatchOrder;
    if Chained(ids, |ids|, i, j) {
      var a, m :| 0 <= a < m < |ids| && m == a + 1 && ids[a].ix == j && ids[m].ix == i;
      assert ids[m] in ids;
    }
  }

  ghost predicate Chained(ids: seq<Slot>, k: int, i: nat, j: nat) {
    exists a, b :: 0 <= a < b < |ids| && b == a + 1 && b < k && ids[a].ix == j && ids[b].ix == i
  }

  // ---- the greedy choice ----

  ghost predicate Ready(deps: seq<seq<nat>>, done: seq<nat>, i: nat) {
    i < |deps| && i !in done && forall j :: j in deps[i] ==> j in done
  }

  /** What the next pick is taken from: the ready nodes, or if there are none the first one left. */
  ghost predicate Candidate(deps: seq<seq<nat>>, done: seq<nat>, i: nat) {
    if exists k: nat :: Ready(deps, done, k) then Ready(deps, done, i)
    else i < |deps| && i !in done && forall k: nat :: k < i ==> k in done
  }

  /** The strongest affinity of i to a node of the block. */
  function Affinity(affinity: (nat, nat) -> int, block: seq<nat>, i: nat): (a: nat)
    ensures forall j :: j in block ==> affinity(i, j) <= a
    ensures a == 0 || exists j :: j in block && affinity(i, j) == a
  {
    if block == [] then 0 else
      var a := Affinity(affinity, block[..|block| - 1], i);
      var last := block[|block| - 1];
      assert block == block[..|block| - 1] + [last];
      if affinity(i, last) > a then affinity(i, last) else a
  }

  datatype Context = Context(affinity: (nat, nat) -> int, anchor: nat -> int)

  predicate Affine(c: Context, block: seq<nat>, i: nat) {
    Affinity(c.affinity, block, i) >= AFFINITY_THRESHOLD
  }

  /** b may still take a node, and some candidate is close enough. */
  ghost predicate Extends(c: Context, deps: seq<seq<nat>>, done: seq<nat>, block: seq<nat>) {
    0 < |block| < BLOCK_MAX && exists i: nat :: Candidate(deps, done, i) && Affine(c, block, i)
  }

  /** i comes no later than k by affinity to the block, then anchor. */
  predicate Closer(c: Context, block: seq<nat>, i: nat, k: nat) {
    var a, b := Affinity(c.affinity, block, i), Affinity(c.affinity, block, k);
    a > b || (a == b && c.anchor(i) <= c.anchor(k))
  }

  /** The pick that continues the block: a close candidate, and none is closer. */
  ghost predicate Joins(c: Context, deps: seq<seq<nat>>, done: seq<nat>, block: seq<nat>, i: nat) {
    && 0 < |block| < BLOCK_MAX && Candidate(deps, done, i) && Affine(c, block, i)
    && forall k: nat :: Candidate(deps, done, k) && Affine(c, block, k) ==> Closer(c, block, i, k)
  }

  /** The pick that opens a block: the previous one cannot go on, and no candidate has an earlier anchor. */
  ghost predicate Opens(c: Context, deps: seq<seq<nat>>, done: seq<nat>, previous: seq<nat>, i: nat) {
    && !Extends(c, deps, done, previous) && Candidate(deps, done, i)
    && forall k: nat :: Candidate(deps, done, k) ==> c.anchor(i) <= c.anchor(k)
  }

  method CollectReady(deps: seq<seq<nat>>, emitted: seq<bool>, ghost done: seq<nat>)
      returns (ready: seq<nat>, ghost fellBack: bool)
    requires InRange(deps) && |emitted| == |deps| && forall i: nat :: i < |deps| ==> (emitted[i] <==> i in done)
    requires exists i: nat :: i < |deps| && i !in done
    ensures ready != [] && forall i: nat :: i in ready <==> Candidate(deps, done, i)
    ensures fellBack <==> forall i: nat :: !Ready(deps, done, i)
  {
    ready := [];
    for i := 0 to |deps|
      invariant forall k: nat :: k in ready <==> k < i && Ready(deps, done, k)
    {
      if !emitted[i] {
        var ok := true;
        for m := 0 to |deps[i]|
          invariant ok <==> forall n :: 0 <= n < m ==> deps[i][n] in done
        {
          if !emitted[deps[i][m]] { ok := false; }
        }
        assert ok <==> Ready(deps, done, i);
        if ok { ready := ready + [i]; }
      }
    }
    fellBack := |ready| == 0;
    if |ready| == 0 {
      var i := 0;
      while emitted[i]
        invariant i <= |deps| && forall k: nat :: k < i ==> k in done
        invariant i < |deps|
        decreases |deps| - i
      {
        i := i + 1;
      }
      ready := [i];
    } else {
      assert ready[0] in ready && Ready(deps, done, ready[0]);
    }
  }

  method PickClose(c: Context, ready: seq<nat>, block: seq<nat>) returns (pick: Option<nat>)
    ensures pick.None? ==> forall i :: i in ready ==> !Affine(c, block, i)
    ensures pick.Some? ==> pick.value in ready && Affine(c, block, pick.value)
    ensures pick.Some? ==> forall k :: k in ready && Affine(c, block, k) ==> Closer(c, block, pick.value, k)
  {
    pick := None;
    var best := 0;
    for k := 0 to |ready|
      invariant pick.None? ==> forall i :: i in ready[..k] ==> !Affine(c, block, i)
      invariant pick.Some? ==> pick.value in ready && Affine(c, block, pick.value)
      invariant pick.Some? ==> best == Affinity(c.affinity, block, pick.value)
      invariant pick.Some? ==> forall i :: i in ready[..k] && Affine(c, block, i) ==> Closer(c, block, pick.value, i)
    {
      var i := ready[k];
      var aff := Affinity(c.affinity, block, i);
      assert ready[..k + 1] == ready[..k] + [i];
      if aff >= AFFINITY_THRESHOLD {
        if pick.None? || aff > best || (aff == best && c.anchor(i) < c.anchor(pick.value)) {
          pick, best := Some(i), aff;
        }
      }
    }
    assert ready[..|ready|] == ready;
  }

  method PickFirst(c: Context, ready: seq<nat>) returns (pick: nat)
    requires ready != []
    ensures pick in ready && forall k :: k in ready ==> c.anchor(pick) <= c.anchor(k)
  {
    pick := ready[0];
    for k := 1 to |ready|
      invariant pick in ready && forall i :: i in ready[..k] ==> c.anchor(pick) <= c.anchor(i)
    {
      assert ready[..k + 1] == ready[..k] + [ready[k]];
      if c.anchor(ready[k]) < c.anchor(pick) { pick := ready[k]; }
    }
    assert ready[..|ready|] == ready;
  }

  // ---- blocks ----

  function Flatten(blocks: seq<seq<nat>>): seq<nat> {
    if blocks == [] then [] else Flatten(blocks[..|blocks| - 1]) + blocks[|blocks| - 1]
  }

  /** Node k of block b was the right pick at its point. */
  ghost predicate PickedAt(c: Context, deps: seq<seq<nat>>, blocks: seq<seq<nat>>, b: nat, k: nat)
    requires b < |blocks| && k < |blocks[b]|
  {
    var done := Flatten(blocks[..b]) + blocks[b][..k];
    if k > 0 then Joins(c, deps, done, blocks[b][..k], blocks[b][k])
    else Opens(c, deps, done, if b > 0 then blocks[b - 1] else [], blocks[b][k])
  }

  /** Every node was the right pick at its point, so the blocks are determined up to ties. */
  ghost predicate Greedy(c: Context, deps: seq<seq<nat>>, blocks: seq<seq<nat>>) {
    && (forall b :: 0 <= b < |blocks| ==> 0 < |blocks[b]| <= BLOCK_MAX)
    && forall b: nat, k: nat {:trigger PickedAt(c, deps, blocks, b, k)} :: b < |blocks| && k < |blocks[b]| ==>
        PickedAt(c, deps, blocks, b, k)
  }

  lemma GreedyOpens(c: Context, deps: seq<seq<nat>>, blocks: seq<seq<nat>>, i: nat)
    requires Greedy(c, deps, blocks)
    requires Opens(c, deps, Flatten(blocks), if blocks == [] then [] else blocks[|blocks| - 1], i)
    ensures Greedy(c, deps, blocks + [[i]]) && Flatten(blocks + [[i]]) == Flatten(blocks) + [i]
  {
    hide Opens, Joins;
    var more := blocks + [[i]];
    assert more[..|blocks|] == blocks;
    forall b: nat, k: nat {:trigger PickedAt(c, deps, more, b, k)} | b < |more| && k < |more[b]|
      ensures PickedAt(c, deps, more, b, k)
    {
      if b < |blocks| {
        assert PickedAt(c, deps, blocks, b, k);
        assert more[..b] == blocks[..b] && more[b] == blocks[b];
      } else {
        assert k == 0 && more[b][..0] == [];
        assert Flatten(blocks) + [] == Flatten(blocks);
      }
    }
  }

  lemma GreedyJoins(c: Context, deps: seq<seq<nat>>, closed: seq<seq<nat>>, block: seq<nat>, i: nat)
    requires Greedy(c, deps, closed + [block]) && Joins(c, deps, Flatten(closed + [block]), block, i)
    ensures Greedy(c, deps, closed + [block + [i]])
    ensures Flatten(closed + [block]) == Flatten(closed) + block
    ensures Flatten(closed + [block + [i]]) == Flatten(closed + [block]) + [i]
  {
    assert 0 < |block| < BLOCK_MAX;
    hide Opens, Joins;
    var was, now := closed + [block], closed + [block + [i]];
    assert was[..|closed|] == closed && now[..|closed|] == closed;
    forall b: nat, k: nat {:trigger PickedAt(c, deps, now, b, k)} | b < |now| && k < |now[b]|
      ensures PickedAt(c, deps, now, b, k)
    {
      assert now[..b] == was[..b];
      if k < |was[b]| {
        assert PickedAt(c, deps, was, b, k);
        assert now[b][..k] == was[b][..k] && now[b][k] == was[b][k];
      } else {
        assert now[b][..k] == block && now[b][k] == i;
      }
    }
  }

  /** Everything a node waits for comes before it. */
  ghost predicate InDependencyOrder(g: Graph<nat>, order: seq<nat>) {
    forall k: nat {:trigger order[k]} :: k < |order| ==> forall j :: j in Succ(g, order[k]) ==> j in order[..k]
  }

  lemma OrderExtends(g: Graph<nat>, order: seq<nat>, i: nat)
    requires InDependencyOrder(g, order) && forall j :: j in Succ(g, i) ==> j in order
    ensures InDependencyOrder(g, order + [i])
  {
    var more := order + [i];
    forall k: nat {:trigger more[k]} | k < |more|
      ensures forall j :: j in Succ(g, more[k]) ==> j in more[..k]
    {
      assert more[..k] == order[..k];
      assert order[..|order|] == order;
    }
  }

  /** An order that puts everything after what it waits for shows that there is no cycle. */
  lemma OrderWellFounded(g: Graph<nat>, order: seq<nat>)
    requires InDependencyOrder(g, order) && forall i :: i in g ==> i in order
    ensures WellFounded(g)
  {
    forall s: set<nat> {:trigger HasMinimal(g, s)} | s != {}
      ensures HasMinimal(g, s)
    {
      if m :| m in s && m !in g {
        assert Minimal(g, s, m);
      } else {
        var x :| x in s;
        var k :| 0 <= k < |order| && order[k] == x;
        Earliest(g, order, s, k);
      }
    }
  }

  lemma {:induction false} Earliest(g: Graph<nat>, order: seq<nat>, s: set<nat>, k: nat)
    requires InDependencyOrder(g, order) && k < |order| && order[k] in s
    ensures HasMinimal(g, s)
  {
    if j :| j in Succ(g, order[k]) && j in s {
      var m :| 0 <= m < k && order[..k][m] == j;
      Earliest(g, order, s, m);
    } else {
      assert Minimal(g, s, order[k]);
    }
  }

  /** With nothing ready and something left, what is left waits for itself. */
  lemma StuckIsCyclic(g: Graph<nat>, deps: seq<seq<nat>>, done: seq<nat>)
    requires g == GraphOf(deps) && InRange(deps)
    requires (exists i: nat :: i < |deps| && i !in done) && forall i: nat :: !Ready(deps, done, i)
    ensures !WellFounded(g)
  {
    var rest := set i: nat | i < |deps| && i !in done;
    var x: nat :| x < |deps| && x !in done;
    assert x in rest;
    forall m | m in rest
      ensures !Minimal(g, rest, m)
    {
      assert !Ready(deps, done, m);
      var j :| j in deps[m] && j !in done;
      assert j in Succ(g, m) && j in rest;
    }
    assert !HasMinimal(g, rest);
  }

  ghost predicate Arranges(order: seq<nat>, n: nat) {
    Distinct(order) && forall i: nat :: i in order <==> i < n
  }

  /** layout: all nodes once, in blocks of at most ten, greedily. Without a cycle everything a node waits for comes
      first; the fallback to emission order is taken exactly when there is a cycle. */
  method Lay(nodes: seq<Node>, c: Context) returns (blocks: seq<seq<nat>>, ghost fellBack: bool)
    ensures Arranges(Flatten(blocks), |nodes|)
    ensures forall b :: b in blocks ==> 0 < |b| <= BLOCK_MAX
    ensures exists deps :: WaitLists(nodes, deps) && Greedy(c, deps, blocks)
    ensures fellBack <==> !Acyclic(LayoutGraph(nodes))
    ensures !fellBack ==> InDependencyOrder(LayoutGraph(nodes), Flatten(blocks))
  {
    var direct := Dependencies(nodes);
    var deps := ChainBatches(nodes, direct);
    WaitGraph(nodes, deps);
    WellFoundedIffAcyclic(LayoutGraph(nodes));
    hide WaitLists, Acyclic, WellFounded, LayoutGraph, InDependencyOrder, Arranges;
    assert |deps| == |nodes| && InRange(deps) by { WaitShape(nodes, deps); }
    blocks, fellBack := LayBlocks(deps, c);
    if !fellBack { LaidWellFounded(nodes, Flatten(blocks)); }
    BlockSizes(c, deps, blocks);
  }

  lemma WaitShape(nodes: seq<Node>, deps: seq<seq<nat>>)
    requires WaitLists(nodes, deps)
    ensures |deps| == |nodes| && InRange(deps)
  {}

  lemma BlockSizes(c: Context, deps: seq<seq<nat>>, blocks: seq<seq<nat>>)
    requires Greedy(c, deps, blocks)
    ensures forall b :: b in blocks ==> 0 < |b| <= BLOCK_MAX
  {}

  lemma LaidWellFounded(nodes: seq<Node>, order: seq<nat>)
    requires Arranges(order, |nodes|) && InDependencyOrder(LayoutGraph(nodes), order)
    ensures WellFounded(LayoutGraph(nodes))
  {
    forall i | i in LayoutGraph(nodes)
      ensures i in order
    {
      assert i < |nodes|;
    }
    OrderWellFounded(LayoutGraph(nodes), order);
  }

  lemma WaitGraph(nodes: seq<Node>, deps: seq<seq<nat>>)
    requires WaitLists(nodes, deps)
    ensures GraphOf(deps) == LayoutGraph(nodes)
  {
    forall i: nat | i < |nodes|
      ensures GraphOf(deps)[i] == LayoutGraph(nodes)[i]
    {
      forall j: nat
        ensures j in GraphOf(deps)[i] <==> j in LayoutGraph(nodes)[i]
      {
        assert j in deps[i] <==> WaitsFor(nodes, i, j);
      }
    }
  }

  method LayBlocks(deps: seq<seq<nat>>, c: Context) returns (blocks: seq<seq<nat>>, ghost fellBack: bool)
    requires InRange(deps)
    ensures Arranges(Flatten(blocks), |deps|) && Greedy(c, deps, blocks)
    ensures fellBack ==> !WellFounded(GraphOf(deps))
    ensures !fellBack ==> InDependencyOrder(GraphOf(deps), Flatten(blocks))
  {
    hide Greedy, Joins, Opens, InDependencyOrder, WellFounded, Affine, Closer, Extends, Distinct, Flatten, Ready;
    assert Distinct<nat>([]) && Flatten([]) == [] by { NothingYet(); }
    var emitted := seq(|deps|, i => false);
    var remaining: nat := |deps|;
    blocks, fellBack := [], false;
    var block: seq<nat> := [];
    ghost var all: seq<seq<nat>> := [];
    ghost var order: seq<nat> := [];
    assert Greedy(c, deps, all) && InDependencyOrder(GraphOf(deps), order) by { Nothing(c, deps); }
    while remaining > 0
      invariant |emitted| == |deps| && (forall i: nat :: i < |deps| ==> (emitted[i] <==> i in order))
      invariant all == if block == [] then blocks else blocks + [block]
      invariant block == [] ==> blocks == []
      invariant order == Flatten(all) && Greedy(c, deps, all)
      invariant Distinct(order) && (forall i: nat :: i in order ==> i < |deps|) && remaining == |deps| - |order|
      invariant fellBack ==> !WellFounded(GraphOf(deps))
      invariant !fellBack ==> InDependencyOrder(GraphOf(deps), order)
      decreases remaining
    {
      SomethingLeft(order, |deps|);
      var ready, stuck := CollectReady(deps, emitted, order);
      if stuck {
        StuckIsCyclic(GraphOf(deps), deps, order);
        fellBack := true;
      }
      var close := None;
      if 0 < |block| < BLOCK_MAX {
        close := PickClose(c, ready, block);
      }
      var pick: nat;
      if close.Some? {
        pick := close.value;
        assert Joins(c, deps, order, block, pick) by { PickJoins(c, deps, order, ready, block, pick); }
        GreedyJoins(c, deps, blocks, block, pick);
        block := block + [pick];
      } else {
        if block != [] { blocks := blocks + [block]; }
        pick := PickFirst(c, ready);
        PickOpens(c, deps, order, ready, block, pick);
        assert blocks == all;
        GreedyOpens(c, deps, all, pick);
        block := [pick];
      }
      PickNew(deps, order, pick);
      if !fellBack { PickInOrder(deps, order, pick); }
      emitted := emitted[pick := true];
      remaining := remaining - 1;
      all := blocks + [block];
      order := order + [pick];
    }
    Everything(order, |deps|);
    if block != [] { blocks := blocks + [block]; }
  }

  lemma Nothing(c: Context, deps: seq<seq<nat>>)
    ensures Greedy(c, deps, []) && InDependencyOrder(GraphOf(deps), [])
  {}

  lemma NothingYet()
    ensures Distinct<nat>([]) && Flatten([]) == []
  {}

  lemma PickNew(deps: seq<seq<nat>>, order: seq<nat>, pick: nat)
    requires Distinct(order) && Candidate(deps, order, pick)
    ensures Distinct(order + [pick]) && pick !in order && pick < |deps|
  {}

  lemma PickJoins(c: Context, deps: seq<seq<nat>>, order: seq<nat>, ready: seq<nat>, block: seq<nat>, pick: nat)
    requires 0 < |block| < BLOCK_MAX && pick in ready && Affine(c, block, pick)
    requires forall i: nat :: i in ready <==> Candidate(deps, order, i)
    requires forall k :: k in ready && Affine(c, block, k) ==> Closer(c, block, pick, k)
    ensures Joins(c, deps, order, block, pick)
  {}

  lemma PickOpens(c: Context, deps: seq<seq<nat>>, order: seq<nat>, ready: seq<nat>, block: seq<nat>, pick: nat)
    requires |block| == 0 || |block| >= BLOCK_MAX || forall i :: i in ready ==> !Affine(c, block, i)
    requires pick in ready && forall k :: k in ready ==> c.anchor(pick) <= c.anchor(k)
    requires forall i: nat :: i in ready <==> Candidate(deps, order, i)
    ensures Opens(c, deps, order, block, pick)
  {}

  lemma PickInOrder(deps: seq<seq<nat>>, order: seq<nat>, pick: nat)
    requires InDependencyOrder(GraphOf(deps), order) && Candidate(deps, order, pick)
    requires exists i: nat :: Ready(deps, order, i)
    ensures InDependencyOrder(GraphOf(deps), order + [pick])
  {
    OrderExtends(GraphOf(deps), order, pick);
  }

  lemma SomethingLeft(order: seq<nat>, n: nat)
    requires Distinct(order) && |order| < n
    ensures exists i: nat :: i < n && i !in order
  {
    if forall i: nat :: i < n ==> i in order {
      Fits(order, n);
    }
  }

  /** A sequence that holds 0..n has at least n entries. */
  lemma {:induction false} Fits(order: seq<nat>, n: nat)
    requires forall i: nat :: i < n ==> i in order
    ensures n <= |order|
  {
    if n > 0 {
      var last: nat := n - 1;
      assert last in order;
      var k :| 0 <= k < |order| && order[k] == last;
      var rest := order[..k] + order[k + 1..];
      forall i: nat | i < last
        ensures i in rest
      {
        assert i in order;
      }
      Fits(rest, last);
    }
  }

  lemma Everything(order: seq<nat>, n: nat)
    requires Distinct(order) && (forall i: nat :: i in order ==> i < n) && |order| == n
    ensures Arranges(order, n)
  {
    forall i: nat | i < n
      ensures i in order
    {
      if i !in order { Squeezed(order + [i], n); }
    }
  }

  /** Distinct numbers below n are at most n. */
  lemma {:induction false} Squeezed(order: seq<nat>, n: nat)
    requires Distinct(order) && forall i: nat :: i in order ==> i < n
    ensures |order| <= n
    decreases n
  {
    if n == 0 {
      SomeIn(order);
    } else {
      var last: nat := n - 1;
      if k :| 0 <= k < |order| && order[k] == last {
        var rest := order[..k] + order[k + 1..];
        forall i: nat | i in rest
          ensures i < last
        {
          var m :| 0 <= m < |rest| && rest[m] == i;
          assert i == order[if m < k then m else m + 1];
          assert i in order;
        }
        Squeezed(rest, last);
      } else {
        Squeezed(order, last);
      }
    }
  }

  // ---- batch order ----

  ghost predicate Precedes(order: seq<nat>, i: nat, j: nat) {
    exists a, b :: 0 <= a < b < |order| && order[a] == i && order[b] == j
  }

  lemma PrecedesTrans(order: seq<nat>, i: nat, j: nat, k: nat)
    requires Distinct(order) && Precedes(order, i, j) && Precedes(order, j, k)
    ensures Precedes(order, i, k)
  {}

  lemma WaitPrecedes(nodes: seq<Node>, order: seq<nat>, i: nat, j: nat)
    requires Arranges(order, |nodes|) && InDependencyOrder(LayoutGraph(nodes), order)
    requires i < |nodes| && j < |nodes| && WaitsFor(nodes, i, j)
    ensures Precedes(order, j, i)
  {
    assert i in order;
    var b :| 0 <= b < |order| && order[b] == i;
    assert j in Succ(LayoutGraph(nodes), order[b]);
    var a :| 0 <= a < b && order[..b][a] == j;
  }

  /** Batch members come in sequence order, emission order among equals. */
  lemma BatchInSequence(nodes: seq<Node>, order: seq<nat>, b: string, x: Slot, y: Slot)
    requires Arranges(order, |nodes|) && InDependencyOrder(LayoutGraph(nodes), order)
    requires InBatch(nodes, b, x) && InBatch(nodes, b, y) && Before(x, y)
    ensures Precedes(order, x.ix, y.ix)
  {
    BatchOrdered(nodes, b);
    var ids := BatchOrder(nodes, b);
    hide BatchOrder, Arranges, InDependencyOrder, LayoutGraph, Precedes;
    assert x in ids && y in ids;
    var k: nat :| k < |ids| && ids[k] == x;
    var m: nat :| m < |ids| && ids[m] == y;
    ChainPrecedes(nodes, order, b, k, m);
  }

  lemma NextPrecedes(nodes: seq<Node>, order: seq<nat>, b: string, k: nat, m: nat)
    requires Arranges(order, |nodes|) && InDependencyOrder(LayoutGraph(nodes), order)
    requires m == k + 1 && m < |BatchOrder(nodes, b)|
    ensures Precedes(order, BatchOrder(nodes, b)[k].ix, BatchOrder(nodes, b)[m].ix)
  {
    BatchOrdered(nodes, b);
    var ids := BatchOrder(nodes, b);
    assert ids[k] in ids && ids[m] in ids;
    hide BatchOrder, Arranges, InDependencyOrder, LayoutGraph, Precedes, SortedBy;
    assert BatchPrevious(nodes, ids[m].ix, ids[k].ix);
    WaitPrecedes(nodes, order, ids[m].ix, ids[k].ix);
  }

  lemma {:induction false} ChainPrecedes(nodes: seq<Node>, order: seq<nat>, b: string, k: nat, m: nat)
    requires Arranges(order, |nodes|) && InDependencyOrder(LayoutGraph(nodes), order)
    requires k < m < |BatchOrder(nodes, b)|
    ensures Precedes(order, BatchOrder(nodes, b)[k].ix, BatchOrder(nodes, b)[m].ix)
  {
    var ids := BatchOrder(nodes, b);
    assert Distinct(order);
    hide BatchOrder, Arranges, InDependencyOrder, LayoutGraph, Precedes, Distinct;
    NextPrecedes(nodes, order, b, m - 1, m);
    if k < m - 1 {
      ChainPrecedes(nodes, order, b, k, m - 1);
      PrecedesTrans(order, ids[k].ix, ids[m - 1].ix, ids[m].ix);
    }
  }
}
