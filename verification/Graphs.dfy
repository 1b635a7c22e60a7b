/**
 Finite directed graphs as adjacency maps, shared by the asset build order
 (assets/graph.go) and the code generator (gen/fragment.go, gen/validate.go,
 gen/render.go). A node outside the map has no successors, as a missing key of
 a Go map reads as a nil slice.
 */
module Graphs {

  type Graph<!T(==)> = map<T, set<T>>

  function Succ<T>(g: Graph<T>, a: T): set<T> {
    if a in g then g[a] else {}
  }

  /** p is a walk from a to b: nonempty, and each element is followed by a successor. */
  ghost predicate IsPath<T>(g: Graph<T>, p: seq<T>, a: T, b: T) {
    && |p| > 0 && p[0] == a && p[|p| - 1] == b
    && forall i, j :: 0 <= i < |p| && j == i + 1 && j < |p| ==> p[j] in Succ(g, p[i])
  }

  ghost predicate Reach<T(!new)>(g: Graph<T>, a: T, b: T) {
    exists p: seq<T> :: IsPath(g, p, a, b)
  }

  /** a lies on a cycle: one of its successors leads back to it. */
  ghost predicate OnCycle<T(!new)>(g: Graph<T>, a: T) {
    exists b :: b in Succ(g, a) && Reach(g, b, a)
  }

  ghost predicate Acyclic<T(!new)>(g: Graph<T>) {
    forall a: T :: !OnCycle(g, a)
  }

  /** Mutual reachability, the relation whose classes are the strongly connected components. */
  ghost predicate Mutual<T(!new)>(g: Graph<T>, a: T, b: T) {
    Reach(g, a, b) && Reach(g, b, a)
  }

  /** m is in s and depends on nothing in s. */
  ghost predicate Minimal<T>(g: Graph<T>, s: set<T>, m: T) {
    m in s && Succ(g, m) !! s
  }

  ghost predicate HasMinimal<T>(g: Graph<T>, s: set<T>) {
    exists m :: m in s && Minimal(g, s, m)
  }

  /** Every nonempty set has a member that depends on nothing in the set. */
  ghost predicate WellFounded<T(!new)>(g: Graph<T>) {
    forall s: set<T> {:trigger HasMinimal(g, s)} :: s != {} ==> HasMinimal(g, s)
  }

  ghost predicate Closed<T>(g: Graph<T>, s: set<T>) {
    forall a {:trigger Succ(g, a)} :: a in s ==> Succ(g, a) <= s
  }

  lemma ReachRefl<T(!new)>(g: Graph<T>, a: T)
    ensures Reach(g, a, a)
  {
    assert IsPath(g, [a], a, a);
  }

  lemma ReachEdge<T(!new)>(g: Graph<T>, a: T, b: T)
    requires b in Succ(g, a)
    ensures Reach(g, a, b)
  {
    assert IsPath(g, [a, b], a, b);
  }

  lemma ReachTrans<T(!new)>(g: Graph<T>, a: T, b: T, c: T)
    requires Reach(g, a, b) && Reach(g, b, c)
    ensures Reach(g, a, c)
  {
    var p: seq<T> :| IsPath(g, p, a, b);
    var q: seq<T> :| IsPath(g, q, b, c);
    assert IsPath(g, p + q[1..], a, c);
  }

  /** A path that starts in a closed set stays there. */
  lemma ReachClosed<T(!new)>(g: Graph<T>, s: set<T>, a: T, b: T)
    requires Closed(g, s) && a in s && Reach(g, a, b)
    ensures b in s
  {
    var p: seq<T> :| IsPath(g, p, a, b);
    PathClosed(g, s, p, |p| - 1);
  }

  lemma {:induction false} PathClosed<T>(g: Graph<T>, s: set<T>, p: seq<T>, k: nat)
    requires k < |p| && IsPath(g, p, p[0], p[|p| - 1])
    requires Closed(g, s) && p[0] in s
    ensures p[k] in s
  {
    if k > 0 { PathClosed(g, s, p, k - 1); }
  }

  /** p leads from a to b by at least one step and stays inside s. */
  ghost predicate ReachIn<T>(g: Graph<T>, s: set<T>, p: seq<T>, a: T, b: T) {
    |p| > 1 && IsPath(g, p, a, b) && forall i :: 0 <= i < |p| ==> p[i] in s
  }

  ghost predicate Inside<T(!new)>(g: Graph<T>, s: set<T>, a: T, b: T) {
    exists p: seq<T> :: ReachIn(g, s, p, a, b)
  }

  lemma InsideStep<T(!new)>(g: Graph<T>, s: set<T>, a: T, m: T, c: T)
    requires a in s && (m == a || Inside(g, s, a, m)) && c in Succ(g, m) && c in s
    ensures Inside(g, s, a, c)
  {
    if m == a {
      assert ReachIn(g, s, [a, c], a, c);
    } else {
      var p: seq<T> :| ReachIn(g, s, p, a, m);
      assert ReachIn(g, s, p + [c], a, c);
    }
  }

  lemma InsideSelf<T(!new)>(g: Graph<T>, s: set<T>, a: T)
    requires Inside(g, s, a, a)
    ensures OnCycle(g, a)
  {
    var p: seq<T> :| ReachIn(g, s, p, a, a);
    assert IsPath(g, p[1..], p[1], a);
    assert p[0 + 1] in Succ(g, p[0]);
  }

  /** The part of s that a leads to inside s has no minimal member either. */
  lemma InsideNoMinimal<T(!new)>(g: Graph<T>, s: set<T>, a: T) returns (r: set<T>)
    requires a in s && !HasMinimal(g, s)
    ensures r != {} && r <= s && !HasMinimal(g, r)
    ensures a in r ==> OnCycle(g, a)
  {
    r := set b | b in s && Inside(g, s, a, b);
    if a in r { InsideSelf(g, s, a); }
    assert !Minimal(g, s, a);
    var b :| b in Succ(g, a) && b in s;
    InsideStep(g, s, a, a, b);
    assert b in r;
    forall m | m in r
      ensures !Minimal(g, r, m)
    {
      assert !Minimal(g, s, m);
      var c :| c in Succ(g, m) && c in s;
      InsideStep(g, s, a, m, c);
      assert c in r;
    }
  }

  /** A nonempty set without a minimal member contains a cycle. */
  lemma {:induction false} NoMinimalHasCycle<T(!new)>(g: Graph<T>, s: set<T>) returns (a: T)
    requires s != {} && !HasMinimal(g, s)
    ensures a in s && OnCycle(g, a)
    decreases s
  {
    a :| a in s;
    var r := InsideNoMinimal(g, s, a);
    if a !in r { a := NoMinimalHasCycle(g, r); }
  }

  /** For finite graphs the two readings of "acyclic" agree. */
  lemma WellFoundedIffAcyclic<T(!new)>(g: Graph<T>)
    ensures WellFounded(g) <==> Acyclic(g)
  {
    if Acyclic(g) {
      forall s: set<T> {:trigger HasMinimal(g, s)} | s != {}
        ensures HasMinimal(g, s)
      {
        if !HasMinimal(g, s) {
          var _ := NoMinimalHasCycle(g, s);
        }
      }
    }
    if WellFounded(g) {
      forall a: T
        ensures !OnCycle(g, a)
      {
        if OnCycle(g, a) { CycleHasNoMinimal(g, a); }
      }
    }
  }

  lemma CycleHasNoMinimal<T(!new)>(g: Graph<T>, a: T)
    requires OnCycle(g, a)
    ensures !WellFounded(g)
  {
    var b :| b in Succ(g, a) && Reach(g, b, a);
    var p: seq<T> :| IsPath(g, p, b, a);
    var s := set i | 0 <= i < |p| :: p[i];
    assert p[0] in s && p[|p| - 1] in s;
    forall m | m in s
      ensures !Minimal(g, s, m)
    {
      var i :| 0 <= i < |p| && p[i] == m;
      var c := if i < |p| - 1 then p[i + 1] else b;
      assert c in Succ(g, m) && c in s;
    }
    assert !HasMinimal(g, s);
  }

  /** A rank that falls along every edge leaves no room for a cycle. */
  lemma RankedWellFounded<T(!new)>(g: Graph<T>, rank: T -> nat)
    requires forall a, b :: b in Succ(g, a) ==> rank(b) < rank(a)
    ensures WellFounded(g)
  {
    forall s: set<T> {:trigger HasMinimal(g, s)} | s != {}
      ensures HasMinimal(g, s)
    {
      var m := LeastRank(s, rank);
      assert Minimal(g, s, m);
    }
  }

  lemma LeastRank<T>(s: set<T>, rank: T -> nat) returns (m: T)
    requires s != {}
    ensures m in s && forall x :: x in s ==> rank(m) <= rank(x)
    decreases s
  {
    m :| m in s;
    if x :| x in s && rank(x) < rank(m) {
      var t := set y | y in s && rank(y) < rank(m);
      assert m !in t && x in t;
      m := LeastRank(t, rank);
    }
  }
}
