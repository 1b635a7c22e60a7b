/**
 rewriteRefs of assets/rewrite.go: replaces the source ranges of references by
 their final text, in one pass over the references sorted by start.
 */
module Rewrite {
  import opened Sorting

  /** One source reference: the text between start and end, and the asset it resolves to ("" when external). */
  datatype Ref = Ref(spec: string, resolved: string, suffix: string, start: nat, end: nat)

  type Replacement = Ref -> string

  predicate StartLeq(a: Ref, b: Ref) {
    a.start <= b.start
  }

  predicate InBounds(content: string, refs: seq<Ref>) {
    forall i :: 0 <= i < |refs| ==> refs[i].start <= refs[i].end <= |content|
  }

  /** What the loop emits from position cursor on: external references, no-op replacements and references that start
      before the cursor are skipped. */
  function Splice(content: string, refs: seq<Ref>, repl: Replacement, cursor: nat): string
    requires InBounds(content, refs) && cursor <= |content|
  {
    if refs == [] then content[cursor..]
    else
      var r := refs[0];
      if r.resolved == "" || repl(r) == r.spec || r.start < cursor then Splice(content, refs[1..], repl, cursor)
      else content[cursor..r.start] + repl(r) + Splice(content, refs[1..], repl, r.end)
  }

  lemma InBoundsSort(content: string, refs: seq<Ref>)
    requires InBounds(content, refs)
    ensures InBounds(content, Sort(refs, StartLeq))
  {
    var sorted := Sort(refs, StartLeq);
    forall i | 0 <= i < |sorted|
      ensures sorted[i] in refs
    {
      InMultiset(sorted, refs, sorted[i]);
    }
  }

  lemma SpliceStep(content: string, refs: seq<Ref>, repl: Replacement, i: nat, cursor: nat)
    requires InBounds(content, refs) && cursor <= |content| && i < |refs|
    ensures var r := refs[i];
            Splice(content, refs[i..], repl, cursor) ==
            if r.resolved == "" || repl(r) == r.spec ||
                r.start < cursor then Splice(content, refs[i + 1..], repl, cursor)
            else content[cursor..r.start] + repl(r) + Splice(content, refs[i + 1..], repl, r.end)
  {
    assert refs[i..][1..] == refs[i + 1..];
  }

  method RewriteRefs(content: string, refs: seq<Ref>, repl: Replacement) returns (out: string)
    requires InBounds(content, refs)
    ensures InBounds(content, Sort(refs, StartLeq))
    ensures out == Splice(content, Sort(refs, StartLeq), repl, 0)
  {
    InBoundsSort(content, refs);
    var sorted := Sort(refs, StartLeq);
    out := "";
    var cursor: nat := 0;
    assert sorted[0..] == sorted;
    for i := 0 to |sorted|
      invariant cursor <= |content|
      invariant out + Splice(content, sorted[i..], repl, cursor) == Splice(content, sorted, repl, 0)
    {
      hide Splice;
      var r := sorted[i];
      SpliceStep(content, sorted, repl, i, cursor);
      if r.resolved == "" || repl(r) == r.spec || r.start < cursor {
        continue;
      }
      Assoc(out, content[cursor..r.start], repl(r), Splice(content, sorted[i + 1..], repl, r.end));
      out := out + content[cursor..r.start] + repl(r);
      cursor := r.end;
    }
    assert sorted[|sorted|..] == [];
    out := out + content[cursor..];
  }

  lemma Assoc(a: string, b: string, c: string, d: string)
    ensures a + (b + c + d) == a + b + c + d
  {}

  // ---- the reference reading: every range replaced by its piece ----

  /** Ranges lie in the text, hold their specifier and do not overlap. The scanner does not guarantee this. */
  ghost predicate WellPlaced(content: string, refs: seq<Ref>) {
    && (forall i :: 0 <= i < |refs| ==>
                      refs[i].start < refs[i].end <= |content| && content[refs[i].start..refs[i].end] == refs[i].spec)
    && (forall i, j :: 0 <= i < |refs| && 0 <= j < |refs| && i != j ==>
                         refs[i].end <= refs[j].start || refs[j].end <= refs[i].start)
  }

  /** What stands for a reference in the output. */
  function Piece(repl: Replacement, r: Ref): string {
    if r.resolved == "" then r.spec else repl(r)
  }

  ghost predicate InOrder(content: string, refs: seq<Ref>, cursor: nat) {
    && WellPlaced(content, refs) && cursor <= |content|
    && (forall i :: 0 <= i < |refs| ==> cursor <= refs[i].start)
    && (forall i, j :: 0 <= i < j < |refs| ==> refs[i].end <= refs[j].start)
  }

  function Render(content: string, refs: seq<Ref>, repl: Replacement, cursor: nat): string
    requires InOrder(content, refs, cursor)
  {
    if refs == [] then content[cursor..]
    else
      assert InOrder(content, refs[1..], refs[0].end);
      content[cursor..refs[0].start] + Piece(repl, refs[0]) + Render(content, refs[1..], repl, refs[0].end)
  }

  /** Text before the first reference passes through the loop unchanged. */
  lemma {:induction false} SpliceSkip(content: string, refs: seq<Ref>, repl: Replacement, cursor: nat, later: nat)
    requires InOrder(content, refs, later) && cursor <= later
    ensures Splice(content, refs, repl, cursor) == content[cursor..later] + Splice(content, refs, repl, later)
  {
    if refs == [] {
      assert content[cursor..] == content[cursor..later] + content[later..];
    } else {
      var r := refs[0];
      assert InOrder(content, refs[1..], later);
      assert later <= r.start <= |content|;
      hide InOrder, WellPlaced;
      if r.resolved == "" || repl(r) == r.spec {
        SpliceSkip(content, refs[1..], repl, cursor, later);
      } else {
        assert content[cursor..r.start] == content[cursor..later] + content[later..r.start];
      }
    }
  }

  /** For disjoint ranges the loop is the plain reading: nothing is skipped, nothing else changes. */
  lemma {:induction false} SpliceRenders(content: string, refs: seq<Ref>, repl: Replacement, cursor: nat)
    requires InOrder(content, refs, cursor)
    ensures Splice(content, refs, repl, cursor) == Render(content, refs, repl, cursor)
  {
    if refs != [] {
      var r := refs[0];
      var rest := refs[1..];
      assert InOrder(content, rest, r.end);
      assert cursor <= r.start < r.end <= |content| && content[r.start..r.end] == r.spec;
      hide InOrder, WellPlaced;
      SpliceRenders(content, rest, repl, r.end);
      if r.resolved == "" || repl(r) == r.spec {
        SpliceSkip(content, rest, repl, cursor, r.end);
        assert content[cursor..r.end] == content[cursor..r.start] + content[r.start..r.end];
      }
    }
  }

  lemma StartPreorder()
    ensures TotalPreorder(StartLeq)
  {}

  lemma SortedWellPlaced(content: string, refs: seq<Ref>, sorted: seq<Ref>)
    requires WellPlaced(content, refs) && Distinct(sorted) && forall r :: r in sorted ==> r in refs
    ensures WellPlaced(content, sorted)
  {
    forall i | 0 <= i < |sorted|
      ensures sorted[i].start < sorted[i].end <= |content|
      ensures content[sorted[i].start..sorted[i].end] == sorted[i].spec
    {
      assert sorted[i] in refs;
    }
    forall i, j | 0 <= i < |sorted| && 0 <= j < |sorted| && i != j
      ensures sorted[i].end <= sorted[j].start || sorted[j].end <= sorted[i].start
    {
      assert sorted[i] in refs && sorted[j] in refs && sorted[i] != sorted[j];
      var p :| 0 <= p < |refs| && refs[p] == sorted[i];
      var q :| 0 <= q < |refs| && refs[q] == sorted[j];
    }
  }

  lemma WellPlacedDistinct(content: string, refs: seq<Ref>)
    requires WellPlaced(content, refs)
    ensures Distinct(refs)
  {
    forall i, j | 0 <= i < j < |refs|
      ensures refs[i] != refs[j]
    {
      assert refs[i].end <= refs[j].start || refs[j].end <= refs[i].start;
    }
  }

  /** Disjoint ranges, once sorted by start, follow one another. */
  lemma SortedInOrder(content: string, refs: seq<Ref>)
    requires WellPlaced(content, refs)
    ensures InOrder(content, Sort(refs, StartLeq), 0)
  {
    var sorted := Sort(refs, StartLeq);
    StartPreorder();
    SortSorted(refs, StartLeq);
    WellPlacedDistinct(content, refs);
    SortDistinct(refs, StartLeq);
    SortedWellPlaced(content, refs, sorted);
    forall i, j | 0 <= i < j < |sorted|
      ensures sorted[i].end <= sorted[j].start
    {
      assert StartLeq(sorted[i], sorted[j]);
    }
  }

  lemma InOrderAt(content: string, refs: seq<Ref>, cursor: nat, k: nat)
    requires InOrder(content, refs, cursor) && k < |refs|
    ensures refs[k].end <= (if k + 1 < |refs| then refs[k + 1].start else |content|) <= |content|
  {}

  lemma Regroup(head: string, b: string, piece: string, gap: string, a: string)
    ensures head + (b + piece + gap + a) == (head + b) + piece + gap + a
  {}

  lemma InOrderTail(content: string, refs: seq<Ref>, cursor: nat)
    requires InOrder(content, refs, cursor) && refs != []
    ensures cursor <= refs[0].start <= refs[0].end <= |content| && InOrder(content, refs[1..], refs[0].end)
    ensures |refs| > 1 ==> refs[0].end <= refs[1].start <= |content|
  {}

  /** Where reference k begins in the output: its source position shifted by the earlier length changes. */
  function Offset(refs: seq<Ref>, repl: Replacement, k: nat): int
    requires k < |refs|
  {
    if k == 0 then refs[0].start
    else Offset(refs, repl, k - 1) + |Piece(repl, refs[k - 1])| + refs[k].start - refs[k - 1].end
  }

  lemma {:induction false} OffsetTail(refs: seq<Ref>, repl: Replacement, k: nat)
    requires 0 < k < |refs|
    ensures Offset(refs, repl, k) ==
            refs[0].start + |Piece(repl, refs[0])| - refs[0].end + Offset(refs[1..], repl, k - 1)
  {
    if k > 1 { OffsetTail(refs, repl, k - 1); }
  }

  /** Reference k stands in the output at its offset, with exactly its piece, followed by the original text up to the
      next reference. */
  lemma {:induction false} PieceAt(content: string, refs: seq<Ref>, repl: Replacement, cursor: nat, k: nat)
    returns (before: string, after: string)
    requires InOrder(content, refs, cursor) && k < |refs|
    ensures var next := if k + 1 < |refs| then refs[k + 1].start else |content|;
            Render(content, refs, repl, cursor) ==
            before + Piece(repl, refs[k]) + content[refs[k].end..next] + after
    ensures |before| == Offset(refs, repl, k) - cursor
    ensures k == 0 ==> before == content[cursor..refs[0].start]
    ensures k + 1 == |refs| ==> after == ""
    decreases k
  {
    hide InOrder, Piece;
    InOrderTail(content, refs, cursor);
    var r := refs[0];
    var rest := refs[1..];
    if k > 0 {
      var b, a := PieceAt(content, rest, repl, r.end, k - 1);
      OffsetTail(refs, repl, k);
      InOrderAt(content, refs, cursor, k);
      var head := content[cursor..r.start] + Piece(repl, r);
      var next := if k + 1 < |refs| then refs[k + 1].start else |content|;
      Regroup(head, b, Piece(repl, refs[k]), content[refs[k].end..next], a);
      before, after := head + b, a;
    } else if rest == [] {
      before, after := content[cursor..r.start], "";
    } else {
      InOrderTail(content, rest, r.end);
      before := content[cursor..r.start];
      after := Piece(repl, rest[0]) + Render(content, rest[1..], repl, rest[0].end);
      assert Render(content, rest, repl, r.end) == content[r.end..rest[0].start] + after;
    }
  }
}
