/**
 What the job store promises over whole runs: one live job per unique key, a
 lease that only its owner can use, cancellations that stick, and a claim that
 hands out the best-ranked jobs its budgets allow.
 */
module JobLeases {
  import opened Basics
  import opened Sorting
  import opened JobStore

  // ---- unique keys ----

  /** In every reachable state two live jobs with one handler and one unique key are the same job. */
  lemma OneLivePerKey(dbs: seq<Db>, ops: seq<Op>, k: nat, a: Id, b: Id)
    requires IsRun(dbs, ops) && k < |dbs| && Live(dbs[k], a) && Live(dbs[k], b)
    requires dbs[k].rows[a].job.handler == dbs[k].rows[b].job.handler
    requires dbs[k].rows[a].job.uniqueKey == dbs[k].rows[b].job.uniqueKey != ""
    ensures a == b
  {
    AlwaysConsistent(dbs, ops, k);
    var key := KeyOf(dbs[k].rows[a].job);
    SameKey(dbs[k].rows[a].job, dbs[k].rows[b].job);
    assert Holds(dbs[k], key, a) && Holds(dbs[k], key, b);
    assert Maps(dbs[k].uniq, key, a) && Maps(dbs[k].uniq, key, b);
  }

  /** An insert in a reachable state is skipped exactly when a live job has the same index key. */
  lemma DuplicateIffLive(db: Db, j: Job)
    requires Consistent(db)
    ensures Holder(db, j).Some? <==> j.uniqueKey != "" && exists id :: Holds(db, KeyOf(j), id)
  {
    if j.uniqueKey != "" {
      IndexLive(db, j);
      if id :| Holds(db, KeyOf(j), id) { assert Maps(db.uniq, KeyOf(j), id); }
      if KeyOf(j) in db.uniq { assert Maps(db.uniq, KeyOf(j), db.uniq[KeyOf(j)]); }
    }
  }

  predicate NulFree(s: string) { forall i :: 0 <= i < |s| ==> s[i] != NUL }

  /** The NUL-separated text keeps its parts apart when kind and handler hold no NUL. */
  lemma KeyInjective(g: Handler, k: string, h: Handler, m: string)
    requires NulFree(g.kind) && NulFree(g.handlerId) && NulFree(h.kind) && NulFree(h.handlerId)
    requires UniqText(g, k) == UniqText(h, m)
    ensures g == h && k == m
  {
    assert UniqText(g, k) == g.kind + [NUL] + (g.handlerId + [NUL] + k);
    assert UniqText(h, m) == h.kind + [NUL] + (h.handlerId + [NUL] + m);
    CutAtNul(g.kind, g.handlerId + [NUL] + k, h.kind, h.handlerId + [NUL] + m);
    CutAtNul(g.handlerId, k, h.handlerId, m);
  }

  lemma CutAtNul(a: string, x: string, b: string, y: string)
    requires NulFree(a) && NulFree(b)
    requires a + [NUL] + x == b + [NUL] + y
    ensures a == b && x == y
  {
    var s := a + [NUL] + x;
    assert s[|a|] == NUL && s[|b|] == NUL;
    assert forall i :: 0 <= i < |a| ==> s[i] == a[i];
    assert forall i :: 0 <= i < |b| ==> s[i] == b[i];
    assert |a| == |b|;
    assert a == s[..|a|] == b;
    assert x == s[|a| + 1..] == y;
  }

  /** With a NUL in a name two different keys share an index entry, so the second job is refused as a duplicate. */
  lemma NulCollides() returns (a: Job, b: Job)
    ensures a.handler != b.handler && a.uniqueKey == b.uniqueKey && KeyOf(a) == KeyOf(b)
    ensures forall id, other, now :: id != other ==>
              InsertAll(EMPTY, now, [a, b], [id, other]).rows.Keys == {id}
  {
    var blank := Job(Handler("", ""), Queue(""), 0, 0, 1, 0, TimeoutRetry, "k", None);
    a := blank.(handler := Handler([NUL], ""));
    b := blank.(handler := Handler("", [NUL]));
    assert KeyOf(a).text == [NUL, NUL, NUL, 'k'] && KeyOf(b).text == [NUL, NUL, NUL, 'k'];
    hide KeyOf;
    forall id, other, now | id != other
      ensures InsertAll(EMPTY, now, [a, b], [id, other]).rows.Keys == {id}
    {
      assert [a, b][..1] == [a] && [id, other][..1] == [id] && [a][..0] == [] && [id][..0] == [];
      var one := InsertOne(EMPTY, now, a, id);
      assert InsertAll(EMPTY, now, [a], [id]) == one;
      assert InsertAll(EMPTY, now, [a, b], [id, other]) == InsertOne(one, now, b, other);
      assert one.rows == map[id := NewRow(now, a)] && one.uniq == map[KeyOf(a) := id];
      assert Live(one, id);
    }
  }

  // ---- leases ----

  /** The operation may end the lease of w on job id: w's own completion, or a sweep after the deadline. */
  ghost predicate MayEnd(db: Db, op: Op, id: Id, w: Worker)
    requires id in db.rows
  {
    || (op.Completing? && op.id == id && op.worker == w)
    || (op.Sweeping? && db.rows[id].lockedUntil != ZERO_TIME && db.rows[id].lockedUntil <= op.now)
  }

  /** Any other operation leaves the lease in place, and only w's own heartbeat moves its deadline. */
  lemma LeaseStays(db: Db, op: Op, id: Id, w: Worker)
    requires Consistent(db) && Allowed(db, op) && LeasedBy(db, id, w)
    ensures w != NOBODY
    ensures MayEnd(db, op, id, w) || LeasedBy(Apply(db, op), id, w)
    ensures LeasedBy(Apply(db, op), id, w) && Apply(db, op).rows[id].lockedUntil != db.rows[id].lockedUntil ==>
              op.Beating? && op.id == id && op.worker == w
  {
    RowLeased(db, id);
    hide Consistent, Claim, InsertAll, KeyOf, SweepSome, FreeUniq, Holder;
    match op
    case Inserting(now, jobs, ids) => InsertLeaves(db, now, jobs, ids, id);
    case Claiming(req) => ClaimLeaves(db, req, id);
    case Sweeping(now) => SweepLeaves(db, now, id);
    case Firing(f, ids) =>
      if Wins(db, f) { InsertLeaves(db, f.now, f.jobs, ids, id); }
    case _ =>
  }

  lemma SweepLeaves(db: Db, now: Time, id: Id)
    requires id in db.rows
    ensures var next := SweepSome(db, now, db.rows.Keys);
            && id in next.rows
            && if Expired(db.rows[id], now) then next.rows[id].state != Running else next.rows[id] == db.rows[id]
  {
    hide KeyOf, SweepFrees;
  }

  /** Through any run: a lease that is gone ended at a step that was its owner's completion or a sweep after its
      deadline, and until then nobody else completed or extended it. */
  lemma {:induction false} LeaseEndsByOwner(dbs: seq<Db>, ops: seq<Op>, i: nat, j: nat, id: Id, w: Worker)
    requires IsRun(dbs, ops) && i <= j < |dbs| && LeasedBy(dbs[i], id, w)
    ensures (forall k: nat {:trigger dbs[k]} :: i <= k <= j ==> LeasedBy(dbs[k], id, w)) ||
            OwnerEnds(dbs, ops, i, j, id, w)
  {
    if i < j {
      LeaseEndsByOwner(dbs, ops, i, j - 1, id, w);
      if OwnerEnds(dbs, ops, i, j - 1, id, w) {
        var e: nat :| i <= e < j - 1 && LeaseEndAt(dbs, ops, i, e, id, w);
        assert OwnerEnds(dbs, ops, i, j, id, w);
      } else {
        assert LeasedBy(dbs[j - 1], id, w);
        AlwaysConsistent(dbs, ops, j - 1);
        assert ops[j - 1] == ops[j - 1];
        LeaseStays(dbs[j - 1], ops[j - 1], id, w);
        if !LeasedBy(dbs[j], id, w) { assert LeaseEndAt(dbs, ops, i, j - 1, id, w); }
      }
    }
  }

  /** The lease was in place up to state e, and operation e was one that may end it. */
  ghost predicate LeaseEndAt(dbs: seq<Db>, ops: seq<Op>, i: nat, e: nat, id: Id, w: Worker)
    requires i <= e < |ops| && |dbs| == |ops| + 1
  {
    && (forall k: nat {:trigger dbs[k]} :: i <= k <= e ==> LeasedBy(dbs[k], id, w))
    && id in dbs[e].rows && MayEnd(dbs[e], ops[e], id, w)
  }

  ghost predicate OwnerEnds(dbs: seq<Db>, ops: seq<Op>, i: nat, j: nat, id: Id, w: Worker)
    requires j < |dbs| == |ops| + 1
  {
    exists e: nat :: i <= e < j && LeaseEndAt(dbs, ops, i, e, id, w)
  }

  /** A claim never takes a row somebody owns. */
  lemma ClaimTakesUnowned(db: Db, req: ClaimRequest, id: Id)
    requires Consistent(db) && id in Claimed(db, req)
    ensures id in db.rows && db.rows[id].lockedBy == NOBODY && LeasedBy(Claim(db, req), id, req.worker)
  {
    ClaimedEligible(db, req, id);
  }

  /** The lease of worker w on job id carries an accepted cancellation. */
  ghost predicate CancelPending(db: Db, id: Id, w: Worker) {
    LeasedBy(db, id, w) && db.rows[id].cancelRequested
  }

  lemma ClaimLeaves(db: Db, req: ClaimRequest, id: Id)
    requires Consistent(db) && id in db.rows && db.rows[id].state == Running
    ensures id in Claim(db, req).rows && Claim(db, req).rows[id] == db.rows[id]
  {
    if id in Claimed(db, req) { ClaimedEligible(db, req, id); }
  }

  lemma {:induction false} InsertLeaves(db: Db, now: Time, jobs: seq<Job>, ids: seq<Id>, id: Id)
    requires |ids| == |jobs| && Fresh(db, ids) && id in db.rows
    ensures id in InsertAll(db, now, jobs, ids).rows && InsertAll(db, now, jobs, ids).rows[id] == db.rows[id]
  {
    if jobs != [] {
      FreshFront(db, ids);
      InsertLeaves(db, now, jobs[..|jobs| - 1], ids[..|ids| - 1], id);
      assert ids[|ids| - 1] in ids;
    }
  }

  /** No step takes an accepted cancellation back: the lease stays as it is or ends in cancelled. */
  lemma CancelSticks(db: Db, op: Op, id: Id, w: Worker)
    requires Consistent(db) && Allowed(db, op) && CancelPending(db, id, w)
    ensures id in Apply(db, op).rows
    ensures CancelPending(Apply(db, op), id, w) || Apply(db, op).rows[id].state == Cancelled
  {
    hide Consistent, Claim, InsertAll, KeyOf;
    match op
    case Inserting(now, jobs, ids) => InsertLeaves(db, now, jobs, ids, id);
    case Claiming(req) => ClaimLeaves(db, req, id);
    case Beating(_, _, _, _) =>
    case Completing(_, _, _, _) =>
    case Sweeping(_) =>
    case Retrying(_, _) =>
    case Cancelling(_, _) =>
    case Deleting(_) =>
    case Firing(f, ids) =>
      if Wins(db, f) { InsertLeaves(db, f.now, f.jobs, ids, id); }
    case Upserting(_, _, _, _) =>
    case Unscheduling(_) =>
  }

  /** From an accepted cancellation on, through any run: either the lease is still the same, or it ended, and the
      first state after it is cancelled. */
  lemma {:induction false} LeaseEndsCancelled(dbs: seq<Db>, ops: seq<Op>, i: nat, j: nat, id: Id, w: Worker)
    requires IsRun(dbs, ops) && i <= j < |dbs| && CancelPending(dbs[i], id, w)
    ensures (forall k: nat {:trigger dbs[k]} :: i <= k <= j ==> CancelPending(dbs[k], id, w)) ||
            EndsAt(dbs, i, j, id, w)
  {
    if i < j {
      LeaseEndsCancelled(dbs, ops, i, j - 1, id, w);
      if EndsAt(dbs, i, j - 1, id, w) {
        var e: nat :| i < e <= j - 1 && EndsCancelled(dbs, i, e, id, w);
        assert EndsAt(dbs, i, j, id, w);
      } else {
        assert CancelPending(dbs[j - 1], id, w);
        AlwaysConsistent(dbs, ops, j - 1);
        assert ops[j - 1] == ops[j - 1];
        CancelSticks(dbs[j - 1], ops[j - 1], id, w);
        if !CancelPending(dbs[j], id, w) {
          assert EndsCancelled(dbs, i, j, id, w);
        }
      }
    }
  }

  ghost predicate EndsCancelled(dbs: seq<Db>, i: nat, e: nat, id: Id, w: Worker)
    requires i < e < |dbs|
  {
    && (forall k: nat {:trigger dbs[k]} :: i <= k < e ==> CancelPending(dbs[k], id, w))
    && id in dbs[e].rows && dbs[e].rows[id].state == Cancelled
  }

  ghost predicate EndsAt(dbs: seq<Db>, i: nat, j: nat, id: Id, w: Worker)
    requires j < |dbs|
  {
    exists e: nat :: i < e <= j && EndsCancelled(dbs, i, e, id, w)
  }

  // ---- claims ----

  lemma {:induction false} TakePrefix(db: Db, req: ClaimRequest, cands: seq<Candidate>, k: nat)
    requires k <= |cands|
    ensures Take(db, req, cands[..k]) <= Take(db, req, cands)
  {
    if k < |cands| {
      var n := |cands| - 1;
      assert cands[..n][..k] == cands[..k];
      TakePrefix(db, req, cands[..n], k);
    } else {
      assert cands[..k] == cands;
    }
  }

  /** No eligible job is passed over: a candidate is claimed exactly when the better-ranked claimed jobs leave room
      for it, in the whole claim and in its queue. */
  lemma {:induction false} ClaimGreedy(db: Db, req: ClaimRequest, k: nat)
    requires req.worker != NOBODY && req.handlers != {} && k < |Ordered(db, req)|
    ensures var cands := Ordered(db, req);
            var ahead := Take(db, req, cands[..k]);
            && ahead <= Claimed(db, req)
            && (cands[k].id in Claimed(db, req) <==>
                |ahead| < Limit(req) && QueueOpen(db, req, ahead, QueueOf(db, cands[k].id)))
  {
    var cands := Ordered(db, req);
    TakePrefix(db, req, cands, k);
    TakePrefix(db, req, cands, k + 1);
    assert cands[..k + 1][..k] == cands[..k];
    assert forall i, j :: 0 <= i < j < |cands| ==> cands[i].id != cands[j].id by { IdsApart(db, req); }
    var ahead := Take(db, req, cands[..k]);
    assert Take(db, req, cands[..k + 1]) == if Admits(db, req, ahead, cands[k]) then ahead + [cands[k].id] else ahead;
    if Admits(db, req, ahead, cands[k]) {
      assert Take(db, req, cands[..k + 1])[|ahead|] == cands[k].id;
      assert Claimed(db, req)[|ahead|] == cands[k].id;
    } else {
      TakeLater(db, req, cands, k);
    }
  }

  lemma IdsApart(db: Db, req: ClaimRequest)
    ensures forall i, j :: 0 <= i < j < |Ordered(db, req)| ==> Ordered(db, req)[i].id != Ordered(db, req)[j].id
  {
    var cands := Ordered(db, req);
    forall i, j | 0 <= i < j < |cands|
      ensures cands[i].id != cands[j].id
    {
      assert cands[i] in Candidates(db, req) && cands[j] in Candidates(db, req);
    }
  }

  /** A candidate that is turned away at its turn is not taken later. */
  lemma {:induction false} TakeLater(db: Db, req: ClaimRequest, cands: seq<Candidate>, k: nat)
    requires k < |cands| && !Admits(db, req, Take(db, req, cands[..k]), cands[k])
    requires forall i, j :: 0 <= i < j < |cands| ==> cands[i].id != cands[j].id
    ensures cands[k].id !in Take(db, req, cands)
  {
    var n := |cands| - 1;
    var front := cands[..n];
    if k < n {
      assert front[..k] == cands[..k];
      TakeLater(db, req, front, k);
    } else {
      assert forall c :: c in front ==> c.id != cands[k].id;
      NotTaken(db, req, front, cands[k].id);
    }
  }

  lemma {:induction false} NotTaken(db: Db, req: ClaimRequest, cands: seq<Candidate>, id: Id)
    requires forall c :: c in cands ==> c.id != id
    ensures id !in Take(db, req, cands)
  {
    if cands != [] {
      assert cands[|cands| - 1] in cands;
      NotTaken(db, req, cands[..|cands| - 1], id);
    }
  }

  /** A claim respects its limit and every queue budget. */
  lemma {:induction false} TakeBounded(db: Db, req: ClaimRequest, cands: seq<Candidate>, q: Queue)
    ensures |Take(db, req, cands)| <= Limit(req)
    ensures q in req.queueLimits && req.queueLimits[q] >= 0 ==>
            InQueue(db, Take(db, req, cands), q) <= req.queueLimits[q]
  {
    if cands != [] {
      TakeBounded(db, req, cands[..|cands| - 1], q);
      var taken := Take(db, req, cands[..|cands| - 1]);
      var id := cands[|cands| - 1].id;
      assert (taken + [id])[..|taken|] == taken;
    }
  }
}
