/**
 The MemoryStore class of jobs/store_memory.go, method by method. Each method is
 proved to take exactly the step of JobStore that its name says; loops over a Go
 map visit the keys in any order.
 */
module MemoryJobStore {
  import opened Basics
  import opened Sorting
  import opened JobStore

  class MemoryStore {
    var rows: map<Id, Row>
    var uniq: map<IndexKey, Id>
    var attempts: map<Id, seq<Attempt>>
    var schedules: map<IndexKey, Schedule>

    ghost function Value(): Db
      reads this
    {
      Db(rows, uniq, attempts, schedules)
    }

    constructor ()
      ensures Value() == EMPTY
    {
      rows, uniq, attempts, schedules := map[], map[], map[], map[];
    }

    /** insertLocked; ids are the identifiers NewID would draw. */
    method InsertBatch(now: Time, jobs: seq<Job>, ids: seq<Id>) returns (out: seq<InsertResult>)
      requires |ids| == |jobs|
      modifies this
      ensures Value() == InsertAll(old(Value()), now, jobs, ids)
      ensures |out| == |jobs|
      ensures forall k {:trigger out[k]} :: 0 <= k < |jobs| ==>
                out[k] == InsertReply(InsertAll(old(Value()), now, jobs[..k], ids[..k]), now, jobs[k], ids[k])
    {
      hide KeyOf;
      out := [];
      ghost var start := Value();
      for n := 0 to |jobs|
        invariant |out| == n && Value() == InsertAll(start, now, jobs[..n], ids[..n])
        invariant forall k {:trigger out[k]} :: 0 <= k < n ==>
                    out[k] == InsertReply(InsertAll(start, now, jobs[..k], ids[..k]), now, jobs[k], ids[k])
      {
        ghost var db := Value();
        var j := jobs[n];
        assert jobs[..n + 1][..n] == jobs[..n] && ids[..n + 1][..n] == ids[..n];
        assert InsertAll(start, now, jobs[..n + 1], ids[..n + 1]) == InsertOne(db, now, j, ids[n]);
        var k := KeyOf(j);
        if j.uniqueKey != "" && k in uniq && uniq[k] in rows && !Terminal(rows[uniq[k]].state) {
          out := out + [InsertResult(uniq[k], rows[uniq[k]].createdAt, j.handler, None, true)];
        } else {
          var state := if j.availableAt > now then Pending else Available;
          rows := rows[ids[n] := Row(j, state, 0, NOBODY, ZERO_TIME, false, "", now, now)];
          if j.uniqueKey != "" { uniq := uniq[k := ids[n]]; }
          out := out + [InsertResult(ids[n], now, j.handler, j.scheduledFor, false)];
        }
      }
      assert jobs[..|jobs|] == jobs && ids[..|ids|] == ids;
    }

    /** The eligible rows in rank order. */
    method CollectCandidates(req: ClaimRequest) returns (cands: seq<Candidate>)
      ensures cands == Ordered(Value(), req)
    {
      cands := [];
      var rest := rows.Keys;
      while rest != {}
        invariant rest <= rows.Keys && Distinct(cands)
        invariant forall c :: c in cands <==>
                    c.id in rows.Keys - rest && Eligible(rows[c.id], req) && c == CandidateFor(c.id, rows[c.id])
        decreases rest
      {
        var id :| id in rest;
        rest := rest - {id};
        if Eligible(rows[id], req) { cands := cands + [CandidateFor(id, rows[id])]; }
      }
      ghost var listed := cands;
      cands := Sort(cands, Ranks);
      RanksTotal();
      SortSorted(listed, Ranks);
      SortDistinct(listed, Ranks);
      assert forall c :: c in Candidates(Value(), req) <==> c in listed;
      ClaimOrderUnique(Value(), req, cands, Ordered(Value(), req));
    }

    method Claim(req: ClaimRequest) returns (out: seq<Id>)
      modifies this
      ensures out == Claimed(old(Value()), req)
      ensures Value() == JobStore.Claim(old(Value()), req)
    {
      hide Eligible, ClaimRow, Candidates, ClaimOrder, Ordered, Take, InQueue, ClaimSome;
      ghost var db := Value();
      out := [];
      ClaimNone(db, req);
      if req.worker == NOBODY || req.handlers == {} {
        assert (set id | id in out) == {};
        return;
      }
      var limit := if req.limit <= 0 then 1 else req.limit;
      var cands := CollectCandidates(req);
      var perQueue: map<Queue, int> := map[];
      var n := 0;
      assert cands[..0] == [];
      while n < |cands| && |out| < limit
        invariant n <= |cands| && out == Take(db, req, cands[..n]) && |out| <= limit == Limit(req)
        invariant Value() == ClaimSome(db, req, set id | id in out)
        invariant forall q :: (if q in perQueue then perQueue[q] else 0) == InQueue(db, out, q)
        decreases |cands| - n
      {
        var id := cands[n].id;
        CandidateRow(db, req, n);
        TakeNext(db, req, cands, n);
        assert rows[id].job.queue == QueueOf(db, id) by { ClaimKeepsQueue(db, req, out, id); }
        var q := rows[id].job.queue;
        var used := if q in perQueue then perQueue[q] else 0;
        if !(q in req.queueLimits && req.queueLimits[q] >= 0 && used >= req.queueLimits[q]) {
          ghost var before := out;
          ClaimMore(db, req, before, id);
          QueueMore(db, before, id);
          rows := rows[id := ClaimRow(rows[id], req)];
          perQueue := perQueue[q := used + 1];
          out := out + [id];
        }
        n := n + 1;
      }
      Full(db, req, cands, n);
    }

    method Heartbeat(id: Id, w: Worker, now: Time, until: Time) returns (reply: Reply, cancelled: bool)
      modifies this
      ensures Value() == JobStore.Heartbeat(old(Value()), id, w, now, until)
      ensures reply == if LeasedBy(old(Value()), id, w) then Ok else NotFound
      ensures reply.Ok? ==> cancelled == old(rows[id].cancelRequested)
    {
      if id !in rows || rows[id].state != Running || rows[id].lockedBy != w { return NotFound, false; }
      rows := rows[id := rows[id].(lockedUntil := until, updatedAt := now)];
      return Ok, rows[id].cancelRequested;
    }

    method Complete(id: Id, w: Worker, now: Time, o: Outcome) returns (reply: Reply, applied: State)
      modifies this
      ensures Value() == JobStore.Complete(old(Value()), id, w, now, o)
      ensures reply == if LeasedBy(old(Value()), id, w) then Ok else NotFound
      ensures reply.Ok? ==> applied == AppliedState(old(rows[id]), o)
    {
      hide KeyOf, FreeUniq;
      applied := o.state;
      if id !in rows || rows[id].state != Running || rows[id].lockedBy != w { return NotFound, applied; }
      var r := rows[id];
      var attemptState, number := o.attemptState, o.attempt;
      if r.cancelRequested {
        applied := Cancelled;
        if attemptState.None? { number := r.attempt + 1; }
        attemptState := Some(AttemptCancelled);
      }
      if attemptState.Some? {
        var ledger := if id in attempts then attempts[id] else [];
        var entry := Attempt(number, w, attemptState.value, o.error, o.startedAt, o.finishedAt);
        attempts := attempts[id := ledger + [entry]];
        r := r.(attempt := number);
      }
      r := r.(state := applied, lastError := o.error);
      if applied == Pending || applied == Available { r := r.(job := r.job.(availableAt := o.availableAt)); }
      r := r.(lockedBy := NOBODY, lockedUntil := ZERO_TIME, cancelRequested := false);
      if now > r.updatedAt { r := r.(updatedAt := now); }
      rows := rows[id := r];
      if Terminal(applied) { FreeKey(id, r.job); }
      reply := Ok;
    }

    method FreeKey(id: Id, j: Job)
      modifies this`uniq
      ensures uniq == FreeUniq(old(uniq), id, j)
    {
      if j.uniqueKey == "" { return; }
      var k := KeyOf(j);
      if k in uniq && uniq[k] == id { uniq := uniq - {k}; }
    }

    method SweepExpired(now: Time) returns (count: nat)
      modifies this
      ensures Value() == Sweep(old(Value()), now)
      ensures count == |ExpiredIn(old(Value()), now, old(rows).Keys)|
    {
      hide SweepSome, SweepRow, SweepAttempt, SweepOne, ExpiredIn;
      count := 0;
      ghost var db := Value();
      var rest := rows.Keys;
      ghost var done: set<Id> := {};
      SweepNone(db, now);
      while rest != {}
        invariant rest <= db.rows.Keys && done == db.rows.Keys - rest
        invariant Value() == SweepSome(db, now, done)
        invariant count == |ExpiredIn(db, now, done)|
        decreases rest
      {
        var id :| id in rest;
        rest := rest - {id};
        SweepNext(db, now, done, id);
        ExpiredMore(db, now, done, id);
        done := done + {id};
        if !(rows[id].state != Running || rows[id].lockedUntil == ZERO_TIME || rows[id].lockedUntil > now) {
          SweepLease(id, now);
          count := count + 1;
        }
      }
      assert done == db.rows.Keys;
    }

    /** One expired lease. */
    method SweepLease(id: Id, now: Time)
      requires id in rows && Expired(rows[id], now)
      modifies this
      ensures Value() == SweepOne(old(Value()), now, id)
    {
      var r := rows[id];
      var number := r.attempt + 1;
      var state, error := AttemptFailed, "lease expired";
      if r.cancelRequested { state, error := AttemptCancelled, "cancelled after lease expiry"; }
      var ledger := if id in attempts then attempts[id] else [];
      attempts := attempts[id := ledger + [Attempt(number, r.lockedBy, state, error, r.lockedUntil, now)]];
      r := r.(attempt := number);
      if r.cancelRequested {
        r := r.(state := Cancelled, lastError := "cancelled");
        FreeKey(id, r.job);
      } else if number >= r.job.maxAttempts {
        r := r.(state := Discarded, lastError := "lease expired");
        FreeKey(id, r.job);
      } else {
        r := r.(state := Available, job := r.job.(availableAt := now));
      }
      rows := rows[id := r.(lockedBy := NOBODY, lockedUntil := ZERO_TIME, cancelRequested := false, updatedAt := now)];
    }

    method Retry(id: Id, now: Time) returns (reply: Reply)
      modifies this
      ensures Value() == JobStore.Retry(old(Value()), id, now)
      ensures reply == RetryReply(old(Value()), id)
    {
      if id !in rows { return NotFound; }
      var r := rows[id];
      if !Terminal(r.state) || r.state == Succeeded { return NotRetryable; }
      var k := KeyOf(r.job);
      if r.job.uniqueKey != "" && k in uniq && uniq[k] != id && uniq[k] in rows && !Terminal(rows[uniq[k]].state) {
        return Duplicate(uniq[k]);
      }
      if r.attempt >= r.job.maxAttempts { r := r.(job := r.job.(maxAttempts := r.attempt + 1)); }
      r := r.(state := Available, job := r.job.(availableAt := now), lastError := "", lockedBy := NOBODY,
              lockedUntil := ZERO_TIME);
      rows := rows[id := r.(cancelRequested := false, updatedAt := now)];
      if r.job.uniqueKey != "" { uniq := uniq[k := id]; }
      reply := Ok;
    }

    method Cancel(id: Id, now: Time) returns (reply: Reply, immediate: bool)
      modifies this
      ensures Value() == JobStore.Cancel(old(Value()), id, now)
      ensures reply == if id !in old(rows) then NotFound
                       else if Terminal(old(rows[id].state)) then AlreadyTerminal else Ok
      ensures immediate <==> reply.Ok? && old(rows[id].state) != Running
    {
      if id !in rows { return NotFound, false; }
      var r := rows[id];
      if Terminal(r.state) { return AlreadyTerminal, false; }
      if r.state == Running {
        rows := rows[id := r.(cancelRequested := true, updatedAt := now)];
        return Ok, false;
      }
      rows := rows[id := r.(state := Cancelled, updatedAt := now)];
      FreeKey(id, r.job);
      return Ok, true;
    }

    method Delete(id: Id) returns (reply: Reply)
      modifies this
      ensures Value() == JobStore.Delete(old(Value()), id)
      ensures reply == if id !in old(rows) then NotFound
                       else if old(rows[id].state) == Running then StillRunning else Ok
    {
      if id !in rows { return NotFound; }
      var r := rows[id];
      if r.state == Running { return StillRunning; }
      rows := rows - {id};
      attempts := attempts - {id};
      FreeKey(id, r.job);
      reply := Ok;
    }

    method FireSchedule(f: Fire, ids: seq<Id>) returns (reply: Reply, won: bool, results: seq<InsertResult>)
      requires |ids| == |f.jobs|
      modifies this
      ensures Value() == JobStore.FireSchedule(old(Value()), f, ids)
      ensures won <==> Wins(old(Value()), f)
      ensures reply == if f.key in old(schedules) then Ok else NotFound
      ensures |results| == if won then |f.jobs| else 0
      ensures won ==> forall k {:trigger results[k]} :: 0 <= k < |f.jobs| ==>
                results[k] ==
                InsertReply(InsertAll(old(Value()), f.now, f.jobs[..k], ids[..k]), f.now, f.jobs[k], ids[k])
    {
      if f.key !in schedules { return NotFound, false, []; }
      var sched := schedules[f.key];
      if sched.lastRun.Some? != f.expected.Some? || (f.expected.Some? && sched.lastRun.value != f.expected.value) {
        return Ok, false, [];
      }
      ghost var db := Value();
      InsertKeepsSchedules(db, f.now, f.jobs, ids);
      results := InsertBatch(f.now, f.jobs, ids);
      sched := sched.(lastRun := if f.newLastRun == ZERO_TIME then None else Some(f.newLastRun),
                      nextRun := f.newNextRun, updatedAt := f.now);
      schedules := schedules[f.key := sched];
      return Ok, true, results;
    }
  }

  // ---- lemmas for the loops ----

  lemma {:induction false} InsertKeepsSchedules(db: Db, now: Time, jobs: seq<Job>, ids: seq<Id>)
    requires |ids| == |jobs|
    ensures InsertAll(db, now, jobs, ids).schedules == db.schedules
  {
    if jobs != [] {
      InsertKeepsSchedules(db, now, jobs[..|jobs| - 1], ids[..|ids| - 1]);
    }
  }

  lemma ClaimNone(db: Db, req: ClaimRequest)
    ensures ClaimSome(db, req, {}) == db && Take(db, req, []) == [] && forall q :: InQueue(db, [], q) == 0
  {}

  lemma TakeNext(db: Db, req: ClaimRequest, cands: seq<Candidate>, n: nat)
    requires n < |cands|
    ensures var taken := Take(db, req, cands[..n]);
            Take(db, req, cands[..n + 1]) == if Admits(db, req, taken, cands[n]) then taken + [cands[n].id] else taken
  {
    assert cands[..n + 1][..n] == cands[..n];
  }

  lemma QueueMore(db: Db, taken: seq<Id>, id: Id)
    ensures forall q :: InQueue(db, taken + [id], q) == InQueue(db, taken, q) + (if QueueOf(db, id) == q then 1 else 0)
  {
    assert (taken + [id])[..|taken|] == taken;
  }

  lemma ClaimKeepsQueue(db: Db, req: ClaimRequest, taken: seq<Id>, id: Id)
    requires id in db.rows
    ensures var some := ClaimSome(db, req, set i | i in taken);
            id in some.rows && some.rows[id].job.queue == QueueOf(db, id)
  {}

  lemma CandidateRow(db: Db, req: ClaimRequest, n: nat)
    requires n < |Ordered(db, req)|
    ensures Ordered(db, req)[n].id in db.rows && Eligible(db.rows[Ordered(db, req)[n].id], req)
  {
    assert Ordered(db, req)[n] in Candidates(db, req);
  }

  lemma ClaimMore(db: Db, req: ClaimRequest, taken: seq<Id>, id: Id)
    requires id in db.rows
    ensures var some := ClaimSome(db, req, set i | i in taken);
            var more := ClaimSome(db, req, set i | i in taken + [id]);
            some.(rows := some.rows[id := ClaimRow(some.rows[id], req)]) == more
  {}

  /** Once the limit is reached, nothing more is taken. */
  lemma {:induction false} Full(db: Db, req: ClaimRequest, cands: seq<Candidate>, n: nat)
    requires n <= |cands| && (n == |cands| || |Take(db, req, cands[..n])| >= Limit(req))
    ensures Take(db, req, cands[..n]) == Take(db, req, cands)
    decreases |cands|
  {
    if n == |cands| {
      assert cands[..n] == cands;
    } else {
      var front := cands[..|cands| - 1];
      assert front[..n] == cands[..n];
      Full(db, req, front, n);
    }
  }

  /** Sweeping one row. */
  function SweepOne(db: Db, now: Time, id: Id): Db
    requires id in db.rows
  {
    var r := db.rows[id];
    db.(rows := db.rows[id := SweepRow(r, now)],
        uniq := if Terminal(SweepState(r)) then FreeUniq(db.uniq, id, r.job) else db.uniq,
        attempts := db.attempts[id := LedgerOf(db.attempts, id) + [SweepAttempt(r, now)]])
  }

  ghost function ExpiredIn(db: Db, now: Time, ids: set<Id>): set<Id> {
    set id | id in ids && id in db.rows && Expired(db.rows[id], now)
  }

  lemma ExpiredMore(db: Db, now: Time, done: set<Id>, id: Id)
    requires id in db.rows && id !in done
    ensures |ExpiredIn(db, now, done + {id})| ==
            |ExpiredIn(db, now, done)| + (if Expired(db.rows[id], now) then 1 else 0)
  {
    assert ExpiredIn(db, now, done + {id}) ==
           ExpiredIn(db, now, done) + (if Expired(db.rows[id], now) then {id} else {});
  }

  lemma SweepNone(db: Db, now: Time)
    ensures SweepSome(db, now, {}) == db && ExpiredIn(db, now, {}) == {}
  {
    assert SweepSome(db, now, {}).rows == db.rows;
    assert SweepSome(db, now, {}).uniq == db.uniq;
    assert SweepSome(db, now, {}).attempts == db.attempts;
  }

  lemma SweepNextRows(db: Db, now: Time, done: set<Id>, id: Id)
    requires id in db.rows && id !in done
    ensures var part := SweepSome(db, now, done);
            && part.rows.Keys == db.rows.Keys && (forall x :: x in db.rows && x !in done ==> part.rows[x] == db.rows[x])
            && SweepSome(db, now, done + {id}).rows ==
               if Expired(db.rows[id], now) then part.rows[id := SweepRow(db.rows[id], now)] else part.rows
  {
    hide SweepRow, SweepAttempt, SweepState, SweepFrees, LedgerOf;
  }

  lemma SweepNextLedger(db: Db, now: Time, done: set<Id>, id: Id)
    requires id in db.rows && id !in done
    ensures var part := SweepSome(db, now, done).attempts;
            SweepSome(db, now, done + {id}).attempts ==
            if Expired(db.rows[id], now) then part[id := LedgerOf(part, id) + [SweepAttempt(db.rows[id], now)]]
            else part
  {
    hide SweepRow, SweepAttempt, SweepState, SweepFrees;
    var part, next := SweepSome(db, now, done).attempts, SweepSome(db, now, done + {id}).attempts;
    assert LedgerOf(part, id) == LedgerOf(db.attempts, id);
    var want :=
      if Expired(db.rows[id], now) then part[id := LedgerOf(part, id) + [SweepAttempt(db.rows[id], now)]]
      else part;
    assert next.Keys == want.Keys;
  }

  lemma SweepNextKeys(db: Db, now: Time, done: set<Id>, id: Id)
    requires id in db.rows && id !in done
    ensures var part := SweepSome(db, now, done).uniq;
            SweepSome(db, now, done + {id}).uniq ==
            if Expired(db.rows[id], now) && Terminal(SweepState(db.rows[id])) then FreeUniq(part, id, db.rows[id].job)
            else part
  {
    hide SweepRow, SweepAttempt, SweepState, LedgerOf, KeyOf;
    forall k
      ensures k in db.uniq ==>
                (SweepFrees(db, now, done + {id}, k, db.uniq[k]) <==>
                 SweepFrees(db, now, done, k, db.uniq[k]) || (db.uniq[k] == id && SweepFrees(db, now, {id}, k, id)))
    {}
  }

  lemma SweepNext(db: Db, now: Time, done: set<Id>, id: Id)
    requires id in db.rows && id !in done
    ensures var part := SweepSome(db, now, done);
            && part.rows.Keys == db.rows.Keys && part.rows[id] == db.rows[id]
            && (forall x :: x in db.rows && x !in done ==> part.rows[x] == db.rows[x])
            && SweepSome(db, now, done + {id}) == if Expired(db.rows[id], now) then SweepOne(part, now, id) else part
  {
    SweepNextRows(db, now, done, id);
    SweepNextLedger(db, now, done, id);
    SweepNextKeys(db, now, done, id);
    assert SweepSome(db, now, done).schedules == SweepSome(db, now, done + {id}).schedules;
    hide SweepRow, SweepAttempt, SweepState, SweepSome, FreeUniq, LedgerOf;
  }
}
