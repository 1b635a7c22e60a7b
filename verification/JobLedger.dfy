/**
 Attempts and their ledger: workers claim jobs, run them and complete them with
 the outcome that decideOutcome of jobs/worker.go chooses, while the store
 sweeps, cancels, retries and deletes. A run keeps the attempt number and the
 limits it saw at its claim; the worker name is the only thing the store checks
 when it completes.
 */
module JobLedger {
  import opened Basics
  import opened Sorting
  import opened JobStore

  /** A handler's error: its text, and what errors.Is finds in it. */
  datatype RunError = RunError(text: string, canceled: bool, permanent: bool)

  /** How a run ends: it could not start (park), or the handler returned. delay is the backoff before a retry. */
  datatype Ending =
    | Parked(cause: string, at: Time)
    | Returned(error: Option<RunError>, cancelByUser: bool, deadlineExceeded: bool, draining: bool,
               started: Time, finished: Time, now: Time, delay: nat)

  /** A run opened by a claim. The stamp tells runs apart. */
  datatype Run = Run(stamp: nat, id: Id, worker: Worker, attempt: int, job: Job)

  function DispatchTimeout(job: Job, number: int, o: Outcome, retryAt: Time): (r: Outcome)
    ensures r.attempt == o.attempt && r.attemptState == Some(AttemptTimedOut)
    ensures r.state == Pending <==> job.onTimeout == TimeoutRetry && number < job.maxAttempts
    ensures r.state == Pending ==> r.availableAt == retryAt
    ensures r.state != Pending ==> r.state == if job.onTimeout == TimeoutFail then Failed else Discarded
  {
    var t := o.(attemptState := Some(AttemptTimedOut));
    match job.onTimeout
    case TimeoutFail => t.(state := Failed)
    case TimeoutDiscard => t.(state := Discarded)
    case TimeoutRetry =>
      if number >= job.maxAttempts then t.(state := Discarded) else t.(state := Pending, availableAt := retryAt)
  }

  /** decideOutcome, and the outcome park writes. */
  function OutcomeOf(run: Run, e: Ending): Outcome {
    var number := run.attempt + 1;
    match e
    case Parked(cause, at) => Outcome(Failed, number, cause, ZERO_TIME, Some(AttemptFailed), at, at)
    case Returned(error, cancelByUser, deadlineExceeded, draining, started, finished, now, delay) =>
      var text := if error.Some? then error.value.text else "";
      var o := Outcome(Succeeded, number, text, ZERO_TIME, Some(AttemptSucceeded), started, finished);
      if cancelByUser then o.(state := Cancelled, attemptState := Some(AttemptCancelled))
      else if deadlineExceeded then DispatchTimeout(run.job, number, o, now + delay)
      else if error.None? then o
      else if draining && error.value.canceled then
        o.(state := Available, attempt := run.attempt, attemptState := None, availableAt := now)
      else if error.value.permanent then o.(state := Failed, attemptState := Some(AttemptFailed))
      else if number >= run.job.maxAttempts then o.(state := Discarded, attemptState := Some(AttemptFailed))
      else o.(state := Pending, attemptState := Some(AttemptFailed), availableAt := now + delay)
  }

  /** An outcome consumes one attempt, or it is a release; it leaves the job live only below the limit. */
  lemma OutcomeShape(run: Run, e: Ending)
    ensures var o := OutcomeOf(run, e);
            && o.state != Running
            && (o.attemptState.None? ==> o.state == Available && o.attempt == run.attempt)
            && (o.attemptState.Some? ==> o.attempt == run.attempt + 1)
            && (o.attemptState.Some? && !Terminal(o.state) ==> run.attempt + 1 < run.job.maxAttempts)
  {}

  // ---- the system ----

  datatype Sys = Sys(db: Db, open: set<Run>)

  datatype Event =
    | Stores(op: Op)
    | Claims(req: ClaimRequest, stamp: nat)
    | Finishes(run: Run, ending: Ending, at: Time)
    | Drops(run: Run)

  ghost function Opened(db: Db, req: ClaimRequest, stamp: nat): set<Run> {
    set id | id in Claimed(db, req) && id in db.rows :: Run(stamp, id, req.worker, db.rows[id].attempt, db.rows[id].job)
  }

  /** Inserted jobs allow at least one attempt and get identifiers nobody uses. */
  ghost predicate NewJobs(s: Sys, jobs: seq<Job>, ids: seq<Id>) {
    && (forall j :: j in jobs ==> j.maxAttempts >= 1)
    && (forall run :: run in s.open ==> run.id !in ids)
  }

  ghost predicate Permitted(s: Sys, e: Event) {
    match e
    case Stores(op) =>
      && Allowed(s.db, op) && !op.Claiming? && !op.Completing?
      && (op.Inserting? ==> NewJobs(s, op.jobs, op.ids))
      && (op.Firing? ==> NewJobs(s, op.fire.jobs, op.ids))
    case Claims(req, stamp) => forall run :: run in s.open ==> run.stamp != stamp
    case Finishes(run, _, _) => run in s.open
    case Drops(run) => run in s.open
  }

  ghost function Next(s: Sys, e: Event): Sys
    requires Permitted(s, e)
  {
    match e
    case Stores(op) => Sys(Apply(s.db, op), s.open)
    case Claims(req, stamp) => Sys(Claim(s.db, req), s.open + Opened(s.db, req, stamp))
    case Finishes(run, ending, at) =>
      Sys(Complete(s.db, run.id, run.worker, at, OutcomeOf(run, ending)), s.open - {run})
    case Drops(run) => Sys(s.db, s.open - {run})
  }

  const START := Sys(EMPTY, {})

  ghost predicate IsHistory(states: seq<Sys>, events: seq<Event>) {
    && |states| == |events| + 1 && states[0] == START
    && forall k {:trigger events[k]} :: 0 <= k < |events|
        ==> Permitted(states[k], events[k]) && states[k + 1] == Next(states[k], events[k])
  }

  // ---- attempts stay within the limit ----

  predicate WithinLimit(r: Row) {
    0 <= r.attempt <= r.job.maxAttempts && (!Terminal(r.state) ==> r.attempt < r.job.maxAttempts)
  }

  predicate RunWithin(db: Db, run: Run) {
    && 0 <= run.attempt < run.job.maxAttempts
    && (run.id in db.rows ==> run.job.maxAttempts <= db.rows[run.id].job.maxAttempts)
  }

  ghost predicate Limited(s: Sys) {
    && (forall id :: id in s.db.rows ==> WithinLimit(s.db.rows[id]))
    && (forall run :: run in s.open ==> RunWithin(s.db, run))
  }

  /** Every row of the new store is an old one whose limit has not shrunk, or a new one. */
  ghost predicate GrowsFrom(db: Db, next: Db, ids: seq<Id>) {
    forall id :: id in next.rows ==>
                   WithinLimit(next.rows[id])
                   && (if id in db.rows then db.rows[id].job.maxAttempts <= next.rows[id].job.maxAttempts
                       else id in ids)
  }

  lemma {:induction false} InsertGrows(db: Db, now: Time, jobs: seq<Job>, ids: seq<Id>)
    requires |ids| == |jobs| && Fresh(db, ids)
    requires forall j :: j in jobs ==> j.maxAttempts >= 1
    requires forall id :: id in db.rows ==> WithinLimit(db.rows[id])
    ensures GrowsFrom(db, InsertAll(db, now, jobs, ids), ids)
  {
    if jobs != [] {
      var n := |jobs| - 1;
      FreshFront(db, ids);
      assert jobs[n] in jobs && forall j :: j in jobs[..n] ==> j in jobs;
      InsertGrows(db, now, jobs[..n], ids[..n]);
      assert ids[n] in ids && forall id :: id in ids[..n] ==> id in ids;
    }
  }

  lemma StoreGrows(s: Sys, op: Op, ids: seq<Id>)
    requires Limited(s) && Permitted(s, Stores(op))
    requires ids == if op.Inserting? || op.Firing? then op.ids else []
    ensures GrowsFrom(s.db, Apply(s.db, op), ids)
  {
    hide InsertAll, KeyOf, Claim, SweepSome, FreeUniq, Holder;
    match op
    case Inserting(now, jobs, _) => InsertGrows(s.db, now, jobs, ids);
    case Firing(f, _) =>
      if Wins(s.db, f) { InsertGrows(s.db, f.now, f.jobs, ids); }
    case Sweeping(now) => SweepGrows(s.db, now, s.db.rows.Keys);
    case _ =>
  }

  lemma SweepGrows(db: Db, now: Time, swept: set<Id>)
    requires forall id :: id in db.rows ==> WithinLimit(db.rows[id])
    ensures GrowsFrom(db, SweepSome(db, now, swept), [])
  {
    hide KeyOf, SweepFrees, LedgerOf;
  }

  lemma ClaimGrows(s: Sys, req: ClaimRequest, stamp: nat)
    requires Limited(s)
    ensures Limited(Sys(Claim(s.db, req), s.open + Opened(s.db, req, stamp)))
  {
    hide Eligible;
    forall id | id in Claimed(s.db, req)
      ensures id in s.db.rows && !Terminal(s.db.rows[id].state)
    {
      ClaimedLive(s.db, req, id);
    }
    hide Claimed;
  }

  lemma ClaimedLive(db: Db, req: ClaimRequest, id: Id)
    requires id in Claimed(db, req)
    ensures id in db.rows && !Terminal(db.rows[id].state) && db.rows[id].state != Running && req.worker != NOBODY
  {
    ClaimedEligible(db, req, id);
  }

  lemma FinishGrows(s: Sys, run: Run, e: Ending, at: Time)
    requires Limited(s) && run in s.open
    ensures GrowsFrom(s.db, Complete(s.db, run.id, run.worker, at, OutcomeOf(run, e)), [])
  {
    hide KeyOf, OutcomeOf;
    OutcomeShape(run, e);
    assert RunWithin(s.db, run);
  }

  lemma GrowsLimited(s: Sys, next: Sys, ids: seq<Id>)
    requires Limited(s) && GrowsFrom(s.db, next.db, ids) && next.open <= s.open
    requires forall run :: run in s.open ==> run.id !in ids
    ensures Limited(next)
  {
    forall run | run in next.open
      ensures RunWithin(next.db, run)
    {
      assert RunWithin(s.db, run);
    }
  }

  lemma StepLimited(s: Sys, e: Event)
    requires Limited(s) && Permitted(s, e)
    ensures Limited(Next(s, e))
  {
    hide Limited, GrowsFrom, Apply, Claim, Complete;
    match e
    case Stores(op) =>
      var ids := if op.Inserting? || op.Firing? then op.ids else [];
      StoreGrows(s, op, ids);
      GrowsLimited(s, Next(s, e), ids);
    case Claims(req, stamp) => ClaimGrows(s, req, stamp);
    case Finishes(run, ending, at) =>
      FinishGrows(s, run, ending, at);
      GrowsLimited(s, Next(s, e), []);
    case Drops(run) =>
      assert GrowsFrom(s.db, s.db, []) by { Stays(s); }
      GrowsLimited(s, Next(s, e), []);
  }

  lemma Stays(s: Sys)
    requires Limited(s)
    ensures GrowsFrom(s.db, s.db, [])
  {}

  /** In every interleaving, stale runs included: no job exceeds its limit and every live job is below it. */
  lemma {:induction false} AttemptsLimited(states: seq<Sys>, events: seq<Event>, k: nat)
    requires IsHistory(states, events) && k < |states|
    ensures Limited(states[k])
  {
    if k > 0 {
      AttemptsLimited(states, events, k - 1);
      assert events[k - 1] == events[k - 1];
      StepLimited(states[k - 1], events[k - 1]);
    }
  }

  // ---- the ledger ----

  /** The ledger is numbered 1, 2, … up to the attempt count. */
  ghost predicate Numbered(ledger: seq<Attempt>, attempt: int) {
    |ledger| == attempt && forall i :: 0 <= i < |ledger| ==> ledger[i].number == i + 1
  }

  ghost predicate Ledgered(db: Db) {
    && (forall id :: id in db.rows ==> Numbered(LedgerOf(db.attempts, id), db.rows[id].attempt))
    && (forall id :: id in db.attempts ==> id in db.rows)
  }

  /** A run that could still complete knows the current attempt number. */
  predicate Current(db: Db, run: Run) {
    LeasedBy(db, run.id, run.worker) ==> run.attempt == db.rows[run.id].attempt
  }

  ghost predicate LedgerExact(s: Sys) {
    Ledgered(s.db) && forall run :: run in s.open ==> Current(s.db, run)
  }

  /** The claim takes no job that the worker still has an open run for. */
  ghost predicate NoReclaim(s: Sys, e: Event) {
    e.Claims? ==> forall run, id :: run in s.open && id in Claimed(s.db, e.req) ==>
        !(run.worker == e.req.worker && run.id == id)
  }

  /** Leases in the new store were leases before, at the same attempt. */
  ghost predicate LeasesFrom(db: Db, next: Db) {
    forall id, w :: LeasedBy(next, id, w) && w != NOBODY
        ==> LeasedBy(db, id, w) && next.rows[id].attempt == db.rows[id].attempt
  }

  lemma {:induction false} InsertLedger(db: Db, now: Time, jobs: seq<Job>, ids: seq<Id>)
    requires |ids| == |jobs| && Fresh(db, ids) && Ledgered(db)
    ensures var next := InsertAll(db, now, jobs, ids);
            Ledgered(next) && LeasesFrom(db, next) && next.attempts == db.attempts
            && forall id :: id in next.rows ==> id in db.rows || id in ids
  {
    if jobs != [] {
      var n := |jobs| - 1;
      FreshFront(db, ids);
      InsertLedger(db, now, jobs[..n], ids[..n]);
      var part := InsertAll(db, now, jobs[..n], ids[..n]);
      InsertOneLedger(part, now, jobs[n], ids[n]);
      assert ids[n] in ids && forall id :: id in ids[..n] ==> id in ids;
      hide Ledgered, LeasedBy, InsertOne;
    }
  }

  lemma InsertOneLedger(db: Db, now: Time, j: Job, id: Id)
    requires Ledgered(db) && id !in db.rows
    ensures var next := InsertOne(db, now, j, id);
            && Ledgered(next) && LeasesFrom(db, next) && next.attempts == db.attempts
            && forall x :: x in next.rows ==> x in db.rows || x == id
  {
    hide KeyOf, Holder;
    assert LedgerOf(db.attempts, id) == [];
  }

  lemma StoreLedger(s: Sys, op: Op)
    requires Ledgered(s.db) && Permitted(s, Stores(op))
    ensures Ledgered(Apply(s.db, op)) && LeasesFrom(s.db, Apply(s.db, op))
  {
    hide InsertAll, KeyOf, Claim, Consistent, SweepSome, Retry, Cancel, Delete;
    match op
    case Inserting(now, jobs, ids) => InsertLedger(s.db, now, jobs, ids);
    case Firing(f, ids) =>
      if Wins(s.db, f) { InsertLedger(s.db, f.now, f.jobs, ids); }
    case Beating(_, _, _, _) =>
    case Sweeping(now) => SweepLedger(s.db, now, s.db.rows.Keys);
    case Retrying(id, now) => RetryLedger(s.db, id, now);
    case Cancelling(id, now) => CancelLedger(s.db, id, now);
    case Deleting(id) => DeleteLedger(s.db, id);
    case Upserting(_, _, _, _) =>
    case Unscheduling(_) =>
  }

  lemma RetryLedger(db: Db, id: Id, now: Time)
    requires Ledgered(db)
    ensures Ledgered(Retry(db, id, now)) && LeasesFrom(db, Retry(db, id, now))
  {
    hide KeyOf, Numbered, RetryReply;
  }

  lemma CancelLedger(db: Db, id: Id, now: Time)
    requires Ledgered(db)
    ensures Ledgered(Cancel(db, id, now)) && LeasesFrom(db, Cancel(db, id, now))
  {
    hide KeyOf, FreeUniq, Numbered;
  }

  lemma DeleteLedger(db: Db, id: Id)
    requires Ledgered(db)
    ensures Ledgered(Delete(db, id)) && LeasesFrom(db, Delete(db, id))
  {
    hide KeyOf, FreeUniq, Numbered;
    var next := Delete(db, id);
    assert forall x :: x in next.rows ==> LedgerOf(next.attempts, x) == LedgerOf(db.attempts, x);
  }

  lemma SweepLedgerAt(db: Db, now: Time, ids: set<Id>, id: Id)
    requires id in db.rows
    ensures var next := SweepSome(db, now, ids);
            if Sweeps(db, now, ids, id) then
              && next.rows[id].attempt == db.rows[id].attempt + 1 && next.rows[id].state != Running
              && LedgerOf(next.attempts, id) == LedgerOf(db.attempts, id) + [SweepAttempt(db.rows[id], now)]
            else next.rows[id] == db.rows[id] && LedgerOf(next.attempts, id) == LedgerOf(db.attempts, id)
  {
    hide KeyOf, SweepFrees, SweepAttempt;
  }

  lemma SweepLedger(db: Db, now: Time, ids: set<Id>)
    requires Ledgered(db)
    ensures Ledgered(SweepSome(db, now, ids)) && LeasesFrom(db, SweepSome(db, now, ids))
  {
    var next := SweepSome(db, now, ids);
    assert next.rows.Keys == db.rows.Keys && forall id :: id in next.attempts ==> id in db.rows;
    hide SweepSome;
    forall id | id in db.rows
      ensures Numbered(LedgerOf(next.attempts, id), next.rows[id].attempt)
      ensures next.rows[id].state == Running ==> next.rows[id] == db.rows[id]
    {
      SweepLedgerAt(db, now, ids, id);
      assert Numbered(LedgerOf(db.attempts, id), db.rows[id].attempt);
    }
  }

  lemma LeaseOwned(db: Db, id: Id, w: Worker)
    requires Consistent(db) && LeasedBy(db, id, w)
    ensures w != NOBODY
  {}

  lemma ClaimLedger(s: Sys, req: ClaimRequest, stamp: nat)
    requires LedgerExact(s) && NoReclaim(s, Claims(req, stamp))
    ensures LedgerExact(Sys(Claim(s.db, req), s.open + Opened(s.db, req, stamp)))
  {
    hide Claimed;
    var next := Claim(s.db, req);
    forall run | run in s.open + Opened(s.db, req, stamp)
      ensures Current(next, run)
    {
      if run in s.open { assert Current(s.db, run); }
    }
  }

  /** A completion that writes no number of its own, or the next one, keeps the ledger. */
  lemma FinishLedger(db: Db, run: Run, e: Ending, at: Time)
    requires Ledgered(db) && CurrentNumber(db, run, e)
    ensures var next := Complete(db, run.id, run.worker, at, OutcomeOf(run, e)); Ledgered(next) && LeasesFrom(db, next)
  {
    hide OutcomeOf;
    OutcomeShape(run, e);
    CompleteLedger(db, run.id, run.worker, at, OutcomeOf(run, e));
  }

  /** One row stops running and its ledger is in order; all others stay. */
  ghost predicate OneSettles(db: Db, next: Db, id: Id)
    requires id in db.rows
  {
    && next.rows.Keys == db.rows.Keys && next.rows[id].state != Running
    && (forall x :: x in db.rows && x != id ==> next.rows[x] == db.rows[x])
    && Numbered(LedgerOf(next.attempts, id), next.rows[id].attempt)
    && next.attempts.Keys <= db.attempts.Keys + {id}
    && (forall x :: x != id ==> LedgerOf(next.attempts, x) == LedgerOf(db.attempts, x))
  }

  lemma SettledLedger(db: Db, next: Db, id: Id)
    requires Ledgered(db) && id in db.rows && OneSettles(db, next, id)
    ensures Ledgered(next) && LeasesFrom(db, next)
  {
    hide Numbered, LedgerOf;
  }

  /** A completion with the next number, or none of its own, settles its row. */
  lemma CompleteSettles(db: Db, id: Id, w: Worker, at: Time, o: Outcome)
    requires LeasedBy(db, id, w) && o.state != Running && Numbered(LedgerOf(db.attempts, id), db.rows[id].attempt)
    requires o.attemptState.Some? ==> o.attempt == db.rows[id].attempt + 1
    ensures OneSettles(db, Complete(db, id, w, at, o), id)
  {
    hide KeyOf, FreeUniq;
  }

  lemma CompleteLedger(db: Db, id: Id, w: Worker, at: Time, o: Outcome)
    requires Ledgered(db) && o.state != Running
    requires LeasedBy(db, id, w) && o.attemptState.Some? ==> o.attempt == db.rows[id].attempt + 1
    ensures Ledgered(Complete(db, id, w, at, o)) && LeasesFrom(db, Complete(db, id, w, at, o))
  {
    if LeasedBy(db, id, w) {
      assert Numbered(LedgerOf(db.attempts, id), db.rows[id].attempt);
      hide Complete, Numbered, LedgerOf, OneSettles, Ledgered, LeasesFrom;
      CompleteSettles(db, id, w, at, o);
      SettledLedger(db, Complete(db, id, w, at, o), id);
    }
  }

  /** If the completion finds its lease and records an attempt, the number is the current one. */
  predicate CurrentNumber(db: Db, run: Run, e: Ending) {
    LeasedBy(db, run.id, run.worker) && OutcomeOf(run, e).attemptState.Some? ==> run.attempt == db.rows[run.id].attempt
  }

  /** Exactly when: a recorded completion keeps the numbering if and only if the run's attempt number is current. */
  lemma FinishExact(db: Db, run: Run, e: Ending, at: Time)
    requires Ledgered(db) && LeasedBy(db, run.id, run.worker) && OutcomeOf(run, e).attemptState.Some?
    ensures Ledgered(Complete(db, run.id, run.worker, at, OutcomeOf(run, e))) <==>
            run.attempt == db.rows[run.id].attempt
  {
    hide KeyOf, OutcomeOf;
    OutcomeShape(run, e);
    assert Numbered(LedgerOf(db.attempts, run.id), db.rows[run.id].attempt);
    var next := Complete(db, run.id, run.worker, at, OutcomeOf(run, e));
    assert LedgerOf(next.attempts, run.id)[db.rows[run.id].attempt].number == run.attempt + 1;
    assert next.rows[run.id].attempt == run.attempt + 1;
  }

  lemma FinishCurrent(s: Sys, run: Run, e: Ending, at: Time)
    requires LedgerExact(s) && run in s.open
    ensures var next := Complete(s.db, run.id, run.worker, at, OutcomeOf(run, e));
            Ledgered(next) && LeasesFrom(s.db, next)
  {
    assert Current(s.db, run);
    hide OutcomeOf, Complete, LeasesFrom, Ledgered;
    FinishLedger(s.db, run, e, at);
  }

  lemma LeasesCurrent(s: Sys, next: Sys)
    requires LedgerExact(s) && Consistent(next.db) && Ledgered(next.db) && LeasesFrom(s.db, next.db) &&
             next.open <= s.open
    ensures LedgerExact(next)
  {
    forall run | run in next.open
      ensures Current(next.db, run)
    {
      assert Current(s.db, run);
      if LeasedBy(next.db, run.id, run.worker) { LeaseOwned(next.db, run.id, run.worker); }
    }
  }

  /** The store steps of a history are store operations, so its stores are consistent. */
  lemma StepConsistent(s: Sys, e: Event)
    requires Consistent(s.db) && Permitted(s, e)
    ensures Consistent(Next(s, e).db)
  {
    hide Consistent, Claim, Complete;
    match e
    case Stores(op) => StepKeeps(s.db, op);
    case Claims(req, _) => ClaimKeeps(s.db, req);
    case Finishes(run, ending, at) =>
      OutcomeShape(run, ending);
      CompleteKeeps(s.db, run.id, run.worker, at, OutcomeOf(run, ending));
    case Drops(_) =>
  }

  lemma StepLedger(s: Sys, e: Event)
    requires LedgerExact(s) && Consistent(s.db) && Permitted(s, e) && NoReclaim(s, e)
    ensures LedgerExact(Next(s, e))
  {
    StepConsistent(s, e);
    hide Ledgered, LeasesFrom, Apply, Claim, Complete, Consistent, LedgerExact;
    match e
    case Stores(op) =>
      StoreLedger(s, op);
      LeasesCurrent(s, Next(s, e));
    case Claims(req, stamp) => ClaimLedger(s, req, stamp);
    case Finishes(run, ending, at) =>
      FinishCurrent(s, run, ending, at);
      LeasesCurrent(s, Next(s, e));
    case Drops(run) => DropLedger(s, run);
  }

  lemma DropLedger(s: Sys, run: Run)
    requires LedgerExact(s)
    ensures LedgerExact(Sys(s.db, s.open - {run}))
  {}

  /** If no worker reclaims a job it still has an open run for, every ledger is numbered 1 to the attempt count, in
      order. */
  lemma {:induction false} LedgerAlwaysExact(states: seq<Sys>, events: seq<Event>, k: nat)
    requires IsHistory(states, events) && k < |states|
    requires forall i {:trigger events[i]} :: 0 <= i < k ==> NoReclaim(states[i], events[i])
    ensures LedgerExact(states[k]) && Consistent(states[k].db)
  {
    if k > 0 {
      LedgerAlwaysExact(states, events, k - 1);
      assert events[k - 1] == events[k - 1];
      StepConsistent(states[k - 1], events[k - 1]);
      StepLedger(states[k - 1], events[k - 1]);
    }
  }

  /** A finishing run that could record an attempt has the current number. */
  ghost predicate FinishesCurrent(s: Sys, e: Event) {
    e.Finishes? ==> CurrentNumber(s.db, e.run, e.ending)
  }

  lemma ClaimLedgered(db: Db, req: ClaimRequest)
    requires Ledgered(db)
    ensures Ledgered(Claim(db, req))
  {
    hide Claimed, Numbered;
  }

  lemma StepLedgeredIff(s: Sys, e: Event)
    requires Ledgered(s.db) && Permitted(s, e)
    ensures Ledgered(Next(s, e).db) <==> FinishesCurrent(s, e)
  {
    hide Ledgered, LeasesFrom, Apply, Claim, Complete, OutcomeOf;
    match e
    case Stores(op) => StoreLedger(s, op);
    case Claims(req, _) => ClaimLedgered(s.db, req);
    case Finishes(run, ending, at) =>
      if CurrentNumber(s.db, run, ending) {
        FinishLedger(s.db, run, ending, at);
      } else {
        FinishExact(s.db, run, ending, at);
      }
    case Drops(_) =>
  }

  /** Exactly when, over every history: all ledgers are numbered 1 to the attempt count in every state if and only if
      every completion that found its lease and recorded an attempt had the current number. */
  lemma {:induction false} LedgerExactIff(states: seq<Sys>, events: seq<Event>, n: nat)
    requires IsHistory(states, events) && n < |states|
    ensures (forall k: nat {:trigger states[k]} :: k <= n ==> Ledgered(states[k].db)) <==>
            (forall k: nat {:trigger events[k]} :: k < n ==> FinishesCurrent(states[k], events[k]))
  {
    hide FinishesCurrent, Next, Permitted;
    if n == 0 {
      assert Ledgered(states[0].db);
    } else {
      hide Ledgered;
      LedgerExactIff(states, events, n - 1);
      assert Permitted(states[n - 1], events[n - 1]) && states[n] == Next(states[n - 1], events[n - 1]);
      if Ledgered(states[n - 1].db) { StepLedgeredIff(states[n - 1], events[n - 1]); }
    }
  }

  // ---- a worker that reclaims its own job ----

  const TASK := Job(Handler("k", "h"), Queue("q"), 0, ZERO_TIME, 3, 0, TimeoutRetry, "", None)
  const ONLY := Id("j")
  const ME := Worker("w")

  function Request(now: Time): ClaimRequest {
    ClaimRequest(ME, {}, now, 1, 1, map[], {TASK.handler})
  }

  /** A store whose only row is eligible hands it out. */
  lemma OnlyClaimed(db: Db, now: nat)
    requires db.rows.Keys == {ONLY} && Eligible(db.rows[ONLY], Request(now))
    ensures Claimed(db, Request(now)) == [ONLY]
    ensures Claim(db, Request(now)).rows == map[ONLY := ClaimRow(db.rows[ONLY], Request(now))]
    ensures Claim(db, Request(now)).attempts == db.attempts && Claim(db, Request(now)).uniq == db.uniq
    ensures Opened(db, Request(now), now) == {Run(now, ONLY, ME, db.rows[ONLY].attempt, db.rows[ONLY].job)}
  {
    var req := Request(now);
    var c := CandidateFor(ONLY, db.rows[ONLY]);
    assert c in Candidates(db, req);
    var cands := Ordered(db, req);
    assert forall d :: d in cands <==> d == c;
    OneElement(cands, c);
    assert Take(db, req, []) == [] && cands[..0] == [];
    assert Take(db, req, cands) == [ONLY];
    hide Take, Ordered, Candidates, Eligible;
    assert Claimed(db, req) == [ONLY];
    hide Claimed;
    assert Claim(db, req).rows == map[ONLY := ClaimRow(db.rows[ONLY], req)];
  }

  lemma OneElement(s: seq<Candidate>, c: Candidate)
    requires Distinct(s) && forall d :: d in s <==> d == c
    ensures s == [c]
  {
    DistinctMultiset(s, [c]);
    assert |multiset(s)| == |multiset([c])|;
    assert s[0] in s;
  }

  /** The row of the example at each point. */
  function ExampleRow(state: State, attempt: int, w: Worker, until: Time, error: string, availableAt: Time,
                      at: Time): Row {
    Row(TASK.(availableAt := availableAt), state, attempt, w, until, false, error, 1, at)
  }

  function OneRow(r: Row, ledger: seq<Attempt>): Db {
    Db(map[ONLY := r], map[], if ledger == [] then map[] else map[ONLY := ledger], map[])
  }

  const LOST := Attempt(1, ME, AttemptFailed, "lease expired", 2, 3)
  const FAILING := Returned(Some(RunError("boom", false, false)), false, false, false, 1, 5, 5, 0)

  const FIRST := Run(1, ONLY, ME, 0, TASK)
  const SECOND := Run(4, ONLY, ME, 1, TASK.(availableAt := 3))
  const REPEATED := Attempt(1, ME, AttemptFailed, "boom", 1, 5)

  /** The stores of the example: inserted, claimed, swept, claimed again, completed by the first run. */
  function ExampleStore(k: nat): Db {
    match k
    case 0 => EMPTY
    case 1 => OneRow(ExampleRow(Available, 0, NOBODY, 0, "", 0, 1), [])
    case 2 => OneRow(ExampleRow(Running, 0, ME, 2, "", 0, 1), [])
    case 3 => OneRow(ExampleRow(Available, 1, NOBODY, 0, "", 3, 3), [LOST])
    case 4 => OneRow(ExampleRow(Running, 1, ME, 5, "", 3, 4), [LOST])
    case _ => OneRow(ExampleRow(Pending, 1, NOBODY, 0, "boom", 5, 5), [LOST, REPEATED])
  }

  lemma ExampleClaims(k: nat, now: nat)
    requires (k == 1 && now == 1) || (k == 3 && now == 4)
    ensures var run := if k == 1 then FIRST else SECOND;
            && Claim(ExampleStore(k), Request(now)) == ExampleStore(k + 1) &&
                ONLY in Claimed(ExampleStore(k), Request(now))
            && Opened(ExampleStore(k), Request(now), now) == {run}
  {
    OnlyClaimed(ExampleStore(k), now);
    hide Claimed, Opened;
  }

  function ExampleEvent(k: nat): Event {
    match k
    case 0 => Stores(Inserting(1, [TASK], [ONLY]))
    case 1 => Claims(Request(1), 1)
    case 2 => Stores(Sweeping(3))
    case 3 => Claims(Request(4), 4)
    case _ => Finishes(FIRST, FAILING, 5)
  }

  function ExampleState(k: nat): Sys {
    Sys(ExampleStore(k), if k < 2 then {} else if k < 4 then {FIRST} else if k == 4 then {FIRST, SECOND} else {SECOND})
  }

  lemma ExampleStep(k: nat)
    requires k < 5
    ensures Permitted(ExampleState(k), ExampleEvent(k)) && Next(ExampleState(k), ExampleEvent(k)) == ExampleState(k + 1)
  {
    hide ExampleStore, InsertAll, Claim, Complete, Sweep, Opened, Claimed;
    match k
    case 0 =>
      assert ExampleStore(0) == EMPTY by { ExampleStart(); }
      ExampleInsert();
    case 1 => ExampleClaims(1, 1);
    case 2 => ExampleSweep();
    case 3 =>
      ExampleClaims(3, 4);
      assert {FIRST} + {SECOND} == {FIRST, SECOND};
    case 4 =>
      ExampleFinish();
      assert FIRST != SECOND && {FIRST, SECOND} - {FIRST} == {SECOND};
  }

  lemma ExampleStart()
    ensures ExampleStore(0) == EMPTY
  {}

  /** Insert, claim, lose the lease to a sweep, claim again while the first run is still open: the first run then
      completes the second lease, and the ledger holds attempt one twice. */
  lemma ReclaimRepeatsNumber() returns (states: seq<Sys>, events: seq<Event>)
    ensures IsHistory(states, events) && |events| == 5 && !NoReclaim(states[3], events[3])
    ensures ONLY in states[5].db.rows && LedgerOf(states[5].db.attempts, ONLY) == [LOST, REPEATED] &&
            !Ledgered(states[5].db)
  {
    states, events := seq(6, (k: nat) => ExampleState(k)), seq(5, (k: nat) => ExampleEvent(k));
    assert states[5].db.rows[ONLY].attempt == 1;
    assert states[0] == START by { ExampleStart(); }
    ExampleClaims(3, 4);
    assert FIRST in states[3].open && FIRST.worker == ME && FIRST.id == ONLY;
    hide ExampleState, ExampleEvent, Next, Permitted;
    forall k {:trigger events[k]} | 0 <= k < |events|
      ensures Permitted(states[k], events[k]) && states[k + 1] == Next(states[k], events[k])
    {
      ExampleStep(k);
    }
  }

  lemma ExampleInsert()
    ensures Fresh(EMPTY, [ONLY]) && InsertAll(EMPTY, 1, [TASK], [ONLY]) == ExampleStore(1)
  {
    assert [TASK][..0] == [] && [ONLY][..0] == [];
    assert InsertAll(EMPTY, 1, [], []) == EMPTY;
  }

  lemma ExampleSweep()
    ensures Sweep(ExampleStore(2), 3) == ExampleStore(3)
  {
    var d2, d3 := ExampleStore(2), ExampleStore(3);
    assert Sweeps(d2, 3, {ONLY}, ONLY);
    assert SweepRow(d2.rows[ONLY], 3) == d3.rows[ONLY];
    assert LedgerOf(d2.attempts, ONLY) + [SweepAttempt(d2.rows[ONLY], 3)] == [LOST];
    hide SweepRow, SweepAttempt, LedgerOf;
    assert Sweep(d2, 3).rows == d3.rows;
    assert Sweep(d2, 3).attempts == d3.attempts;
    assert Sweep(d2, 3).uniq == d3.uniq;
  }

  lemma ExampleFinish()
    ensures Complete(ExampleStore(4), ONLY, ME, 5, OutcomeOf(FIRST, FAILING)) == ExampleStore(5)
  {
    var d4, d5 := ExampleStore(4), ExampleStore(5);
    var o := OutcomeOf(FIRST, FAILING);
    assert o == Outcome(Pending, 1, "boom", 5, Some(AttemptFailed), 1, 5);
    hide OutcomeOf;
    assert LeasedBy(d4, ONLY, ME);
    assert CompleteRow(d4.rows[ONLY], ME, 5, o) == d5.rows[ONLY];
    assert CompleteAttempt(d4.rows[ONLY], ME, o) == Some(REPEATED);
    assert LedgerOf(d4.attempts, ONLY) + [REPEATED] == [LOST, REPEATED];
    hide CompleteRow, CompleteAttempt, LedgerOf;
    assert Complete(d4, ONLY, ME, 5, o).attempts == d5.attempts;
    assert Complete(d4, ONLY, ME, 5, o).rows == d5.rows;
  }
}
