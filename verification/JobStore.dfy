/**
 The in-memory job store of jobs/store_memory.go. Every store method holds one
 mutex, so each is one atomic step on the rows, the unique-key index, the
 attempt ledger and the schedules. Clock readings and the identifiers drawn by
 NewID are parameters; time zero is Go's zero time.
 */
module JobStore {
  import opened Basics
  import opened Sorting

  datatype State = Pending | Available | Running | Succeeded | Failed | Cancelled | Discarded

  predicate Terminal(s: State) { s == Succeeded || s == Failed || s == Cancelled || s == Discarded }

  datatype AttemptState = AttemptSucceeded | AttemptFailed | AttemptTimedOut | AttemptCancelled
  datatype OnTimeout = TimeoutRetry | TimeoutFail | TimeoutDiscard

  type Time = int
  const ZERO_TIME: Time := 0

  datatype Id = Id(name: string)
  datatype Worker = Worker(name: string)
  datatype Queue = Queue(name: string)
  datatype Handler = Handler(kind: string, handlerId: string)
  datatype IndexKey = IndexKey(text: string)

  /** No lease owner. */
  const NOBODY := Worker("")

  datatype Job = Job(handler: Handler, queue: Queue, priority: int, availableAt: Time, maxAttempts: int,
                     timeoutMs: int, onTimeout: OnTimeout, uniqueKey: string, scheduledFor: Option<Time>)

  datatype Row = Row(job: Job, state: State, attempt: int, lockedBy: Worker, lockedUntil: Time, cancelRequested: bool,
                     lastError: string, createdAt: Time, updatedAt: Time)

  datatype Attempt = Attempt(number: int, worker: Worker, state: AttemptState, error: string, startedAt: Time,
                             finishedAt: Time)

  datatype Schedule = Schedule(spec: string, nextRun: Time, lastRun: Option<Time>, updatedAt: Time)

  datatype Db = Db(rows: map<Id, Row>, uniq: map<IndexKey, Id>, attempts: map<Id, seq<Attempt>>,
                   schedules: map<IndexKey, Schedule>)

  const EMPTY := Db(map[], map[], map[], map[])

  datatype Reply = Ok | NotFound | NotRetryable | Duplicate(existing: Id) | AlreadyTerminal | StillRunning

  // ---- the unique-key index ----

  const NUL: char := 0 as char

  function UniqText(h: Handler, key: string): string {
    h.kind + [NUL] + h.handlerId + [NUL] + key
  }

  function KeyOf(j: Job): IndexKey { IndexKey(UniqText(j.handler, j.uniqueKey)) }

  /** freeUniq */
  function FreeUniq(uniq: map<IndexKey, Id>, id: Id, j: Job): map<IndexKey, Id> {
    if j.uniqueKey != "" && KeyOf(j) in uniq && uniq[KeyOf(j)] == id then uniq - {KeyOf(j)} else uniq
  }

  predicate Live(db: Db, id: Id) {
    id in db.rows && !Terminal(db.rows[id].state)
  }

  /** Live row id carries the unique key k. */
  predicate Holds(db: Db, k: IndexKey, id: Id) {
    Live(db, id) && db.rows[id].job.uniqueKey != "" && KeyOf(db.rows[id].job) == k
  }

  predicate Maps(uniq: map<IndexKey, Id>, k: IndexKey, id: Id) { k in uniq && uniq[k] == id }

  /** The index maps a key to a row exactly when that row is live and carries the key. */
  ghost predicate Indexed(db: Db) {
    forall k, id {:trigger Holds(db, k, id)} {:trigger Maps(db.uniq, k, id)} :: Maps(db.uniq, k, id) <==>
        Holds(db, k, id)
  }

  /** A row is running exactly when it has an owner, and only running rows carry a cancellation. */
  predicate Leased(r: Row) {
    && (r.state == Running <==> r.lockedBy != NOBODY)
    && (r.cancelRequested ==> r.state == Running)
  }

  ghost predicate Consistent(db: Db) {
    Indexed(db) && forall id :: id in db.rows ==> Leased(db.rows[id])
  }

  // ---- steps ----

  datatype InsertResult = InsertResult(id: Id, createdAt: Time, handler: Handler, scheduledFor: Option<Time>,
                                       duplicate: bool)

  /** The live job that already holds j's key. */
  function Holder(db: Db, j: Job): Option<Id> {
    if j.uniqueKey != "" && KeyOf(j) in db.uniq && Live(db, db.uniq[KeyOf(j)]) then Some(db.uniq[KeyOf(j)]) else None
  }

  function NewRow(now: Time, j: Job): Row {
    Row(j, if j.availableAt > now then Pending else Available, 0, NOBODY, ZERO_TIME, false, "", now, now)
  }

  function InsertOne(db: Db, now: Time, j: Job, id: Id): Db {
    if Holder(db, j).Some? then db
    else db.(rows := db.rows[id := NewRow(now, j)],
             uniq := if j.uniqueKey != "" then db.uniq[KeyOf(j) := id] else db.uniq)
  }

  function InsertReply(db: Db, now: Time, j: Job, id: Id): InsertResult {
    var held := Holder(db, j);
    if held.Some? then
      InsertResult(held.value, if held.value in db.rows then db.rows[held.value].createdAt else ZERO_TIME, j.handler,
                   None, true)
    else InsertResult(id, now, j.handler, j.scheduledFor, false)
  }

  /** insertLocked, job after job; ids supplies one identifier per job. */
  function InsertAll(db: Db, now: Time, jobs: seq<Job>, ids: seq<Id>): Db
    requires |ids| == |jobs|
  {
    if jobs == [] then db
    else
      var n := |jobs| - 1;
      InsertOne(InsertAll(db, now, jobs[..n], ids[..n]), now, jobs[n], ids[n])
  }

  datatype ClaimRequest = ClaimRequest(worker: Worker, queues: set<Queue>, now: Time, lease: int, limit: int,
                                       queueLimits: map<Queue, int>, handlers: set<Handler>)

  predicate Eligible(r: Row, req: ClaimRequest) {
    && (r.state == Available || r.state == Pending)
    && (r.job.availableAt == ZERO_TIME || r.job.availableAt <= req.now)
    && (req.queues == {} || r.job.queue in req.queues)
    && r.job.handler in req.handlers
  }

  function ClaimRow(r: Row, req: ClaimRequest): Row {
    r.(state := Running, lockedBy := req.worker, lockedUntil := req.now + req.lease, updatedAt := req.now)
  }

  function ClaimSome(db: Db, req: ClaimRequest, ids: set<Id>): Db {
    db.(rows := map id | id in db.rows :: if id in ids then ClaimRow(db.rows[id], req) else db.rows[id])
  }

  predicate LeasedBy(db: Db, id: Id, w: Worker) {
    id in db.rows && db.rows[id].state == Running && db.rows[id].lockedBy == w
  }

  function Heartbeat(db: Db, id: Id, w: Worker, now: Time, until: Time): Db {
    if LeasedBy(db, id, w) then db.(rows := db.rows[id := db.rows[id].(lockedUntil := until, updatedAt := now)]) else db
  }

  /** attemptState None is a release that writes no ledger row. */
  datatype Outcome = Outcome(state: State, attempt: int, error: string, availableAt: Time,
                             attemptState: Option<AttemptState>, startedAt: Time, finishedAt: Time)

  function AppliedState(r: Row, o: Outcome): State {
    if r.cancelRequested then Cancelled else o.state
  }

  /** The ledger row a completion writes, if any. */
  function CompleteAttempt(r: Row, w: Worker, o: Outcome): Option<Attempt> {
    if r.cancelRequested then
      var number := if o.attemptState.Some? then o.attempt else r.attempt + 1;
      Some(Attempt(number, w, AttemptCancelled, o.error, o.startedAt, o.finishedAt))
    else match o.attemptState
      case Some(s) => Some(Attempt(o.attempt, w, s, o.error, o.startedAt, o.finishedAt))
      case None => None
  }

  function CompleteRow(r: Row, w: Worker, now: Time, o: Outcome): Row {
    var applied, a := AppliedState(r, o), CompleteAttempt(r, w, o);
    var waiting := applied == Pending || applied == Available;
    r.(job := if waiting then r.job.(availableAt := o.availableAt) else r.job,
       state := applied,
       attempt := if a.Some? then a.value.number else r.attempt,
       lockedBy := NOBODY, lockedUntil := ZERO_TIME, cancelRequested := false, lastError := o.error,
       updatedAt := if now > r.updatedAt then now else r.updatedAt)
  }

  function LedgerOf(attempts: map<Id, seq<Attempt>>, id: Id): seq<Attempt> {
    if id in attempts then attempts[id] else []
  }

  function Complete(db: Db, id: Id, w: Worker, now: Time, o: Outcome): Db {
    if LeasedBy(db, id, w) then
      var r := db.rows[id];
      var a := CompleteAttempt(r, w, o);
      db.(rows := db.rows[id := CompleteRow(r, w, now, o)],
          uniq := if Terminal(AppliedState(r, o)) then FreeUniq(db.uniq, id, r.job) else db.uniq,
          attempts := if a.Some? then db.attempts[id := LedgerOf(db.attempts, id) + [a.value]] else db.attempts)
    else db
  }

  predicate Expired(r: Row, now: Time) {
    r.state == Running && r.lockedUntil != ZERO_TIME && r.lockedUntil <= now
  }

  function SweepState(r: Row): State {
    if r.cancelRequested then Cancelled else if r.attempt + 1 >= r.job.maxAttempts then Discarded else Available
  }

  function SweepAttempt(r: Row, now: Time): Attempt {
    Attempt(r.attempt + 1, r.lockedBy, if r.cancelRequested then AttemptCancelled else AttemptFailed,
            if r.cancelRequested then "cancelled after lease expiry" else "lease expired", r.lockedUntil, now)
  }

  function SweepRow(r: Row, now: Time): Row {
    var next := r.(attempt := r.attempt + 1, state := SweepState(r), lockedBy := NOBODY, lockedUntil := ZERO_TIME,
                   cancelRequested := false, updatedAt := now);
    match SweepState(r)
    case Cancelled => next.(lastError := "cancelled")
    case Discarded => next.(lastError := "lease expired")
    case _ => next.(job := r.job.(availableAt := now))
  }

  predicate Sweeps(db: Db, now: Time, ids: set<Id>, id: Id) {
    id in ids && id in db.rows && Expired(db.rows[id], now)
  }

  /** Sweeping row id frees the key k. */
  predicate SweepFrees(db: Db, now: Time, ids: set<Id>, k: IndexKey, id: Id) {
    Sweeps(db, now, ids, id) && Terminal(SweepState(db.rows[id])) && db.rows[id].job.uniqueKey != "" &&
        KeyOf(db.rows[id].job) == k
  }

  /** SweepExpired on the rows in ids. */
  function SweepSome(db: Db, now: Time, ids: set<Id>): Db {
    Db(map id | id in db.rows :: if Sweeps(db, now, ids, id) then SweepRow(db.rows[id], now) else db.rows[id],
       map k | k in db.uniq && !SweepFrees(db, now, ids, k, db.uniq[k]) :: db.uniq[k],
       map id | id in db.attempts.Keys + (set i | i in db.rows && Sweeps(db, now, ids, i)) ::
         if Sweeps(db, now, ids, id) then LedgerOf(db.attempts, id) + [SweepAttempt(db.rows[id], now)]
         else LedgerOf(db.attempts, id),
       db.schedules)
  }

  function Sweep(db: Db, now: Time): Db { SweepSome(db, now, db.rows.Keys) }

  function RetryReply(db: Db, id: Id): Reply {
    if id !in db.rows then NotFound
    else if !Terminal(db.rows[id].state) || db.rows[id].state == Succeeded then NotRetryable
    else
      var held := Holder(db, db.rows[id].job);
      if held.Some? && held.value != id then Duplicate(held.value) else Ok
  }

  function RetryRow(r: Row, now: Time): Row {
    r.(job := r.job.(maxAttempts := if r.attempt >= r.job.maxAttempts then r.attempt + 1 else r.job.maxAttempts,
                     availableAt := now),
       state := Available, lastError := "", lockedBy := NOBODY, lockedUntil := ZERO_TIME, cancelRequested := false,
       updatedAt := now)
  }

  function Retry(db: Db, id: Id, now: Time): Db {
    if RetryReply(db, id).Ok? && id in db.rows then
      var r := db.rows[id];
      db.(rows := db.rows[id := RetryRow(r, now)],
          uniq := if r.job.uniqueKey != "" then db.uniq[KeyOf(r.job) := id] else db.uniq)
    else db
  }

  function Cancel(db: Db, id: Id, now: Time): Db {
    if !Live(db, id) then db
    else
      var r := db.rows[id];
      if r.state == Running then db.(rows := db.rows[id := r.(cancelRequested := true, updatedAt := now)])
      else db.(rows := db.rows[id := r.(state := Cancelled, updatedAt := now)], uniq := FreeUniq(db.uniq, id, r.job))
  }

  function Delete(db: Db, id: Id): Db {
    if id !in db.rows || db.rows[id].state == Running then db
    else db.(rows := db.rows - {id}, attempts := db.attempts - {id}, uniq := FreeUniq(db.uniq, id, db.rows[id].job))
  }

  datatype Fire = Fire(key: IndexKey, expected: Option<Time>, newLastRun: Time, newNextRun: Time, now: Time,
                       jobs: seq<Job>)

  /** The compare-and-swap of FireSchedule finds the last run it expects. */
  predicate Wins(db: Db, f: Fire) {
    f.key in db.schedules && db.schedules[f.key].lastRun == f.expected
  }

  function FireSchedule(db: Db, f: Fire, ids: seq<Id>): Db
    requires |ids| == |f.jobs|
  {
    if Wins(db, f) then
      InsertAll(db, f.now, f.jobs, ids).(schedules := db.schedules[f.key := db.schedules[f.key].(
                                           lastRun := if f.newLastRun == ZERO_TIME then None else Some(f.newLastRun),
                                           nextRun := f.newNextRun, updatedAt := f.now)])
    else db
  }

  /** UpsertSchedule: an existing row keeps its last run, and its next run while the spec stays the same. */
  function UpsertSchedule(db: Db, key: IndexKey, spec: string, nextRun: Time, now: Time): Db {
    var row :=
      if key in db.schedules then
        var prev := db.schedules[key];
        Schedule(spec, if prev.spec == spec then prev.nextRun else nextRun, prev.lastRun, now)
      else Schedule(spec, nextRun, None, now);
    db.(schedules := db.schedules[key := row])
  }

  // ---- claim order ----

  datatype Candidate = Candidate(priority: int, availableAt: Time, id: Id)

  /** Priority descending, then availability, then identifier. */
  predicate Ranks(a: Candidate, b: Candidate) {
    a.priority > b.priority
    || (a.priority == b.priority && (a.availableAt < b.availableAt
                                     || (a.availableAt == b.availableAt && StringLeq(a.id.name, b.id.name))))
  }

  lemma RanksTotal()
    ensures TotalOrder(Ranks)
  {
    StringOrder();
    forall a, b
      ensures Ranks(a, b) || Ranks(b, a)
      ensures Ranks(a, b) && Ranks(b, a) ==> a == b
    {
      assert StringLeq(a.id.name, b.id.name) || StringLeq(b.id.name, a.id.name);
    }
    forall a, b, c | Ranks(a, b) && Ranks(b, c)
      ensures Ranks(a, c)
    {
      assert StringLeq(a.id.name, b.id.name) && StringLeq(b.id.name, c.id.name) ==> StringLeq(a.id.name, c.id.name);
    }
  }

  function CandidateFor(id: Id, r: Row): Candidate { Candidate(r.job.priority, r.job.availableAt, id) }

  function Candidates(db: Db, req: ClaimRequest): set<Candidate> {
    set id | id in db.rows && Eligible(db.rows[id], req) :: CandidateFor(id, db.rows[id])
  }

  /** cands lists the eligible rows in rank order. */
  ghost predicate ClaimOrder(db: Db, req: ClaimRequest, cands: seq<Candidate>) {
    Distinct(cands) && SortedBy(cands, Ranks) && forall c :: c in cands <==> c in Candidates(db, req)
  }

  /** Whatever order the rows are visited in, the claim considers them in one order. */
  lemma ClaimOrderUnique(db: Db, req: ClaimRequest, a: seq<Candidate>, b: seq<Candidate>)
    requires ClaimOrder(db, req, a) && ClaimOrder(db, req, b)
    ensures a == b
  {
    RanksTotal();
    DistinctMultiset(a, b);
    SortedUnique(a, b, Ranks);
  }

  ghost function Listed(s: set<Candidate>): (r: seq<Candidate>)
    ensures Distinct(r) && forall c :: c in r <==> c in s
  {
    if s == {} then [] else
      var c :| c in s;
      [c] + Listed(s - {c})
  }

  ghost function Ordered(db: Db, req: ClaimRequest): (cands: seq<Candidate>)
    ensures ClaimOrder(db, req, cands)
  {
    var s := Listed(Candidates(db, req));
    RanksTotal();
    SortSorted(s, Ranks);
    SortDistinct(s, Ranks);
    Sort(s, Ranks)
  }

  function QueueOf(db: Db, id: Id): Queue {
    if id in db.rows then db.rows[id].job.queue else Queue("")
  }

  function InQueue(db: Db, taken: seq<Id>, q: Queue): nat {
    if taken == [] then 0 else
      InQueue(db, taken[..|taken| - 1], q) + (if QueueOf(db, taken[|taken| - 1]) == q then 1 else 0)
  }

  function Limit(req: ClaimRequest): nat { if req.limit <= 0 then 1 else req.limit }

  /** The queue's budget lets one more through. */
  predicate QueueOpen(db: Db, req: ClaimRequest, taken: seq<Id>, q: Queue) {
    !(q in req.queueLimits && req.queueLimits[q] >= 0 && InQueue(db, taken, q) >= req.queueLimits[q])
  }

  predicate Admits(db: Db, req: ClaimRequest, taken: seq<Id>, c: Candidate) {
    |taken| < Limit(req) && QueueOpen(db, req, taken, QueueOf(db, c.id))
  }

  function Take(db: Db, req: ClaimRequest, cands: seq<Candidate>): seq<Id> {
    if cands == [] then [] else
      var taken, c := Take(db, req, cands[..|cands| - 1]), cands[|cands| - 1];
      if Admits(db, req, taken, c) then taken + [c.id] else taken
  }

  /** What a claim hands out, in order. */
  ghost function Claimed(db: Db, req: ClaimRequest): seq<Id> {
    if req.worker == NOBODY || req.handlers == {} then [] else Take(db, req, Ordered(db, req))
  }

  ghost function Claim(db: Db, req: ClaimRequest): Db {
    ClaimSome(db, req, set id | id in Claimed(db, req))
  }

  // ---- runs ----

  datatype Op =
    | Inserting(now: Time, jobs: seq<Job>, ids: seq<Id>)
    | Claiming(req: ClaimRequest)
    | Beating(id: Id, worker: Worker, now: Time, until: Time)
    | Completing(id: Id, worker: Worker, now: Time, outcome: Outcome)
    | Sweeping(now: Time)
    | Retrying(id: Id, now: Time)
    | Cancelling(id: Id, now: Time)
    | Deleting(id: Id)
    | Firing(fire: Fire, ids: seq<Id>)
    | Upserting(key: IndexKey, spec: string, nextRun: Time, now: Time)
    | Unscheduling(key: IndexKey)

  /** NewID never repeats an identifier in use. */
  ghost predicate Fresh(db: Db, ids: seq<Id>) {
    Distinct(ids) && forall id :: id in ids ==> id !in db.rows
  }

  /** What callers respect: new identifiers, and no completion into the running state. */
  ghost predicate Allowed(db: Db, op: Op) {
    match op
    case Inserting(_, jobs, ids) => |ids| == |jobs| && Fresh(db, ids)
    case Firing(f, ids) => |ids| == |f.jobs| && Fresh(db, ids)
    case Completing(_, _, _, o) => o.state != Running
    case _ => true
  }

  ghost function Apply(db: Db, op: Op): Db
    requires Allowed(db, op)
  {
    match op
    case Inserting(now, jobs, ids) => InsertAll(db, now, jobs, ids)
    case Claiming(req) => Claim(db, req)
    case Beating(id, w, now, until) => Heartbeat(db, id, w, now, until)
    case Completing(id, w, now, o) => Complete(db, id, w, now, o)
    case Sweeping(now) => Sweep(db, now)
    case Retrying(id, now) => Retry(db, id, now)
    case Cancelling(id, now) => Cancel(db, id, now)
    case Deleting(id) => Delete(db, id)
    case Firing(f, ids) => FireSchedule(db, f, ids)
    case Upserting(key, spec, nextRun, now) => UpsertSchedule(db, key, spec, nextRun, now)
    case Unscheduling(key) => db.(schedules := db.schedules - {key})
  }

  /** dbs are the states of a run of ops from the empty store. */
  ghost predicate IsRun(dbs: seq<Db>, ops: seq<Op>) {
    && |dbs| == |ops| + 1 && dbs[0] == EMPTY
    && forall k {:trigger ops[k]} :: 0 <= k < |ops| ==> Allowed(dbs[k], ops[k]) && dbs[k + 1] == Apply(dbs[k], ops[k])
  }

  // ---- consistency of every reachable state ----

  /** One row changes, nobody else's key does. */
  lemma KeepsIndex(db: Db, id: Id, r: Row)
    requires Consistent(db) && id in db.rows && Leased(r)
    requires r.job.handler == db.rows[id].job.handler && r.job.uniqueKey == db.rows[id].job.uniqueKey
    requires !Terminal(r.state) <==> !Terminal(db.rows[id].state)
    ensures Consistent(db.(rows := db.rows[id := r]))
  {
    hide KeyOf;
    assert KeyOf(r.job) == KeyOf(db.rows[id].job) by { SameKey(r.job, db.rows[id].job); }
    var next := db.(rows := db.rows[id := r]);
    forall k, x
      ensures Holds(next, k, x) <==> Holds(db, k, x)
    {}
  }

  lemma SameKey(a: Job, b: Job)
    requires a.handler == b.handler && a.uniqueKey == b.uniqueKey
    ensures KeyOf(a) == KeyOf(b)
  {}

  /** A row that ends gives its key up. */
  lemma Ends(db: Db, id: Id, r: Row)
    requires Consistent(db) && id in db.rows && Leased(r) && Terminal(r.state)
    ensures Consistent(db.(rows := db.rows[id := r], uniq := FreeUniq(db.uniq, id, db.rows[id].job)))
  {
    hide KeyOf;
    var next := db.(rows := db.rows[id := r], uniq := FreeUniq(db.uniq, id, db.rows[id].job));
    forall k, x
      ensures Maps(next.uniq, k, x) <==> Holds(next, k, x)
    {
      assert Maps(db.uniq, k, x) <==> Holds(db, k, x);
    }
  }

  lemma DeleteKeeps(db: Db, id: Id)
    requires Consistent(db)
    ensures Consistent(Delete(db, id))
  {
    hide KeyOf;
    var next := Delete(db, id);
    forall k, x
      ensures Maps(next.uniq, k, x) <==> Holds(next, k, x)
    {
      assert Maps(db.uniq, k, x) <==> Holds(db, k, x);
    }
  }

  /** A live row takes a key that nobody holds. */
  lemma Takes(db: Db, id: Id, r: Row)
    requires Consistent(db) && Leased(r) && !Terminal(r.state)
    requires r.job.uniqueKey != "" && KeyOf(r.job) in db.uniq ==> db.uniq[KeyOf(r.job)] == id
    requires !Live(db, id)
    ensures Consistent(db.(rows := db.rows[id := r],
                           uniq := if r.job.uniqueKey != "" then db.uniq[KeyOf(r.job) := id] else db.uniq))
  {
    hide KeyOf;
    var next := db.(rows := db.rows[id := r],
                    uniq := if r.job.uniqueKey != "" then db.uniq[KeyOf(r.job) := id] else db.uniq);
    forall k, x
      ensures Maps(next.uniq, k, x) <==> Holds(next, k, x)
    {
      assert Maps(db.uniq, k, x) <==> Holds(db, k, x);
    }
  }

  /** In a consistent store an index entry always names a live job. */
  lemma IndexLive(db: Db, j: Job)
    requires Consistent(db) && j.uniqueKey != ""
    ensures KeyOf(j) in db.uniq <==> Holder(db, j).Some?
  {
    if KeyOf(j) in db.uniq {
      assert Maps(db.uniq, KeyOf(j), db.uniq[KeyOf(j)]);
    }
  }

  lemma InsertOneKeeps(db: Db, now: Time, j: Job, id: Id)
    requires Consistent(db) && id !in db.rows
    ensures Consistent(InsertOne(db, now, j, id))
    ensures InsertOne(db, now, j, id).rows.Keys <= db.rows.Keys + {id}
  {
    if Holder(db, j).None? {
      if j.uniqueKey != "" { IndexLive(db, j); }
      Takes(db, id, NewRow(now, j));
    }
  }

  lemma {:induction false} InsertAllKeeps(db: Db, now: Time, jobs: seq<Job>, ids: seq<Id>)
    requires Consistent(db) && |ids| == |jobs| && Fresh(db, ids)
    ensures Consistent(InsertAll(db, now, jobs, ids))
    ensures InsertAll(db, now, jobs, ids).rows.Keys <= db.rows.Keys + set id | id in ids
    ensures InsertAll(db, now, jobs, ids).schedules == db.schedules
  {
    if jobs != [] {
      var n := |jobs| - 1;
      FreshFront(db, ids);
      InsertAllKeeps(db, now, jobs[..n], ids[..n]);
      InsertOneKeeps(InsertAll(db, now, jobs[..n], ids[..n]), now, jobs[n], ids[n]);
      assert forall id :: id in ids[..n] ==> id in ids;
    }
  }

  lemma FreshFront(db: Db, ids: seq<Id>)
    requires Fresh(db, ids) && ids != []
    ensures Fresh(db, ids[..|ids| - 1]) && ids[|ids| - 1] !in db.rows && ids[|ids| - 1] !in ids[..|ids| - 1]
  {
    assert forall id :: id in ids[..|ids| - 1] ==> id in ids;
    assert ids[|ids| - 1] in ids;
  }

  lemma ClaimKeeps(db: Db, req: ClaimRequest)
    requires Consistent(db)
    ensures Consistent(Claim(db, req))
  {
    hide Consistent, Claimed;
    var ids := set id | id in Claimed(db, req);
    forall id | id in ids && id in db.rows
      ensures req.worker != NOBODY && Eligible(db.rows[id], req)
    {
      ClaimedEligible(db, req, id);
    }
    ClaimSomeKeeps(db, req, ids);
  }

  lemma ClaimSomeKeeps(db: Db, req: ClaimRequest, ids: set<Id>)
    requires Consistent(db)
    requires forall id :: id in ids && id in db.rows ==> req.worker != NOBODY && Eligible(db.rows[id], req)
    ensures Consistent(ClaimSome(db, req, ids))
  {
    hide KeyOf;
    var next := ClaimSome(db, req, ids);
    forall id | id in db.rows
      ensures Leased(next.rows[id]) && (Terminal(next.rows[id].state) <==> Terminal(db.rows[id].state))
      ensures next.rows[id].job == db.rows[id].job
    {
      assert Leased(db.rows[id]);
    }
    hide ClaimSome, Leased, Eligible;
    assert next.rows.Keys == db.rows.Keys by { ClaimSomeKeys(db, req, ids); }
    assert next.uniq == db.uniq by { ClaimSomeKeys(db, req, ids); }
    forall k, x
      ensures Holds(next, k, x) <==> Holds(db, k, x)
    {}
  }

  lemma ClaimSomeKeys(db: Db, req: ClaimRequest, ids: set<Id>)
    ensures ClaimSome(db, req, ids).rows.Keys == db.rows.Keys && ClaimSome(db, req, ids).uniq == db.uniq
  {}

  lemma {:induction false} TakenFrom(db: Db, req: ClaimRequest, cands: seq<Candidate>, id: Id)
    requires id in Take(db, req, cands)
    ensures exists c :: c in cands && c.id == id
  {
    var n := |cands| - 1;
    if id in Take(db, req, cands[..n]) {
      TakenFrom(db, req, cands[..n], id);
      var c :| c in cands[..n] && c.id == id;
      assert c in cands;
    } else {
      assert cands[n] in cands;
    }
  }

  lemma ClaimedEligible(db: Db, req: ClaimRequest, id: Id)
    requires id in Claimed(db, req)
    ensures req.worker != NOBODY && id in db.rows && Eligible(db.rows[id], req)
  {
    TakenFrom(db, req, Ordered(db, req), id);
    var c :| c in Ordered(db, req) && c.id == id;
    assert c in Candidates(db, req);
  }

  lemma CompleteKeeps(db: Db, id: Id, w: Worker, now: Time, o: Outcome)
    requires Consistent(db) && o.state != Running
    ensures Consistent(Complete(db, id, w, now, o))
  {
    if LeasedBy(db, id, w) {
      var r := db.rows[id];
      if Terminal(AppliedState(r, o)) {
        Ends(db, id, CompleteRow(r, w, now, o));
      } else {
        KeepsIndex(db, id, CompleteRow(r, w, now, o));
      }
      SameRows(Complete(db, id, w, now, o));
    }
  }

  /** Consistency does not look at the ledger or the schedules. */
  lemma SameRows(db: Db)
    ensures forall attempts, schedules :: Consistent(Db(db.rows, db.uniq, attempts, schedules)) <==> Consistent(db)
  {
    forall attempts, schedules
      ensures Consistent(Db(db.rows, db.uniq, attempts, schedules)) <==> Consistent(db)
    {
      var other := Db(db.rows, db.uniq, attempts, schedules);
      assert forall k, x :: Holds(other, k, x) <==> Holds(db, k, x);
    }
  }

  lemma SweepRowLeased(r: Row, now: Time)
    requires Leased(r)
    ensures Leased(SweepRow(r, now)) && SweepRow(r, now).state == SweepState(r) && SweepState(r) != Running
    ensures SweepRow(r, now).job.uniqueKey == r.job.uniqueKey && KeyOf(SweepRow(r, now).job) == KeyOf(r.job)
  {
    SameKey(SweepRow(r, now).job, r.job);
  }

  lemma SweepHolds(db: Db, now: Time, ids: set<Id>, k: IndexKey, x: Id)
    requires Consistent(db)
    ensures Holds(SweepSome(db, now, ids), k, x) <==> Holds(db, k, x) && !SweepFrees(db, now, ids, k, x)
  {
    hide KeyOf, SweepRow, SweepState, Consistent;
    if x in db.rows {
      assert Leased(db.rows[x]) by { RowLeased(db, x); }
      SweepRowLeased(db.rows[x], now);
    }
  }

  lemma RowLeased(db: Db, id: Id)
    requires Consistent(db) && id in db.rows
    ensures Leased(db.rows[id])
  {}

  lemma SweepKeeps(db: Db, now: Time, ids: set<Id>)
    requires Consistent(db)
    ensures Consistent(SweepSome(db, now, ids))
  {
    hide KeyOf, SweepRow, SweepState, Holds, SweepFrees;
    var next := SweepSome(db, now, ids);
    forall id | id in db.rows
      ensures Leased(next.rows[id])
    {
      SweepRowLeased(db.rows[id], now);
    }
    forall k, x
      ensures Maps(next.uniq, k, x) <==> Holds(next, k, x)
    {
      SweepHolds(db, now, ids, k, x);
      assert Maps(db.uniq, k, x) <==> Holds(db, k, x);
    }
  }

  lemma RetryKeeps(db: Db, id: Id, now: Time)
    requires Consistent(db)
    ensures Consistent(Retry(db, id, now))
  {
    if RetryReply(db, id).Ok? {
      var r := db.rows[id];
      SameKey(RetryRow(r, now).job, r.job);
      if r.job.uniqueKey != "" { IndexLive(db, r.job); }
      Takes(db, id, RetryRow(r, now));
    }
  }

  lemma CancelKeeps(db: Db, id: Id, now: Time)
    requires Consistent(db)
    ensures Consistent(Cancel(db, id, now))
  {
    if Live(db, id) {
      var r := db.rows[id];
      if r.state == Running { KeepsIndex(db, id, r.(cancelRequested := true, updatedAt := now)); }
      else { Ends(db, id, r.(state := Cancelled, updatedAt := now)); }
    }
  }

  lemma StepKeeps(db: Db, op: Op)
    requires Consistent(db) && Allowed(db, op)
    ensures Consistent(Apply(db, op))
  {
    hide Consistent, Complete, Retry, Cancel, Delete, Sweep, SweepSome, Claim, InsertAll;
    match op
    case Inserting(now, jobs, ids) => InsertAllKeeps(db, now, jobs, ids);
    case Claiming(req) => ClaimKeeps(db, req);
    case Beating(id, w, now, until) =>
      if LeasedBy(db, id, w) { BeatKeeps(db, id, now, until); }
    case Completing(id, w, now, o) => CompleteKeeps(db, id, w, now, o);
    case Sweeping(now) => assert Consistent(Sweep(db, now)) by { SweepAllKeeps(db, now); }
    case Retrying(id, now) => RetryKeeps(db, id, now);
    case Cancelling(id, now) => CancelKeeps(db, id, now);
    case Deleting(id) => DeleteKeeps(db, id);
    case Firing(f, ids) =>
      if Wins(db, f) {
        InsertAllKeeps(db, f.now, f.jobs, ids);
        SameRows(InsertAll(db, f.now, f.jobs, ids));
      }
    case Upserting(_, _, _, _) => SameRows(db);
    case Unscheduling(_) => SameRows(db);
  }

  lemma SweepAllKeeps(db: Db, now: Time)
    requires Consistent(db)
    ensures Consistent(Sweep(db, now))
  {
    SweepKeeps(db, now, db.rows.Keys);
  }

  lemma BeatKeeps(db: Db, id: Id, now: Time, until: Time)
    requires Consistent(db) && id in db.rows
    ensures Consistent(db.(rows := db.rows[id := db.rows[id].(lockedUntil := until, updatedAt := now)]))
  {
    KeepsIndex(db, id, db.rows[id].(lockedUntil := until, updatedAt := now));
  }

  /** Every state of every run is consistent. */
  lemma {:induction false} AlwaysConsistent(dbs: seq<Db>, ops: seq<Op>, k: nat)
    requires IsRun(dbs, ops) && k < |dbs|
    ensures Consistent(dbs[k])
  {
    if k > 0 {
      AlwaysConsistent(dbs, ops, k - 1);
      assert ops[k - 1] == ops[k - 1];
      StepKeeps(dbs[k - 1], ops[k - 1]);
    }
  }
}
