/**
 One worker of jobs/worker.go as a state machine: a polling loop that claims and
 registers runs, the runner of each run, and the drain that races with them at
 shutdown. The atomic phase of a run decides every race; each atomic operation
 is one step, and steps interleave freely. The runners' deferred cleanup happens
 in its own order, one step at a time.
 */
module JobWorker {
  import opened Basics
  import opened JobStore
  import JobLeases

  datatype Phase = Registered | Invoking | Resolving | Abandoned

  /** Where a runner stands. Leaving(n): n of the deferred cleanups are done (active, queue count, semaphore). */
  datatype Pc = Deciding | Handling | Returned | Committing | Leaving(n: nat) | Finished

  datatype Run = Run(job: Id, queue: Queue, phase: Phase, pc: Pc, invoked: bool, completed: bool)

  datatype Claim = Claim(job: Id, queue: Queue)

  /** Where the worker's own goroutine stands. Ranging(todo, second): drain still has to visit the jobs in todo and
      tries its second compare-and-swap on run second. */
  datatype Main = Working | Waiting | Ranging(todo: set<Id>, second: Option<nat>) | Drained(ok: bool)

  datatype Config = Config(concurrency: nat, queues: seq<Queue>, perQueue: map<Queue, int>)

  datatype Sys = Sys(runs: seq<Run>, active: map<Id, nat>, sem: nat, inFlight: map<Queue, int>, wg: nat,
                     pending: seq<Claim>, main: Main, abandoned: bool, doneClosed: bool)

  const IDLE := Sys([], map[], 0, map[], 0, [], Working, false, false)

  function InFlight(s: Sys, q: Queue): int { if q in s.inFlight then s.inFlight[q] else 0 }

  predicate Capped(c: Config, q: Queue) { q in c.perQueue && c.perQueue[q] > 0 }

  // ---- polling ----

  /** Queue q may be polled. */
  predicate Open(c: Config, s: Sys, q: Queue) {
    q in c.queues && (Capped(c, q) ==> InFlight(s, q) < c.perQueue[q])
  }

  method EligibleQueues(c: Config, s: Sys) returns (queues: seq<Queue>, budget: map<Queue, int>)
    ensures forall q :: q in queues <==> Open(c, s, q)
    ensures forall q :: q in budget <==> Open(c, s, q) && Capped(c, q)
    ensures forall q :: q in budget ==> Capped(c, q) && budget[q] == c.perQueue[q] - InFlight(s, q) > 0
  {
    if c.perQueue == map[] { return c.queues, map[]; }
    queues, budget := [], map[];
    for k := 0 to |c.queues|
      invariant forall q :: q in queues <==> q in c.queues[..k] && Open(c, s, q)
      invariant forall q :: q in budget <==> q in c.queues[..k] && Open(c, s, q) && Capped(c, q)
      invariant forall q :: q in budget ==> Capped(c, q) && budget[q] == c.perQueue[q] - InFlight(s, q) > 0
    {
      var q := c.queues[k];
      assert c.queues[..k + 1] == c.queues[..k] + [q];
      if q !in c.perQueue || c.perQueue[q] <= 0 {
        queues := queues + [q];
      } else {
        var remaining := c.perQueue[q] - InFlight(s, q);
        if remaining > 0 {
          queues := queues + [q];
          budget := budget[q := remaining];
        }
      }
    }
    assert c.queues[..|c.queues|] == c.queues;
  }

  function ClaimsIn(rows: seq<Claim>, q: Queue): nat {
    if rows == [] then 0 else ClaimsIn(rows[1..], q) + (if rows[0].queue == q then 1 else 0)
  }

  /** What a claim may return: no more than the free slots, only open queues, within each budget. */
  ghost predicate Claimable(c: Config, s: Sys, rows: seq<Claim>) {
    && s.sem < c.concurrency && |rows| <= c.concurrency - s.sem
    && (forall r :: r in rows ==> Open(c, s, r.queue))
    && (forall q :: Open(c, s, q) && Capped(c, q) ==> ClaimsIn(rows, q) <= c.perQueue[q] - InFlight(s, q))
  }

  // ---- what the store hands out ----

  function ClaimsOf(db: Db, ids: seq<Id>): seq<Claim> {
    seq(|ids|, i requires 0 <= i < |ids| => Claim(ids[i], QueueOf(db, ids[i])))
  }

  /** tryClaim: with a free slot and an open queue, it asks for as many jobs as there are slots, from the open queues
      and within their budgets, and what the store hands out for that fits. */
  method TryClaim(c: Config, s: Sys, ghost db: Db, worker: Worker, now: Time, lease: int, handlers: set<Handler>)
    returns (req: Option<ClaimRequest>)
    ensures req.Some? <==> s.sem < c.concurrency && exists q :: Open(c, s, q)
    ensures req.Some? ==> Claimable(c, s, ClaimsOf(db, Claimed(db, req.value)))
  {
    if c.concurrency <= s.sem { return None; }
    var queues, budget := EligibleQueues(c, s);
    if |queues| == 0 { return None; }
    var open := set q | q in queues;
    assert queues[0] in open;
    var r := ClaimRequest(worker, open, now, lease, c.concurrency - s.sem, budget, handlers);
    ClaimFits(c, s, db, r);
    req := Some(r);
  }

  /** A request made of the open queues and their budgets gets no more than fits. */
  lemma ClaimFits(c: Config, s: Sys, db: Db, req: ClaimRequest)
    requires s.sem < c.concurrency && req.limit == c.concurrency - s.sem && req.queues != {}
    requires forall q :: q in req.queues <==> Open(c, s, q)
    requires forall q :: q in req.queueLimits <==> Open(c, s, q) && Capped(c, q)
    requires forall q :: q in req.queueLimits ==>
               Capped(c, q) && req.queueLimits[q] == c.perQueue[q] - InFlight(s, q) > 0
    ensures Claimable(c, s, ClaimsOf(db, Claimed(db, req)))
  {
    hide Open, InFlight, Take, Ordered, Candidates;
    var ids := Claimed(db, req);
    var rows := ClaimsOf(db, ids);
    forall r | r in rows
      ensures Open(c, s, r.queue)
    {
      var i :| 0 <= i < |rows| && rows[i] == r;
      assert ids[i] in ids;
      ClaimedEligible(db, req, ids[i]);
    }
    JobLeases.TakeBounded(db, req, Ordered(db, req), Queue(""));
    forall q | Open(c, s, q) && Capped(c, q)
      ensures ClaimsIn(rows, q) <= c.perQueue[q] - InFlight(s, q)
    {
      JobLeases.TakeBounded(db, req, Ordered(db, req), q);
      CountsAgree(db, ids, q);
    }
  }

  /** What is handed out was a candidate, so it passed the filters of the request. */
  lemma ClaimedEligible(db: Db, req: ClaimRequest, id: Id)
    requires id in Claimed(db, req)
    ensures id in db.rows && Eligible(db.rows[id], req)
  {
    ClaimedFrom(db, req, Ordered(db, req), id);
    assert forall x :: x in Ordered(db, req) ==> x in Candidates(db, req);
  }

  lemma {:induction false} ClaimedFrom(db: Db, req: ClaimRequest, cands: seq<Candidate>, id: Id)
    requires id in Take(db, req, cands)
    ensures exists x :: x in cands && x.id == id
  {
    var last := cands[|cands| - 1];
    if last.id != id { ClaimedFrom(db, req, cands[..|cands| - 1], id); } else { assert last in cands; }
  }

  /** Counting from the front and from the back. */
  lemma {:induction false} CountsAgree(db: Db, ids: seq<Id>, q: Queue)
    ensures ClaimsIn(ClaimsOf(db, ids), q) == JobStore.InQueue(db, ids, q)
  {
    if ids != [] {
      var n := |ids| - 1;
      CountsAgree(db, ids[..n], q);
      assert ClaimsOf(db, ids) == ClaimsOf(db, ids[..n]) + [Claim(ids[n], QueueOf(db, ids[n]))];
      ClaimsInAppend(ClaimsOf(db, ids[..n]), Claim(ids[n], QueueOf(db, ids[n])), q);
    }
  }

  lemma {:induction false} ClaimsInAppend(rows: seq<Claim>, r: Claim, q: Queue)
    ensures ClaimsIn(rows + [r], q) == ClaimsIn(rows, q) + if r.queue == q then 1 else 0
  {
    if rows == [] {
      assert rows + [r] == [r];
      assert [r][1..] == [];
    } else {
      assert (rows + [r])[1..] == rows[1..] + [r];
      ClaimsInAppend(rows[1..], r, q);
    }
  }

  // ---- steps ----

  /** What a runner does next: record an unrunnable job, start the handler, see it return, claim the outcome, commit
      it. */
  datatype Act = Park | Begin | HandlerReturns | Resolve | Commit

  datatype MainAct =
    | Poll(rows: seq<Claim>)
    | Shutdown
    | CloseDone
    | DrainDone
    | Deadline
    | VisitFirst(job: Id)
    | VisitSecond
    | DrainEnds

  datatype Event = Runner(r: nat, act: Act) | Leave(r: nat) | Register | Main(a: MainAct)

  predicate Ready(run: Run, act: Act) {
    match act
    case Park => run.pc == Deciding
    case Begin => run.pc == Deciding
    case HandlerReturns => run.pc == Handling
    case Resolve => run.pc == Returned
    case Commit => run.pc == Committing
  }

  ghost predicate MainReady(c: Config, s: Sys, a: MainAct) {
    match a
    case Poll(rows) => s.main == Working && s.pending == [] && Claimable(c, s, rows)
    case Shutdown => s.main == Working && s.pending == []
    case CloseDone => s.main != Working && s.wg == 0
    case DrainDone => s.main == Waiting && s.doneClosed
    case Deadline => s.main == Waiting
    case VisitFirst(job) => s.main.Ranging? && s.main.second == None && job in s.main.todo
    case VisitSecond => s.main.Ranging? && s.main.second.Some?
    case DrainEnds => s.main == Ranging({}, None)
  }

  ghost predicate Enabled(c: Config, s: Sys, e: Event) {
    match e
    case Runner(r, act) => r < |s.runs| && Ready(s.runs[r], act)
    case Leave(r) => r < |s.runs| && s.runs[r].pc.Leaving?
    case Register => s.pending != [] && s.main == Working
    case Main(a) => MainReady(c, s, a)
  }

  /** The runner tries to move its phase; if drain was first it goes to its cleanup. */
  function Swap(run: Run, from: Phase, to: Phase, pc: Pc): Run {
    if run.phase == from then run.(phase := to, pc := pc, invoked := run.invoked || to == Invoking)
    else run.(pc := Leaving(0))
  }

  function Acts(run: Run, act: Act): Run {
    match act
    case Park => Swap(run, Registered, Resolving, Committing)
    case Begin => Swap(run, Registered, Invoking, Handling)
    case HandlerReturns => run.(pc := Returned)
    case Resolve => Swap(run, Invoking, Resolving, Committing)
    case Commit => run.(completed := true, pc := Leaving(0))
  }

  function Left(run: Run): Run
    requires run.pc.Leaving?
  {
    run.(pc := if run.pc.n < 3 then Leaving(run.pc.n + 1) else Finished)
  }

  /** One deferred cleanup: forget the job, give the queue slot back, release the semaphore, leave the wait group. */
  function Cleanup(s: Sys, r: nat): Sys
    requires r < |s.runs| && s.runs[r].pc.Leaving?
  {
    var run := s.runs[r];
    var t := s.(runs := s.runs[r := Left(run)]);
    match run.pc.n
    case 0 => t.(active := s.active - {run.job})
    case 1 => t.(inFlight := s.inFlight[run.queue := InFlight(s, run.queue) - 1])
    case 2 => t.(sem := if s.sem > 0 then s.sem - 1 else 0)
    case _ => t.(wg := if s.wg > 0 then s.wg - 1 else 0)
  }

  /** tryClaim registers the next claimed row before it launches the run. */
  function Registers(s: Sys): Sys
    requires s.pending != []
  {
    var row := s.pending[0];
    s.(runs := s.runs + [Run(row.job, row.queue, Registered, Deciding, false, false)],
       active := s.active[row.job := |s.runs|], sem := s.sem + 1,
       inFlight := s.inFlight[row.queue := InFlight(s, row.queue) + 1], wg := s.wg + 1, pending := s.pending[1..])
  }

  /** The run drain finds under a job; a job gone from active is passed over. */
  function Found(s: Sys, job: Id): Option<nat> {
    if job in s.active && s.active[job] < |s.runs| then Some(s.active[job]) else None
  }

  /** The run that drain abandons in this step: the first swap takes a registered one, the second a running one. */
  function Target(s: Sys, a: MainAct): Option<nat> {
    match a
    case VisitFirst(job) =>
      var f := Found(s, job);
      if f.Some? && f.value < |s.runs| && s.runs[f.value].phase == Registered then f else None
    case VisitSecond =>
      if s.main.Ranging? && s.main.second.Some? && s.main.second.value < |s.runs| &&
          s.runs[s.main.second.value].phase == Invoking
      then s.main.second else None
    case _ => None
  }

  function MainTo(s: Sys, a: MainAct): Main {
    match a
    case Poll(_) => s.main
    case Shutdown => Waiting
    case CloseDone => s.main
    case DrainDone => Drained(true)
    case Deadline => Ranging(s.active.Keys, None)
    case VisitFirst(job) =>
      if s.main.Ranging?
      then Ranging(s.main.todo - {job}, if Target(s, a).Some? then None else Found(s, job))
      else s.main
    case VisitSecond => if s.main.Ranging? then Ranging(s.main.todo, None) else s.main
    case DrainEnds => Drained(s.doneClosed && !s.abandoned)
  }

  function Struck(runs: seq<Run>, target: Option<nat>): (r: seq<Run>)
    ensures |r| == |runs|
  {
    if target.Some? && target.value < |runs|
    then runs[target.value := runs[target.value].(phase := Abandoned)]
    else runs
  }

  function MainNext(s: Sys, a: MainAct): Sys {
    s.(runs := Struck(s.runs, Target(s, a)), main := MainTo(s, a), abandoned := s.abandoned || Target(s, a).Some?,
       doneClosed := s.doneClosed || a.CloseDone?, pending := if a.Poll? then a.rows else s.pending)
  }

  ghost function Next(c: Config, s: Sys, e: Event): Sys
    requires Enabled(c, s, e)
  {
    match e
    case Runner(r, act) => s.(runs := s.runs[r := Acts(s.runs[r], act)])
    case Leave(r) => Cleanup(s, r)
    case Register => Registers(s)
    case Main(a) => MainNext(s, a)
  }

  ghost predicate IsHistory(c: Config, states: seq<Sys>, events: seq<Event>) {
    && |states| == |events| + 1 && states[0] == IDLE
    && forall k {:trigger events[k]} :: 0 <= k < |events| ==>
                                          Enabled(c, states[k], events[k]) &&
                                              states[k + 1] == Next(c, states[k], events[k])
  }

  // ---- phases ----

  /** How far a runner is fits its phase: the handler only ran after the running swap, the outcome was only committed
      after the resolving swap, and an abandoned run commits nothing. */
  predicate Coherent(run: Run) {
    match run.pc
    case Deciding => (run.phase == Registered || run.phase == Abandoned) && !run.invoked && !run.completed
    case Handling => (run.phase == Invoking || run.phase == Abandoned) && run.invoked && !run.completed
    case Returned => (run.phase == Invoking || run.phase == Abandoned) && run.invoked && !run.completed
    case Committing => run.phase == Resolving && !run.completed
    case Leaving(n) => n <= 3 && (if run.completed then run.phase == Resolving else run.phase == Abandoned)
    case Finished => if run.completed then run.phase == Resolving else run.phase == Abandoned
  }

  /** Not yet committing and not abandoned. */
  predicate Untouched(run: Run) { run.phase == Registered || run.phase == Invoking }

  ghost predicate AllCoherent(s: Sys) {
    && (forall r :: 0 <= r < |s.runs| ==> Coherent(s.runs[r]))
    && (forall job :: job in s.active ==> s.active[job] < |s.runs|)
    && (s.main.Ranging? && s.main.second.Some? ==> s.main.second.value < |s.runs|)
  }

  /** The moves of a phase. */
  predicate PhaseMoves(a: Phase, b: Phase) {
    a == b || (a == Registered) || (a == Invoking && (b == Resolving || b == Abandoned))
  }

  /** One step of one run: phases only move forward, a handler starts only by winning the running swap, a completion
      happens only in the resolving phase. */
  ghost predicate RunMoves(a: Run, b: Run) {
    && b.job == a.job && b.queue == a.queue && PhaseMoves(a.phase, b.phase)
    && (b.invoked && !a.invoked ==> a.phase == Registered && b.phase == Invoking)
    && (b.completed && !a.completed ==> a.phase == Resolving && b.phase == Resolving)
    && (a.invoked ==> b.invoked) && (a.completed ==> b.completed)
  }

  lemma ActCoherent(run: Run, act: Act)
    requires Coherent(run) && Ready(run, act)
    ensures Coherent(Acts(run, act)) && RunMoves(run, Acts(run, act))
  {}

  lemma TargetUntouched(c: Config, s: Sys, a: MainAct)
    requires Target(s, a).Some?
    ensures Target(s, a).value < |s.runs| && Untouched(s.runs[Target(s, a).value])
  {}

  lemma StruckCoherent(run: Run)
    requires Coherent(run) && Untouched(run)
    ensures Coherent(run.(phase := Abandoned)) && RunMoves(run, run.(phase := Abandoned))
  {}

  lemma StepCoherent(c: Config, s: Sys, e: Event)
    requires AllCoherent(s) && Enabled(c, s, e)
    ensures AllCoherent(Next(c, s, e)) && |s.runs| <= |Next(c, s, e).runs|
    ensures forall r :: 0 <= r < |s.runs| ==> RunMoves(s.runs[r], Next(c, s, e).runs[r])
  {
    SameMoves(s);
    match e
    case Runner(r, act) =>
      ActCoherent(s.runs[r], act);
      hide Coherent, Acts, RunMoves, Ready;
    case Leave(r) => LeaveCoherent(s, r);
    case Register =>
      assert Coherent(Run(s.pending[0].job, s.pending[0].queue, Registered, Deciding, false, false));
      hide Coherent, RunMoves;
    case Main(a) => MainCoherent(c, s, a);
  }

  lemma LeaveCoherent(s: Sys, r: nat)
    requires AllCoherent(s) && r < |s.runs| && s.runs[r].pc.Leaving?
    ensures AllCoherent(Cleanup(s, r)) && |Cleanup(s, r).runs| == |s.runs|
    ensures forall k :: 0 <= k < |s.runs| ==> RunMoves(s.runs[k], Cleanup(s, r).runs[k])
  {
    SameMoves(s);
    assert Coherent(s.runs[r]) && Coherent(Left(s.runs[r])) && RunMoves(s.runs[r], Left(s.runs[r]));
    hide Coherent, RunMoves, Left;
  }

  lemma SameMoves(s: Sys)
    ensures forall k :: 0 <= k < |s.runs| ==> RunMoves(s.runs[k], s.runs[k])
  {}

  lemma MainCoherent(c: Config, s: Sys, a: MainAct)
    requires AllCoherent(s) && MainReady(c, s, a)
    ensures AllCoherent(MainNext(s, a))
    ensures forall r :: 0 <= r < |s.runs| ==> RunMoves(s.runs[r], MainNext(s, a).runs[r])
  {
    hide Coherent, RunMoves, Claimable;
    assert forall k :: 0 <= k < |s.runs| ==> RunMoves(s.runs[k], s.runs[k]) by { SameMoves(s); }
    if Target(s, a).Some? {
      TargetUntouched(c, s, a);
      StruckCoherent(s.runs[Target(s, a).value]);
    }
  }

  /** In every interleaving, every run of every state is coherent. */
  lemma {:induction false} PhasesHold(c: Config, states: seq<Sys>, events: seq<Event>, k: nat)
    requires IsHistory(c, states, events) && k < |states|
    ensures AllCoherent(states[k])
  {
    if k > 0 {
      PhasesHold(c, states, events, k - 1);
      assert states[k] == Next(c, states[k - 1], events[k - 1]);
      StepCoherent(c, states[k - 1], events[k - 1]);
    }
  }

  /** An abandoned run stays abandoned and never completes. */
  lemma {:induction false} AbandonedForGood(c: Config, states: seq<Sys>, events: seq<Event>, r: nat, i: nat, k: nat)
    requires IsHistory(c, states, events) && i <= k < |states| && r < |states[i].runs| &&
             states[i].runs[r].phase == Abandoned
    ensures r < |states[k].runs| && states[k].runs[r].phase == Abandoned && !states[k].runs[r].completed
  {
    PhasesHold(c, states, events, k);
    if i < k {
      AbandonedForGood(c, states, events, r, i, k - 1);
      PhasesHold(c, states, events, k - 1);
      assert states[k] == Next(c, states[k - 1], events[k - 1]);
      StepCoherent(c, states[k - 1], events[k - 1]);
      assert RunMoves(states[k - 1].runs[r], states[k].runs[r]);
    }
    assert Coherent(states[k].runs[r]);
  }

  // ---- counting ----

  function Count(runs: seq<Run>, p: Run -> bool): nat {
    if runs == [] then 0 else Count(runs[..|runs| - 1], p) + (if p(runs[|runs| - 1]) then 1 else 0)
  }

  function One(b: bool): int { if b then 1 else 0 }

  lemma {:induction false} CountSet(runs: seq<Run>, r: nat, run: Run, p: Run -> bool)
    requires r < |runs|
    ensures Count(runs[r := run], p) == Count(runs, p) - One(p(runs[r])) + One(p(run))
  {
    var n := |runs| - 1;
    if r < n {
      assert runs[r := run][..n] == runs[..n][r := run];
      CountSet(runs[..n], r, run, p);
    } else {
      assert runs[r := run][..n] == runs[..n];
    }
  }

  lemma CountAdd(runs: seq<Run>, run: Run, p: Run -> bool)
    ensures Count(runs + [run], p) == Count(runs, p) + One(p(run))
  {
    assert (runs + [run])[..|runs|] == runs;
  }

  lemma {:induction false} CountNone(runs: seq<Run>, p: Run -> bool)
    ensures Count(runs, p) == 0 <==> forall r :: 0 <= r < |runs| ==> !p(runs[r])
  {
    if runs != [] { CountNone(runs[..|runs| - 1], p); }
  }

  predicate Unfinished(run: Run) { run.pc != Finished }
  predicate HoldsSlot(run: Run) { run.pc != Finished && !(run.pc.Leaving? && run.pc.n >= 3) }
  predicate InQueue(q: Queue, run: Run) { run.queue == q && run.pc != Finished && !(run.pc.Leaving? && run.pc.n >= 2) }
  function Occupies(q: Queue): Run -> bool { run => InQueue(q, run) }

  /** The counters count what they should, and slots and queue budgets are never exceeded, runs about to be registered
      included. */
  ghost predicate Counted(c: Config, s: Sys) {
    && s.wg == Count(s.runs, Unfinished) && s.sem == Count(s.runs, HoldsSlot)
    && (forall q :: InFlight(s, q) == Count(s.runs, Occupies(q)))
    && s.sem + |s.pending| <= c.concurrency
    && (forall q :: Capped(c, q) ==> InFlight(s, q) + ClaimsIn(s.pending, q) <= c.perQueue[q])
    && (s.doneClosed ==> s.wg == 0 && s.main != Working)
    && (s.pending != [] ==> s.main == Working)
  }

  /** A run that keeps its place in every count. */
  predicate SamePlace(a: Run, b: Run) {
    Unfinished(a) == Unfinished(b) && HoldsSlot(a) == HoldsSlot(b) && a.queue == b.queue
    && InQueue(a.queue, a) == InQueue(a.queue, b)
  }

  lemma SetCounted(c: Config, s: Sys, r: nat, run: Run)
    requires Counted(c, s) && r < |s.runs| && SamePlace(s.runs[r], run)
    ensures Counted(c, s.(runs := s.runs[r := run]))
  {
    var t := s.(runs := s.runs[r := run]);
    CountSet(s.runs, r, run, Unfinished);
    CountSet(s.runs, r, run, HoldsSlot);
    forall q
      ensures InFlight(t, q) == Count(t.runs, Occupies(q))
    {
      CountSet(s.runs, r, run, Occupies(q));
    }
  }

  lemma LeaveCounts(s: Sys, r: nat, p: Run -> bool)
    requires r < |s.runs| && s.runs[r].pc.Leaving?
    ensures Count(s.runs[r := Left(s.runs[r])], p) == Count(s.runs, p) - One(p(s.runs[r])) + One(p(Left(s.runs[r])))
    ensures p(s.runs[r]) ==> Count(s.runs, p) > 0
  {
    CountSet(s.runs, r, Left(s.runs[r]), p);
    CountNone(s.runs, p);
  }

  lemma LeaveCounted(c: Config, s: Sys, r: nat)
    requires Counted(c, s) && r < |s.runs| && s.runs[r].pc.Leaving? && Coherent(s.runs[r])
    ensures Counted(c, Cleanup(s, r))
  {
    hide Count, ClaimsIn;
    var t := Cleanup(s, r);
    LeaveCounts(s, r, Unfinished);
    LeaveCounts(s, r, HoldsSlot);
    forall q
      ensures InFlight(t, q) == Count(t.runs, Occupies(q)) && InFlight(t, q) <= InFlight(s, q)
    {
      LeaveCounts(s, r, Occupies(q));
    }
  }

  lemma RegisterCounted(c: Config, s: Sys)
    requires Counted(c, s) && s.pending != [] && s.main == Working
    ensures Counted(c, Registers(s))
  {
    var t := Registers(s);
    var run := t.runs[|s.runs|];
    CountAdd(s.runs, run, Unfinished);
    CountAdd(s.runs, run, HoldsSlot);
    forall q
      ensures InFlight(t, q) == Count(t.runs, Occupies(q))
      ensures InFlight(t, q) + ClaimsIn(t.pending, q) == InFlight(s, q) + ClaimsIn(s.pending, q)
    {
      CountAdd(s.runs, run, Occupies(q));
    }
  }

  lemma {:induction false} NoClaimsIn(rows: seq<Claim>, q: Queue)
    requires forall r :: r in rows ==> r.queue != q
    ensures ClaimsIn(rows, q) == 0
  {
    if rows != [] {
      assert rows[0] in rows;
      NoClaimsIn(rows[1..], q);
    }
  }

  lemma PollCounted(c: Config, s: Sys, rows: seq<Claim>)
    requires Counted(c, s) && MainReady(c, s, Poll(rows))
    ensures Counted(c, s.(pending := rows))
  {
    forall q | Capped(c, q)
      ensures InFlight(s, q) + ClaimsIn(rows, q) <= c.perQueue[q]
    {
      if !Open(c, s, q) {
        NoClaimsIn(rows, q);
        assert ClaimsIn(s.pending, q) == 0;
      }
    }
  }

  lemma ActPlace(run: Run, act: Act)
    requires Coherent(run) && Ready(run, act)
    ensures SamePlace(run, Acts(run, act))
  {}

  lemma StruckPlace(run: Run)
    ensures SamePlace(run, run.(phase := Abandoned))
  {}

  /** The main goroutine moves on, outside the polling loop. */
  lemma MainCounted(c: Config, s: Sys, main: Main, abandoned: bool, doneClosed: bool)
    requires Counted(c, s) && main != Working && s.pending == []
    requires doneClosed && !s.doneClosed ==> s.wg == 0
    ensures Counted(c, s.(main := main, abandoned := abandoned, doneClosed := doneClosed))
  {}

  lemma MainLeavesPolling(c: Config, s: Sys, a: MainAct)
    requires Counted(c, s) && MainReady(c, s, a) && !a.Poll?
    ensures MainTo(s, a) != Working && s.pending == [] && (a.CloseDone? ==> s.wg == 0)
  {}

  lemma StepCounted(c: Config, s: Sys, e: Event)
    requires Counted(c, s) && AllCoherent(s) && Enabled(c, s, e)
    ensures Counted(c, Next(c, s, e))
  {
    match e
    case Runner(r, act) =>
      ActPlace(s.runs[r], act);
      SetCounted(c, s, r, Acts(s.runs[r], act));
    case Leave(r) => LeaveCounted(c, s, r);
    case Register => RegisterCounted(c, s);
    case Main(a) =>
      if a.Poll? {
        PollCounted(c, s, a.rows);
        assert Next(c, s, e) == s.(pending := a.rows);
      } else {
        MainLeavesPolling(c, s, a);
        hide Counted, MainReady;
        var t := s.(main := MainTo(s, a), abandoned := s.abandoned || Target(s, a).Some?,
                    doneClosed := s.doneClosed || a.CloseDone?);
        MainCounted(c, s, t.main, t.abandoned, t.doneClosed);
        if Target(s, a).Some? {
          TargetUntouched(c, s, a);
          var r := Target(s, a).value;
          StruckPlace(s.runs[r]);
          SetCounted(c, t, r, s.runs[r].(phase := Abandoned));
        }
      }
  }

  /** The worker never runs more than its concurrency at once, nor more than a queue's cap in that queue. */
  lemma {:induction false} BudgetsHold(c: Config, states: seq<Sys>, events: seq<Event>, k: nat)
    requires IsHistory(c, states, events) && k < |states|
    ensures Counted(c, states[k])
  {
    if k > 0 {
      BudgetsHold(c, states, events, k - 1);
      PhasesHold(c, states, events, k - 1);
      assert states[k] == Next(c, states[k - 1], events[k - 1]);
      StepCounted(c, states[k - 1], events[k - 1]);
    }
  }

  // ---- drain ----

  /** No run is abandoned unless drain says so; drain abandons only after its deadline; a clean result needs neither. */
  ghost predicate Flagged(s: Sys) {
    && (!s.abandoned ==> forall r :: 0 <= r < |s.runs| ==> s.runs[r].phase != Abandoned)
    && (s.abandoned ==> s.main.Ranging? || s.main == Drained(false))
    && (s.main == Drained(true) ==> s.doneClosed)
  }

  lemma StepFlagged(c: Config, s: Sys, e: Event)
    requires Flagged(s) && Enabled(c, s, e)
    ensures Flagged(Next(c, s, e))
  {
    match e
    case Runner(r, act) =>
      assert Acts(s.runs[r], act).phase == Abandoned ==> s.runs[r].phase == Abandoned;
      hide Acts, Ready;
    case Leave(r) =>
      assert Left(s.runs[r]).phase == s.runs[r].phase;
      hide Left;
    case Register =>
    case Main(a) => MainFlagged(c, s, a);
  }

  lemma MainFlagged(c: Config, s: Sys, a: MainAct)
    requires Flagged(s) && MainReady(c, s, a)
    ensures Flagged(MainNext(s, a))
  {
    hide Claimable;
  }

  lemma {:induction false} FlagsHold(c: Config, states: seq<Sys>, events: seq<Event>, k: nat)
    requires IsHistory(c, states, events) && k < |states|
    ensures Flagged(states[k])
  {
    if k > 0 {
      FlagsHold(c, states, events, k - 1);
      PhasesHold(c, states, events, k - 1);
      assert states[k] == Next(c, states[k - 1], events[k - 1]);
      StepFlagged(c, states[k - 1], events[k - 1]);
    }
  }

  /** Drain returns nil only if every run has finished, committed its outcome, and none was abandoned. */
  lemma DrainNil(c: Config, states: seq<Sys>, events: seq<Event>, k: nat, r: nat)
    requires IsHistory(c, states, events) && k < |states| && states[k].main == Drained(true) && r < |states[k].runs|
    ensures states[k].runs[r].pc == Finished && states[k].runs[r].completed && states[k].runs[r].phase == Resolving
  {
    FlagsHold(c, states, events, k);
    BudgetsHold(c, states, events, k);
    PhasesHold(c, states, events, k);
    CountNone(states[k].runs, Unfinished);
    assert !Unfinished(states[k].runs[r]) && Coherent(states[k].runs[r]);
  }

  // ---- who drain can see ----

  /** The run still owns its entry in active. */
  predicate Tracked(run: Run) { run.pc != Finished && !(run.pc.Leaving? && run.pc.n > 0) }

  /** The worker registers no job that one of its runs is still tracking. */
  ghost predicate NoReclaim(s: Sys, e: Event) {
    e == Register && s.pending != [] ==>
      forall r :: 0 <= r < |s.runs| && Tracked(s.runs[r]) ==> s.runs[r].job != s.pending[0].job
  }

  ghost predicate Tracks(s: Sys) {
    forall r :: 0 <= r < |s.runs| && Tracked(s.runs[r]) ==> s.runs[r].job in s.active && s.active[s.runs[r].job] == r
  }

  /** What drain has left to do covers every untouched run. */
  ghost predicate Covers(s: Sys) {
    match s.main
    case Ranging(todo, second) =>
      && (second.Some? && second.value < |s.runs| ==> s.runs[second.value].phase != Registered)
      && (forall r :: 0 <= r < |s.runs| && Untouched(s.runs[r]) ==> s.runs[r].job in todo || second == Some(r))
    case Drained(_) => forall r :: 0 <= r < |s.runs| ==> !Untouched(s.runs[r])
    case _ => true
  }

  ghost predicate Seen(s: Sys) { Tracks(s) && Covers(s) }

  lemma StepTracks(c: Config, s: Sys, e: Event)
    requires Tracks(s) && Enabled(c, s, e) && NoReclaim(s, e)
    ensures Tracks(Next(c, s, e))
  {
    hide Claimable;
    match e
    case Runner(r, act) =>
      assert Tracked(s.runs[r]) && Acts(s.runs[r], act).job == s.runs[r].job;
      hide Acts;
    case Leave(r) => LeaveTracks(s, r);
    case Register =>
    case Main(a) =>
      assert forall r :: 0 <= r < |s.runs| ==>
                           MainNext(s, a).runs[r].job == s.runs[r].job &&
                               Tracked(MainNext(s, a).runs[r]) == Tracked(s.runs[r]);
      hide MainTo, Target, Struck;
  }

  lemma LeaveTracks(s: Sys, r: nat)
    requires Tracks(s) && r < |s.runs| && s.runs[r].pc.Leaving?
    ensures Tracks(Cleanup(s, r))
  {
    var run := Left(s.runs[r]);
    assert !Tracked(run) && run.job == s.runs[r].job;
    assert s.runs[r].pc.n == 0 ==> Tracked(s.runs[r]);
    hide Left, Tracked;
  }

  lemma UntouchedTracked(run: Run)
    requires Coherent(run) && Untouched(run)
    ensures Tracked(run) && Unfinished(run)
  {}

  lemma ActTouches(run: Run, act: Act)
    requires Ready(run, act)
    ensures Acts(run, act).job == run.job && (Untouched(Acts(run, act)) ==> Untouched(run))
    ensures Acts(run, act).phase == Registered ==> run.phase == Registered
  {}

  lemma StepCovers(c: Config, s: Sys, e: Event)
    requires Seen(s) && Counted(c, s) && AllCoherent(s) && Enabled(c, s, e)
    ensures Covers(Next(c, s, e))
  {
    match e
    case Runner(r, act) =>
      ActTouches(s.runs[r], act);
      hide Acts, Ready, Counted, AllCoherent, Tracks;
    case Leave(r) => LeaveCovers(s, r);
    case Register =>
    case Main(a) => MainCovers(c, s, a);
  }

  lemma LeaveCovers(s: Sys, r: nat)
    requires Covers(s) && r < |s.runs| && s.runs[r].pc.Leaving?
    ensures Covers(Cleanup(s, r))
  {
    var run := Left(s.runs[r]);
    assert run.phase == s.runs[r].phase && run.job == s.runs[r].job;
    hide Left;
  }

  lemma MainCovers(c: Config, s: Sys, a: MainAct)
    requires Seen(s) && Counted(c, s) && AllCoherent(s) && MainReady(c, s, a)
    ensures Covers(MainNext(s, a))
  {
    forall r | 0 <= r < |s.runs| && Untouched(s.runs[r])
      ensures s.runs[r].job in s.active && s.active[s.runs[r].job] == r && Unfinished(s.runs[r])
    {
      UntouchedTracked(s.runs[r]);
    }
    if s.doneClosed { CountNone(s.runs, Unfinished); }
    hide Claimable, Counted, AllCoherent, Tracks;
  }

  lemma {:induction false} SeenHolds(c: Config, states: seq<Sys>, events: seq<Event>, k: nat)
    requires IsHistory(c, states, events) && k < |states|
    requires forall i {:trigger events[i]} :: 0 <= i < k ==> NoReclaim(states[i], events[i])
    ensures Seen(states[k])
  {
    if k > 0 {
      SeenHolds(c, states, events, k - 1);
      PhasesHold(c, states, events, k - 1);
      BudgetsHold(c, states, events, k - 1);
      assert states[k] == Next(c, states[k - 1], events[k - 1]);
      StepTracks(c, states[k - 1], events[k - 1]);
      StepCovers(c, states[k - 1], events[k - 1]);
    }
  }

  /** If the worker never reclaims a job it is still tracking, then once drain has returned every run is resolving,
      abandoned or done: no handler outlives the drain unnoticed. */
  lemma DrainReachesAll(c: Config, states: seq<Sys>, events: seq<Event>, k: nat, r: nat)
    requires IsHistory(c, states, events) && k < |states| && states[k].main.Drained? && r < |states[k].runs|
    requires forall i {:trigger events[i]} :: 0 <= i < k ==> NoReclaim(states[i], events[i])
    ensures states[k].runs[r].phase == Resolving || states[k].runs[r].phase == Abandoned
  {
    SeenHolds(c, states, events, k);
  }

  // ---- whom drain can still abandon ----

  /** Every entry of active names a run of that job. */
  ghost predicate OwnEntries(s: Sys) {
    forall job :: job in s.active ==> s.active[job] < |s.runs| && s.runs[s.active[job]].job == job
  }

  lemma StepOwnEntries(c: Config, s: Sys, e: Event)
    requires OwnEntries(s) && Enabled(c, s, e)
    ensures OwnEntries(Next(c, s, e))
  {
    match e
    case Runner(r, act) =>
      assert Acts(s.runs[r], act).job == s.runs[r].job;
      hide Acts, Ready;
    case Leave(r) => LeaveEntries(s, r);
    case Register =>
    case Main(a) => MainEntries(s, a);
  }

  lemma LeaveEntries(s: Sys, r: nat)
    requires OwnEntries(s) && r < |s.runs| && s.runs[r].pc.Leaving?
    ensures OwnEntries(Cleanup(s, r))
  {
    assert Left(s.runs[r]).job == s.runs[r].job;
    hide Left;
  }

  lemma MainEntries(s: Sys, a: MainAct)
    requires OwnEntries(s)
    ensures OwnEntries(MainNext(s, a))
  {
    assert forall r :: 0 <= r < |s.runs| ==> MainNext(s, a).runs[r].job == s.runs[r].job;
    hide MainTo, Target, Struck;
  }

  lemma {:induction false} EntriesHold(c: Config, states: seq<Sys>, events: seq<Event>, k: nat)
    requires IsHistory(c, states, events) && k < |states|
    ensures OwnEntries(states[k])
  {
    if k > 0 {
      EntriesHold(c, states, events, k - 1);
      assert states[k] == Next(c, states[k - 1], events[k - 1]);
      StepOwnEntries(c, states[k - 1], events[k - 1]);
    }
  }

  /** active still points at run r. */
  predicate Pointed(s: Sys, r: nat)
    requires r < |s.runs|
  {
    s.runs[r].job in s.active && s.active[s.runs[r].job] == r
  }

  /** Drain can still come to run r: active points at it and no claimed row will take its entry, the range has not
      passed it, or the second swap is about to try it. */
  predicate InReach(s: Sys, r: nat)
    requires r < |s.runs|
  {
    match s.main
    case Working => Pointed(s, r) && forall c :: c in s.pending ==> c.job != s.runs[r].job
    case Waiting => Pointed(s, r)
    case Ranging(todo, second) => second == Some(r) || (Pointed(s, r) && s.runs[r].job in todo)
    case Drained(_) => false
  }

  /** Out of reach, a run stays out of reach and drain does not abandon it. */
  lemma OutOfReachStays(c: Config, s: Sys, e: Event, r: nat)
    requires OwnEntries(s) && Enabled(c, s, e) && r < |s.runs| && !InReach(s, r)
    ensures r < |Next(c, s, e).runs| && !InReach(Next(c, s, e), r)
    ensures Next(c, s, e).runs[r].phase == Abandoned ==> s.runs[r].phase == Abandoned
  {
    match e
    case Runner(k, act) =>
      assert Acts(s.runs[k], act).job == s.runs[k].job;
      assert Acts(s.runs[k], act).phase == Abandoned ==> s.runs[k].phase == Abandoned;
      hide Acts, Ready;
    case Leave(k) => LeaveReach(s, k, r);
    case Register => RegisterReach(s, r);
    case Main(a) => MainReach(c, s, a, r);
  }

  lemma LeaveReach(s: Sys, k: nat, r: nat)
    requires k < |s.runs| && s.runs[k].pc.Leaving? && r < |s.runs| && !InReach(s, r)
    ensures !InReach(Cleanup(s, k), r) && Cleanup(s, k).runs[r].phase == s.runs[r].phase
  {
    assert Left(s.runs[k]).job == s.runs[k].job && Left(s.runs[k]).phase == s.runs[k].phase;
    hide Left;
  }

  lemma RegisterReach(s: Sys, r: nat)
    requires OwnEntries(s) && s.pending != [] && s.main == Working && r < |s.runs| && !InReach(s, r)
    ensures !InReach(Registers(s), r)
  {
    if Pointed(s, r) {
      var c :| c in s.pending && c.job == s.runs[r].job;
      if c != s.pending[0] { assert c in s.pending[1..]; }
    }
  }

  lemma MainReach(c: Config, s: Sys, a: MainAct, r: nat)
    requires OwnEntries(s) && MainReady(c, s, a) && r < |s.runs| && !InReach(s, r)
    ensures !InReach(MainNext(s, a), r) && MainNext(s, a).runs[r] == s.runs[r]
  {
    hide Claimable;
    assert MainNext(s, a).runs[r] == s.runs[r];
  }

  /** The states a run of events leads through. */
  ghost predicate Leads(c: Config, states: seq<Sys>, events: seq<Event>) {
    && |states| == |events| + 1
    && forall k {:trigger events[k]} :: 0 <= k < |events| ==>
         Enabled(c, states[k], events[k]) && states[k + 1] == Next(c, states[k], events[k])
  }

  ghost predicate AbandonsFrom(c: Config, s: Sys, r: nat, states: seq<Sys>, events: seq<Event>) {
    && Leads(c, states, events) && states[0] == s
    && r < |states[|events|].runs| && states[|events|].runs[r].phase == Abandoned
  }

  /** Some way to go on abandons run r. */
  ghost predicate CanAbandon(c: Config, s: Sys, r: nat) {
    exists states, events :: AbandonsFrom(c, s, r, states, events)
  }

  lemma {:induction false} OutOfReachLeads(c: Config, states: seq<Sys>, events: seq<Event>, r: nat, k: nat)
    requires Leads(c, states, events) && OwnEntries(states[0]) && k < |states|
    requires r < |states[0].runs| && !InReach(states[0], r) && states[0].runs[r].phase != Abandoned
    ensures OwnEntries(states[k]) && r < |states[k].runs| && !InReach(states[k], r)
    ensures states[k].runs[r].phase != Abandoned
  {
    if k > 0 {
      OutOfReachLeads(c, states, events, r, k - 1);
      assert states[k] == Next(c, states[k - 1], events[k - 1]);
      StepOwnEntries(c, states[k - 1], events[k - 1]);
      OutOfReachStays(c, states[k - 1], events[k - 1], r);
    }
  }

  lemma AbandonedNow(c: Config, s: Sys, r: nat)
    requires r < |s.runs| && s.runs[r].phase == Abandoned
    ensures CanAbandon(c, s, r)
  {
    assert AbandonsFrom(c, s, r, [s], []);
  }

  lemma AbandonFirst(c: Config, s: Sys, e: Event, r: nat)
    requires Enabled(c, s, e) && CanAbandon(c, Next(c, s, e), r)
    ensures CanAbandon(c, s, r)
  {
    var states: seq<Sys>, events: seq<Event> :| AbandonsFrom(c, Next(c, s, e), r, states, events);
    var more, es := [s] + states, [e] + events;
    forall k {:trigger es[k]} | 0 <= k < |es|
      ensures Enabled(c, more[k], es[k]) && more[k + 1] == Next(c, more[k], es[k])
    {
      if k > 0 { assert es[k] == events[k - 1]; }
    }
    assert AbandonsFrom(c, s, r, more, es);
  }

  /** A second swap on a running run abandons it. */
  lemma SecondAbandons(c: Config, s: Sys, r: nat)
    requires r < |s.runs| && s.main.Ranging? && s.main.second == Some(r) && s.runs[r].phase == Invoking
    ensures CanAbandon(c, s, r)
  {
    AbandonedNow(c, Next(c, s, Main(VisitSecond)), r);
    AbandonFirst(c, s, Main(VisitSecond), r);
  }

  lemma VisitAbandons(c: Config, s: Sys, r: nat)
    requires r < |s.runs| && Untouched(s.runs[r]) && s.main.Ranging? && s.main.second == None && Pointed(s, r)
    requires s.runs[r].job in s.main.todo
    ensures CanAbandon(c, s, r)
  {
    var e := Main(VisitFirst(s.runs[r].job));
    var t := Next(c, s, e);
    if s.runs[r].phase == Registered {
      AbandonedNow(c, t, r);
    } else {
      SecondAbandons(c, t, r);
    }
    AbandonFirst(c, s, e, r);
  }

  lemma RangeAbandons(c: Config, s: Sys, r: nat)
    requires r < |s.runs| && Untouched(s.runs[r]) && s.main.Ranging? && InReach(s, r)
    requires s.main.second == Some(r) ==> s.runs[r].phase != Registered
    ensures CanAbandon(c, s, r)
  {
    if s.main.second == Some(r) {
      SecondAbandons(c, s, r);
    } else if s.main.second.Some? {
      var t := Next(c, s, Main(VisitSecond));
      assert t.runs[r] == s.runs[r] && t.active == s.active;
      VisitAbandons(c, t, r);
      AbandonFirst(c, s, Main(VisitSecond), r);
    } else {
      VisitAbandons(c, s, r);
    }
  }

  lemma WaitAbandons(c: Config, s: Sys, r: nat)
    requires r < |s.runs| && Untouched(s.runs[r]) && s.main == Waiting && Pointed(s, r)
    ensures CanAbandon(c, s, r)
  {
    var t := Next(c, s, Main(Deadline));
    assert t.runs == s.runs && t.active == s.active;
    RangeAbandons(c, t, r);
    AbandonFirst(c, s, Main(Deadline), r);
  }

  lemma {:induction false} WorkAbandons(c: Config, s: Sys, r: nat)
    requires r < |s.runs| && Untouched(s.runs[r]) && s.main == Working && InReach(s, r)
    ensures CanAbandon(c, s, r)
    decreases |s.pending|
  {
    if s.pending == [] {
      var t := Next(c, s, Main(Shutdown));
      assert t.runs == s.runs && t.active == s.active;
      WaitAbandons(c, t, r);
      AbandonFirst(c, s, Main(Shutdown), r);
    } else {
      var t := Next(c, s, Register);
      assert s.pending[0] in s.pending && t.runs[r] == s.runs[r] && t.active[s.runs[r].job] == r;
      WorkAbandons(c, t, r);
      AbandonFirst(c, s, Register, r);
    }
  }

  /** The second swap is only tried on a run that is past registration. */
  ghost predicate SecondPast(s: Sys) {
    s.main.Ranging? && s.main.second.Some? && s.main.second.value < |s.runs| ==>
      s.runs[s.main.second.value].phase != Registered
  }

  lemma {:induction false} SecondPastHolds(c: Config, states: seq<Sys>, events: seq<Event>, k: nat)
    requires IsHistory(c, states, events) && k < |states|
    ensures SecondPast(states[k]) && AllCoherent(states[k])
  {
    PhasesHold(c, states, events, k);
    if k > 0 {
      SecondPastHolds(c, states, events, k - 1);
      assert states[k] == Next(c, states[k - 1], events[k - 1]);
      StepSecondPast(c, states[k - 1], events[k - 1]);
    }
  }

  lemma StepSecondPast(c: Config, s: Sys, e: Event)
    requires SecondPast(s) && AllCoherent(s) && Enabled(c, s, e)
    ensures SecondPast(Next(c, s, e))
  {
    match e
    case Runner(r, act) =>
      assert Acts(s.runs[r], act).phase == Registered ==> s.runs[r].phase == Registered;
      hide Acts, Ready, AllCoherent;
    case Leave(r) =>
      assert Left(s.runs[r]).phase == s.runs[r].phase;
      hide Left, AllCoherent;
    case Register => assert AllCoherent(s);
    case Main(a) => hide Claimable, AllCoherent;
  }

  /** Exactly when: in a reachable state, a run that is neither resolving nor abandoned can still be abandoned if and
      only if it is in drain's reach: active still points at it, or drain's second swap does. */
  lemma CanAbandonIff(c: Config, states: seq<Sys>, events: seq<Event>, k: nat, r: nat)
    requires IsHistory(c, states, events) && k < |states| && r < |states[k].runs| && Untouched(states[k].runs[r])
    ensures CanAbandon(c, states[k], r) <==> InReach(states[k], r)
  {
    var s := states[k];
    EntriesHold(c, states, events, k);
    SecondPastHolds(c, states, events, k);
    if InReach(s, r) {
      match s.main
      case Working => WorkAbandons(c, s, r);
      case Waiting => WaitAbandons(c, s, r);
      case Ranging(_, _) => RangeAbandons(c, s, r);
    } else if CanAbandon(c, s, r) {
      var ss: seq<Sys>, es: seq<Event> :| AbandonsFrom(c, s, r, ss, es);
      OutOfReachLeads(c, ss, es, r, |es|);
    }
  }

  /** A job registered again takes its older run out of drain's reach, for good. */
  lemma ReclaimLosesRun(c: Config, states: seq<Sys>, events: seq<Event>, k: nat, r: nat)
    requires IsHistory(c, states, events) && k < |events| && events[k] == Register && r < |states[k].runs|
    requires states[k].runs[r].job == states[k].pending[0].job && Untouched(states[k].runs[r])
    ensures !CanAbandon(c, states[k + 1], r)
  {
    assert states[k + 1] == Next(c, states[k], events[k]);
    CanAbandonIff(c, states, events, k + 1, r);
  }

  /** The two ways out of drain's reach: the job is claimed again, so that a newer run will take the entry, or another
      run of the job deletes the entry in its cleanup before drain has come to it. */
  ghost predicate Loses(s: Sys, e: Event, r: nat)
    requires r < |s.runs|
  {
    || (e.Main? && e.a.Poll? && exists c :: c in e.a.rows && c.job == s.runs[r].job)
    || (e.Leave? && e.r != r && e.r < |s.runs| && s.runs[e.r].pc == Leaving(0) && s.runs[e.r].job == s.runs[r].job
        && !(s.main.Ranging? && s.main.second == Some(r)))
  }

  /** Exactly these steps take an untouched run out of drain's reach. */
  lemma LosesIff(c: Config, s: Sys, e: Event, r: nat)
    requires AllCoherent(s) && Counted(c, s) && SecondPast(s) && Enabled(c, s, e) && r < |s.runs| && InReach(s, r)
    requires r < |Next(c, s, e).runs| && Untouched(Next(c, s, e).runs[r])
    ensures InReach(Next(c, s, e), r) <==> !Loses(s, e, r)
  {
    assert Coherent(s.runs[r]);
    match e
    case Runner(k, act) =>
      assert Acts(s.runs[k], act).job == s.runs[k].job;
      hide Acts, Ready, AllCoherent, Counted, Coherent;
    case Leave(k) => LeaveLoses(s, k, r);
    case Register => RegisterKeeps(s, r);
    case Main(a) => MainLoses(c, s, a, r);
  }

  lemma LeaveLoses(s: Sys, k: nat, r: nat)
    requires k < |s.runs| && s.runs[k].pc.Leaving? && r < |s.runs| && InReach(s, r) && Coherent(s.runs[r])
    requires Untouched(Cleanup(s, k).runs[r])
    ensures InReach(Cleanup(s, k), r) <==> !Loses(s, Leave(k), r)
  {
    LeaverApart(s, k, r);
    CleanupParts(s, k, r);
    hide Cleanup, Coherent, Untouched;
  }

  /** Whoever is leaving has resolved or was abandoned. */
  lemma LeaverApart(s: Sys, k: nat, r: nat)
    requires k < |s.runs| && s.runs[k].pc.Leaving? && r < |s.runs| && Coherent(s.runs[r])
    requires Untouched(Cleanup(s, k).runs[r])
    ensures k != r
  {
    assert Left(s.runs[k]).phase == s.runs[k].phase;
    hide Left;
  }

  lemma CleanupParts(s: Sys, k: nat, r: nat)
    requires k < |s.runs| && s.runs[k].pc.Leaving? && r < |s.runs| && k != r
    ensures var t := Cleanup(s, k);
            && |t.runs| == |s.runs| && t.runs[r] == s.runs[r] && t.main == s.main && t.pending == s.pending
            && t.active == if s.runs[k].pc.n == 0 then s.active - {s.runs[k].job} else s.active
  {}

  lemma RegisterKeeps(s: Sys, r: nat)
    requires s.pending != [] && s.main == Working && r < |s.runs| && InReach(s, r)
    ensures InReach(Registers(s), r)
  {
    assert s.pending[0] in s.pending && forall c :: c in s.pending[1..] ==> c in s.pending;
  }

  lemma MainLoses(c: Config, s: Sys, a: MainAct, r: nat)
    requires AllCoherent(s) && Counted(c, s) && SecondPast(s) && MainReady(c, s, a) && r < |s.runs| && InReach(s, r)
    requires Untouched(MainNext(s, a).runs[r])
    ensures InReach(MainNext(s, a), r) <==> !Loses(s, Main(a), r)
  {
    assert Coherent(s.runs[r]);
    assert Untouched(s.runs[r]) && Unfinished(s.runs[r]) by { UntouchedStruck(s, a, r); }
    assert !s.doneClosed by { if s.doneClosed { CountNone(s.runs, Unfinished); } }
    hide Claimable, Counted, AllCoherent, Coherent;
  }

  lemma UntouchedStruck(s: Sys, a: MainAct, r: nat)
    requires r < |s.runs| && Untouched(MainNext(s, a).runs[r]) && Coherent(s.runs[r])
    ensures Untouched(s.runs[r]) && Unfinished(s.runs[r])
  {}

  /** Phases move forward, so a run that is untouched was untouched before. */
  lemma {:induction false} UntouchedBefore(c: Config, states: seq<Sys>, events: seq<Event>, i: nat, k: nat, r: nat)
    requires IsHistory(c, states, events) && i <= k < |states| && r < |states[i].runs|
    ensures r < |states[k].runs| && states[k].runs[r].job == states[i].runs[r].job
    ensures Untouched(states[k].runs[r]) ==> Untouched(states[i].runs[r])
  {
    if i < k {
      UntouchedBefore(c, states, events, i, k - 1, r);
      PhasesHold(c, states, events, k - 1);
      assert states[k] == Next(c, states[k - 1], events[k - 1]);
      StepCoherent(c, states[k - 1], events[k - 1]);
      assert RunMoves(states[k - 1].runs[r], states[k].runs[r]);
    }
  }

  ghost predicate LostIn(states: seq<Sys>, events: seq<Event>, i: nat, k: nat, r: nat)
    requires |states| == |events| + 1 && k < |states|
  {
    exists m: nat {:trigger events[m]} :: i <= m < k && r < |states[m].runs| && Loses(states[m], events[m], r)
  }

  lemma {:induction false} StaysInReach(c: Config, states: seq<Sys>, events: seq<Event>, i: nat, k: nat, r: nat)
    requires IsHistory(c, states, events) && i <= k < |states| && r < |states[i].runs| && InReach(states[i], r)
    requires r < |states[k].runs| && Untouched(states[k].runs[r]) && !LostIn(states, events, i, k, r)
    ensures InReach(states[k], r)
  {
    if i < k {
      UntouchedBefore(c, states, events, i, k - 1, r);
      UntouchedBefore(c, states, events, k - 1, k, r);
      assert !LostIn(states, events, i, k - 1, r);
      StaysInReach(c, states, events, i, k - 1, r);
      PhasesHold(c, states, events, k - 1);
      BudgetsHold(c, states, events, k - 1);
      SecondPastHolds(c, states, events, k - 1);
      assert states[k] == Next(c, states[k - 1], events[k - 1]);
      assert !Loses(states[k - 1], events[k - 1], r);
      LosesIff(c, states[k - 1], events[k - 1], r);
    }
  }

  /** A run in drain's reach is resolving, abandoned or done once drain has returned, unless meanwhile its job was
      claimed again or another run of the job deleted its entry. */
  lemma DrainCatches(c: Config, states: seq<Sys>, events: seq<Event>, i: nat, k: nat, r: nat)
    requires IsHistory(c, states, events) && i <= k < |states| && r < |states[i].runs| && InReach(states[i], r)
    requires states[k].main.Drained?
    ensures r < |states[k].runs|
    ensures states[k].runs[r].phase == Resolving || states[k].runs[r].phase == Abandoned ||
            LostIn(states, events, i, k, r)
  {
    UntouchedBefore(c, states, events, i, k, r);
    if Untouched(states[k].runs[r]) && !LostIn(states, events, i, k, r) {
      StaysInReach(c, states, events, i, k, r);
    }
  }

  /** A run that is lost is lost for good: nothing that follows abandons it. */
  lemma LostForGood(c: Config, states: seq<Sys>, events: seq<Event>, k: nat, r: nat)
    requires IsHistory(c, states, events) && k < |events| && r < |states[k].runs| && Loses(states[k], events[k], r)
    requires r < |states[k + 1].runs| && Untouched(states[k + 1].runs[r])
    ensures !CanAbandon(c, states[k + 1], r)
  {
    var s := states[k];
    assert states[k + 1] == Next(c, s, events[k]);
    if InReach(s, r) {
      PhasesHold(c, states, events, k);
      BudgetsHold(c, states, events, k);
      SecondPastHolds(c, states, events, k);
      LosesIff(c, s, events[k], r);
    } else {
      EntriesHold(c, states, events, k);
      OutOfReachStays(c, s, events[k], r);
    }
    CanAbandonIff(c, states, events, k + 1, r);
  }

  // ---- a reclaimed job hides its older run ----

  const J := Claim(Id("j"), Queue("q"))
  const TWO := Config(2, [Queue("q")], map[])

  function ExampleRun(phase: Phase, pc: Pc): Run { Run(J.job, J.queue, phase, pc, pc == Handling, false) }

  function Busy(runs: seq<Run>, pending: seq<Claim>, main: Main, abandoned: bool): Sys {
    Sys(runs, if runs == [] then map[] else map[J.job := |runs| - 1], |runs|,
        if runs == [] then map[] else map[J.queue := |runs|],
        |runs|, pending, main, abandoned, false)
  }

  function ExampleState(k: nat): Sys {
    var elder, newer, gone := ExampleRun(Invoking, Handling), ExampleRun(Registered, Deciding),
        ExampleRun(Abandoned, Deciding);
    match k
    case 0 => IDLE
    case 1 => Busy([], [J], Working, false)
    case 2 => Busy([newer], [], Working, false)
    case 3 => Busy([elder], [], Working, false)
    case 4 => Busy([elder], [J], Working, false)
    case 5 => Busy([elder, newer], [], Working, false)
    case 6 => Busy([elder, newer], [], Waiting, false)
    case 7 => Busy([elder, newer], [], Ranging({J.job}, None), false)
    case 8 => Busy([elder, gone], [], Ranging({}, None), true)
    case _ => Busy([elder, gone], [], Drained(false), true)
  }

  function ExampleEvent(k: nat): Event {
    match k
    case 0 => Main(Poll([J]))
    case 1 => Register
    case 2 => Runner(0, Begin)
    case 3 => Main(Poll([J]))
    case 4 => Register
    case 5 => Main(Shutdown)
    case 6 => Main(Deadline)
    case 7 => Main(VisitFirst(J.job))
    case _ => Main(DrainEnds)
  }

  lemma ExampleStep(k: nat)
    requires k < 9
    ensures Enabled(TWO, ExampleState(k), ExampleEvent(k)) &&
            Next(TWO, ExampleState(k), ExampleEvent(k)) == ExampleState(k + 1)
  {
    var s, t := ExampleState(k), ExampleState(k + 1);
    if k == 0 || k == 3 {
      ExamplePoll(k);
    } else if k == 1 || k == 4 {
      ExampleRegister(k);
    } else if k == 2 {
      assert s.runs[0 := Acts(s.runs[0], Begin)] == t.runs;
    } else if k == 6 {
      assert s.active.Keys == {J.job};
    } else if k == 7 {
      assert s.main.todo - {J.job} == {};
      assert Target(s, VisitFirst(J.job)) == Some(1);
      assert Struck(s.runs, Some(1)) == t.runs;
    } else {
      assert Target(s, ExampleEvent(k).a) == None;
    }
  }

  lemma ExampleRegister(k: nat)
    requires k == 1 || k == 4
    ensures ExampleState(k).pending != [] && Registers(ExampleState(k)) == ExampleState(k + 1)
  {
    var s, t := Registers(ExampleState(k)), ExampleState(k + 1);
    assert [J][1..] == [];
    assert s.active == t.active && s.inFlight == t.inFlight && s.runs == t.runs;
  }

  lemma ExamplePoll(k: nat)
    requires k == 0 || k == 3
    ensures Claimable(TWO, ExampleState(k), [J]) && MainNext(ExampleState(k), Poll([J])) == ExampleState(k + 1)
  {
    assert J.queue in TWO.queues by { assert TWO.queues[0] == J.queue; }
    assert forall r :: r in [J] ==> Open(TWO, ExampleState(k), r.queue);
  }

  /** Its lease lost, a job is claimed again by the same worker while its first run still works. Drain finds only the
      second run; it returns while the first one's handler goes on, neither abandoned nor resolving. */
  lemma ReclaimHidesRun() returns (states: seq<Sys>, events: seq<Event>)
    ensures IsHistory(TWO, states, events) && |events| == 9 && !NoReclaim(states[4], events[4])
    ensures states[9].main == Drained(false) && |states[9].runs| == 2 && states[9].runs[0].phase == Invoking
  {
    states, events := seq(10, (k: nat) => ExampleState(k)), seq(9, (k: nat) => ExampleEvent(k));
    assert states[4].runs[0].job == states[4].pending[0].job && Tracked(states[4].runs[0]);
    hide ExampleState, ExampleEvent, Next, Enabled;
    forall k {:trigger events[k]} | 0 <= k < |events|
      ensures Enabled(TWO, states[k], events[k]) && states[k + 1] == Next(TWO, states[k], events[k])
    {
      ExampleStep(k);
    }
    assert states[0] == IDLE by { ExampleStart(); }
  }

  lemma ExampleStart()
    ensures ExampleState(0) == IDLE
  {}

  // ---- an older run's cleanup hides the newer run ----

  /** The first run as it finishes while the second one waits to start. */
  function Ending(phase: Phase, pc: Pc, completed: bool): Sys {
    Busy([Run(J.job, J.queue, phase, pc, true, completed), ExampleRun(Registered, Deciding)], [], Working, false)
  }

  function Orphaned(main: Main): Sys {
    Ending(Resolving, Leaving(1), true).(active := map[], main := main)
  }

  /** The history of ReclaimHidesRun up to its fifth step; then the first run finishes and deletes the entry. */
  function CleanupState(k: nat): Sys {
    if k <= 5 then ExampleState(k) else
      match k
      case 6 => Ending(Invoking, Returned, false)
      case 7 => Ending(Resolving, Committing, false)
      case 8 => Ending(Resolving, Leaving(0), true)
      case 9 => Orphaned(Working)
      case 10 => Orphaned(Waiting)
      case 11 => Orphaned(Ranging({}, None))
      case 12 => Orphaned(Drained(false))
      case _ =>
        var s := Orphaned(Drained(false));
        s.(runs := [s.runs[0], ExampleRun(Invoking, Handling)])
  }

  function CleanupEvent(k: nat): Event {
    if k < 5 then ExampleEvent(k) else
      match k
      case 5 => Runner(0, HandlerReturns)
      case 6 => Runner(0, Resolve)
      case 7 => Runner(0, Commit)
      case 8 => Leave(0)
      case 9 => Main(Shutdown)
      case 10 => Main(Deadline)
      case 11 => Main(DrainEnds)
      case _ => Runner(1, Begin)
  }

  lemma CleanupStep(k: nat)
    requires k < 13
    ensures Enabled(TWO, CleanupState(k), CleanupEvent(k))
    ensures Next(TWO, CleanupState(k), CleanupEvent(k)) == CleanupState(k + 1)
  {
    if k < 5 {
      ExampleStep(k);
      hide ExampleState, ExampleEvent, Enabled, Next;
    } else if k < 9 {
      CleanupRun(k);
    } else {
      CleanupDrain(k);
    }
  }

  lemma CleanupRun(k: nat)
    requires 5 <= k < 9
    ensures Enabled(TWO, CleanupState(k), CleanupEvent(k))
    ensures Next(TWO, CleanupState(k), CleanupEvent(k)) == CleanupState(k + 1)
  {
    var s, t := CleanupState(k), CleanupState(k + 1);
    assert Next(TWO, s, CleanupEvent(k)).runs == t.runs;
    if k == 8 { assert s.active - {J.job} == map[]; }
  }

  lemma CleanupDrain(k: nat)
    requires 9 <= k < 13
    ensures Enabled(TWO, CleanupState(k), CleanupEvent(k))
    ensures Next(TWO, CleanupState(k), CleanupEvent(k)) == CleanupState(k + 1)
  {
    var s, t := CleanupState(k), CleanupState(k + 1);
    assert Next(TWO, s, CleanupEvent(k)).runs == t.runs;
    if k == 10 { assert s.active.Keys == {}; }
  }

  /** The other way: the first run of a reclaimed job finishes and its cleanup deletes the entry of the second. Drain
      finds nothing to do, and the second run's handler starts after drain has returned. */
  lemma CleanupHidesRun() returns (states: seq<Sys>, events: seq<Event>)
    ensures IsHistory(TWO, states, events) && |events| == 13
    ensures |states[8].runs| == 2 && Loses(states[8], events[8], 1) && InReach(states[8], 1)
    ensures states[12].main == Drained(false) && |states[12].runs| == 2 && states[12].runs[1].phase == Registered
    ensures states[13].main == Drained(false) && |states[13].runs| == 2 && states[13].runs[1].invoked
  {
    states, events := seq(14, (k: nat) => CleanupState(k)), seq(13, (k: nat) => CleanupEvent(k));
    assert states[0] == IDLE by { ExampleStart(); }
    assert |states[8].runs| == 2 && Loses(states[8], events[8], 1) && InReach(states[8], 1);
    hide CleanupState, CleanupEvent, Next, Enabled;
    forall k {:trigger events[k]} | 0 <= k < |events|
      ensures Enabled(TWO, states[k], events[k]) && states[k + 1] == Next(TWO, states[k], events[k])
    {
      CleanupStep(k);
    }
  }
}
