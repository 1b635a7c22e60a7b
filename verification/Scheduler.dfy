/**
 The schedulers of jobs/schedule.go: any number of processes with their own
 clocks read a schedule row when it looks due, plan its ticks, and race to
 advance the row by a compare-and-swap on its last run. The trigger is a
 function next that moves forward; jobs for a tick can always be built and the
 spec stays the same.
 */
module Scheduler {
  import opened Basics
  import opened JobStore

  datatype CatchUp = CatchUpOnce | CatchUpAll | CatchUpSkip

  const CATCH_UP_ALL_MAX: nat := 1000

  type Trigger = Time -> Time

  /** next(t) is the first tick strictly after t. */
  ghost predicate Advances(next: Trigger) { forall t :: next(t) > t }

  /** The Every trigger. */
  function Every(d: int): Trigger { t => t + d }

  lemma EveryAdvances(d: int)
    ensures Advances(Every(d)) <==> d > 0
  {
    if Advances(Every(d)) { assert Every(d)(0) > 0; }
  }

  /** The k-th tick from t. */
  function Tick(next: Trigger, t: Time, k: nat): Time {
    if k == 0 then t else next(Tick(next, t, k - 1))
  }

  lemma {:induction false} TicksGrow(next: Trigger, t: Time, j: nat, k: nat)
    requires Advances(next) && j < k
    ensures Tick(next, t, j) < Tick(next, t, k)
  {
    if j < k - 1 { TicksGrow(next, t, j, k - 1); }
  }

  datatype Plan = Plan(ticks: seq<Time>, next: Time, capped: bool)

  /** What planFires promises for a row whose next run is t, seen at now. */
  ghost predicate Planned(next: Trigger, t: Time, now: Time, catchUp: CatchUp, p: Plan) {
    match catchUp
    case CatchUpSkip => p == Plan([], if t > now then t else next(now), false)
    case CatchUpOnce => p == if t > now then Plan([], t, false) else Plan([t], next(now), false)
    case CatchUpAll =>
      && |p.ticks| <= CATCH_UP_ALL_MAX
      && (forall k: nat :: k < |p.ticks| ==> p.ticks[k] == Tick(next, t, k) && p.ticks[k] <= now)
      && (p.capped <==> |p.ticks| == CATCH_UP_ALL_MAX && Tick(next, t, CATCH_UP_ALL_MAX) <= now)
      && (if p.capped then p.next == next(now) else p.next == Tick(next, t, |p.ticks|) && p.next > now)
  }

  method PlanFires(next: Trigger, nextRun: Time, now: Time, catchUp: CatchUp) returns (p: Plan)
    requires Advances(next)
    ensures Planned(next, nextRun, now, catchUp, p)
  {
    match catchUp
    case CatchUpSkip =>
      if nextRun > now { return Plan([], nextRun, false); }
      return Plan([], next(now), false);
    case CatchUpAll =>
      var t, ticks := nextRun, [];
      while t <= now
        invariant t == Tick(next, nextRun, |ticks|) && |ticks| <= CATCH_UP_ALL_MAX
        invariant forall k: nat :: k < |ticks| ==> ticks[k] == Tick(next, nextRun, k) && ticks[k] <= now
        decreases now - t
      {
        if |ticks| >= CATCH_UP_ALL_MAX { return Plan(ticks, next(now), true); }
        ticks := ticks + [t];
        t := next(t);
      }
      return Plan(ticks, t, false);
    case CatchUpOnce =>
      if nextRun > now { return Plan([], nextRun, false); }
      return Plan([nextRun], next(now), false);
  }

  /** Unless it skips, the plan of a due row starts at the row's next run, rises, stays at or before now, and leaves a
      next run after now. */
  lemma PlanShape(next: Trigger, t: Time, now: Time, catchUp: CatchUp, p: Plan)
    requires Advances(next) && Planned(next, t, now, catchUp, p) && t <= now
    ensures p.next > now
    ensures catchUp == CatchUpSkip <==> p.ticks == []
    ensures p.ticks != [] ==> p.ticks[0] == t
    ensures Rising(p.ticks) && forall k :: 0 <= k < |p.ticks| ==> t <= p.ticks[k] <= now
  {
    if catchUp == CatchUpAll {
      assert p.ticks != [] by { assert Tick(next, t, 0) == t; }
      forall j: nat, k: nat | j < k < |p.ticks|
        ensures p.ticks[j] < p.ticks[k]
      {
        TicksGrow(next, t, j, k);
      }
      assert p.ticks[0] == Tick(next, t, 0);
    }
  }

  ghost predicate Rising(s: seq<Time>) {
    forall j, k :: 0 <= j < k < |s| ==> s[j] < s[k]
  }

  // ---- racing schedulers ----

  /** One process's view of the row, with the clock reading it judged it by. */
  datatype Snapshot = Snapshot(row: Schedule, now: Time)

  /** The row, what each process holds, the ticks emitted so far, and the last-run times of the winning fires. */
  datatype Sys = Sys(row: Schedule, snaps: map<nat, Snapshot>, emitted: seq<Time>, wins: seq<Time>, capped: bool)

  datatype Event =
    | Reads(p: nat, now: Time)
    | Fires(p: nat, plan: Plan)
    | Skips(p: nat)

  /** DueSchedules */
  predicate Due(row: Schedule, now: Time) { row.nextRun != ZERO_TIME && row.nextRun <= now }

  ghost predicate Permitted(next: Trigger, catchUp: CatchUp, s: Sys, e: Event) {
    match e
    case Reads(_, now) => Due(s.row, now)
    case Fires(p, plan) => p in s.snaps && Planned(next, s.snaps[p].row.nextRun, s.snaps[p].now, catchUp, plan)
    case Skips(p) => p in s.snaps
  }

  /** The last run a fire writes: a plan without ticks leaves it as it was read. */
  function NewLastRun(snap: Snapshot, plan: Plan): Time {
    if plan.ticks != [] then snap.now else if snap.row.lastRun.Some? then snap.row.lastRun.value else ZERO_TIME
  }

  /** A winning FireSchedule on the row. */
  function Advanced(row: Schedule, lastRun: Time, nextRun: Time, at: Time): Schedule {
    row.(lastRun := if lastRun == ZERO_TIME then None else Some(lastRun), nextRun := nextRun, updatedAt := at)
  }

  /** The store's FireSchedule does that to the row exactly when the last run is the expected one. */
  lemma FireAdvances(db: Db, f: Fire, ids: seq<Id>)
    requires |ids| == |f.jobs| && f.key in db.schedules
    ensures var row := db.schedules[f.key];
            FireSchedule(db, f, ids).schedules[f.key] ==
            if row.lastRun == f.expected then Advanced(row, f.newLastRun, f.newNextRun, f.now) else row
  {}

  function Next(s: Sys, e: Event): Sys
    requires e.Fires? || e.Skips? ==> e.p in s.snaps
  {
    match e
    case Reads(p, now) => s.(snaps := s.snaps[p := Snapshot(s.row, now)])
    case Fires(p, plan) =>
      var snap := s.snaps[p];
      var t := s.(snaps := s.snaps - {p});
      if s.row.lastRun == snap.row.lastRun then
        t.(row := Advanced(s.row, NewLastRun(snap, plan), plan.next, snap.now),
           emitted := s.emitted + plan.ticks,
           wins := if plan.ticks == [] then s.wins else s.wins + [snap.now],
           capped := s.capped || plan.capped)
      else t
    case Skips(p) => s.(snaps := s.snaps - {p})
  }

  /** A declared row that has not fired. */
  ghost predicate Initial(s: Sys) {
    s.row.nextRun > 0 && s.row.lastRun.None? && s.snaps == map[] && s.emitted == [] && s.wins == [] && !s.capped
  }

  ghost predicate IsHistory(next: Trigger, catchUp: CatchUp, states: seq<Sys>, events: seq<Event>) {
    && |states| == |events| + 1 && Initial(states[0])
    && forall k {:trigger events[k]} :: 0 <= k < |events| ==>
                                          Permitted(next, catchUp, states[k], events[k]) &&
                                              states[k + 1] == Next(states[k], events[k])
  }

  predicate Before(last: Option<Time>, t: Time) { last.None? || last.value < t }

  /** last is the newest winning fire, if any. */
  ghost predicate LastOf(wins: seq<Time>, last: Option<Time>) {
    if wins == [] then last.None? else last == Some(wins[|wins| - 1])
  }

  /** A snapshot is of a row that has fired no more often, and is the present row if the last run still matches. */
  ghost predicate Fits(s: Sys, snap: Snapshot) {
    && Due(snap.row, snap.now) && Before(snap.row.lastRun, snap.row.nextRun) && snap.row.nextRun > 0
    && (snap.row.lastRun.Some? ==> s.row.lastRun.Some? && snap.row.lastRun.value <= s.row.lastRun.value)
    && (snap.row.lastRun == s.row.lastRun ==> snap.row.nextRun == s.row.nextRun)
  }

  ghost predicate Sound(s: Sys) {
    && s.row.nextRun > 0 && Before(s.row.lastRun, s.row.nextRun)
    && LastOf(s.wins, s.row.lastRun) && Rising(s.wins)
    && Rising(s.emitted) && (forall k :: 0 <= k < |s.emitted| ==> s.emitted[k] < s.row.nextRun)
    && (forall p :: p in s.snaps ==> Fits(s, s.snaps[p]))
  }

  lemma FireSound(next: Trigger, catchUp: CatchUp, s: Sys, p: nat, plan: Plan)
    requires Advances(next) && catchUp != CatchUpSkip && Sound(s) && Permitted(next, catchUp, s, Fires(p, plan))
    requires s.row.lastRun == s.snaps[p].row.lastRun
    ensures Sound(Next(s, Fires(p, plan))) && Before(s.row.lastRun, s.snaps[p].now)
  {
    var snap := s.snaps[p];
    assert Fits(s, snap);
    PlanShape(next, snap.row.nextRun, snap.now, catchUp, plan);
    hide Planned, Advances;
    var t := Next(s, Fires(p, plan));
    assert t.row.lastRun == Some(snap.now) && t.row.nextRun == plan.next;
    forall q | q in t.snaps
      ensures Fits(t, t.snaps[q])
    {
      assert Fits(s, s.snaps[q]);
    }
  }

  lemma StepSound(next: Trigger, catchUp: CatchUp, s: Sys, e: Event)
    requires Advances(next) && catchUp != CatchUpSkip && Sound(s) && Permitted(next, catchUp, s, e)
    ensures Sound(Next(s, e))
  {
    hide Planned, Advances;
    match e
    case Reads(p, now) =>
      forall q | q in Next(s, e).snaps
        ensures Fits(Next(s, e), Next(s, e).snaps[q])
      {
        if q in s.snaps { assert Fits(s, s.snaps[q]); }
      }
    case Fires(p, plan) =>
      if s.row.lastRun == s.snaps[p].row.lastRun {
        FireSound(next, catchUp, s, p, plan);
      } else {
        DropSound(s, p);
      }
    case Skips(p) => DropSound(s, p);
  }

  lemma DropSound(s: Sys, p: nat)
    requires Sound(s)
    ensures Sound(s.(snaps := s.snaps - {p}))
  {
    var t := s.(snaps := s.snaps - {p});
    forall q | q in t.snaps
      ensures Fits(t, t.snaps[q])
    {
      assert Fits(s, s.snaps[q]);
    }
  }

  /** Whatever the clocks say: winning fires have rising last-run times, and the ticks of all winning fires together
      rise, so no tick is emitted twice. */
  lemma {:induction false} TicksOnce(next: Trigger, catchUp: CatchUp, states: seq<Sys>, events: seq<Event>, k: nat)
    requires Advances(next) && catchUp != CatchUpSkip && IsHistory(next, catchUp, states, events) && k < |states|
    ensures Sound(states[k])
  {
    if k > 0 {
      TicksOnce(next, catchUp, states, events, k - 1);
      assert events[k - 1] == events[k - 1];
      StepSound(next, catchUp, states[k - 1], events[k - 1]);
    }
  }

  // ---- catch up on everything ----

  /** The emitted ticks are the first ones of the trigger's orbit from t0, and the row's next run is the one after. */
  ghost predicate OnOrbit(next: Trigger, t0: Time, s: Sys) {
    && (forall k: nat :: k < |s.emitted| ==> s.emitted[k] == Tick(next, t0, k))
    && s.row.nextRun == Tick(next, t0, |s.emitted|)
  }

  lemma {:induction false} TickSum(next: Trigger, t: Time, j: nat, k: nat)
    ensures Tick(next, Tick(next, t, j), k) == Tick(next, t, j + k)
  {
    if k > 0 { TickSum(next, t, j, k - 1); }
  }

  lemma FireOnOrbit(next: Trigger, t0: Time, s: Sys, p: nat, plan: Plan)
    requires Advances(next) && Sound(s) && Permitted(next, CatchUpAll, s, Fires(p, plan)) && !plan.capped &&
             OnOrbit(next, t0, s)
    requires s.row.lastRun == s.snaps[p].row.lastRun
    ensures OnOrbit(next, t0, Next(s, Fires(p, plan)))
  {
    assert Fits(s, s.snaps[p]);
    var n := |s.emitted|;
    var t := Next(s, Fires(p, plan));
    forall k: nat | k < |t.emitted|
      ensures t.emitted[k] == Tick(next, t0, k)
    {
      if k >= n {
        assert t.emitted[k] == plan.ticks[k - n];
        TickSum(next, t0, n, k - n);
      }
    }
    TickSum(next, t0, n, |plan.ticks|);
  }

  /** As long as the cap is not hit, catching up on everything emits exactly a prefix of the trigger's orbit. */
  lemma {:induction false} EmitsOrbitPrefix(next: Trigger, states: seq<Sys>, events: seq<Event>, k: nat)
    requires Advances(next) && IsHistory(next, CatchUpAll, states, events) && k < |states| && !states[k].capped
    ensures OnOrbit(next, states[0].row.nextRun, states[k])
  {
    if k > 0 {
      var s, e := states[k - 1], events[k - 1];
      assert states[k] == Next(s, e);
      assert !s.capped;
      EmitsOrbitPrefix(next, states, events, k - 1);
      TicksOnce(next, CatchUpAll, states, events, k - 1);
      if e.Fires? && s.row.lastRun == s.snaps[e.p].row.lastRun {
        FireOnOrbit(next, states[0].row.nextRun, s, e.p, e.plan);
      }
    }
  }

  /** CatchUpSkip never emits a tick: a due row is only moved past the present. */
  lemma {:induction false} SkipNeverEmits(next: Trigger, states: seq<Sys>, events: seq<Event>, k: nat)
    requires IsHistory(next, CatchUpSkip, states, events) && k < |states|
    ensures states[k].emitted == [] && states[k].wins == [] && states[k].row.lastRun.None?
  {
    if k > 0 {
      SkipNeverEmits(next, states, events, k - 1);
      assert states[k] == Next(states[k - 1], events[k - 1]);
    }
  }
}
