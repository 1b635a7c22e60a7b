/**
 The GCRA limiter of ratelimit/ratelimit.go: a limit's arithmetic and the
 decision one admission takes from a clock reading and the stored theoretical
 arrival time (TAT). Times are Unix nanoseconds, durations nanoseconds.
 */
module RateLimit {

  import opened Basics

  predicate Fits64(x: int) { MIN_INT64 <= x <= MAX_INT64 }

  /** time.Time.Sub saturates. */
  function Sub(a: int, b: int): (d: int)
    ensures d > 0 <==> a > b
    ensures Fits64(a - b) ==> d == a - b
  {
    if a - b > MAX_INT64 then MAX_INT64 else if a - b < MIN_INT64 then MIN_INT64 else a - b
  }

  datatype Limit = Limit(rate: int, period: int, burst: int)

  function Capacity(l: Limit): int { if l.burst > 0 then l.burst else l.rate }

  /** The interval between units, rounded up so that the rate is never exceeded. */
  function Emission(l: Limit): (e: int)
    requires l.rate > 0 && l.period > 0
    ensures e >= 1 && (e - 1) * l.rate < l.period <= e * l.rate
  {
    var interval := l.period / l.rate;
    if l.period % l.rate != 0 then interval + 1 else
      assert interval >= 1;
      interval
  }

  datatype LimitError = RateNotPositive | PeriodNotPositive | BurstNegative | RateTooHigh | BurstTooLarge

  function Validate(l: Limit): Option<LimitError> {
    if l.rate <= 0 then Some(RateNotPositive)
    else if l.period <= 0 then Some(PeriodNotPositive)
    else if l.burst < 0 then Some(BurstNegative)
    else if Emission(l) <= 0 then Some(RateTooHigh)
    else if Emission(l) > MAX_INT64 / Capacity(l) then Some(BurstTooLarge)
    else None
  }

  /** A limit is accepted exactly when its parts are in range and the burst window fits 64 bits; rounding up never
      makes the interval vanish. */
  lemma ValidIff(l: Limit)
    ensures Validate(l) == None <==>
            l.rate > 0 && l.period > 0 && l.burst >= 0 && Capacity(l) * Emission(l) <= MAX_INT64
    ensures Validate(l) != Some(RateTooHigh)
  {
    if l.rate > 0 && l.period > 0 && l.burst >= 0 {
      QuotientBound(Emission(l), Capacity(l), MAX_INT64);
    }
  }

  lemma QuotientBound(e: int, c: int, m: int)
    requires e >= 0 && c > 0 && m >= 0
    ensures e <= m / c <==> c * e <= m
  {
    var q := m / c;
    assert c * q <= m < c * (q + 1);
    if e <= q {
      MulMono(c, e, q);
    } else {
      MulMono(c, q + 1, e);
    }
  }

  lemma MulMono(c: int, a: int, b: int)
    requires c >= 0 && a <= b
    ensures c * a <= c * b
  {}

  // ---- one admission ----

  ghost predicate Usable(l: Limit) { Validate(l) == None }

  lemma UsableFacts(l: Limit)
    requires Usable(l)
    ensures l.rate > 0 && l.period > 0 && Emission(l) >= 1 && Capacity(l) >= 1
    ensures 0 < Burst(l) <= MAX_INT64
  {
    ValidIff(l);
    MulMono(Emission(l), 1, Capacity(l));
  }

  /** The burst window: what an empty bucket may run ahead. */
  function Burst(l: Limit): int
    requires l.rate > 0 && l.period > 0
  {
    Capacity(l) * Emission(l)
  }

  function Cost(l: Limit, n: int): int
    requires l.rate > 0 && l.period > 0
  {
    n * Emission(l)
  }

  datatype Result = Result(allowed: bool, limit: int, remaining: int, retryAfter: int, resetAfter: int)

  /** What admit decides from one read: an error, a denial, or a write of a new TAT that opens at allowAt. */
  datatype Decision =
    | CountNotPositive
    | CountTooLarge
    | Unrepresentable
    | BeyondHorizon
    | Denied(result: Result)
    | Write(newTat: int, result: Result, allowAt: int)

  function UnitsRemaining(burst: int, fill: int, emission: int): int
    requires emission > 0
  {
    if burst - fill < 0 then 0 else (burst - fill) / emission
  }

  function Max(a: int, b: int): int { if a > b then a else b }

  /** The TAT an admission starts from: the stored one, unless it has passed. */
  function Tat(now: int, stored: Option<int>): int {
    if stored.Some? && stored.value > now then stored.value else now
  }

  function Decide(l: Limit, n: int, reserve: bool, horizon: int, now: int, stored: Option<int>): Decision
    requires l.rate > 0 && l.period > 0
  {
    if n <= 0 then CountNotPositive
    else if n > Capacity(l) then CountTooLarge
    else
      var tat := Tat(now, stored);
      var newTat := tat + Cost(l, n);
      if !Fits64(newTat) then Unrepresentable
      else
        var allowAt := newTat - Burst(l);
        var wait := Sub(allowAt, now);
        if !reserve && wait > 0 then
          Denied(Result(false, Capacity(l), UnitsRemaining(Burst(l), Sub(tat, now), Emission(l)), wait, Sub(tat, now)))
        else if reserve && wait > horizon then BeyondHorizon
        else
          var left := UnitsRemaining(Burst(l), Sub(newTat, now), Emission(l));
          Write(newTat, Result(true, Capacity(l), left, 0, Sub(newTat, now)), allowAt)
  }

  // ---- what the result promises ----

  /** n units fit at now. */
  ghost predicate Admitted(l: Limit, n: int, now: int, stored: Option<int>)
    requires l.rate > 0 && l.period > 0
  {
    Decide(l, n, false, 0, now, stored).Write?
  }

  /** A stored TAT as it reads later: it disappears when it passes. */
  function At(stored: Option<int>, now: int): Option<int> {
    if stored.Some? && stored.value > now then stored else None
  }

  lemma {:induction false} UnitsFit(e: int, free: int, n: int)
    requires e > 0 && n >= 0 && free >= 0
    ensures n * e <= free <==> n <= free / e
  {
    var q := free / e;
    assert e * q <= free < e * (q + 1);
    if n <= q { MulMono(e, n, q); } else { MulMono(e, q + 1, n); }
  }

  /** RetryAfter is exact: with the stored state unchanged, the same request is admitted d later exactly when d is at
      least RetryAfter. */
  lemma RetryAfterExact(l: Limit, n: int, now: int, stored: Option<int>, d: int)
    requires Usable(l) && d >= 0 && Decide(l, n, false, 0, now, stored).Denied?
    requires Fits64(Max(Tat(now, stored), now + d) + Cost(l, n)) && Fits64(Tat(now, stored) - now)
    ensures Admitted(l, n, now + d, At(stored, now + d)) <==> d >= Decide(l, n, false, 0, now, stored).result.retryAfter
  {
    UsableFacts(l);
    MulMono(Emission(l), n, Capacity(l));
    assert Cost(l, n) <= Burst(l);
  }

  /** Remaining is exact: in the state a decision leaves behind, m more units fit at once exactly when m is at most
      Remaining. */
  lemma RemainingExact(l: Limit, n: int, reserve: bool, horizon: int, now: int, stored: Option<int>, m: int)
    requires Usable(l) && 1 <= m <= Capacity(l)
    requires var d := Decide(l, n, reserve, horizon, now, stored);
             && (d.Write? || d.Denied?)
             && var left := if d.Write? then Some(d.newTat) else stored;
                Fits64(Tat(now, left) + Cost(l, m)) && Fits64(Tat(now, left) - now)
    ensures var d := Decide(l, n, reserve, horizon, now, stored);
            var left := if d.Write? then Some(d.newTat) else stored;
            Admitted(l, m, now, left) <==> m <= d.result.remaining
  {
    UsableFacts(l);
    var d := Decide(l, n, reserve, horizon, now, stored);
    var left := if d.Write? then Some(d.newTat) else stored;
    var tat := Tat(now, left);
    MulMono(Emission(l), 1, n);
    assert d.Write? ==> d.newTat > now && tat == d.newTat;
    var free := Burst(l) - (tat - now);
    assert d.result.remaining == UnitsRemaining(Burst(l), tat - now, Emission(l));
    assert Admitted(l, m, now, left) <==> Cost(l, m) <= free;
    if free >= 0 { UnitsFit(Emission(l), free, m); } else { MulMono(Emission(l), 1, m); }
  }

  /** ResetAfter is exact: the full burst fits again exactly from then on. */
  lemma ResetAfterExact(l: Limit, n: int, reserve: bool, horizon: int, now: int, stored: Option<int>, d: int)
    requires Usable(l) && d >= 0
    requires var c := Decide(l, n, reserve, horizon, now, stored);
             && (c.Write? || c.Denied?)
             && var left := if c.Write? then Some(c.newTat) else stored;
                Fits64(Max(Tat(now, left), now + d) + Burst(l)) && Fits64(Tat(now, left) - now)
    ensures var c := Decide(l, n, reserve, horizon, now, stored);
            var left := if c.Write? then Some(c.newTat) else stored;
            Admitted(l, Capacity(l), now + d, At(left, now + d)) <==> d >= c.result.resetAfter
  {
    UsableFacts(l);
    var c := Decide(l, n, reserve, horizon, now, stored);
    MulMono(Emission(l), 1, n);
    assert c.Write? ==> c.newTat > now;
  }

  /** A clock at or after the epoch never saturates the durations, nor does any in-range one for the states it writes.
      */
  lemma NoSaturation(l: Limit, n: int, reserve: bool, horizon: int, now: int, stored: Option<int>)
    requires Usable(l) && 0 <= now <= MAX_INT64 && (stored.Some? ==> Fits64(stored.value))
    ensures Fits64(Tat(now, stored) - now)
    ensures var d := Decide(l, n, reserve, horizon, now, stored);
            d.Write? ==> Fits64(d.newTat) && Fits64(d.newTat - now)
  {
    UsableFacts(l);
    if n > 0 { MulMono(Emission(l), 1, n); }
  }
}

/** The expiring key-value store of ratelimit/store_memory.go and its conditional writes. */
module RateStore {
  import opened Basics
  import opened RateLimit

  datatype Entry = Entry(value: int, expiresAt: int)
  type Store = map<Key, Entry>

  predicate Expired(e: Entry, now: int) { e.expiresAt <= now }

  /** What Get returns. */
  function View(m: Store, k: Key, now: int): Option<int> {
    if k in m && !Expired(m[k], now) then Some(m[k].value) else None
  }

  /** What Get leaves behind. */
  function Trimmed(m: Store, k: Key, now: int): Store {
    if k in m && Expired(m[k], now) then m - {k} else m
  }

  function Swept(m: Store, now: int): Store {
    map k | k in m && !Expired(m[k], now) :: m[k]
  }

  /** A successful conditional write happens exactly when a read at that instant would return what the writer expects.
      */
  predicate Succeeds(m: Store, k: Key, now: int, expected: Option<int>) {
    View(m, k, now) == expected
  }

  function Written(m: Store, k: Key, now: int, expected: Option<int>, value: int, expiresAt: int): Store {
    if Succeeds(m, k, now, expected) then m[k := Entry(value, expiresAt)] else m
  }

  class MemoryStore {
    var m: Store

    constructor ()
      ensures m == map[]
    {
      m := map[];
    }

    method Get(k: Key, now: int) returns (value: Option<int>)
      modifies this
      ensures value == View(old(m), k, now) && m == Trimmed(old(m), k, now)
    {
      if k !in m { return None; }
      var e := m[k];
      if e.expiresAt <= now {
        m := m - {k};
        return None;
      }
      return Some(e.value);
    }

    method SetIfAbsent(k: Key, value: int, now: int, expiresAt: int) returns (ok: bool)
      modifies this
      ensures ok <==> Succeeds(old(m), k, now, None)
      ensures m == Written(old(m), k, now, None, value, expiresAt)
    {
      if k in m && m[k].expiresAt > now { return false; }
      m := m[k := Entry(value, expiresAt)];
      ok := true;
    }

    method CompareAndSwap(k: Key, expected: int, value: int, now: int, expiresAt: int) returns (ok: bool)
      modifies this
      ensures ok <==> Succeeds(old(m), k, now, Some(expected))
      ensures m == Written(old(m), k, now, Some(expected), value, expiresAt)
    {
      if k !in m || m[k].expiresAt <= now || m[k].value != expected { return false; }
      m := m[k := Entry(value, expiresAt)];
      ok := true;
    }

    method Sweep(now: int) returns (removed: nat)
      modifies this
      ensures m == Swept(old(m), now) && removed == |old(m)| - |m|
    {
      removed := 0;
      var rest := m.Keys;
      ghost var was := m;
      while rest != {}
        invariant rest <= was.Keys && removed + |m| == |was|
        invariant m == map k | k in was && (k in rest || !Expired(was[k], now)) :: was[k]
        decreases rest
      {
        var k :| k in rest;
        ghost var before := m;
        rest := rest - {k};
        if m[k].expiresAt <= now {
          m := m - {k};
          removed := removed + 1;
          assert before == m[k := was[k]];
        }
      }
    }

    /** admit's body with nobody in between: read, decide, write; the write goes through. */
    method Admit(l: Limit, k: Key, n: int, reserve: bool, horizon: int, now: int) returns (d: Decision)
      requires l.rate > 0 && l.period > 0
      modifies this
      ensures d == Decide(l, n, reserve, horizon, now, View(old(m), k, now))
      ensures m == AtomicAdmit(old(m), l, k, n, reserve, horizon, now)
    {
      if n <= 0 { return CountNotPositive; }
      if n > Capacity(l) { return CountTooLarge; }
      var stored := Get(k, now);
      d := Decide(l, n, reserve, horizon, now, stored);
      if d.Write? {
        var ok;
        if stored.Some? {
          ok := CompareAndSwap(k, stored.value, d.newTat, now, d.newTat);
        } else {
          ok := SetIfAbsent(k, d.newTat, now, d.newTat);
        }
        assert ok;
      }
    }
  }

  /** Reading, deciding and writing in one instant. */
  function AtomicAdmit(m: Store, l: Limit, k: Key, n: int, reserve: bool, horizon: int, now: int): Store
    requires l.rate > 0 && l.period > 0
  {
    if n <= 0 || n > Capacity(l) then m
    else
      var d := Decide(l, n, reserve, horizon, now, View(m, k, now));
      if d.Write? then Trimmed(m, k, now)[k := Entry(d.newTat, d.newTat)] else Trimmed(m, k, now)
  }
}

/** Admissions on one key in any interleaving, and the bound they keep over every time window. */
module RateHistory {
  import opened Basics
  import opened RateLimit
  import opened RateStore

  /** A request between its read and its write: the clock it sampled and what it read. */
  datatype Pending = Pending(n: int, reserve: bool, now: int, stored: Option<int>)

  /** A committed admission of n units. */
  datatype Commit = Commit(n: int, now: int, tat: int, newTat: int, allowAt: int)

  /** reading is the last clock reading taken; removed is the reading of the last operation that removed the key's
      entry. */
  datatype Sys = Sys(m: Store, pending: map<nat, Pending>, commits: seq<Commit>, reading: int, removed: int)

  datatype Event =
    | Reads(p: nat, n: int, reserve: bool, now: int)
    | Writes(p: nat)
    | Sweeps(now: int)
    | Elsewhere(m: Store)

  datatype Limiter = Limiter(limit: Limit, key: Key, horizon: int)

  ghost predicate Permitted(l: Limiter, s: Sys, e: Event) {
    match e
    case Reads(_, n, _, _) => 1 <= n <= Capacity(l.limit)
    case Writes(p) => p in s.pending
    case Sweeps(_) => true
    case Elsewhere(m) => Same(s.m, m, l.key)
  }

  predicate Same(m: Store, m': Store, k: Key) {
    (k in m <==> k in m') && (k in m && k in m' ==> m[k] == m'[k])
  }

  function DecideFor(l: Limiter, q: Pending): Decision
    requires l.limit.rate > 0 && l.limit.period > 0
  {
    Decide(l.limit, q.n, q.reserve, l.horizon, q.now, q.stored)
  }

  function CommitOf(q: Pending, d: Decision): Commit
    requires d.Write?
  {
    Commit(q.n, q.now, Tat(q.now, q.stored), d.newTat, d.allowAt)
  }

  /** An operation that drops expired entries at now removes the key's entry, or leaves things as they were. */
  function RemovedAt(l: Limiter, s: Sys, now: int): int {
    if l.key in s.m && Expired(s.m[l.key], now) then now else s.removed
  }

  ghost function Next(l: Limiter, s: Sys, e: Event): Sys
    requires l.limit.rate > 0 && l.limit.period > 0 && Permitted(l, s, e)
  {
    match e
    case Reads(p, n, reserve, now) =>
      var q := Pending(n, reserve, now, View(s.m, l.key, now));
      var t := s.(m := Trimmed(s.m, l.key, now), reading := now, removed := RemovedAt(l, s, now));
      if DecideFor(l, q).Write? then t.(pending := s.pending[p := q]) else t.(pending := s.pending - {p})
    case Writes(p) =>
      var q := s.pending[p];
      var d := DecideFor(l, q);
      var t := s.(pending := s.pending - {p});
      if d.Write? && Succeeds(s.m, l.key, q.now, q.stored) then
        t.(m := Written(s.m, l.key, q.now, q.stored, d.newTat, d.newTat), commits := s.commits + [CommitOf(q, d)])
      else t
    case Sweeps(now) =>
      s.(m := Swept(s.m, now), reading := now, removed := RemovedAt(l, s, now))
    case Elsewhere(m) => s.(m := m)
  }

  /** Linearizability: a write that succeeds does what reading, deciding and writing at that instant with the sampled
      clock would do, and hands out the same answer; one that fails changes nothing. */
  lemma CommitIsAtomic(l: Limiter, s: Sys, p: nat)
    requires Usable(l.limit) && p in s.pending && 1 <= s.pending[p].n <= Capacity(l.limit)
    requires l.limit.rate > 0 && l.limit.period > 0
    ensures var q := s.pending[p];
            var anew := Decide(l.limit, q.n, q.reserve, l.horizon, q.now, View(s.m, l.key, q.now));
            var t := Next(l, s, Writes(p));
            if |t.commits| > |s.commits| then
              && anew == DecideFor(l, q) && anew.Write? && t.commits == s.commits + [CommitOf(q, anew)]
              && t.m == AtomicAdmit(s.m, l.limit, l.key, q.n, q.reserve, l.horizon, q.now)
            else t.m == s.m && t.commits == s.commits
  {
    var q := s.pending[p];
    if DecideFor(l, q).Write? && Succeeds(s.m, l.key, q.now, q.stored) {
      assert View(s.m, l.key, q.now) == q.stored;
      var d := DecideFor(l, q);
      assert Trimmed(s.m, l.key, q.now)[l.key := Entry(d.newTat, d.newTat)] == s.m[l.key := Entry(d.newTat, d.newTat)];
    }
  }

  // ---- the window bound ----

  /** When the units of a commit become usable. */
  function Effective(c: Commit): int { Max(c.now, c.allowAt) }

  /** The shape of one commit under the limit. */
  ghost predicate Shaped(l: Limit, c: Commit)
    requires l.rate > 0 && l.period > 0
  {
    1 <= c.n <= Capacity(l) && c.tat >= c.now && c.newTat == c.tat + Cost(l, c.n) && c.allowAt == c.newTat - Burst(l)
  }

  /** Later commits start where earlier ones end. */
  ghost predicate Chained(l: Limit, commits: seq<Commit>)
    requires l.rate > 0 && l.period > 0
  {
    && (forall i :: 0 <= i < |commits| ==> Shaped(l, commits[i]))
    && (forall i, j :: 0 <= i < j < |commits| ==> commits[i].newTat <= commits[j].tat)
  }

  predicate InWindow(c: Commit, from: int, to: int) { from <= Effective(c) <= to }

  /** Units that become usable in the window. */
  function Units(commits: seq<Commit>, from: int, to: int): int {
    if commits == [] then 0 else
      var c := commits[|commits| - 1];
      Units(commits[..|commits| - 1], from, to) + (if InWindow(c, from, to) then c.n else 0)
  }

  /** Where the last commit of the window ends. */
  function Top(commits: seq<Commit>, from: int, to: int): int {
    if commits == [] then from
    else if InWindow(commits[|commits| - 1], from, to) then commits[|commits| - 1].newTat
    else Top(commits[..|commits| - 1], from, to)
  }

  lemma ChainedFront(l: Limit, commits: seq<Commit>)
    requires l.rate > 0 && l.period > 0 && Chained(l, commits) && commits != []
    ensures Chained(l, commits[..|commits| - 1])
  {}

  lemma {:induction false} TopReached(l: Limit, commits: seq<Commit>, from: int, to: int, at: int)
    requires l.rate > 0 && l.period > 0 && Chained(l, commits) && at >= from
    requires forall i :: 0 <= i < |commits| ==> commits[i].newTat <= at
    ensures Top(commits, from, to) <= at
  {
    if commits != [] {
      ChainedFront(l, commits);
      TopReached(l, commits[..|commits| - 1], from, to, at);
    }
  }

  /** The units of a window lie end to end between its start and the top. */
  lemma {:induction false} UnitsFill(l: Limit, commits: seq<Commit>, from: int, to: int)
    requires Usable(l) && l.rate > 0 && l.period > 0 && Chained(l, commits) && from <= to
    ensures Units(commits, from, to) * Emission(l) <= Top(commits, from, to) - from
    ensures Top(commits, from, to) <= to + Burst(l)
  {
    UsableFacts(l);
    if commits != [] {
      var front, c := commits[..|commits| - 1], commits[|commits| - 1];
      ChainedFront(l, commits);
      UnitsFill(l, front, from, to);
      if InWindow(c, from, to) {
        assert Shaped(l, c);
        MulMono(Emission(l), c.n, Capacity(l));
        assert c.tat >= Effective(c) >= from && c.newTat <= Effective(c) + Burst(l);
        TopReached(l, front, from, to, c.tat);
        assert (Units(front, from, to) + c.n) * Emission(l) == Units(front, from, to) * Emission(l) + Cost(l, c.n);
      }
    }
  }

  /** No window holds more than the capacity plus one unit per emission interval. */
  lemma WindowBound(l: Limit, commits: seq<Commit>, from: int, to: int)
    requires Usable(l) && l.rate > 0 && l.period > 0 && Chained(l, commits) && from <= to
    ensures Units(commits, from, to) * Emission(l) <= Burst(l) + (to - from)
    ensures Units(commits, from, to) <= Capacity(l) + (to - from) / Emission(l)
  {
    UsableFacts(l);
    UnitsFill(l, commits, from, to);
    BoundDivides(Emission(l), Units(commits, from, to), Capacity(l), to - from);
  }

  lemma BoundDivides(e: int, u: int, c: int, w: int)
    requires e > 0 && w >= 0 && u * e <= c * e + w
    ensures u <= c + w / e
  {
    if u > c {
      var n := u - c;
      assert n * e == u * e - c * e;
      UnitsFit(e, w, n);
    }
  }

  // ---- when a history keeps the chain ----

  /** The entry, if any, is where the last commit ends. */
  ghost predicate Linked(l: Limiter, s: Sys)
    requires l.limit.rate > 0 && l.limit.period > 0
  {
    && Chained(l.limit, s.commits)
    && (l.key in s.m ==> s.m[l.key].expiresAt == s.m[l.key].value
                         && forall i :: 0 <= i < |s.commits| ==> s.commits[i].newTat <= s.m[l.key].value)
    && (forall p :: p in s.pending ==> 1 <= s.pending[p].n <= Capacity(l.limit))
  }

  /** The write goes through. */
  ghost predicate Commits(l: Limiter, s: Sys, e: Event)
    requires l.limit.rate > 0 && l.limit.period > 0
  {
    && e.Writes? && e.p in s.pending && DecideFor(l, s.pending[e.p]).Write?
    && Succeeds(s.m, l.key, s.pending[e.p].now, s.pending[e.p].stored)
  }

  /** A SetIfAbsent that goes through where the entry was removed has a sampled clock at or after the end of the last
      commit. Every other step is timely. */
  ghost predicate Timely(l: Limiter, s: Sys, e: Event)
    requires l.limit.rate > 0 && l.limit.period > 0
  {
    Commits(l, s, e) && l.key !in s.m && s.commits != [] ==> s.commits[|s.commits| - 1].newTat <= s.pending[e.p].now
  }

  /** A compare-and-swap always keeps the chain; a SetIfAbsent keeps it exactly when it is timely. */
  lemma CommitKeepsIff(l: Limiter, s: Sys, e: Event)
    requires Usable(l.limit) && l.limit.rate > 0 && l.limit.period > 0 && Linked(l, s)
    requires Permitted(l, s, e) && Commits(l, s, e)
    ensures s.pending[e.p].stored.Some? ==> Timely(l, s, e)
    ensures Chained(l.limit, Next(l, s, e).commits) <==> Timely(l, s, e)
    ensures Timely(l, s, e) ==> Linked(l, Next(l, s, e))
  {
    UsableFacts(l.limit);
    var q := s.pending[e.p];
    var d := DecideFor(l, q);
    var c := CommitOf(q, d);
    MulMono(Emission(l.limit), 1, q.n);
    assert c.newTat > c.tat && Shaped(l.limit, c);
    var more := s.commits + [c];
    assert Next(l, s, e).commits == more;
    if Timely(l, s, e) {
      forall i | 0 <= i < |s.commits|
        ensures s.commits[i].newTat <= c.tat
      {
        LastEnds(l.limit, s.commits, i);
      }
    } else {
      assert more[|s.commits| - 1].newTat > more[|s.commits|].tat;
    }
  }

  lemma LastEnds(l: Limit, commits: seq<Commit>, i: nat)
    requires Usable(l) && l.rate > 0 && l.period > 0 && Chained(l, commits) && i < |commits|
    ensures commits[i].newTat <= commits[|commits| - 1].newTat
  {
    UsableFacts(l);
    var last := commits[|commits| - 1];
    assert Shaped(l, last);
    MulMono(Emission(l), 0, last.n);
  }

  lemma StepLinked(l: Limiter, s: Sys, e: Event)
    requires Usable(l.limit) && l.limit.rate > 0 && l.limit.period > 0 && Linked(l, s) && Permitted(l, s, e)
    ensures Chained(l.limit, Next(l, s, e).commits) <==> Timely(l, s, e)
    ensures Timely(l, s, e) ==> Linked(l, Next(l, s, e))
  {
    if Commits(l, s, e) {
      CommitKeepsIff(l, s, e);
    } else {
      hide Chained, Decide, Usable;
    }
  }

  /** Any interleaving; the clock readings are those of the events and need not be in order. */
  ghost predicate IsHistory(l: Limiter, states: seq<Sys>, events: seq<Event>)
    requires l.limit.rate > 0 && l.limit.period > 0
  {
    && |states| == |events| + 1 && l.key !in states[0].m && states[0].pending == map[] && states[0].commits == []
    && states[0].removed <= states[0].reading
    && forall k {:trigger events[k]} :: 0 <= k < |events| ==>
         Permitted(l, states[k], events[k]) && states[k + 1] == Next(l, states[k], events[k])
  }

  ghost predicate AllTimely(l: Limiter, states: seq<Sys>, events: seq<Event>, k: nat)
    requires l.limit.rate > 0 && l.limit.period > 0 && k <= |events| <= |states|
  {
    forall i {:trigger events[i]} :: 0 <= i < k ==> Timely(l, states[i], events[i])
  }

  lemma {:induction false} HistoryLinked(l: Limiter, states: seq<Sys>, events: seq<Event>, k: nat)
    requires Usable(l.limit) && l.limit.rate > 0 && l.limit.period > 0 && IsHistory(l, states, events) && k < |states|
    requires AllTimely(l, states, events, k)
    ensures Linked(l, states[k])
  {
    if k > 0 {
      HistoryLinked(l, states, events, k - 1);
      assert states[k] == Next(l, states[k - 1], events[k - 1]) && Timely(l, states[k - 1], events[k - 1]);
      StepLinked(l, states[k - 1], events[k - 1]);
    }
  }

  /** Commits are only ever appended, so a broken chain stays broken. */
  lemma {:induction false} ChainedEarlier(l: Limiter, states: seq<Sys>, events: seq<Event>, i: nat, k: nat)
    requires l.limit.rate > 0 && l.limit.period > 0 && IsHistory(l, states, events) && i <= k < |states|
    requires Chained(l.limit, states[k].commits)
    ensures Chained(l.limit, states[i].commits)
  {
    if i < k {
      assert states[k] == Next(l, states[k - 1], events[k - 1]);
      var front := states[k - 1].commits;
      assert front <= states[k].commits;
      assert forall j :: 0 <= j < |front| ==> front[j] == states[k].commits[j];
      ChainedEarlier(l, states, events, i, k - 1);
    }
  }

  /** Exactly when: every commit of a history starts where the ones before it end if and only if every SetIfAbsent in it
      was timely. */
  lemma {:induction false} HistoryChainedIff(l: Limiter, states: seq<Sys>, events: seq<Event>, k: nat)
    requires Usable(l.limit) && l.limit.rate > 0 && l.limit.period > 0 && IsHistory(l, states, events) && k < |states|
    ensures Chained(l.limit, states[k].commits) <==> AllTimely(l, states, events, k)
  {
    if AllTimely(l, states, events, k) {
      HistoryLinked(l, states, events, k);
    } else if Chained(l.limit, states[k].commits) && k > 0 {
      ChainedEarlier(l, states, events, k - 1, k);
      HistoryChainedIff(l, states, events, k - 1);
      HistoryLinked(l, states, events, k - 1);
      assert states[k] == Next(l, states[k - 1], events[k - 1]);
      StepLinked(l, states[k - 1], events[k - 1]);
    }
  }

  /** Over any history of admissions and reservations, expiry, lazy deletion and sweeps included, in which every
      SetIfAbsent was timely: the units that become usable in a window are at most capacity plus one per emission
      interval. */
  lemma HistoryBound(l: Limiter, states: seq<Sys>, events: seq<Event>, k: nat, from: int, to: int)
    requires Usable(l.limit) && l.limit.rate > 0 && l.limit.period > 0 && IsHistory(l, states, events) && k < |states|
    requires AllTimely(l, states, events, k) && from <= to
    ensures Units(states[k].commits, from, to) <= Capacity(l.limit) + (to - from) / Emission(l.limit)
  {
    HistoryLinked(l, states, events, k);
    WindowBound(l.limit, states[k].commits, from, to);
  }

  // ---- untimely writes ----

  /** How many of the first k events were untimely writes. */
  ghost function UntimelyCount(l: Limiter, states: seq<Sys>, events: seq<Event>, k: nat): nat
    requires l.limit.rate > 0 && l.limit.period > 0 && k <= |events| <= |states|
  {
    if k == 0 then 0
    else UntimelyCount(l, states, events, k - 1) + if Timely(l, states[k - 1], events[k - 1]) then 0 else 1
  }

  /** The system as if the first commits had not been. */
  ghost function Since(s: Sys, start: nat): Sys
    requires start <= |s.commits|
  {
    s.(commits := s.commits[start..])
  }

  /** Steps do not look at earlier commits. */
  lemma SinceNext(l: Limiter, s: Sys, e: Event, start: nat)
    requires l.limit.rate > 0 && l.limit.period > 0 && Permitted(l, s, e) && start <= |s.commits|
    ensures Permitted(l, Since(s, start), e) && s.commits <= Next(l, s, e).commits
    ensures Next(l, Since(s, start), e) == Since(Next(l, s, e), start)
    ensures Timely(l, s, e) ==> Timely(l, Since(s, start), e)
    ensures start == |s.commits| ==> Timely(l, Since(s, start), e)
  {
    hide Decide;
    if Commits(l, s, e) {
      var q := s.pending[e.p];
      var c := CommitOf(q, DecideFor(l, q));
      assert (s.commits + [c])[start..] == s.commits[start..] + [c];
    }
  }

  lemma {:induction false} UnitsSplit(commits: seq<Commit>, m: nat, from: int, to: int)
    requires m <= |commits|
    ensures Units(commits, from, to) == Units(commits[..m], from, to) + Units(commits[m..], from, to)
  {
    if m < |commits| {
      var front, last := commits[..|commits| - 1], commits[m..];
      UnitsSplit(front, m, from, to);
      assert front[..m] == commits[..m] && front[m..] == last[..|last| - 1];
    } else {
      assert commits[..m] == commits;
    }
  }

  /** After a write that goes through without an entry, only that write is chained. */
  lemma RestartLinked(l: Limiter, s: Sys, e: Event, start: nat)
    requires Usable(l.limit) && l.limit.rate > 0 && l.limit.period > 0 && Permitted(l, s, e) && !Timely(l, s, e)
    requires start <= |s.commits| && Linked(l, Since(s, start))
    ensures |s.commits| <= |Next(l, s, e).commits| && Linked(l, Since(Next(l, s, e), |s.commits|))
  {
    hide Decide, Usable, Next, Permitted;
    assert s.commits[|s.commits|..] == [];
    assert Linked(l, Since(s, |s.commits|));
    SinceNext(l, s, e, |s.commits|);
    StepLinked(l, Since(s, |s.commits|), e);
  }

  /** What fits a window of a chain. */
  function WindowCap(l: Limit, from: int, to: int): int
    requires l.rate > 0 && l.period > 0 && Emission(l) > 0
  {
    Capacity(l) + (to - from) / Emission(l)
  }

  /** One step: the chain goes on, or starts again at an untimely write and leaves at most one window behind. */
  lemma RestartStep(l: Limiter, s: Sys, e: Event, before: nat, u: nat, cap: int, from: int, to: int)
    returns (start: nat)
    requires Usable(l.limit) && l.limit.rate > 0 && l.limit.period > 0 && Permitted(l, s, e) && from <= to
    requires before <= |s.commits| && Linked(l, Since(s, before)) && Emission(l.limit) > 0
    requires cap == WindowCap(l.limit, from, to) && Units(s.commits[..before], from, to) <= u * cap
    ensures var t := Next(l, s, e);
            && start <= |t.commits| && Linked(l, Since(t, start))
            && Units(t.commits[..start], from, to) <= (if Timely(l, s, e) then u else u + 1) * cap
  {
    hide Usable, Linked, Next, Timely, Permitted, Emission;
    SinceNext(l, s, e, before);
    if Timely(l, s, e) {
      start := before;
      StepLinked(l, Since(s, before), e);
      assert Next(l, s, e).commits[..start] == s.commits[..before];
    } else {
      start := |s.commits|;
      RestartLinked(l, s, e, before);
      UnitsSplit(s.commits, before, from, to);
      LinkedBound(l, Since(s, before), from, to);
      SinceNext(l, s, e, start);
      assert Next(l, s, e).commits[..start] == s.commits;
      OneMore(u, cap);
    }
  }

  /** The chain restarts at each untimely write: what came before start fills at most one window for each. */
  lemma {:induction false} Restarts(l: Limiter, states: seq<Sys>, events: seq<Event>, k: nat, from: int, to: int)
    returns (start: nat)
    requires Usable(l.limit) && l.limit.rate > 0 && l.limit.period > 0 && IsHistory(l, states, events) && k < |states|
    requires from <= to && Emission(l.limit) > 0
    ensures start <= |states[k].commits| && Linked(l, Since(states[k], start))
    ensures Units(states[k].commits[..start], from, to) <=
            UntimelyCount(l, states, events, k) * WindowCap(l.limit, from, to)
  {
    if k == 0 {
      start := 0;
      hide Usable, Emission, WindowCap;
    } else {
      var s, e := states[k - 1], events[k - 1];
      assert states[k] == Next(l, s, e) && Permitted(l, s, e);
      hide Usable, Linked, Next, Timely, Permitted, Emission, WindowCap;
      var before := Restarts(l, states, events, k - 1, from, to);
      hide IsHistory;
      start := RestartStep(l, s, e, before, UntimelyCount(l, states, events, k - 1), WindowCap(l.limit, from, to),
                           from, to);
    }
  }

  lemma LinkedBound(l: Limiter, s: Sys, from: int, to: int)
    requires Usable(l.limit) && l.limit.rate > 0 && l.limit.period > 0 && Linked(l, s) && from <= to
    ensures Units(s.commits, from, to) <= Capacity(l.limit) + (to - from) / Emission(l.limit)
  {
    WindowBound(l.limit, s.commits, from, to);
  }

  lemma OneMore(u: nat, b: int)
    ensures (u + 1) * b == u * b + b
  {}

  /** Over any history at all: each untimely write can let one more window's worth through, and nothing else can. */
  lemma UntimelyBound(l: Limiter, states: seq<Sys>, events: seq<Event>, k: nat, from: int, to: int)
    requires Usable(l.limit) && l.limit.rate > 0 && l.limit.period > 0 && IsHistory(l, states, events) && k < |states|
    requires from <= to
    ensures Emission(l.limit) > 0
    ensures Units(states[k].commits, from, to) <=
            (UntimelyCount(l, states, events, k) + 1) * WindowCap(l.limit, from, to)
  {
    UsableFacts(l.limit);
    var start := Restarts(l, states, events, k, from, to);
    var commits, u := states[k].commits, UntimelyCount(l, states, events, k);
    LinkedBound(l, Since(states[k], start), from, to);
    hide IsHistory, Usable, Linked, Emission, UntimelyCount;
    UnitsSplit(commits, start, from, to);
    assert Units(commits, from, to) <= u * WindowCap(l.limit, from, to) + WindowCap(l.limit, from, to);
    OneMore(u, WindowCap(l.limit, from, to));
  }

  // ---- clocks ----

  /** The clock is read in non-decreasing order. */
  ghost predicate OnTime(s: Sys, e: Event) {
    e.Reads? || e.Sweeps? ==> s.reading <= e.now
  }

  /** No removal of the entry came between the request's read and its write. */
  ghost predicate Undisturbed(l: Limiter, s: Sys, e: Event)
    requires l.limit.rate > 0 && l.limit.period > 0
  {
    Commits(l, s, e) ==> s.removed <= s.pending[e.p].now
  }

  /** Removals are not ahead of the clock, and what was removed had ended by then. */
  ghost predicate Dated(l: Limiter, s: Sys) {
    s.removed <= s.reading && (l.key !in s.m ==> forall i :: 0 <= i < |s.commits| ==> s.commits[i].newTat <= s.removed)
  }

  lemma StepDated(l: Limiter, s: Sys, e: Event)
    requires Usable(l.limit) && l.limit.rate > 0 && l.limit.period > 0 && Linked(l, s) && Dated(l, s)
    requires Permitted(l, s, e) && OnTime(s, e)
    ensures Dated(l, Next(l, s, e)) && (Undisturbed(l, s, e) ==> Timely(l, s, e))
  {
    hide Chained, Decide, Usable;
  }

  /** With one monotone clock: if no removal of the entry comes between a request's read and its write, everything is
      timely, so the window bound holds. */
  lemma {:induction false} MonotoneBound(l: Limiter, states: seq<Sys>, events: seq<Event>, k: nat, from: int, to: int)
    requires Usable(l.limit) && l.limit.rate > 0 && l.limit.period > 0 && IsHistory(l, states, events) && k < |states|
    requires forall i {:trigger events[i]} :: 0 <= i < k ==>
               OnTime(states[i], events[i]) && Undisturbed(l, states[i], events[i])
    requires from <= to
    ensures AllTimely(l, states, events, k) && Dated(l, states[k])
    ensures Units(states[k].commits, from, to) <= Capacity(l.limit) + (to - from) / Emission(l.limit)
  {
    if k > 0 {
      MonotoneBound(l, states, events, k - 1, from, to);
      HistoryLinked(l, states, events, k - 1);
      assert states[k] == Next(l, states[k - 1], events[k - 1]) && OnTime(states[k - 1], events[k - 1]);
      StepDated(l, states[k - 1], events[k - 1]);
    }
    HistoryBound(l, states, events, k, from, to);
  }

  // ---- a delayed SetIfAbsent ----

  const TEN := Limiter(Limit(10, 50, 0), Key("k"), 0)
  const SLOW := Pending(10, false, 10, None)
  const FAST := Pending(10, false, 20, None)

  /** Two requests read nothing, at 10 and at 20; the second commits, its entry expires and is swept at 100; then the
      first one's write goes through with its reading of 10. */
  function DelayedState(k: nat): Sys {
    var first, second := Commit(10, 20, 20, 70, 20), Commit(10, 10, 10, 60, 10);
    match k
    case 0 => Sys(map[], map[], [], 0, 0)
    case 1 => Sys(map[], map[1 := SLOW], [], 10, 0)
    case 2 => Sys(map[], map[1 := SLOW, 2 := FAST], [], 20, 0)
    case 3 => Sys(map[TEN.key := Entry(70, 70)], map[1 := SLOW], [first], 20, 0)
    case 4 => Sys(map[], map[1 := SLOW], [first], 100, 100)
    case _ => Sys(map[TEN.key := Entry(60, 60)], map[], [first, second], 100, 100)
  }

  function DelayedEvent(k: nat): Event {
    match k
    case 0 => Reads(1, 10, false, 10)
    case 1 => Reads(2, 10, false, 20)
    case 2 => Writes(2)
    case 3 => Sweeps(100)
    case _ => Writes(1)
  }

  lemma TenFacts()
    ensures Usable(TEN.limit) && Emission(TEN.limit) == 5 && Capacity(TEN.limit) == 10
  {}

  lemma TenDecides(q: Pending)
    requires q == SLOW || q == FAST
    ensures DecideFor(TEN, q).Write? && DecideFor(TEN, q).newTat == q.now + 50 && DecideFor(TEN, q).allowAt == q.now
  {
    TenFacts();
    assert Cost(TEN.limit, 10) == 50 && Burst(TEN.limit) == 50;
  }

  lemma DelayedStep(k: nat)
    requires k < 5
    ensures Permitted(TEN, DelayedState(k), DelayedEvent(k)) && OnTime(DelayedState(k), DelayedEvent(k))
    ensures Next(TEN, DelayedState(k), DelayedEvent(k)) == DelayedState(k + 1)
  {
    TenFacts();
    TenDecides(SLOW);
    TenDecides(FAST);
    hide DecideFor;
    var s, t := DelayedState(k), DelayedState(k + 1);
    if k == 0 || k == 1 {
      assert s.pending[k + 1 := if k == 0 then SLOW else FAST] == t.pending;
    } else if k == 2 {
      assert s.pending - {2} == t.pending;
    } else if k == 3 {
      assert Swept(s.m, 100) == map[];
    } else {
      assert s.pending - {1} == t.pending;
    }
  }

  /** One clock, read in order, is not enough: the window from 10 to 20 holds twenty units, and the bound is twelve. */
  lemma DelayedSetBreaks() returns (states: seq<Sys>, events: seq<Event>)
    ensures IsHistory(TEN, states, events) && |events| == 5 && Usable(TEN.limit)
    ensures forall i {:trigger events[i]} :: 0 <= i < 5 ==> OnTime(states[i], events[i])
    ensures !Timely(TEN, states[4], events[4])
    ensures Units(states[5].commits, 10, 20) == 20 && Capacity(TEN.limit) + (20 - 10) / Emission(TEN.limit) == 12
  {
    TenFacts();
    states, events := seq(6, (k: nat) => DelayedState(k)), seq(5, (k: nat) => DelayedEvent(k));
    var cs := states[5].commits;
    assert cs[..1] == [cs[0]] && cs[..1][..0] == [];
    assert Units([cs[0]], 10, 20) == 10;
    TenDecides(SLOW);
    assert Commits(TEN, states[4], events[4]);
    hide Next, Permitted, DelayedState, DelayedEvent;
    forall k {:trigger events[k]} | 0 <= k < |events|
      ensures Permitted(TEN, states[k], events[k]) && states[k + 1] == Next(TEN, states[k], events[k])
      ensures OnTime(states[k], events[k])
    {
      DelayedStep(k);
    }
    assert states[0] == Sys(map[], map[], [], 0, 0) by { DelayedStart(); }
  }

  lemma DelayedStart()
    ensures DelayedState(0) == Sys(map[], map[], [], 0, 0)
  {}
}
