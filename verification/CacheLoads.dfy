/**
 Single-flight loads and deletions of cache/load.go and cache/cache.go, in any
 interleaving. A load registers itself for its key, runs the load function,
 publishes its value under the load's semaphore and unregisters; a deletion
 looks the key up, marks the load it finds under that semaphore, and then
 deletes from the store. Callers that only wait for a load take no step here.
 */
module CacheLoads {

  import opened Basics

  /** Registered (rechecking the store), Running (inside the load function), Loaded; then, holding the semaphore,
      Admitted (about to look at the mark), Writing, Written; then Finishing and Ended. */
  datatype Stage = Registered | Running | Loaded | Admitted | Writing | Written | Finishing | Ended

  /** Who holds a load's publish semaphore. */
  datatype Holder = Free | ByLoad | ByDelete(d: nat)

  datatype Load = Load(key: Key, stage: Stage, invalidated: bool, sem: Holder)

  /** A deletion: seen counts the loads there were at its lookup, target is the one it found. */
  datatype DeleteStage = Asked | LookedUp | Holding | Marked | Cleared | Removed | Failed
  datatype Deletion = Deletion(key: Key, seen: nat, target: Option<nat>, stage: DeleteStage)

  /** Where a stored value came from. */
  datatype Origin = FromLoad(r: nat) | FromSet

  datatype Sys = Sys(loads: seq<Load>, calls: map<Key, nat>, dels: seq<Deletion>, store: map<Key, Origin>)

  const IDLE := Sys([], map[], [], map[])

  datatype LoadAct =
    | Miss        // the recheck finds nothing and the load function starts
    | Quit        // a hit, an error, a cancellation or a panic: nothing to publish
    | Return      // the load function returns a value
    | Acquire     // publish takes the semaphore
    | Check       // publish looks at the mark
    | Store       // the store write takes effect
    | Lose        // the store write fails
    | Release     // publish gives the semaphore back
    | Unregister

  datatype DeleteAct = Lookup | Take | Mark | GiveBack | Remove | GiveUp

  datatype Event =
    | Register(key: Key)
    | Loads(r: nat, act: LoadAct)
    | StartDelete(key: Key)
    | Deletes(d: nat, step: DeleteAct)
    | SetValue(key: Key)
    | DropValue(key: Key)

  predicate CanLoad(l: Load, act: LoadAct) {
    match act
    case Miss => l.stage == Registered
    case Quit => l.stage == Registered || l.stage == Running || l.stage == Loaded
    case Return => l.stage == Running
    case Acquire => l.stage == Loaded && l.sem == Free
    case Check => l.stage == Admitted
    case Store => l.stage == Writing
    case Lose => l.stage == Writing
    case Release => l.stage == Written
    case Unregister => l.stage == Finishing
  }

  /** The deletion's target is there and its semaphore is as told. */
  predicate TargetHeld(s: Sys, d: Deletion, sem: Holder) {
    d.target.Some? && d.target.value < |s.loads| && s.loads[d.target.value].sem == sem
  }

  predicate CanDelete(s: Sys, d: nat, act: DeleteAct)
    requires d < |s.dels|
  {
    var x := s.dels[d];
    match act
    case Lookup => x.stage == Asked
    case Take => x.stage == LookedUp && TargetHeld(s, x, Free)
    case Mark => x.stage == Holding && TargetHeld(s, x, ByDelete(d))
    case GiveBack => x.stage == Marked && TargetHeld(s, x, ByDelete(d))
    case Remove => x.stage == Cleared
    case GiveUp => x.stage == Asked || x.stage == LookedUp || x.stage == Cleared
  }

  predicate Enabled(s: Sys, e: Event) {
    match e
    case Register(key) => key !in s.calls
    case Loads(r, act) => r < |s.loads| && CanLoad(s.loads[r], act)
    case StartDelete(_) => true
    case Deletes(d, act) => d < |s.dels| && CanDelete(s, d, act)
    case SetValue(_) => true
    case DropValue(_) => true
  }

  function LoadNext(l: Load, act: LoadAct): Load {
    match act
    case Miss => l.(stage := Running)
    case Quit => l.(stage := Finishing)
    case Return => l.(stage := Loaded)
    case Acquire => l.(stage := Admitted, sem := ByLoad)
    case Check => l.(stage := if l.invalidated then Written else Writing)
    case Store => l.(stage := Written)
    case Lose => l.(stage := Written)
    case Release => l.(stage := Finishing, sem := Free)
    case Unregister => l.(stage := Ended)
  }

  function Held(loads: seq<Load>, target: Option<nat>, sem: Holder, mark: bool): (r: seq<Load>)
    ensures |r| == |loads|
  {
    if target.Some? && target.value < |loads| then
      var l := loads[target.value];
      loads[target.value := l.(sem := sem, invalidated := l.invalidated || mark)]
    else loads
  }

  function DeleteNext(s: Sys, d: nat, act: DeleteAct): Sys
    requires d < |s.dels|
  {
    var x := s.dels[d];
    match act
    case Lookup =>
      var target := if x.key in s.calls then Some(s.calls[x.key]) else None;
      var stage := if target.Some? then LookedUp else Cleared;
      s.(dels := s.dels[d := x.(seen := |s.loads|, target := target, stage := stage)])
    case Take => s.(loads := Held(s.loads, x.target, ByDelete(d), false), dels := s.dels[d := x.(stage := Holding)])
    case Mark => s.(loads := Held(s.loads, x.target, ByDelete(d), true), dels := s.dels[d := x.(stage := Marked)])
    case GiveBack => s.(loads := Held(s.loads, x.target, Free, false), dels := s.dels[d := x.(stage := Cleared)])
    case Remove => s.(store := s.store - {x.key}, dels := s.dels[d := x.(stage := Removed)])
    case GiveUp => s.(dels := s.dels[d := x.(stage := Failed)])
  }

  function Next(s: Sys, e: Event): Sys
    requires Enabled(s, e)
  {
    match e
    case Register(key) =>
      s.(loads := s.loads + [Load(key, Registered, false, Free)], calls := s.calls[key := |s.loads|])
    case Loads(r, act) =>
      var l := s.loads[r];
      s.(loads := s.loads[r := LoadNext(l, act)], calls := if act == Unregister then s.calls - {l.key} else s.calls,
         store := if act == Store then s.store[l.key := FromLoad(r)] else s.store)
    case StartDelete(key) => s.(dels := s.dels + [Deletion(key, 0, None, Asked)])
    case Deletes(d, act) => DeleteNext(s, d, act)
    case SetValue(key) => s.(store := s.store[key := FromSet])
    case DropValue(key) => s.(store := s.store - {key})
  }

  predicate IsHistory(states: seq<Sys>, events: seq<Event>) {
    && |states| == |events| + 1 && states[0] == IDLE
    && forall k {:trigger events[k]} :: 0 <= k < |events|
        ==> Enabled(states[k], events[k]) && states[k + 1] == Next(states[k], events[k])
  }

  // ---- one load per key ----

  /** The semaphore is the load's exactly while it publishes. */
  predicate SemFits(l: Load) {
    l.sem == ByLoad <==> l.stage == Admitted || l.stage == Writing || l.stage == Written
  }

  /** calls holds exactly the loads that have not ended. */
  ghost predicate Flights(s: Sys) {
    && (forall r :: 0 <= r < |s.loads| ==> SemFits(s.loads[r]))
    && (forall r :: 0 <= r < |s.loads| && s.loads[r].stage != Ended ==>
                      s.loads[r].key in s.calls && s.calls[s.loads[r].key] == r)
    && (forall k :: k in s.calls ==> s.calls[k] < |s.loads| && s.loads[s.calls[k]].key == k)
  }

  lemma LoadFlights(s: Sys, r: nat, act: LoadAct)
    requires Flights(s) && r < |s.loads| && CanLoad(s.loads[r], act)
    ensures Flights(Next(s, Loads(r, act)))
  {
    var l := LoadNext(s.loads[r], act);
    assert SemFits(s.loads[r]);
    assert SemFits(l) && l.key == s.loads[r].key && s.loads[r].stage != Ended &&
           (l.stage == Ended ==> act == Unregister)
           && (act == Unregister ==> l.stage == Ended);
    hide LoadNext, SemFits, CanLoad;
  }

  /** What a deletion does to its target. */
  lemma HeldFlights(s: Sys, t: Sys, target: Option<nat>, sem: Holder, mark: bool)
    requires Flights(s) && t.calls == s.calls && t.loads == Held(s.loads, target, sem, mark) && sem != ByLoad
    requires target.Some? && target.value < |s.loads| ==> s.loads[target.value].sem != ByLoad
    ensures Flights(t)
  {}

  lemma StepFlights(s: Sys, e: Event)
    requires Flights(s) && Enabled(s, e)
    ensures Flights(Next(s, e))
  {
    match e
    case Register(key) =>
    case Loads(r, act) => LoadFlights(s, r, act);
    case StartDelete(_) =>
    case Deletes(d, act) =>
      var x, t := s.dels[d], Next(s, e);
      match act {
        case Take => HeldFlights(s, t, x.target, ByDelete(d), false);
        case Mark => HeldFlights(s, t, x.target, ByDelete(d), true);
        case GiveBack => HeldFlights(s, t, x.target, Free, false);
        case _ => assert t.loads == s.loads && t.calls == s.calls;
      }
    case SetValue(_) =>
    case DropValue(_) =>
  }

  lemma {:induction false} FlightsHold(states: seq<Sys>, events: seq<Event>, k: nat)
    requires IsHistory(states, events) && k < |states|
    ensures Flights(states[k])
  {
    if k > 0 {
      FlightsHold(states, events, k - 1);
      assert states[k] == Next(states[k - 1], events[k - 1]);
      StepFlights(states[k - 1], events[k - 1]);
    }
  }

  /** In every interleaving at most one load function runs per key; indeed at most one load is under way. */
  lemma OneLoadPerKey(states: seq<Sys>, events: seq<Event>, k: nat, a: nat, b: nat)
    requires IsHistory(states, events) && k < |states| && a < |states[k].loads| && b < |states[k].loads|
    requires states[k].loads[a].key == states[k].loads[b].key
    requires states[k].loads[a].stage != Ended && states[k].loads[b].stage != Ended
    ensures a == b
  {
    FlightsHold(states, events, k);
  }

  // ---- deletions win ----

  /** The load will not write to the store any more. */
  predicate CannotWrite(l: Load) {
    l.stage == Written || l.stage == Finishing || l.stage == Ended || (l.invalidated && l.stage != Writing)
  }

  /** The load was there when the deletion looked its key up. */
  predicate Concerns(s: Sys, x: Deletion, r: nat) {
    r < x.seen && r < |s.loads| && s.loads[r].key == x.key
  }

  /** What a deletion has achieved for each load that was there at its lookup. */
  predicate Progress(s: Sys, d: nat, r: nat)
    requires d < |s.dels| && r < |s.loads|
  {
    var x := s.dels[d];
    match x.stage
    case Asked => x.seen == 0
    case LookedUp => x.target == Some(r) || s.loads[r].stage == Ended
    case Holding => if x.target == Some(r) then s.loads[r].sem == ByDelete(d) else s.loads[r].stage == Ended
    case Marked => if x.target == Some(r) then CannotWrite(s.loads[r]) &&
        s.loads[r].sem == ByDelete(d) else s.loads[r].stage == Ended
    case Cleared => CannotWrite(s.loads[r])
    case Removed => CannotWrite(s.loads[r]) && !(x.key in s.store && s.store[x.key] == FromLoad(r))
    case Failed => true
  }

  ghost predicate Progressing(s: Sys) {
    && (forall d, r :: 0 <= d < |s.dels| && 0 <= r < |s.loads| && Concerns(s, s.dels[d], r) ==> Progress(s, d, r))
    && (forall d :: 0 <= d < |s.dels| ==> s.dels[d].seen <= |s.loads|)
  }

  lemma LoadProgress(s: Sys, r: nat, act: LoadAct, d: nat, q: nat)
    requires Flights(s) && r < |s.loads| && CanLoad(s.loads[r], act) && d < |s.dels| && q < |s.loads|
    requires Progress(s, d, q) && Concerns(s, s.dels[d], q)
    ensures Progress(Next(s, Loads(r, act)), d, q)
  {
    if q == r {
      assert SemFits(s.loads[r]);
    }
  }

  lemma DeleteProgress(s: Sys, d: nat, act: DeleteAct, q: nat)
    requires Flights(s) && d < |s.dels| && CanDelete(s, d, act) && q < |s.loads|
    requires Concerns(s, s.dels[d], q) ==> Progress(s, d, q)
    ensures Concerns(Next(s, Deletes(d, act)), Next(s, Deletes(d, act)).dels[d], q) ==>
            Progress(Next(s, Deletes(d, act)), d, q)
  {
    assert SemFits(s.loads[q]);
  }

  /** One deletion's step does not disturb another's progress. */
  lemma OtherProgress(s: Sys, d: nat, act: DeleteAct, o: nat, q: nat)
    requires d < |s.dels| && CanDelete(s, d, act) && o < |s.dels| && o != d && q < |s.loads|
    requires Concerns(s, s.dels[o], q) ==> Progress(s, o, q)
    ensures Concerns(Next(s, Deletes(d, act)), s.dels[o], q) ==> Progress(Next(s, Deletes(d, act)), o, q)
  {}

  lemma StepProgress(s: Sys, e: Event)
    requires Flights(s) && Progressing(s) && Enabled(s, e)
    ensures Progressing(Next(s, e))
  {
    hide Flights;
    var t := Next(s, e);
    forall d, q | 0 <= d < |t.dels| && 0 <= q < |t.loads| && Concerns(t, t.dels[d], q)
      ensures Progress(t, d, q)
    {
      match e
      case Register(key) => assert t.dels == s.dels && q < |s.loads| && Concerns(s, s.dels[d], q);
      case Loads(r, act) =>
        assert Concerns(s, s.dels[d], q);
        LoadProgress(s, r, act, d, q);
      case StartDelete(_) => if d < |s.dels| { assert Concerns(s, s.dels[d], q); }
      case Deletes(o, act) =>
        if o == d { DeleteProgress(s, d, act, q); } else { OtherProgress(s, o, act, d, q); }
      case SetValue(_) => assert Concerns(s, s.dels[d], q);
      case DropValue(_) => assert Concerns(s, s.dels[d], q);
    }
  }

  lemma {:induction false} ProgressHolds(states: seq<Sys>, events: seq<Event>, k: nat)
    requires IsHistory(states, events) && k < |states|
    ensures Progressing(states[k])
  {
    if k > 0 {
      ProgressHolds(states, events, k - 1);
      FlightsHold(states, events, k - 1);
      assert states[k] == Next(states[k - 1], events[k - 1]);
      StepProgress(states[k - 1], events[k - 1]);
    }
  }

  /** Once a deletion has returned without error, in that state and in every later one: no load that was there when it
      looked the key up has its value in the store or can still put it there, however far its publish had come. */
  lemma DeletionWins(states: seq<Sys>, events: seq<Event>, i: nat, k: nat, d: nat, r: nat)
    requires IsHistory(states, events) && i <= k < |states| && d < |states[i].dels| &&
             states[i].dels[d].stage == Removed
    requires Concerns(states[i], states[i].dels[d], r)
    ensures var key := states[i].dels[d].key;
            && !(key in states[k].store && states[k].store[key] == FromLoad(r))
            && r < |states[k].loads| && CannotWrite(states[k].loads[r])
  {
    RemovedStays(states, events, i, k, d, r);
    ProgressHolds(states, events, k);
    assert Concerns(states[k], states[k].dels[d], r);
    assert Progress(states[k], d, r);
  }

  lemma {:induction false} RemovedStays(states: seq<Sys>, events: seq<Event>, i: nat, k: nat, d: nat, r: nat)
    requires IsHistory(states, events) && i <= k < |states| && d < |states[i].dels| &&
             states[i].dels[d].stage == Removed
    requires r < |states[i].loads|
    ensures d < |states[k].dels| && states[k].dels[d] == states[i].dels[d]
    ensures r < |states[k].loads| && states[k].loads[r].key == states[i].loads[r].key
  {
    if i < k {
      RemovedStays(states, events, i, k - 1, d, r);
      assert states[k] == Next(states[k - 1], events[k - 1]);
    }
  }

  /** And such a load cannot write: no step of it stores a value. */
  lemma CannotWriteMeans(s: Sys, r: nat)
    requires r < |s.loads| && CannotWrite(s.loads[r])
    ensures !Enabled(s, Loads(r, Store))
    ensures forall act :: Enabled(s, Loads(r, act)) ==> CannotWrite(Next(s, Loads(r, act)).loads[r])
  {}
}
