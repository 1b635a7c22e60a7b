/**
 The vendoring commit of assets/vendor.go and assets/vendor_transaction.go:
 immutable artifacts are published first, then a journal, the lock and the
 importmap, then the journal is removed; recovery rolls a journal forward, and
 pruning deletes artifacts that the importmap does not name. A power loss can
 hit between any two file operations, and any operation can fail or leave its
 durability unknown (assets/atomic.go). Syncing a directory settles every file in
 it, so a confirmed write can settle others.
 */
module VendorJournal {
  import opened Basics

  /** A file: what a reader sees now, and what it may turn out to be after a power loss. */
  datatype File<V> = File(visible: V, possible: set<V>)

  function Settled<V>(v: V): File<V> { File(v, {v}) }

  /** atomicWriteFile: it fails before the rename, succeeds with the directory synced, or renames without a sync. */
  datatype Outcome = Fails | Syncs | Unconfirmed

  function Write<V>(f: File<V>, v: V, o: Outcome): File<V> {
    match o
    case Fails => f
    case Syncs => Settled(v)
    case Unconfirmed => File(v, f.possible + {v})
  }

  datatype Spec = Spec(name: string)

  /** A directory: below the vendor directory, or outside it. */
  datatype Dir = Inside(names: seq<string>) | Outside(name: string)

  /** The directory that holds the vendor directory. */
  const PARENT := Outside("")

  /** A file below the vendor directory. */
  datatype Path = Path(dir: seq<string>, name: string)

  /** The directories of the metadata, which lie outside the vendor directory. The journal is beside the importmap. */
  datatype Places = Places(importmap: string, lock: string)

  datatype Artifact = Artifact(path: Path, content: seq<bv8>)

  /** What the lock and the importmap of one transaction name. */
  type Tx = map<Spec, Artifact>
  type Content = Option<seq<bv8>>

  /** Where the program stands. Staging(tx, staged, k): k artifacts of tx are published. */
  datatype Pc =
    | Idle
    | Staging(tx: Tx, staged: seq<Artifact>, k: nat)
    | Logging(tx: Tx)
    | Locking(tx: Tx)
    | Mapping(tx: Tx)
    | Removing(tx: Tx)
    | PruningLock
    | Deleting(keep: set<Path>)

  /** mem is the importmap in memory; base is the transaction committed last. */
  datatype Sys = Sys(journal: File<Option<Tx>>, lock: File<Tx>, importmap: File<Tx>, arts: map<Path, File<Content>>,
                     mem: Tx, base: Tx, pc: Pc, where: Places)

  function Art(s: Sys, p: Path): File<Content> { if p in s.arts then s.arts[p] else Settled(None) }

  /** The artifact is on disk with its bytes and stays there. */
  predicate Durable(s: Sys, a: Artifact) { Art(s, a.path) == Settled(Some(a.content)) }

  predicate Visible(s: Sys, a: Artifact) { Art(s, a.path).visible == Some(a.content) }

  predicate AllDurable(s: Sys, tx: Tx) { forall k | k in tx :: Durable(s, tx[k]) }

  function PathsOf(tx: Tx): set<Path> { set k | k in tx :: tx[k].path }

  // ---- directories ----

  function SettledIf<V>(f: File<V>, yes: bool): File<V> { if yes then Settled(f.visible) else f }

  /** The files of these directories stay as they are visible. */
  function Synced(s: Sys, dirs: set<Dir>): Sys {
    s.(journal := SettledIf(s.journal, Outside(s.where.importmap) in dirs),
       importmap := SettledIf(s.importmap, Outside(s.where.importmap) in dirs),
       lock := SettledIf(s.lock, Outside(s.where.lock) in dirs),
       arts := map p | p in s.arts :: SettledIf(s.arts[p], Inside(p.dir) in dirs))
  }

  /** syncAncestorDirectories: a file's directory, those above it, the vendor directory and its parent. */
  function Up(p: Path): set<Dir> {
    {PARENT} + set k | 0 <= k <= |p.dir| :: Inside(p.dir[..k])
  }

  lemma UpHas(p: Path, q: Path)
    ensures Inside(q.dir) in Up(p) <==> q.dir <= p.dir
  {
    if q.dir <= p.dir { assert p.dir[..|q.dir|] == q.dir; }
  }

  /** A write whose outcome is known to be durable settles the directories that were synced. */
  function Done(s: Sys, o: Outcome, dirs: set<Dir>): Sys { if o == Syncs then Synced(s, dirs) else s }

  /** Syncing changes nothing that is visible, and what was durable stays so. */
  lemma SyncedSame(s: Sys, dirs: set<Dir>)
    ensures var t := Synced(s, dirs);
            && (forall p :: Art(t, p).visible == Art(s, p).visible)
            && (forall p: Path :: Inside(p.dir) in dirs ==> Art(t, p) == Settled(Art(s, p).visible))
            && (forall p: Path :: Inside(p.dir) !in dirs ==> Art(t, p) == Art(s, p))
            && (forall a: Artifact :: Durable(s, a) ==> Durable(t, a))
            && (forall a: Artifact :: Visible(t, a) <==> Visible(s, a))
            && (forall tx: Tx :: AllDurable(s, tx) ==> AllDurable(t, tx))
  {}

  datatype Event =
    | Publish(tx: Tx, staged: seq<Artifact>)
    | Stage(outcome: Outcome)
    | Log(outcome: Outcome)
    | Lock(outcome: Outcome)
    | Map(outcome: Outcome)
    | Remove(outcome: Outcome)
    | Recover
    | Prune
    | PruneLock(outcome: Outcome)
    | DeleteFile(path: Path)
    | Stop
    | Flush(dirs: set<Dir>)
    | PowerLoss(journal: Option<Tx>, lock: Tx, importmap: Tx, arts: map<Path, Content>)

  ghost predicate Enabled(s: Sys, e: Event) {
    match e
    case Publish(tx, staged) =>
      s.pc == Idle && s.journal.visible.None? && (forall a :: a in staged <==> exists k :: k in tx && tx[k] == a)
    case Stage(_) => s.pc.Staging?
    case Log(_) => s.pc.Logging?
    case Lock(_) => s.pc.Locking?
    case Map(_) => s.pc.Mapping?
    case Remove(_) => s.pc.Removing?
    case Recover =>
      && s.pc == Idle && s.journal.visible.Some?
      && forall k :: k in s.journal.visible.value ==> Visible(s, s.journal.visible.value[k])
    case Prune => s.pc == Idle && s.journal.visible.None?
    case PruneLock(_) => s.pc == PruningLock
    case DeleteFile(p) => s.pc.Deleting? && p !in s.pc.keep && Art(s, p).visible.Some?
    case Stop => true
    case Flush(_) => true
    case PowerLoss(j, l, i, arts) =>
      && j in s.journal.possible && l in s.lock.possible && i in s.importmap.possible
      && arts.Keys == s.arts.Keys && forall p :: p in arts ==> arts[p] in s.arts[p].possible
  }

  function After(o: Outcome, pc: Pc): Pc { if o == Syncs then pc else Idle }

  /** publishSnapshot on its next artifact: reuse equal bytes, refuse different ones, write if absent. */
  function Stages(s: Sys, o: Outcome): Sys
    requires s.pc.Staging?
  {
    var pc := s.pc;
    if pc.k >= |pc.staged| then s.(pc := Logging(pc.tx))
    else
      var a := pc.staged[pc.k];
      var f := Art(s, a.path);
      if f.visible == Some(a.content) then s.(pc := pc.(k := pc.k + 1))
      else if f.visible.Some? then s.(pc := Idle)
      else
        var t := s.(arts := s.arts[a.path := Write(f, Some(a.content), o)], pc := After(o, pc.(k := pc.k + 1)));
        Done(t, o, Up(a.path))
  }

  /** pruneLock: the lock keeps the packages the importmap in memory knows; an unchanged lock is not written. */
  function PrunesLock(s: Sys, o: Outcome): Sys {
    var kept := map k | k in s.lock.visible && k in s.mem :: s.lock.visible[k];
    var next := Deleting(PathsOf(s.mem));
    if kept == s.lock.visible then s.(pc := next)
    else Done(s.(lock := Write(s.lock, kept, o), pc := After(o, next)), o, {Outside(s.where.lock)})
  }

  /** The write of a metadata step, before its directory is synced. */
  function Written(s: Sys, e: Event): Sys
    requires Enabled(s, e) && (e.Log? || e.Lock? || e.Map? || e.Remove?)
  {
    var o := e.outcome;
    match e
    case Log(_) => s.(journal := Write(s.journal, Some(s.pc.tx), o), pc := After(o, Locking(s.pc.tx)))
    case Lock(_) => s.(lock := Write(s.lock, s.pc.tx, o), pc := After(o, Mapping(s.pc.tx)))
    case Map(_) =>
      s.(importmap := Write(s.importmap, s.pc.tx, o), mem := if o == Syncs then s.pc.tx else s.mem,
         pc := After(o, Removing(s.pc.tx)))
    case Remove(_) =>
      s.(journal := Write(s.journal, None, o), base := if o == Fails then s.base else s.pc.tx, pc := Idle)
  }

  /** Flush: directories reach the disk without the program asking. */
  function Next(s: Sys, e: Event): Sys
    requires Enabled(s, e)
  {
    match e
    case Publish(tx, staged) => s.(pc := Staging(tx, staged, 0))
    case Stage(o) => Stages(s, o)
    case Log(o) => Done(Written(s, e), o, {Outside(s.where.importmap)})
    case Lock(o) => Done(Written(s, e), o, {Outside(s.where.lock)})
    case Map(o) => Done(Written(s, e), o, {Outside(s.where.importmap)})
    case Remove(o) => Done(Written(s, e), o, {Outside(s.where.importmap)})
    case Recover => s.(pc := Locking(s.journal.visible.value))
    case Prune => s.(pc := PruningLock)
    case PruneLock(o) => PrunesLock(s, o)
    case DeleteFile(p) => s.(arts := s.arts[p := File(None, Art(s, p).possible + {None})])
    case Stop => s.(pc := Idle)
    case Flush(dirs) => Synced(s, dirs)
    case PowerLoss(j, l, i, arts) =>
      s.(journal := Settled(j), lock := Settled(l), importmap := Settled(i),
         arts := map p | p in arts :: Settled(arts[p]), mem := i, pc := Idle)
  }

  /** An artifact still to be staged meets different bytes: on disk, or in another one for the same path. Publishing
      will be refused when it comes to it. */
  predicate Doomed(s: Sys, staged: seq<Artifact>, k: nat) {
    || (exists i :: k <= i < |staged| && Art(s, staged[i].path).visible.Some? && !Visible(s, staged[i]))
    || (exists i, j :: k <= i < j < |staged| && staged[i].path == staged[j].path && staged[i] != staged[j])
  }

  /** An artifact still to be staged is absent, and writing it will sync the directory of p. */
  predicate Awaits(s: Sys, staged: seq<Artifact>, k: nat, p: Path) {
    exists j :: k <= j < |staged| && Art(s, staged[j].path).visible.None? && p.dir <= staged[j].path.dir
  }

  /** What the program builds on is known to be durable: a journal that it rolls forward, unless the journal says what
      the lock says already, and an artifact that it reuses, unless publishing will be refused anyway or will sync the
      artifact's directory before it logs the transaction. */
  predicate Confirmed(s: Sys, e: Event) {
    match e
    case Recover => s.journal == Settled(s.journal.visible) || s.journal.visible == Some(s.lock.visible)
    case Stage(_) =>
      s.pc.Staging? && s.pc.k < |s.pc.staged| && Visible(s, s.pc.staged[s.pc.k]) ==>
        || Durable(s, s.pc.staged[s.pc.k]) || Doomed(s, s.pc.staged, s.pc.k)
        || Awaits(s, s.pc.staged, s.pc.k, s.pc.staged[s.pc.k].path)
    case _ => true
  }

  function Start(where: Places): Sys {
    Sys(Settled(None), Settled(map[]), Settled(map[]), map[], map[], map[], Idle, where)
  }

  ghost predicate IsHistory(states: seq<Sys>, events: seq<Event>) {
    && |states| == |events| + 1 && states[0] == Start(states[0].where)
    && forall k {:trigger events[k]} :: 0 <= k < |events|
        ==> Enabled(states[k], events[k]) && states[k + 1] == Next(states[k], events[k])
  }

  // ---- what holds at every point ----

  /** No journal: lock, importmap and memory are the last transaction's, for good, and so are its artifacts. */
  predicate Committed(s: Sys) {
    && s.journal.visible == None && None in s.journal.possible && s.journal.possible <= {None, Some(s.base)}
    && s.lock == Settled(s.base) && s.importmap == Settled(s.base) && s.mem == s.base && AllDurable(s, s.base)
  }

  /** A journal that is durable: everything it names is there; lock and importmap are the last transaction's or its
      own. */
  predicate Pending(s: Sys, tx: Tx) {
    && s.journal == Settled(Some(tx)) && AllDurable(s, tx)
    && s.lock.possible <= {s.base, tx} && s.importmap.possible <= {s.base, tx}
    && s.lock.visible in {s.base, tx} && s.importmap.visible in {s.base, tx}
  }

  /** A journal whose write was not confirmed, so that a power loss can make it vanish: nothing else has moved. */
  predicate Doubtful(s: Sys, tx: Tx) {
    && s.journal.visible == Some(tx) && None in s.journal.possible
    && s.journal.possible <= {None, Some(s.base), Some(tx)}
    && s.lock == Settled(s.base) && s.importmap == Settled(s.base) && AllDurable(s, s.base) && AllDurable(s, tx)
  }

  /** Rolling forward a journal that is durable, or one that changes nothing. */
  predicate Rolling(s: Sys, tx: Tx) {
    Pending(s, tx) || (Doubtful(s, tx) && tx == s.base)
  }

  /** Wherever the program stands, the disk is in one of three conditions. */
  ghost predicate Ordered(s: Sys) {
    if s.journal.visible.None? then Committed(s)
    else Pending(s, s.journal.visible.value) || Doubtful(s, s.journal.visible.value)
  }

  /** The artifact is durable, or will be before the staging ends. */
  predicate WillLast(s: Sys, staged: seq<Artifact>, k: nat, a: Artifact) {
    Durable(s, a) || (Visible(s, a) && Awaits(s, staged, k, a.path))
  }

  ghost predicate Sound(s: Sys) {
    match s.pc
    case Idle => Ordered(s)
    case Staging(tx, staged, k) =>
      && Committed(s) && k <= |staged| && (forall a :: a in staged <==> exists x :: x in tx && tx[x] == a)
      && ((forall i :: 0 <= i < k ==> WillLast(s, staged, k, staged[i])) || Doomed(s, staged, k))
    case Logging(tx) => Committed(s) && AllDurable(s, tx)
    case Locking(tx) => Rolling(s, tx)
    case Mapping(tx) => Rolling(s, tx) && s.lock == Settled(tx)
    case Removing(tx) => Rolling(s, tx) && s.lock == Settled(tx) && s.importmap == Settled(tx) && s.mem == tx
    case PruningLock => Committed(s)
    case Deleting(keep) => Committed(s) && keep == PathsOf(s.base)
  }

  /** What staging the next artifact does to the files. */
  lemma StagesArts(s: Sys, o: Outcome)
    requires s.pc.Staging? && s.pc.k < |s.pc.staged| && Stages(s, o).pc.Staging?
    ensures var t, a := Stages(s, o), s.pc.staged[s.pc.k];
            && Visible(t, a) && (forall p :: p != a.path ==> Art(t, p).visible == Art(s, p).visible)
            && (Visible(s, a) ==> t == s.(pc := s.pc.(k := s.pc.k + 1)))
            && (!Visible(s, a) ==> Art(s, a.path).visible.None? && o == Syncs && Durable(t, a))
            && (!Visible(s, a) ==> forall p :: p != a.path && p.dir <= a.path.dir ==>
                                                 Art(t, p) == Settled(Art(s, p).visible))
            && (forall p :: p != a.path && !(p.dir <= a.path.dir) ==> Art(t, p) == Art(s, p))
            && (forall b: Artifact :: Durable(s, b) ==> Durable(t, b))
  {
    var a := s.pc.staged[s.pc.k];
    if !Visible(s, a) {
      var w := s.(arts := s.arts[a.path := Settled(Some(a.content))], pc := s.pc.(k := s.pc.k + 1));
      SyncedSame(w, Up(a.path));
      forall p: Path { UpHas(a.path, p); }
      hide Synced, Up;
    }
  }

  /** A doomed publication stays doomed until it is refused. */
  lemma DoomedStays(s: Sys, o: Outcome)
    requires s.pc.Staging? && Doomed(s, s.pc.staged, s.pc.k)
    ensures var t := Stages(s, o);
            t.pc == Idle || (t.pc.Staging? && t.pc.staged == s.pc.staged && Doomed(t, t.pc.staged, t.pc.k))
  {
    var t, pc := Stages(s, o), s.pc;
    var a := pc.staged[pc.k];
    if t.pc.Staging? {
      StagesArts(s, o);
      assert t.pc.staged == pc.staged && t.pc.k == pc.k + 1;
      hide Stages;
      if i :| pc.k <= i < |pc.staged| && Art(s, pc.staged[i].path).visible.Some? && !Visible(s, pc.staged[i]) {
        assert i != pc.k && Art(t, pc.staged[i].path).visible.Some? && !Visible(t, pc.staged[i]);
      } else {
        var i, j :| pc.k <= i < j < |pc.staged| && pc.staged[i].path == pc.staged[j].path &&
                    pc.staged[i] != pc.staged[j];
        if i == pc.k { assert !Visible(t, pc.staged[j]) && Art(t, pc.staged[j].path).visible.Some?; }
      }
    }
  }

  /** What will last still will after one more artifact is staged, and so will that one. */
  lemma StagesLast(s: Sys, o: Outcome, b: Artifact)
    requires s.pc.Staging? && s.pc.k < |s.pc.staged| && Stages(s, o).pc.Staging?
    requires WillLast(s, s.pc.staged, s.pc.k, b) || (b == s.pc.staged[s.pc.k] && !Visible(s, b))
    ensures WillLast(Stages(s, o), s.pc.staged, s.pc.k + 1, b)
  {
    var t, a, staged, k := Stages(s, o), s.pc.staged[s.pc.k], s.pc.staged, s.pc.k;
    StagesArts(s, o);
    hide Stages;
    if !Durable(t, b) {
      var j :| k <= j < |staged| && Art(s, staged[j].path).visible.None? && b.path.dir <= staged[j].path.dir;
      if Visible(s, a) {
        assert j != k;
      } else {
        assert b.path != a.path && !(b.path.dir <= a.path.dir);
        assert staged[j].path != a.path && j != k;
        assert Art(t, staged[j].path).visible.None?;
      }
    }
  }

  lemma StagesSound(s: Sys, o: Outcome)
    requires Sound(s) && s.pc.Staging? && Confirmed(s, Stage(o))
    ensures Sound(Stages(s, o))
  {
    var t, pc := Stages(s, o), s.pc;
    if pc.k >= |pc.staged| {
      assert !Doomed(s, pc.staged, pc.k);
      forall x | x in pc.tx
        ensures Durable(s, pc.tx[x])
      {
        assert pc.tx[x] in pc.staged;
        var i :| 0 <= i < |pc.staged| && pc.staged[i] == pc.tx[x];
        assert WillLast(s, pc.staged, pc.k, pc.staged[i]);
      }
    } else {
      StagesCommitted(s, o);
      if t.pc.Staging? { StagingSound(s, o); }
    }
  }

  lemma StagingSound(s: Sys, o: Outcome)
    requires Sound(s) && s.pc.Staging? && s.pc.k < |s.pc.staged| && Confirmed(s, Stage(o))
    requires Stages(s, o).pc.Staging? && Committed(Stages(s, o))
    ensures Sound(Stages(s, o))
  {
    var t, pc := Stages(s, o), s.pc;
    assert t.pc == pc.(k := pc.k + 1);
    if Doomed(s, pc.staged, pc.k) {
      DoomedStays(s, o);
    } else {
      hide Stages, Doomed, Committed, Awaits;
      forall i | 0 <= i < pc.k + 1
        ensures WillLast(t, pc.staged, pc.k + 1, pc.staged[i])
      {
        assert i < pc.k ==> WillLast(s, pc.staged, pc.k, pc.staged[i]);
        StagesLast(s, o, pc.staged[i]);
      }
    }
  }

  /** Staging an artifact leaves the committed state alone. */
  lemma StagesCommitted(s: Sys, o: Outcome)
    requires s.pc.Staging? && s.pc.k < |s.pc.staged| && Committed(s)
    ensures Committed(Stages(s, o)) && (Stages(s, o).pc == Idle || Stages(s, o).pc == s.pc.(k := s.pc.k + 1))
  {
    var a := s.pc.staged[s.pc.k];
    var f := Art(s, a.path);
    if f.visible.None? {
      var t := s.(arts := s.arts[a.path := Write(f, Some(a.content), o)], pc := After(o, s.pc.(k := s.pc.k + 1)));
      assert forall b: Artifact :: Durable(s, b) ==> Durable(t, b);
      assert Committed(t);
      SyncedSame(t, Up(a.path));
      hide AllDurable, Up;
    }
  }

  lemma DeleteSound(s: Sys, p: Path)
    requires Sound(s) && s.pc.Deleting? && p !in s.pc.keep
    ensures Sound(s.(arts := s.arts[p := File(None, Art(s, p).possible + {None})]))
  {
    var t := s.(arts := s.arts[p := File(None, Art(s, p).possible + {None})]);
    forall x | x in s.base
      ensures Durable(t, s.base[x])
    {
      assert s.base[x].path in PathsOf(s.base);
    }
  }

  lemma PruneLockSound(s: Sys, o: Outcome)
    requires Sound(s) && s.pc == PruningLock
    ensures Sound(PrunesLock(s, o)) && PrunesLock(s, o).lock == s.lock
  {
    assert (map k | k in s.lock.visible && k in s.mem :: s.lock.visible[k]) == s.lock.visible;
  }

  lemma LossKeepsDurable(s: Sys, e: Event, tx: Tx)
    requires Enabled(s, e) && e.PowerLoss? && AllDurable(s, tx)
    ensures AllDurable(Next(s, e), tx)
  {
    forall k | k in tx
      ensures Durable(Next(s, e), tx[k])
    {
      assert Durable(s, tx[k]) && tx[k].path in s.arts;
      assert e.arts[tx[k].path] in s.arts[tx[k].path].possible;
    }
  }

  lemma SoundOrdered(s: Sys)
    requires Sound(s)
    ensures Ordered(s)
  {
    hide AllDurable, Doomed, PathsOf;
  }

  /** What a power loss can leave. */
  lemma PowerLossSound(s: Sys, e: Event)
    requires Sound(s) && Enabled(s, e) && e.PowerLoss?
    ensures Sound(Next(s, e))
  {
    SoundOrdered(s);
    hide Sound;
    LossOrdered(s, e);
    assert Sound(Next(s, e)) by { IdleSound(Next(s, e)); }
  }

  lemma IdleSound(s: Sys)
    requires s.pc == Idle && Ordered(s)
    ensures Sound(s)
  {}

  lemma LossOrdered(s: Sys, e: Event)
    requires Ordered(s) && Enabled(s, e) && e.PowerLoss?
    ensures Ordered(Next(s, e))
  {
    if s.journal.visible.None? {
      LossKeepsDurable(s, e, s.base);
    } else {
      var tx := s.journal.visible.value;
      if AllDurable(s, s.base) { LossKeepsDurable(s, e, s.base); }
      LossKeepsDurable(s, e, tx);
    }
    hide AllDurable;
  }

  /** Whatever directories are synced, the disk stays in one of the three conditions. */
  lemma SyncSound(s: Sys, dirs: set<Dir>)
    requires Sound(s)
    ensures Sound(Synced(s, dirs))
  {
    SyncOrdered(s, dirs);
    if s.pc.Staging? {
      SyncStaging(s, dirs, s.pc.staged, s.pc.k);
    } else if s.pc.Logging? {
      SyncedSame(s, dirs);
    }
    hide AllDurable, PathsOf, Committed, Pending, Rolling, Doomed, WillLast;
  }

  lemma SyncStaging(s: Sys, dirs: set<Dir>, staged: seq<Artifact>, k: nat)
    ensures Doomed(s, staged, k) ==> Doomed(Synced(s, dirs), staged, k)
    ensures forall a: Artifact :: WillLast(s, staged, k, a) ==> WillLast(Synced(s, dirs), staged, k, a)
  {
    SyncedSame(s, dirs);
    hide Synced, AllDurable;
    if Doomed(s, staged, k) {
      if i :| k <= i < |staged| && Art(s, staged[i].path).visible.Some? && !Visible(s, staged[i]) {
        assert Art(Synced(s, dirs), staged[i].path).visible.Some? && !Visible(Synced(s, dirs), staged[i]);
      }
    }
    forall a: Artifact | WillLast(s, staged, k, a) && !Durable(s, a)
      ensures Awaits(Synced(s, dirs), staged, k, a.path)
    {
      var j :| k <= j < |staged| && Art(s, staged[j].path).visible.None? && a.path.dir <= staged[j].path.dir;
      assert Art(Synced(s, dirs), staged[j].path).visible.None?;
    }
  }

  lemma SyncOrdered(s: Sys, dirs: set<Dir>)
    ensures Committed(s) ==> Committed(Synced(s, dirs))
    ensures forall tx :: Pending(s, tx) ==> Pending(Synced(s, dirs), tx)
    ensures forall tx :: Rolling(s, tx) ==> Rolling(Synced(s, dirs), tx)
    ensures Ordered(s) ==> Ordered(Synced(s, dirs))
  {
    SyncedSame(s, dirs);
    hide AllDurable, Art;
  }

  lemma StopSound(s: Sys)
    requires Sound(s)
    ensures Sound(s.(pc := Idle))
  {}

  lemma WrittenSound(s: Sys, e: Event)
    requires Sound(s) && Enabled(s, e) && (e.Log? || e.Lock? || e.Map? || e.Remove?)
    ensures Sound(Written(s, e))
  {
    var t := Written(s, e);
    assert forall tx: Tx :: AllDurable(t, tx) <==> AllDurable(s, tx) by { SameArts(s, t); }
    assert forall v: Tx :: {v} + {v} == {v};
    hide AllDurable, Doomed, WillLast;
    match e
    case Log(o) =>
    case Lock(o) =>
    case Map(o) =>
    case Remove(o) =>
  }

  lemma SameArts(s: Sys, t: Sys)
    requires t.arts == s.arts
    ensures forall tx: Tx :: AllDurable(t, tx) <==> AllDurable(s, tx)
  {
    assert forall a: Artifact :: Durable(t, a) <==> Durable(s, a);
  }

  lemma WriteSound(s: Sys, e: Event)
    requires Sound(s) && Enabled(s, e) && (e.Log? || e.Lock? || e.Map? || e.Remove?)
    ensures Sound(Next(s, e))
  {
    var t := Written(s, e);
    WrittenSound(s, e);
    hide Sound, Written, Synced;
    SyncSound(t, {Outside(s.where.importmap)});
    SyncSound(t, {Outside(s.where.lock)});
  }

  lemma StepSound(s: Sys, e: Event)
    requires Sound(s) && Enabled(s, e) && Confirmed(s, e)
    ensures Sound(Next(s, e))
  {
    match e
    case Publish(_, _) =>
    case Stage(o) => StagesSound(s, o);
    case Log(_) => WriteSound(s, e);
    case Lock(_) => WriteSound(s, e);
    case Map(_) => WriteSound(s, e);
    case Remove(_) => WriteSound(s, e);
    case Recover =>
    case Prune =>
    case PruneLock(o) => PruneLockSound(s, o);
    case DeleteFile(p) => DeleteSound(s, p);
    case Stop => StopSound(s);
    case Flush(dirs) => SyncSound(s, dirs);
    case PowerLoss(_, _, _, _) => PowerLossSound(s, e);
  }

  lemma {:induction false} AlwaysSound(states: seq<Sys>, events: seq<Event>, k: nat)
    requires IsHistory(states, events) && k < |states|
    requires forall i {:trigger events[i]} :: 0 <= i < k ==> Confirmed(states[i], events[i])
    ensures Sound(states[k])
  {
    if k > 0 {
      AlwaysSound(states, events, k - 1);
      assert states[k] == Next(states[k - 1], events[k - 1]);
      StepSound(states[k - 1], events[k - 1]);
    }
  }

  /** Whenever no journal is on disk: lock and importmap come from one transaction and every artifact they name is
      there with its bytes. */
  ghost predicate Consistent(s: Sys) {
    s.journal.visible.None? ==>
      s.lock.visible == s.importmap.visible && forall k :: k in s.lock.visible ==> Visible(s, s.lock.visible[k])
  }

  lemma AlwaysConsistent(states: seq<Sys>, events: seq<Event>, k: nat)
    requires IsHistory(states, events) && k < |states|
    requires forall i {:trigger events[i]} :: 0 <= i < k ==> Confirmed(states[i], events[i])
    ensures Consistent(states[k])
  {
    AlwaysSound(states, events, k);
  }

  /** Once a journal is durable it stays until lock and importmap are its own. */
  lemma JournalStep(s: Sys, e: Event, tx: Tx)
    requires Sound(s) && Enabled(s, e) && Confirmed(s, e) && s.journal == Settled(Some(tx))
    ensures Next(s, e).journal == Settled(Some(tx)) || (Committed(Next(s, e)) && Next(s, e).base == tx)
  {
    StepSound(s, e);
  }

  ghost predicate ReachedAt(states: seq<Sys>, i: nat, k: nat, tx: Tx)
    requires k < |states|
  {
    exists e: nat :: i < e <= k && Reached(states, i, e, tx)
  }

  /** The journal was on disk up to state e, and there its transaction is committed. */
  ghost predicate Reached(states: seq<Sys>, i: nat, e: nat, tx: Tx)
    requires i < e < |states|
  {
    && (forall m: nat {:trigger states[m]} :: i <= m < e ==> states[m].journal == Settled(Some(tx)))
    && Committed(states[e]) && states[e].base == tx
  }

  /** From a durable journal on, through crashes, failures and recoveries: the journal is still there, or the first
      state without it has exactly its lock, its importmap and its artifacts. */
  lemma {:induction false} RollsForward(states: seq<Sys>, events: seq<Event>, i: nat, k: nat, tx: Tx)
    requires IsHistory(states, events) && i <= k < |states| && states[i].journal == Settled(Some(tx))
    requires forall m {:trigger events[m]} :: 0 <= m < k ==> Confirmed(states[m], events[m])
    ensures (forall m: nat {:trigger states[m]} :: i <= m <= k ==> states[m].journal == Settled(Some(tx))) ||
            ReachedAt(states, i, k, tx)
  {
    if i < k {
      RollsForward(states, events, i, k - 1, tx);
      if ReachedAt(states, i, k - 1, tx) {
        var e: nat :| i < e <= k - 1 && Reached(states, i, e, tx);
        assert ReachedAt(states, i, k, tx);
      } else {
        assert states[k - 1].journal == Settled(Some(tx));
        AlwaysSound(states, events, k - 1);
        assert states[k] == Next(states[k - 1], events[k - 1]) && Confirmed(states[k - 1], events[k - 1]);
        JournalStep(states[k - 1], events[k - 1], tx);
        if states[k].journal != Settled(Some(tx)) { assert Reached(states, i, k, tx); }
      }
    }
  }

  // ---- why durability must be confirmed ----

  predicate FileFormed<V>(f: File<V>) { f.visible in f.possible }

  /** What a reader sees is one of the things a power loss can leave. */
  ghost predicate Formed(s: Sys) {
    FileFormed(s.journal) && FileFormed(s.lock) && FileFormed(s.importmap) && forall p :: p in s.arts ==>
        FileFormed(s.arts[p])
  }

  lemma {:induction false} AlwaysFormed(states: seq<Sys>, events: seq<Event>, k: nat)
    requires IsHistory(states, events) && k < |states|
    ensures Formed(states[k])
  {
    if k > 0 {
      AlwaysFormed(states, events, k - 1);
      assert states[k] == Next(states[k - 1], events[k - 1]);
      StepFormed(states[k - 1], events[k - 1]);
    }
  }

  lemma StepFormed(s: Sys, e: Event)
    requires Formed(s) && Enabled(s, e)
    ensures Formed(Next(s, e))
  {
    match e
    case Stage(o) => StageFormed(s, o);
    case Log(_) => WriteFormed(s, e);
    case Lock(_) => WriteFormed(s, e);
    case Map(_) => WriteFormed(s, e);
    case Remove(_) => WriteFormed(s, e);
    case PruneLock(o) =>
      var kept := map k | k in s.lock.visible && k in s.mem :: s.lock.visible[k];
      SyncFormed(s.(lock := Write(s.lock, kept, o), pc := After(o, Deleting(PathsOf(s.mem)))), {Outside(s.where.lock)});
      hide Synced, PathsOf;
    case Flush(dirs) => SyncFormed(s, dirs);
    case _ =>
  }

  lemma SyncFormed(s: Sys, dirs: set<Dir>)
    requires Formed(s)
    ensures Formed(Synced(s, dirs))
  {}

  lemma WriteFormed(s: Sys, e: Event)
    requires Formed(s) && Enabled(s, e) && (e.Log? || e.Lock? || e.Map? || e.Remove?)
    ensures Formed(Next(s, e))
  {
    assert Formed(Written(s, e));
    hide Written, Synced;
    SyncFormed(Written(s, e), {Outside(s.where.importmap)});
    SyncFormed(Written(s, e), {Outside(s.where.lock)});
  }

  lemma StageFormed(s: Sys, o: Outcome)
    requires Formed(s) && s.pc.Staging?
    ensures Formed(Stages(s, o))
  {
    if s.pc.k < |s.pc.staged| {
      var a, pc := s.pc.staged[s.pc.k], s.pc;
      var written := Write(Art(s, a.path), Some(a.content), o);
      var w := s.(arts := s.arts[a.path := written], pc := After(o, pc.(k := pc.k + 1)));
      assert Formed(w);
      SyncFormed(w, Up(a.path));
      hide Synced, Up;
    }
  }

  /** The power loss that picks these values for the metadata and value for every lost artifact, and leaves the others
      as they are visible. */
  function LossOf(s: Sys, j: Option<Tx>, l: Tx, i: Tx, lost: set<Path>, value: Content): Event {
    PowerLoss(j, l, i, map p | p in s.arts :: if p in lost then value else s.arts[p].visible)
  }

  /** Rolling a journal forward is safe against a power loss around the lock write exactly when no such loss can make
      the journal vanish. */
  lemma RecoverySafeIff(s: Sys, tx: Tx)
    requires Formed(s) && s.pc == Locking(tx) && s.journal.visible == Some(tx) && s.importmap == Settled(s.base)
    requires tx != s.base
    ensures (forall loss: Event :: loss.PowerLoss? && Enabled(Next(s, Lock(Unconfirmed)), loss) ==>
               Consistent(Next(Next(s, Lock(Unconfirmed)), loss))) <==> None !in s.journal.possible
  {
    var t := Next(s, Lock(Unconfirmed));
    if None in s.journal.possible {
      var loss := LossOf(t, None, tx, s.base, {}, None);
      assert Enabled(t, loss);
      assert !Consistent(Next(t, loss));
    }
  }

  /** A committed transaction survives every power loss exactly when each artifact it names is durable. */
  lemma CommitSafeIff(s: Sys, tx: Tx)
    requires Formed(s) && s.journal == Settled(None) && s.lock == Settled(tx) && s.importmap == Settled(tx)
    ensures (forall loss: Event :: loss.PowerLoss? && Enabled(s, loss) ==> Consistent(Next(s, loss))) <==>
            AllDurable(s, tx)
  {
    if AllDurable(s, tx) {
      forall loss: Event | loss.PowerLoss? && Enabled(s, loss)
        ensures Consistent(Next(s, loss))
      {
        var t := Next(s, loss);
        assert t.lock.visible == tx;
        forall k | k in tx
          ensures Visible(t, tx[k])
        {
          assert Durable(s, tx[k]) && tx[k].path in s.arts;
        }
      }
    } else {
      var k :| k in tx && !Durable(s, tx[k]);
      var loss := LosingArtifact(s, tx, tx[k]);
      assert Enabled(s, loss) && !Consistent(Next(s, loss));
    }
  }

  lemma LosingArtifact(s: Sys, tx: Tx, a: Artifact) returns (loss: Event)
    requires Formed(s) && s.journal == Settled(None) && s.lock == Settled(tx) && s.importmap == Settled(tx)
    requires !Durable(s, a) && exists k :: k in tx && tx[k] == a
    ensures loss.PowerLoss? && Enabled(s, loss) && !Consistent(Next(s, loss))
  {
    var value: Content := None;
    if a.path in s.arts {
      OtherValue(s.arts[a.path], a);
      value :| value in s.arts[a.path].possible && value != Some(a.content);
    }
    loss := LossOf(s, None, tx, tx, {a.path}, value);
    assert Enabled(s, loss);
    assert !Visible(Next(s, loss), a);
  }

  lemma OtherValue(f: File<Content>, a: Artifact)
    requires FileFormed(f) && f != Settled(Some(a.content))
    ensures exists v :: v in f.possible && v != Some(a.content)
  {
    if f.visible != Some(a.content) {
      assert f.visible in f.possible;
    } else {
      assert f.possible != {Some(a.content)};
    }
  }

  // ---- an unconfirmed step can be undone ----

  /** The events es lead from s to t. */
  ghost predicate Leads(s: Sys, es: seq<Event>, t: Sys)
    decreases |es|
  {
    if es == [] then s == t else Enabled(s, es[0]) && Leads(Next(s, es[0]), es[1..], t)
  }

  lemma LeadsFirst(s: Sys, e: Event, es: seq<Event>, t: Sys)
    requires Enabled(s, e) && Leads(Next(s, e), es, t)
    ensures Leads(s, [e] + es, t)
  {
    assert ([e] + es)[1..] == es;
  }

  lemma {:induction false} LeadsThen(s: Sys, es: seq<Event>, t: Sys, more: seq<Event>, u: Sys)
    requires Leads(s, es, t) && Leads(t, more, u)
    ensures Leads(s, es + more, u)
    decreases |es|
  {
    if es == [] {
      assert es + more == more;
    } else {
      LeadsThen(Next(s, es[0]), es[1..], t, more, u);
      assert (es + more)[1..] == es[1..] + more;
    }
  }

  lemma {:induction false} LeadsFormed(s: Sys, es: seq<Event>, t: Sys)
    requires Formed(s) && Leads(s, es, t)
    ensures Formed(t)
    decreases |es|
  {
    if es != [] {
      StepFormed(s, es[0]);
      LeadsFormed(Next(s, es[0]), es[1..], t);
    }
  }

  /** A publication that meets no different bytes can be staged to its end, leaving what it found as it found it, except
      in the directories it syncs. */
  lemma {:induction false} FinishStaging(s: Sys) returns (es: seq<Event>, t: Sys)
    requires s.pc.Staging? && s.pc.k <= |s.pc.staged| && !Doomed(s, s.pc.staged, s.pc.k)
    ensures Leads(s, es, t) && t.pc == Logging(s.pc.tx)
    ensures es != [] && es[0] == Stage(Syncs)
    ensures forall p :: Art(s, p).visible.Some? && !Awaits(s, s.pc.staged, s.pc.k, p) ==> Art(t, p) == Art(s, p)
    decreases |s.pc.staged| - s.pc.k
  {
    var pc, e := s.pc, Stage(Syncs);
    var u := Next(s, e);
    if pc.k == |pc.staged| {
      es, t := [e], u;
      LeadsFirst(s, e, [], u);
    } else {
      StagesOn(s);
      var rest, end := FinishStaging(u);
      es, t := [e] + rest, end;
      LeadsFirst(s, e, rest, t);
    }
  }

  /** One artifact of such a publication. */
  lemma StagesOn(s: Sys)
    requires s.pc.Staging? && s.pc.k < |s.pc.staged| && !Doomed(s, s.pc.staged, s.pc.k)
    ensures var u := Stages(s, Syncs);
            && u.pc == s.pc.(k := s.pc.k + 1) && !Doomed(u, u.pc.staged, u.pc.k)
            && forall p :: Art(s, p).visible.Some? && !Awaits(s, s.pc.staged, s.pc.k, p) ==>
                             Art(u, p) == Art(s, p) && !Awaits(u, s.pc.staged, s.pc.k + 1, p)
  {
    var u, pc := Stages(s, Syncs), s.pc;
    var a := pc.staged[pc.k];
    assert u.pc == pc.(k := pc.k + 1);
    StagesArts(s, Syncs);
    hide Stages;
    forall p: Path | Awaits(u, pc.staged, pc.k + 1, p)
      ensures Awaits(s, pc.staged, pc.k, p)
    {
      var j :| pc.k + 1 <= j < |pc.staged| && Art(u, pc.staged[j].path).visible.None? && p.dir <= pc.staged[j].path.dir;
      assert Art(s, pc.staged[j].path).visible.None?;
    }
    forall p: Path | Art(s, p).visible.Some? && !Awaits(s, pc.staged, pc.k, p)
      ensures Art(u, p) == Art(s, p)
    {
      if !Visible(s, a) { assert !(p.dir <= a.path.dir); }
    }
  }

  /** From a finished staging the transaction commits. */
  lemma FinishCommit(s: Sys, tx: Tx) returns (es: seq<Event>, t: Sys)
    requires s.pc == Logging(tx)
    ensures Leads(s, es, t) && forall p :: Art(t, p) == Art(s, p)
    ensures t.journal == Settled(None) && t.lock == Settled(tx) && t.importmap == Settled(tx)
  {
    var s1 := Next(s, Log(Syncs));
    var s2 := Next(s1, Lock(Syncs));
    var s3 := Next(s2, Map(Syncs));
    t := Next(s3, Remove(Syncs));
    MetadataSync(Written(s, Log(Syncs)), s.where.importmap);
    MetadataSync(Written(s1, Lock(Syncs)), s.where.lock);
    MetadataSync(Written(s2, Map(Syncs)), s.where.importmap);
    MetadataSync(Written(s3, Remove(Syncs)), s.where.importmap);
    es := [Log(Syncs), Lock(Syncs), Map(Syncs), Remove(Syncs)];
    LeadsFirst(s3, Remove(Syncs), [], t);
    LeadsFirst(s2, Map(Syncs), [Remove(Syncs)], t);
    LeadsFirst(s1, Lock(Syncs), [Map(Syncs), Remove(Syncs)], t);
    LeadsFirst(s, Log(Syncs), [Lock(Syncs), Map(Syncs), Remove(Syncs)], t);
    assert [Lock(Syncs)] + [Map(Syncs), Remove(Syncs)] == [Lock(Syncs), Map(Syncs), Remove(Syncs)];
    assert [Map(Syncs)] + [Remove(Syncs)] == [Map(Syncs), Remove(Syncs)];
    assert [Remove(Syncs)] + [] == [Remove(Syncs)];
    assert es == [Log(Syncs)] + [Lock(Syncs), Map(Syncs), Remove(Syncs)];
  }

  /** Directories outside the vendor directory hold no artifact. */
  lemma MetadataSync(s: Sys, dir: string)
    ensures Synced(s, {Outside(dir)}).arts == s.arts
  {}

  /** Reusing an artifact that is not durable, in a publication that will not be refused, can end without it. */
  lemma ReuseBreaks(s: Sys) returns (es: seq<Event>, t: Sys)
    requires Formed(s) && Sound(s) && s.pc.Staging? && !Confirmed(s, Stage(Syncs))
    ensures Leads(s, es, t) && es != [] && es[0] == Stage(Syncs) && !Consistent(t)
  {
    var tx, a := s.pc.tx, s.pc.staged[s.pc.k];
    assert a in s.pc.staged;
    var x :| x in tx && tx[x] == a;
    var es1, s1 := FinishStaging(s);
    var es2, s2 := FinishCommit(s1, tx);
    LeadsThen(s, es1, s1, es2, s2);
    LeadsFormed(s, es1 + es2, s2);
    assert Art(s1, a.path) == Art(s, a.path) && Art(s2, a.path) == Art(s1, a.path);
    assert !Durable(s2, a);
    var loss := LosingArtifact(s2, tx, a);
    t := Next(s2, loss);
    LeadsFirst(s2, loss, [], t);
    LeadsThen(s, es1 + es2, s2, [loss], t);
    es := es1 + es2 + [loss];
    assert [loss] + [] == [loss];
  }

  /** Rolling forward a journal that is not durable and says something new can end in disagreement. */
  lemma RecoverBreaks(s: Sys) returns (es: seq<Event>, t: Sys)
    requires Formed(s) && Sound(s) && Enabled(s, Recover) && !Confirmed(s, Recover)
    ensures Leads(s, es, t) && es != [] && es[0] == Recover && !Consistent(t)
  {
    var tx := s.journal.visible.value;
    assert Doubtful(s, tx) && tx != s.base;
    var s1 := Next(s, Recover);
    var s2 := Next(s1, Lock(Unconfirmed));
    var loss := LossOf(s2, None, tx, s.base, {}, None);
    assert Enabled(s2, loss) by {
      assert tx in s2.lock.possible && s.base in s2.importmap.possible && None in s2.journal.possible;
    }
    t := Next(s2, loss);
    LeadsFirst(s2, loss, [], t);
    LeadsFirst(s1, Lock(Unconfirmed), [loss], t);
    LeadsFirst(s, Recover, [Lock(Unconfirmed), loss], t);
    assert [loss] + [] == [loss] && [Lock(Unconfirmed)] + [loss] == [Lock(Unconfirmed), loss];
    es := [Recover] + [Lock(Unconfirmed), loss];
    assert t.lock.visible == tx && t.importmap.visible == s.base && t.journal.visible == None;
  }

  /** The condition is exact: the first step of a history that is not confirmed can be carried on to a state without a
      journal in which lock, importmap and artifacts disagree. */
  lemma UnconfirmedBreaks(states: seq<Sys>, events: seq<Event>, k: nat) returns (es: seq<Event>, t: Sys)
    requires IsHistory(states, events) && k < |events| && !Confirmed(states[k], events[k])
    requires forall i {:trigger events[i]} :: 0 <= i < k ==> Confirmed(states[i], events[i])
    ensures Leads(states[k], es, t) && es != [] && !Consistent(t)
    ensures es[0] == if events[k].Recover? then Recover else Stage(Syncs)
  {
    AlwaysSound(states, events, k);
    AlwaysFormed(states, events, k);
    assert Enabled(states[k], events[k]);
    if events[k].Recover? {
      es, t := RecoverBreaks(states[k]);
    } else {
      es, t := ReuseBreaks(states[k]);
    }
  }

  // ---- histories that break the invariant when durability is not confirmed ----

  const A := Artifact(Path([], "a.js"), [])
  const ONE: Tx := map[Spec("a") := A]

  /** Everything beside the vendor directory, as by default. */
  const BESIDE := Places("", "")

  function Disk(journal: File<Option<Tx>>, lock: Tx, importmap: Tx, art: File<Content>, mem: Tx, base: Tx,
                pc: Pc): Sys {
    Sys(journal, Settled(lock), Settled(importmap), map[A.path := art], mem, base, pc, BESIDE)
  }

  /** A journal written without confirmation, rolled forward, and lost after the lock was replaced. */
  function StaleState(k: nat): Sys {
    var there, unsure := Settled(Some(A.content)), File(Some(ONE), {None, Some(ONE)});
    match k
    case 0 => Start(BESIDE)
    case 1 => Start(BESIDE).(pc := Staging(ONE, [A], 0))
    case 2 => Disk(Settled(None), map[], map[], there, map[], map[], Staging(ONE, [A], 1))
    case 3 => Disk(Settled(None), map[], map[], there, map[], map[], Logging(ONE))
    case 4 => Disk(unsure, map[], map[], there, map[], map[], Idle)
    case 5 => Disk(unsure, map[], map[], there, map[], map[], Locking(ONE))
    case 6 => Disk(unsure, map[], map[], there, map[], map[], Idle).(lock := File(ONE, {map[], ONE}))
    case _ => Disk(Settled(None), ONE, map[], there, map[], map[], Idle)
  }

  function StaleEvent(k: nat): Event {
    match k
    case 0 => Publish(ONE, [A])
    case 1 => Stage(Syncs)
    case 2 => Stage(Syncs)
    case 3 => Log(Unconfirmed)
    case 4 => Recover
    case 5 => Lock(Unconfirmed)
    case _ => PowerLoss(None, ONE, map[], map[A.path := Some(A.content)])
  }

  lemma OnlyA()
    ensures forall a :: a in [A] <==> exists k :: k in ONE && ONE[k] == a
  {
    assert ONE[Spec("a")] == A;
  }

  lemma StaleStep(k: nat)
    requires k < 7
    ensures Enabled(StaleState(k), StaleEvent(k)) && Next(StaleState(k), StaleEvent(k)) == StaleState(k + 1)
  {
    if k < 4 {
      StaleFirst(k);
      hide StaleState, StaleEvent, Enabled, Next;
    } else {
      var s, t := StaleState(k), StaleState(k + 1);
      if k == 5 {
        assert s.lock.possible + {ONE} == t.lock.possible;
      } else if k == 6 {
        assert Next(s, StaleEvent(k)).arts == t.arts;
      }
    }
  }

  lemma StaleFirst(k: nat)
    requires k < 4
    ensures Enabled(StaleState(k), StaleEvent(k)) && Next(StaleState(k), StaleEvent(k)) == StaleState(k + 1)
  {
    OnlyA();
    var s, t := StaleState(k), StaleState(k + 1);
    if k == 1 {
      assert Next(s, StaleEvent(k)).arts == t.arts;
    } else if k == 3 {
      assert {None} + {Some(ONE)} == {None, Some(ONE)};
    }
  }

  lemma StaleJournalBreaks() returns (states: seq<Sys>, events: seq<Event>)
    ensures IsHistory(states, events) && |events| == 7 && !Confirmed(states[4], events[4])
    ensures !Consistent(states[7])
  {
    states, events := seq(8, (k: nat) => StaleState(k)), seq(7, (k: nat) => StaleEvent(k));
    assert Some(ONE) != None;
    assert states[4].journal != Settled(Some(ONE)) by { assert None in states[4].journal.possible; }
    assert ONE != map[] by { assert Spec("a") in ONE; }
    assert states[7].lock.visible == ONE && states[7].importmap.visible == map[];
    assert Spec("a") in ONE;
    hide Enabled, Next;
    forall k {:trigger events[k]} | 0 <= k < |events|
      ensures Enabled(states[k], events[k]) && states[k + 1] == Next(states[k], events[k])
    {
      StaleStep(k);
    }
  }

  /** An artifact written without confirmation, taken as present by the next attempt, committed, and lost. */
  function ReuseState(k: nat): Sys {
    var unsure := File(Some(A.content), {None, Some(A.content)});
    match k
    case 0 => Start(BESIDE)
    case 1 => Start(BESIDE).(pc := Staging(ONE, [A], 0))
    case 2 => Disk(Settled(None), map[], map[], unsure, map[], map[], Idle)
    case 3 => Disk(Settled(None), map[], map[], unsure, map[], map[], Staging(ONE, [A], 0))
    case 4 => Disk(Settled(None), map[], map[], unsure, map[], map[], Staging(ONE, [A], 1))
    case 5 => Disk(Settled(None), map[], map[], unsure, map[], map[], Logging(ONE))
    case 6 => Disk(Settled(Some(ONE)), map[], map[], unsure, map[], map[], Locking(ONE))
    case 7 => Disk(Settled(Some(ONE)), ONE, map[], unsure, map[], map[], Mapping(ONE))
    case 8 => Disk(Settled(Some(ONE)), ONE, ONE, unsure, ONE, map[], Removing(ONE))
    case 9 => Disk(Settled(None), ONE, ONE, unsure, ONE, ONE, Idle)
    case _ => Disk(Settled(None), ONE, ONE, Settled(None), ONE, ONE, Idle)
  }

  function ReuseEvent(k: nat): Event {
    match k
    case 0 => Publish(ONE, [A])
    case 1 => Stage(Unconfirmed)
    case 2 => Publish(ONE, [A])
    case 3 => Stage(Syncs)
    case 4 => Stage(Syncs)
    case 5 => Log(Syncs)
    case 6 => Lock(Syncs)
    case 7 => Map(Syncs)
    case 8 => Remove(Syncs)
    case _ => PowerLoss(None, ONE, ONE, map[A.path := None])
  }

  lemma ReuseFirst(k: nat)
    requires k < 5
    ensures Enabled(ReuseState(k), ReuseEvent(k)) && Next(ReuseState(k), ReuseEvent(k)) == ReuseState(k + 1)
  {
    OnlyA();
    if k == 1 {
      assert {None} + {Some(A.content)} == {None, Some(A.content)};
      assert Next(ReuseState(k), ReuseEvent(k)).arts == ReuseState(k + 1).arts;
    }
  }

  lemma ReuseStep(k: nat)
    requires k < 10
    ensures Enabled(ReuseState(k), ReuseEvent(k)) && Next(ReuseState(k), ReuseEvent(k)) == ReuseState(k + 1)
  {
    if k < 5 {
      ReuseFirst(k);
      hide ReuseState, ReuseEvent, Enabled, Next;
    } else {
      assert Next(ReuseState(k), ReuseEvent(k)).arts == ReuseState(k + 1).arts;
    }
  }

  lemma StaleArtifactBreaks() returns (states: seq<Sys>, events: seq<Event>)
    ensures IsHistory(states, events) && |events| == 10 && !Confirmed(states[3], events[3])
    ensures !Consistent(states[10])
  {
    states, events := seq(11, (k: nat) => ReuseState(k)), seq(10, (k: nat) => ReuseEvent(k));
    assert !Durable(states[3], A) by { assert None in Art(states[3], A.path).possible; }
    assert Spec("a") in ONE && !Visible(states[10], ONE[Spec("a")]);
    hide Enabled, Next;
    forall k {:trigger events[k]} | 0 <= k < |events|
      ensures Enabled(states[k], events[k]) && states[k + 1] == Next(states[k], events[k])
    {
      ReuseStep(k);
    }
  }
}
