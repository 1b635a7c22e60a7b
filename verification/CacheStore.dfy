/**
 The in-process cache store of cache/store_memory.go: a map from keys to the
 elements of a list kept in order of use. The store refines a sequence of
 key/entry pairs, most recently used first, and evicts the pair whose last hit
 or set is the oldest.
 */
module CacheStore {

  import opened Basics

  /** expires None is Go's zero time: no expiry. */
  datatype Entry = Entry(value: seq<bv8>, expires: Option<int>)
  datatype Pair = Pair(key: Key, entry: Entry)

  datatype Fault = Canceled | ZeroInstant | OutOfRange

  predicate InRange(t: int) { MIN_INT64 <= t <= MAX_INT64 }

  /** opNow: what is wrong with a call, if anything. */
  function OpNow(canceled: bool, now: Option<int>): Option<Fault> {
    if canceled then Some(Canceled) else match now case None => Some(ZeroInstant)
                                                   case Some(t) => if InRange(t) then None else Some(OutOfRange)
  }

  function OpExpiry(canceled: bool, expires: Option<int>): Option<Fault> {
    if canceled then Some(Canceled) else if expires.Some? && !InRange(expires.value) then Some(OutOfRange) else None
  }

  predicate Expired(e: Entry, now: int) { e.expires.Some? && now >= e.expires.value }

  // ---- the recency-ordered sequence ----

  predicate Has(c: seq<Pair>, k: Key) { exists i :: 0 <= i < |c| && c[i].key == k }

  /** A key stands first or in the rest. */
  lemma HasTail(c: seq<Pair>, k: Key)
    requires c != []
    ensures Has(c, k) <==> c[0].key == k || Has(c[1..], k)
  {
    if Has(c[1..], k) {
      var i :| 0 <= i < |c[1..]| && c[1..][i].key == k;
      assert c[i + 1].key == k;
    }
    if Has(c, k) {
      var i :| 0 <= i < |c| && c[i].key == k;
      if i > 0 { assert c[1..][i - 1].key == k; }
    }
  }

  function Find(c: seq<Pair>, k: Key): (e: Option<Entry>) {
    if c == [] then None else if c[0].key == k then Some(c[0].entry) else Find(c[1..], k)
  }

  ghost predicate KeysOnce(c: seq<Pair>) {
    forall i, j :: 0 <= i < j < |c| ==> c[i].key != c[j].key
  }

  lemma {:induction false} FindNone(c: seq<Pair>, k: Key)
    ensures Find(c, k).None? <==> !Has(c, k)
  {
    if c != [] {
      HasTail(c, k);
      FindNone(c[1..], k);
    }
  }

  lemma {:induction false} FindAt(c: seq<Pair>, i: nat)
    requires KeysOnce(c) && i < |c|
    ensures Find(c, c[i].key) == Some(c[i].entry)
  {
    if i > 0 {
      assert c[0].key != c[i].key && c[1..][i - 1] == c[i];
      FindAt(c[1..], i - 1);
    }
  }

  function Without(c: seq<Pair>, k: Key): seq<Pair> {
    if c == [] then [] else (if c[0].key == k then [] else [c[0]]) + Without(c[1..], k)
  }

  lemma {:induction false} WithoutAbsent(c: seq<Pair>, k: Key)
    requires !Has(c, k)
    ensures Without(c, k) == c
  {
    if c != [] {
      HasTail(c, k);
      WithoutAbsent(c[1..], k);
    }
  }

  lemma {:induction false} WithoutAt(c: seq<Pair>, i: nat)
    requires i < |c| && KeysOnce(c)
    ensures Without(c, c[i].key) == c[..i] + c[i + 1..]
  {
    if i == 0 {
      assert forall m :: 0 <= m < |c[1..]| ==> c[1..][m].key != c[0].key;
      WithoutAbsent(c[1..], c[0].key);
    } else {
      assert c[0].key != c[i].key && c[1..][i - 1] == c[i];
      WithoutAt(c[1..], i - 1);
      assert c[..i] + c[i + 1..] == [c[0]] + (c[1..][..i - 1] + c[1..][i..]);
    }
  }

  function Live(c: seq<Pair>, now: int): seq<Pair> {
    if c == [] then [] else (if Expired(c[0].entry, now) then [] else [c[0]]) + Live(c[1..], now)
  }

  /** A sweep removes exactly the expired pairs. */
  lemma {:induction false} LiveExact(c: seq<Pair>, now: int, p: Pair)
    ensures p in Live(c, now) <==> p in c && !Expired(p.entry, now)
  {
    if c != [] {
      assert c == [c[0]] + c[1..];
      LiveExact(c[1..], now, p);
    }
  }

  function Fetched(c: seq<Pair>, k: Key, now: int): seq<Pair> {
    match Find(c, k)
    case None => c
    case Some(e) => if Expired(e, now) then Without(c, k) else [Pair(k, e)] + Without(c, k)
  }

  predicate Overfull(c: seq<Pair>, max: int) { max > 0 && |c| > max }

  function Stored(c: seq<Pair>, k: Key, e: Entry, max: int): seq<Pair> {
    var next := [Pair(k, e)] + Without(c, k);
    if Find(c, k).None? && Overfull(next, max) then next[..|next| - 1] else next
  }

  // ---- runs ----

  datatype Op =
    | Gets(key: Key, now: int)
    | Sets(key: Key, entry: Entry)
    | Deletes(key: Key)
    | Sweeps(now: int)

  function Apply(c: seq<Pair>, op: Op, max: int): seq<Pair> {
    match op
    case Gets(k, now) => Fetched(c, k, now)
    case Sets(k, e) => Stored(c, k, e, max)
    case Deletes(k) => Without(c, k)
    case Sweeps(now) => Live(c, now)
  }

  /** The key an operation uses: one that it sets, or hits before expiry. */
  function Touches(c: seq<Pair>, op: Op): Option<Key> {
    match op
    case Sets(k, _) => Some(k)
    case Gets(k, now) =>
      var e := Find(c, k);
      if e.Some? && !Expired(e.value, now) then Some(k) else None
    case _ => None
  }

  function Contents(ops: seq<Op>, max: int): seq<Pair> {
    if ops == [] then [] else Apply(Contents(ops[..|ops| - 1], max), ops[|ops| - 1], max)
  }

  /** When a key was last set or hit: the position of that operation, counted from one. */
  function LastUse(ops: seq<Op>, max: int, k: Key): (t: nat)
    ensures t <= |ops|
  {
    if ops == [] then 0
    else if Touches(Contents(ops[..|ops| - 1], max), ops[|ops| - 1]) == Some(k) then |ops|
    else LastUse(ops[..|ops| - 1], max, k)
  }

  /** Most recently used first; in particular no key occurs twice. */
  ghost predicate ByUse(c: seq<Pair>, use: Key -> nat) {
    forall i, j :: 0 <= i < j < |c| ==> use(c[i].key) > use(c[j].key)
  }

  lemma WithoutByUse(c: seq<Pair>, k: Key, use: Key -> nat)
    requires ByUse(c, use)
    ensures ByUse(Without(c, k), use) && |Without(c, k)| == (if Has(c, k) then |c| - 1 else |c|)
    ensures forall p :: p in Without(c, k) ==> p in c && p.key != k
  {
    if Has(c, k) {
      var i :| 0 <= i < |c| && c[i].key == k;
      WithoutAt(c, i);
    } else {
      WithoutAbsent(c, k);
    }
  }

  lemma HeadNewest(c: seq<Pair>, use: Key -> nat, p: Pair)
    requires c != [] && ByUse(c, use) && p in c[1..]
    ensures use(p.key) < use(c[0].key)
  {
    var i :| 0 <= i < |c[1..]| && c[1..][i] == p;
    assert c[i + 1] == p;
  }

  lemma TailByUse(c: seq<Pair>, use: Key -> nat)
    requires c != [] && ByUse(c, use)
    ensures ByUse(c[1..], use)
  {}

  lemma {:induction false} LiveByUse(c: seq<Pair>, now: int, use: Key -> nat)
    requires ByUse(c, use)
    ensures ByUse(Live(c, now), use) && |Live(c, now)| <= |c|
  {
    if c != [] {
      var r := Live(c[1..], now);
      assert Live(c, now) == (if Expired(c[0].entry, now) then [] else [c[0]]) + r;
      hide ByUse, Live;
      TailByUse(c, use);
      LiveByUse(c[1..], now, use);
      forall p | p in r
        ensures use(p.key) < use(c[0].key)
      {
        LiveExact(c[1..], now, p);
        HeadNewest(c, use, p);
      }
      FrontByUse(r, c[0], use);
    }
  }

  lemma FrontByUse(c: seq<Pair>, p: Pair, use: Key -> nat)
    requires ByUse(c, use) && forall q :: q in c ==> use(q.key) < use(p.key)
    ensures ByUse([p] + c, use)
  {
    var r := [p] + c;
    forall i, j | 0 <= i < j < |r|
      ensures use(r[i].key) > use(r[j].key)
    {
      assert r[j] == c[j - 1] && r[j] in c;
      if i > 0 { assert r[i] == c[i - 1]; }
    }
  }

  /** The use times after one more operation. */
  ghost function UseAfter(ops: seq<Op>, max: int): Key -> nat {
    (k: Key) => LastUse(ops, max, k)
  }

  lemma {:induction false} SameUse(c: seq<Pair>, use: Key -> nat, later: Key -> nat)
    requires ByUse(c, use) && forall p :: p in c ==> later(p.key) == use(p.key)
    ensures ByUse(c, later)
  {
    forall i, j | 0 <= i < j < |c|
      ensures later(c[i].key) > later(c[j].key)
    {
      assert c[i] in c && c[j] in c;
    }
  }

  /** Over every run the contents are in order of last use and within the bound. */
  lemma {:induction false} AlwaysByUse(ops: seq<Op>, max: int)
    ensures ByUse(Contents(ops, max), UseAfter(ops, max)) && (max > 0 ==> |Contents(ops, max)| <= max)
  {
    if ops != [] {
      var front, op := ops[..|ops| - 1], ops[|ops| - 1];
      AlwaysByUse(front, max);
      var c, use, later := Contents(front, max), UseAfter(front, max), UseAfter(ops, max);
      StepByUse(c, op, max, use, later, |ops|);
    }
  }

  lemma StepByUse(c: seq<Pair>, op: Op, max: int, use: Key -> nat, later: Key -> nat, now: nat)
    requires ByUse(c, use) && (max > 0 ==> |c| <= max)
    requires forall k :: use(k) < now
    requires forall k :: later(k) == if Touches(c, op) == Some(k) then now else use(k)
    ensures ByUse(Apply(c, op, max), later) && (max > 0 ==> |Apply(c, op, max)| <= max)
  {
    match op
    case Gets(k, at) =>
      FindNone(c, k);
      WithoutByUse(c, k, use);
      SameUse(Without(c, k), use, later);
      match Find(c, k) {
        case None => SameUse(c, use, later);
        case Some(e) => if !Expired(e, at) { FrontByUse(Without(c, k), Pair(k, e), later); }
      }
    case Sets(k, e) =>
      FindNone(c, k);
      WithoutByUse(c, k, use);
      SameUse(Without(c, k), use, later);
      FrontByUse(Without(c, k), Pair(k, e), later);
    case Deletes(k) =>
      WithoutByUse(c, k, use);
      SameUse(Without(c, k), use, later);
    case Sweeps(at) =>
      LiveByUse(c, at, use);
      forall p | p in Live(c, at)
        ensures p in c
      {
        LiveExact(c, at, p);
      }
      SameUse(Live(c, at), use, later);
  }

  /** Key k is in the store after ops but not after one more operation, a set of another key: it was evicted. */
  ghost predicate Evicted(ops: seq<Op>, max: int, op: Op, k: Key) {
    op.Sets? && op.key != k && Has(Contents(ops, max), k) && !Has(Contents(ops + [op], max), k)
  }

  /** Only a set of a new key in a full store evicts. */
  lemma EvictsWhenFull(ops: seq<Op>, max: int, op: Op, k: Key)
    requires Evicted(ops, max, op, k)
    ensures max > 0 && |Contents(ops, max)| == max && !Has(Contents(ops, max), op.key)
  {
    AlwaysByUse(ops, max);
    assert (ops + [op])[..|ops|] == ops;
    var c := Contents(ops, max);
    assert Contents(ops + [op], max) == Stored(c, op.key, op.entry, max);
    var i: nat :| i < |c| && c[i].key == k;
    EvictsShape(c, op.key, op.entry, max, i);
  }

  /** An evicted key is the one whose last hit or set is the oldest of all keys in the store, and every other key
      stays. */
  lemma EvictsOldest(ops: seq<Op>, max: int, op: Op, k: Key, other: Key)
    requires Evicted(ops, max, op, k) && Has(Contents(ops, max), other) && other != k
    ensures LastUse(ops, max, k) < LastUse(ops, max, other)
    ensures Has(Contents(ops + [op], max), other)
  {
    AlwaysByUse(ops, max);
    assert (ops + [op])[..|ops|] == ops;
    var c := Contents(ops, max);
    assert Contents(ops + [op], max) == Stored(c, op.key, op.entry, max);
    EvictsLast(c, op.key, op.entry, max, UseAfter(ops, max), k, other);
  }

  lemma OthersStay(c: seq<Pair>, k: Key, e: Entry, i: nat)
    requires KeysOnce(c) && i < |c| && c[i].key != k
    ensures Has([Pair(k, e)] + Without(c, k), c[i].key)
  {
    var next := [Pair(k, e)] + Without(c, k);
    if Has(c, k) {
      var m :| 0 <= m < |c| && c[m].key == k;
      WithoutAt(c, m);
      assert next[if i < m then i + 1 else i].key == c[i].key;
    } else {
      WithoutAbsent(c, k);
      assert next[i + 1].key == c[i].key;
    }
  }

  lemma EvictsShape(c: seq<Pair>, k: Key, e: Entry, max: int, i: nat)
    requires KeysOnce(c) && (max > 0 ==> |c| <= max) && i < |c| && c[i].key != k && !Has(Stored(c, k, e, max), c[i].key)
    ensures max > 0 && |c| == max && !Has(c, k) && Stored(c, k, e, max) == [Pair(k, e)] + c[..|c| - 1]
  {
    OthersStay(c, k, e, i);
    FindNone(c, k);
    hide Has, Find, Without;
    var next := [Pair(k, e)] + Without(c, k);
    assert Find(c, k).None? && Overfull(next, max);
    WithoutAbsent(c, k);
    assert next[..|next| - 1] == [Pair(k, e)] + c[..|c| - 1];
  }

  lemma KeptHas(c: seq<Pair>, p: Pair, x: nat)
    requires x < |c| - 1
    ensures Has([p] + c[..|c| - 1], c[x].key)
  {
    assert ([p] + c[..|c| - 1])[x + 1] == c[x];
  }

  lemma EvictsLast(c: seq<Pair>, k: Key, e: Entry, max: int, use: Key -> nat, gone: Key, other: Key)
    requires ByUse(c, use) && (max > 0 ==> |c| <= max) && Has(c, gone) && !Has(Stored(c, k, e, max), gone) && gone != k
    requires Has(c, other) && other != gone
    ensures use(gone) < use(other) && Has(Stored(c, k, e, max), other)
  {
    var i: nat :| i < |c| && c[i].key == gone;
    var j: nat :| j < |c| && c[j].key == other;
    EvictsShape(c, k, e, max, i);
    hide Has, Stored;
    if i < |c| - 1 { KeptHas(c, Pair(k, e), i); }
    if j < |c| - 1 { KeptHas(c, Pair(k, e), j); }
  }

  // ---- the map and the list ----

  class Element {
    const key: Key
    var entry: Entry

    constructor (key: Key, entry: Entry)
      ensures this.key == key && this.entry == entry
    {
      this.key, this.entry := key, entry;
    }
  }

  ghost function Pairs(s: seq<Element>): (c: seq<Pair>)
    reads s
  {
    if s == [] then [] else [Pair(s[0].key, s[0].entry)] + Pairs(s[1..])
  }

  lemma {:induction false} PairsAt(s: seq<Element>)
    ensures |Pairs(s)| == |s| && forall i :: 0 <= i < |s| ==> Pairs(s)[i] == Pair(s[i].key, s[i].entry)
  {
    if s != [] { PairsAt(s[1..]); }
  }

  lemma PairsCons(el: Element, s: seq<Element>)
    ensures Pairs([el] + s) == [Pair(el.key, el.entry)] + Pairs(s)
  {
    assert ([el] + s)[1..] == s;
  }

  /** s without its i-th element. */
  function Cut<T>(s: seq<T>, i: nat): seq<T>
    requires i < |s|
  {
    s[..i] + s[i + 1..]
  }

  lemma PairsCut(s: seq<Element>, i: nat)
    requires i < |s|
    ensures |Pairs(s)| == |s| && Pairs(Cut(s, i)) == Cut(Pairs(s), i)
  {
    PairsAt(s);
    PairsAt(Cut(s, i));
  }

  ghost predicate KeysApart(s: seq<Element>) {
    forall i, j :: 0 <= i < j < |s| ==> s[i].key != s[j].key
  }

  /** list.Remove */
  function Drop(s: seq<Element>, el: Element): seq<Element> {
    if s == [] then [] else if s[0] == el then s[1..] else [s[0]] + Drop(s[1..], el)
  }

  lemma {:induction false} DropAt(s: seq<Element>, i: nat)
    requires i < |s| && KeysApart(s)
    ensures Drop(s, s[i]) == Cut(s, i)
  {
    if i > 0 {
      assert s[0].key != s[i].key && s[1..][i - 1] == s[i];
      DropAt(s[1..], i - 1);
      assert Cut(s, i) == [s[0]] + Cut(s[1..], i - 1);
    }
  }

  /** The map points at the list's elements, one per key. */
  ghost predicate Indexes(items: map<Key, Element>, lru: seq<Element>) {
    && KeysApart(lru)
    && (forall i :: 0 <= i < |lru| ==> lru[i].key in items && items[lru[i].key] == lru[i])
    && (forall k :: k in items ==> items[k] in lru && items[k].key == k)
  }

  lemma DropIndexes(items: map<Key, Element>, lru: seq<Element>, i: nat)
    requires Indexes(items, lru) && i < |lru|
    ensures Indexes(items - {lru[i].key}, Cut(lru, i)) && lru[i] !in Cut(lru, i)
  {
    var rest, left := Cut(lru, i), items - {lru[i].key};
    forall k | k in left
      ensures left[k] in rest
    {
      var j :| 0 <= j < |lru| && lru[j] == items[k];
      assert rest[if j < i then j else j - 1] == lru[j];
    }
  }

  lemma FrontIndexes(items: map<Key, Element>, lru: seq<Element>, el: Element)
    requires Indexes(items, lru) && el.key !in items
    ensures Indexes(items[el.key := el], [el] + lru)
  {
    var more, next := [el] + lru, items[el.key := el];
    forall k | k in next
      ensures next[k] in more
    {
      if k != el.key { assert items[k] in lru; } else { assert more[0] == el; }
    }
  }

  lemma DropFacts(items: map<Key, Element>, lru: seq<Element>, i: nat)
    requires Indexes(items, lru) && i < |lru|
    ensures Drop(lru, lru[i]) == Cut(lru, i) && |Pairs(lru)| == |lru| && Pairs(Cut(lru, i)) == Cut(Pairs(lru), i)
    ensures Indexes(items - {lru[i].key}, Cut(lru, i)) && Indexes(items, [lru[i]] + Cut(lru, i))
  {
    var el := lru[i];
    DropAt(lru, i);
    PairsCut(lru, i);
    DropIndexes(items, lru, i);
    assert (items - {el.key})[el.key := el] == items;
    hide Indexes, Pairs, Cut, Drop;
    FrontIndexes(items - {el.key}, Cut(lru, i), el);
  }

  class MemoryStore {
    var items: map<Key, Element>
    var lru: seq<Element>
    const maxEntries: int

    ghost predicate Valid()
      reads this
    {
      Indexes(items, lru)
    }

    ghost function Value(): seq<Pair>
      reads this, lru
    {
      Pairs(lru)
    }

    constructor (maxEntries: int)
      ensures Valid() && this.maxEntries == maxEntries && Value() == []
    {
      items, lru := map[], [];
      this.maxEntries := maxEntries;
    }

    /** Where the element of k is, and what the sequence says about k. */
    lemma Locate(k: Key) returns (i: nat)
      requires Valid() && k in items
      ensures i < |lru| == |Value()| && lru[i] == items[k] && items[k].key == k
      ensures Find(Value(), k) == Some(items[k].entry) && Without(Value(), k) == Cut(Value(), i)
    {
      i :| 0 <= i < |lru| && lru[i] == items[k];
      PairsAt(lru);
      FindAt(Value(), i);
      WithoutAt(Value(), i);
    }

    lemma Absent(k: Key)
      requires Valid() && k !in items
      ensures Find(Value(), k).None? && Without(Value(), k) == Value()
    {
      PairsAt(lru);
      assert forall i :: 0 <= i < |lru| ==> lru[i].key != k;
      FindNone(Value(), k);
      WithoutAbsent(Value(), k);
    }

    method Remove(el: Element, ghost i: nat)
      requires Valid() && i < |lru| && lru[i] == el
      modifies this
      ensures Valid() && lru == Cut(old(lru), i) && items == old(items) - {el.key}
      ensures |old(Value())| == |old(lru)| && Value() == Cut(old(Value()), i)
    {
      hide Indexes, Pairs, Cut, Drop, KeysApart;
      DropFacts(items, lru, i);
      lru := Drop(lru, el);
      items := items - {el.key};
    }

    method MoveToFront(el: Element, ghost i: nat)
      requires Valid() && i < |lru| && lru[i] == el
      modifies this
      ensures Valid() && lru == [el] + Cut(old(lru), i) && items == old(items)
      ensures |old(Value())| == |old(lru)| && Value() == [Pair(el.key, el.entry)] + Cut(old(Value()), i)
    {
      hide Indexes, Pairs, Cut, Drop, KeysApart;
      DropFacts(items, lru, i);
      PairsCons(el, Cut(lru, i));
      lru := [el] + Drop(lru, el);
    }

    method Get(k: Key, canceled: bool, now: Option<int>) returns (fault: Option<Fault>, entry: Option<Entry>)
      requires Valid()
      modifies this
      ensures Valid() && fault == OpNow(canceled, now)
      ensures fault.Some? ==> entry.None? && Value() == old(Value())
      ensures fault.None? ==> entry == Find(old(Value()), k) && Value() == Fetched(old(Value()), k, now.value)
    {
      hide Indexes, Find, Without, Pairs, Cut;
      fault := OpNow(canceled, now);
      if fault.Some? { return fault, None; }
      if k !in items {
        Absent(k);
        return None, None;
      }
      ghost var i := Locate(k);
      var el := items[k];
      var out := el.entry;
      if Expired(el.entry, now.value) {
        Remove(el, i);
      } else {
        MoveToFront(el, i);
      }
      return None, Some(out);
    }

    /** A set of a key that is there: its element gets the entry and moves to the front. */
    method Replace(k: Key, e: Entry)
      requires Valid() && k in items
      modifies this, lru
      ensures Valid() && Value() == [Pair(k, e)] + Without(old(Value()), k) && Find(old(Value()), k).Some?
    {
      ghost var i := Locate(k);
      var el := items[k];
      DropIndexes(items, lru, i);
      PairsCut(lru, i);
      hide Indexes, Find, Without, Pairs, Cut, KeysApart;
      el.entry := e;
      PairsCut(lru, i);
      MoveToFront(el, i);
    }

    method Set(k: Key, e: Entry, canceled: bool) returns (fault: Option<Fault>)
      requires Valid()
      modifies this, lru
      ensures Valid() && fault == OpExpiry(canceled, e.expires)
      ensures fault.Some? ==> Value() == old(Value())
      ensures fault.None? ==> Value() == Stored(old(Value()), k, e, maxEntries)
    {
      hide Indexes, Find, Without, Pairs;
      fault := OpExpiry(canceled, e.expires);
      if fault.Some? { return; }
      if k in items {
        Replace(k, e);
        return;
      }
      Absent(k);
      ghost var c := Value();
      var el := new Element(k, e);
      FrontIndexes(items, lru, el);
      PairsCons(el, lru);
      lru := [el] + lru;
      items := items[k := el];
      assert Value() == [Pair(k, e)] + c;
      PairsLength(lru);
      if maxEntries > 0 && |lru| > maxEntries {
        Remove(lru[|lru| - 1], |lru| - 1);
        assert Value() == ([Pair(k, e)] + c)[..|c|];
      }
    }

    method Delete(k: Key, canceled: bool) returns (fault: Option<Fault>)
      requires Valid()
      modifies this
      ensures Valid() && fault == (if canceled then Some(Canceled) else None)
      ensures Value() == if canceled then old(Value()) else Without(old(Value()), k)
    {
      hide Indexes, Find, Without, Pairs, Cut;
      if canceled { return Some(Canceled); }
      if k in items {
        ghost var i := Locate(k);
        Remove(items[k], i);
      } else {
        Absent(k);
      }
      fault := None;
    }

    /** Walks the list from its back. */
    method Sweep(canceled: bool, now: Option<int>) returns (fault: Option<Fault>, n: nat)
      requires Valid()
      modifies this
      ensures Valid() && fault == OpNow(canceled, now)
      ensures fault.Some? ==> Value() == old(Value()) && n == 0
      ensures fault.None? ==> Value() == Live(old(Value()), now.value) && n == |old(lru)| - |lru|
    {
      hide Indexes, Pairs, Live, Cut;
      n := 0;
      fault := OpNow(canceled, now);
      if fault.Some? { return; }
      NoPairs(if now.Some? then now.value else 0);
      var walk := lru;
      var i := |walk|;
      ghost var rest: seq<Element> := [];
      assert walk[..i] + rest == lru && walk[i..] == [];
      while i > 0
        invariant Valid() && 0 <= i <= |walk| && walk == old(lru) && lru == walk[..i] + rest
        invariant Pairs(rest) == Live(Pairs(walk[i..]), now.value)
        invariant n == |walk| - |lru|
      {
        var el := walk[i - 1];
        assert walk[i - 1..] == [el] + walk[i..];
        PairsCons(el, walk[i..]);
        LiveCons(Pair(el.key, el.entry), Pairs(walk[i..]), now.value);
        if Expired(el.entry, now.value) {
          CutMiddle(walk[..i - 1], el, rest);
          assert walk[..i] == walk[..i - 1] + [el];
          Remove(el, i - 1);
          n := n + 1;
        } else {
          assert walk[..i] + rest == walk[..i - 1] + ([el] + rest);
          PairsCons(el, rest);
          rest := [el] + rest;
        }
        i := i - 1;
      }
      assert walk[..0] + rest == rest && walk[0..] == walk;
    }
  }

  lemma NoPairs(now: int)
    ensures Pairs([]) == [] && Live([], now) == []
  {}

  lemma PairsLength(s: seq<Element>)
    ensures |Pairs(s)| == |s|
  {
    PairsAt(s);
  }

  lemma CutMiddle(a: seq<Element>, el: Element, b: seq<Element>)
    ensures Cut(a + [el] + b, |a|) == a + b && (a + [el] + b)[|a|] == el
  {}

  lemma LiveCons(p: Pair, c: seq<Pair>, now: int)
    ensures Live([p] + c, now) == (if Expired(p.entry, now) then [] else [p]) + Live(c, now)
  {
    assert ([p] + c)[1..] == c;
  }
}
