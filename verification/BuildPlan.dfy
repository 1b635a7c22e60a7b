/**
 planBuild of assets/plan.go: content-addressed names are given out component
 by component, dependencies first, and every reference is rewritten to a final
 name. Reading files, scanning references and digests are parameters.
 */
module BuildPlan {
  import opened Basics
  import opened Graphs
  import opened Sorting
  import opened AssetGraph
  import opened BuildOrder
  import opened Rewrite

  datatype Kind = Other | Js | Css

  /** A collected source file with the references its scanner found. */
  datatype Asset = Asset(kind: Kind, content: string, refs: seq<Ref>)

  type Assets = map<string, Asset>

  /** URL prefix, content digest, digest of a cycle's canonical fields, and the name built from path and digest. */
  datatype Naming = Naming(prefix: string, digest: string -> string, cycleDigest: seq<string> -> string,
                           hashed: (string, string) -> string)

  datatype Planned = Planned(output: string, hash: string, content: string)

  /** A collision names the asset that has the output already, or none if the output is a source path. */
  datatype Error =
    | Rejected(importer: string, ref: Ref)
    | Collision(logical: string, output: string, owner: Option<string>)

  datatype Result =
    | Ok(names: map<string, string>, planned: map<string, Planned>, order: seq<string>)
    | Err(error: Error)

  predicate Rewritable(a: Asset) {
    a.kind != Other
  }

  ghost predicate Scanned(assets: Assets) {
    forall a :: a in assets ==> InBounds(assets[a].content, assets[a].refs)
  }

  // ---- dependencies ----

  /** r names a collected script or style sheet. */
  predicate IsDependency(assets: Assets, r: Ref) {
    r.resolved != "" && r.resolved in assets && Rewritable(assets[r.resolved])
  }

  function Dependencies(assets: Assets, refs: seq<Ref>): (deps: seq<string>)
    ensures forall d :: d in deps <==>
            exists i :: 0 <= i < |refs| && IsDependency(assets, refs[i]) && refs[i].resolved == d
  {
    if refs == [] then []
    else
      var init, last := refs[..|refs| - 1], refs[|refs| - 1];
      var deps := Dependencies(assets, init);
      assert forall i :: 0 <= i < |init| ==> refs[i] == init[i];
      if IsDependency(assets, last) && last.resolved !in deps then deps + [last.resolved] else deps
  }

  function DependencyMap(assets: Assets): Deps<string> {
    map a | a in assets && Rewritable(assets[a]) :: Dependencies(assets, assets[a].refs)
  }

  // ---- rewriting with the names known so far ----

  function Target(names: map<string, string>, prefix: string, r: Ref): string {
    if r.resolved in names then prefix + names[r.resolved] + r.suffix else r.spec
  }

  function ByName(names: map<string, string>, prefix: string): Replacement {
    r => Target(names, prefix, r)
  }

  /** The text of a with every reference to a named asset replaced. */
  function Final(a: Asset, names: map<string, string>, prefix: string): string
    requires InBounds(a.content, a.refs)
  {
    InBoundsSort(a.content, a.refs);
    Splice(a.content, Sort(a.refs, StartLeq), ByName(names, prefix), 0)
  }

  lemma {:induction false} SpliceCongruent(content: string, refs: seq<Ref>, f: Replacement, g: Replacement, cursor: nat)
    requires InBounds(content, refs) && cursor <= |content|
    requires forall i :: 0 <= i < |refs| ==> refs[i].resolved == "" || f(refs[i]) == g(refs[i])
    ensures Splice(content, refs, f, cursor) == Splice(content, refs, g, cursor)
  {
    if refs != [] {
      SpliceCongruent(content, refs[1..], f, g, cursor);
      SpliceCongruent(content, refs[1..], f, g, refs[0].end);
    }
  }

  /** Every reference of a to a collected asset already has that asset's name. */
  ghost predicate Settled(assets: Assets, names: map<string, string>, a: Asset) {
    forall i :: 0 <= i < |a.refs| ==>
                  a.refs[i].resolved != "" && a.refs[i].resolved in assets ==> a.refs[i].resolved in names
  }

  ghost predicate Extends(assets: Assets, names: map<string, string>, more: map<string, string>) {
    && names.Keys <= more.Keys <= assets.Keys
    && (forall a :: a in names ==> more[a] == names[a])
  }

  /** Names given out later do not change a settled text. */
  lemma FinalStable(assets: Assets, names: map<string, string>, more: map<string, string>, prefix: string, a: Asset)
    requires InBounds(a.content, a.refs) && Settled(assets, names, a) && Extends(assets, names, more)
    ensures Final(a, names, prefix) == Final(a, more, prefix)
  {
    var sorted := Sort(a.refs, StartLeq);
    InBoundsSort(a.content, a.refs);
    forall i | 0 <= i < |sorted|
      ensures sorted[i].resolved == "" || ByName(names, prefix)(sorted[i]) == ByName(more, prefix)(sorted[i])
    {
      InMultiset(sorted, a.refs, sorted[i]);
    }
    SpliceCongruent(a.content, sorted, ByName(names, prefix), ByName(more, prefix), 0);
  }

  // ---- invariants of the plan under construction ----

  /** owner records who holds each output, so names are distinct; none is a source path. */
  ghost predicate Owned(assets: Assets, names: map<string, string>, owner: map<string, string>) {
    && names.Keys <= assets.Keys
    && (forall a :: a in names ==> names[a] in owner && owner[names[a]] == a && names[a] !in assets)
    && (forall o :: o in owner ==> owner[o] in names && names[owner[o]] == o)
  }

  ghost predicate Fits(assets: Assets, n: Naming, names: map<string, string>, a: string, p: Planned)
    requires Scanned(assets)
  {
    && a in assets && a in names && p.output == names[a] == n.hashed(a, p.hash)
    && (Rewritable(assets[a]) ==> Settled(assets, names, assets[a]) && p.content == Final(assets[a], names, n.prefix))
    && (!Rewritable(assets[a]) ==> p.hash == n.digest(assets[a].content))
  }

  ghost predicate AllFit(assets: Assets, n: Naming, names: map<string, string>, planned: map<string, Planned>)
    requires Scanned(assets)
  {
    forall a :: a in planned ==> Fits(assets, n, names, a, planned[a])
  }

  lemma AllFitStable(assets: Assets, n: Naming, names: map<string, string>, more: map<string, string>,
                     planned: map<string, Planned>)
    requires Scanned(assets) && AllFit(assets, n, names, planned) && Extends(assets, names, more)
    ensures AllFit(assets, n, more, planned)
  {
    forall a | a in planned
      ensures Fits(assets, n, more, a, planned[a])
    {
      if Rewritable(assets[a]) { FinalStable(assets, names, more, n.prefix, assets[a]); }
    }
  }

  lemma NameOne(assets: Assets, names: map<string, string>, owner: map<string, string>, a: string, output: string)
    requires Owned(assets, names, owner) && a in assets && a !in names && output !in owner && output !in assets
    ensures Owned(assets, names[a := output], owner[output := a]) && Extends(assets, names, names[a := output])
  {}

  // ---- building the plan ----

  /** The maps planBuild fills: names given out, who owns each output, finished assets, and their order. */
  datatype Draft = Draft(names: map<string, string>, owner: map<string, string>, planned: map<string, Planned>,
                         order: seq<string>)

  /** The digest of each asset. */
  type Digests = map<string, string>

  /** The names that these digests give. */
  function NamesOf(n: Naming, h: Digests): map<string, string> {
    map a | a in h :: n.hashed(a, h[a])
  }

  /** A draft that names and records assets by the digests h. */
  ghost predicate Good(assets: Assets, n: Naming, h: Digests, d: Draft)
    requires Scanned(assets)
  {
    && Owned(assets, d.names, d.owner) && AllFit(assets, n, d.names, d.planned)
    && (forall a :: a in d.names ==> a in h && d.names[a] == n.hashed(a, h[a]))
    && (forall a :: a in d.planned ==> a in h && d.planned[a].hash == h[a])
    && Distinct(d.order) && forall a :: a in d.order <==> a in d.planned
  }

  /** The names clash: an asset's name is a source path, or two assets have one name. */
  ghost predicate Clash(assets: Assets, names: map<string, string>, a: string, owner: Option<string>) {
    && a in names
    && match owner
       case None => names[a] in assets
       case Some(b) => b in names && b != a && names[a] == names[b]
  }

  /** A reported collision is one: the asset's own name is a source path, or another asset's name. */
  ghost predicate IsCollision(assets: Assets, n: Naming, h: Digests, e: Error) {
    e.Collision? && Clash(assets, NamesOf(n, h), e.logical, e.owner) && e.output == n.hashed(e.logical, h[e.logical])
  }

  /** checkCollision */
  method CheckCollision(assets: Assets, n: Naming, ghost h: Digests, d: Draft, a: string, hash: string)
    returns (r: Result)
    requires Scanned(assets) && Good(assets, n, h, d) && a in assets && a !in d.names && a in h && hash == h[a]
    ensures r.Ok? <==> !Collides(assets, d, n.hashed(a, hash))
    ensures r.Err? ==> IsCollision(assets, n, h, r.error)
    ensures r.Err? ==> r.error.logical == a && r.error.output == n.hashed(a, hash)
    ensures r.Err? ==>
              r.error.owner == if r.error.output in d.owner then Some(d.owner[r.error.output]) else None
  {
    var output := n.hashed(a, hash);
    if output in d.owner { return Err(Collision(a, output, Some(d.owner[output]))); }
    if output in assets { return Err(Collision(a, output, None)); }
    r := Ok(map[], map[], []);
  }

  predicate Collides(assets: Assets, d: Draft, output: string) {
    output in d.owner || output in assets
  }

  function Named(d: Draft, a: string, output: string): Draft {
    d.(names := d.names[a := output], owner := d.owner[output := a])
  }

  function Finished(d: Draft, a: string, p: Planned): Draft {
    d.(planned := d.planned[a := p], order := d.order + [a])
  }

  lemma NamedGood(assets: Assets, n: Naming, h: Digests, d: Draft, a: string, output: string)
    requires Scanned(assets) && Good(assets, n, h, d) && a in assets && a !in d.names && !Collides(assets, d, output)
    requires a in h && output == n.hashed(a, h[a])
    ensures Good(assets, n, h, Named(d, a, output))
  {
    NameOne(assets, d.names, d.owner, a, output);
    AllFitStable(assets, n, d.names, d.names[a := output], d.planned);
  }

  lemma FinishedGood(assets: Assets, n: Naming, h: Digests, d: Draft, a: string, p: Planned)
    requires Scanned(assets) && Good(assets, n, h, d) && a !in d.planned && Fits(assets, n, d.names, a, p)
    requires a in h && p.hash == h[a]
    ensures Good(assets, n, h, Finished(d, a, p))
  {}

  method RewritePlanned(a: Asset, names: map<string, string>, prefix: string) returns (content: string)
    requires InBounds(a.content, a.refs)
    ensures content == Final(a, names, prefix)
  {
    if |a.refs| == 0 {
      content := a.content;
    } else {
      content := RewriteRefs(a.content, a.refs, ByName(names, prefix));
    }
  }

  /** a is named and finished at once. */
  function Added(d: Draft, a: string, p: Planned): Draft {
    Finished(Named(d, a, p.output), a, p)
  }

  lemma AddedGood(assets: Assets, n: Naming, h: Digests, d: Draft, a: string, p: Planned)
    requires Scanned(assets) && Good(assets, n, h, d) && a in assets && a !in d.names && a !in d.planned
    requires a in h && p.hash == h[a] && p.output == n.hashed(a, h[a]) && !Collides(assets, d, p.output)
    requires Rewritable(assets[a]) ==>
               Settled(assets, d.names, assets[a]) && p.content == Final(assets[a], d.names, n.prefix)
    requires !Rewritable(assets[a]) ==> p.hash == n.digest(assets[a].content)
    ensures Good(assets, n, h, Added(d, a, p)) && Extends(assets, d.names, Added(d, a, p).names)
    ensures Added(d, a, p).names.Keys == d.names.Keys + {a} && Added(d, a, p).planned.Keys == d.planned.Keys + {a}
  {
    NamesKnown(assets, n, h, d);
    AddedMore(assets, d, a, p);
    hide Good, Extends, Final, Settled, Scanned, Collides, OnCycle;
    NamedGood(assets, n, h, d, a, p.output);
    if Rewritable(assets[a]) {
      FinalStable(assets, d.names, d.names[a := p.output], n.prefix, assets[a]);
      SettledLater(assets, d.names, d.names[a := p.output], assets[a]);
    }
    FinishedGood(assets, n, h, Named(d, a, p.output), a, p);
  }

  lemma AddedMore(assets: Assets, d: Draft, a: string, p: Planned)
    requires d.names.Keys <= assets.Keys && a in assets && a !in d.names
    ensures Extends(assets, d.names, Added(d, a, p).names)
    ensures Added(d, a, p).names.Keys == d.names.Keys + {a} && Added(d, a, p).planned.Keys == d.planned.Keys + {a}
  {}

  /** Assets that are neither scripts nor style sheets are named after their own bytes. */
  method PlanPassthrough(assets: Assets, n: Naming, ghost h: Digests, sorted: seq<string>)
    returns (r: Result, d: Draft)
    requires Scanned(assets) && Distinct(sorted) && forall a :: a in sorted <==> a in assets && !Rewritable(assets[a])
    requires forall a :: a in sorted ==> a in h && h[a] == n.digest(assets[a].content)
    ensures r.Ok? ==> Good(assets, n, h, d) && d.planned.Keys == d.names.Keys
    ensures r.Ok? ==> forall a :: a in d.names <==> a in assets && !Rewritable(assets[a])
    ensures r.Err? ==> IsCollision(assets, n, h, r.error)
  {
    d := Draft(map[], map[], map[], []);
    r := Ok(map[], map[], []);
    assert Good(assets, n, h, d);
    FirstNone(sorted);
    hide Good, IsCollision, Collides, Distinct, First, Scanned, Settled, Final, Extends, Added, StringLeq;
    for i := 0 to |sorted|
      invariant r.Ok? && Good(assets, n, h, d) && d.planned.Keys == d.names.Keys == First(sorted, i)
    {
      var a := sorted[i];
      var hash := n.digest(assets[a].content);
      FirstNext(sorted, i);
      r := CheckCollision(assets, n, h, d, a, hash);
      if r.Err? { return; }
      var p := Planned(n.hashed(a, hash), hash, assets[a].content);
      AddedGood(assets, n, h, d, a, p);
      d := Added(d, a, p);
    }
    FirstAll(sorted);
  }

  /** A component that is not a cycle: rewrite, digest the result, name it. */
  method PlanSingle(assets: Assets, n: Naming, ghost h: Digests, d0: Draft, a: string) returns (r: Result, d: Draft)
    requires Scanned(assets) && Good(assets, n, h, d0) && a in assets && a !in d0.names && a !in d0.planned
    requires Rewritable(assets[a]) && Settled(assets, d0.names, assets[a])
    requires a in h && h[a] == n.digest(Final(assets[a], d0.names, n.prefix))
    ensures r.Ok? ==>
              Good(assets, n, h, d) && d.names.Keys == d0.names.Keys + {a} && d.planned.Keys == d0.planned.Keys + {a}
    ensures r.Ok? ==>
              Extends(assets, d0.names, d.names) && forall b :: b in d0.planned ==> d.planned[b] == d0.planned[b]
    ensures r.Ok? ==> d.planned[a].hash == n.digest(d.planned[a].content)
    ensures r.Err? ==> IsCollision(assets, n, h, r.error)
  {
    hide Good, IsCollision, Collides, Settled, Final, Extends;
    r, d := Ok(map[], map[], []), d0;
    var content := RewritePlanned(assets[a], d.names, n.prefix);
    var hash := n.digest(content);
    r := CheckCollision(assets, n, h, d, a, hash);
    if r.Err? { return; }
    var p := Planned(n.hashed(a, hash), hash, content);
    AddedGood(assets, n, h, d, a, p);
    d := Added(d, a, p);
  }

  const CYCLE_TAG: string := "assets-scc-v1"

  /** Inside a cycle, references to members become stable markers; others are replaced as usual. */
  function Marked(members: seq<string>, names: map<string, string>, prefix: string): Replacement {
    (r: Ref) => if r.resolved in members then "\0assets-scc:" + r.resolved + r.suffix else Target(names, prefix, r)
  }

  /** The three fields a member contributes: its path, its source and its source with the cycle's markers. */
  function MemberFields(assets: Assets, names: map<string, string>, prefix: string, members: seq<string>, a: string)
    : seq<string>
    requires a in assets && InBounds(assets[a].content, assets[a].refs)
  {
    InBoundsSort(assets[a].content, assets[a].refs);
    [a, assets[a].content, Splice(assets[a].content, Sort(assets[a].refs, StartLeq), Marked(members, names, prefix), 0)]
  }

  /** The canonical fields of a cycle, up to its k-th member. */
  function CycleFields(assets: Assets, names: map<string, string>, prefix: string, members: seq<string>, k: nat)
    : seq<string>
    requires Scanned(assets) && k <= |members| && forall i :: 0 <= i < k ==> members[i] in assets
  {
    if k == 0 then [CYCLE_TAG, prefix]
    else CycleFields(assets, names, prefix, members, k - 1) +
         MemberFields(assets, names, prefix, members, members[k - 1])
  }

  /** The digest that names a cycle. */
  function CycleDigest(assets: Assets, n: Naming, names: map<string, string>, members: seq<string>): string
    requires Scanned(assets) && forall a :: a in members ==> a in assets
  {
    n.cycleDigest(CycleFields(assets, names, n.prefix, members, |members|))
  }

  method CollectFields(assets: Assets, n: Naming, names: map<string, string>, members: seq<string>)
    returns (fields: seq<string>)
    requires Scanned(assets) && forall i :: 0 <= i < |members| ==> members[i] in assets
    ensures fields == CycleFields(assets, names, n.prefix, members, |members|)
  {
    hide Splice, Sort, Marked;
    fields := [CYCLE_TAG, n.prefix];
    for i := 0 to |members|
      invariant fields == CycleFields(assets, names, n.prefix, members, i)
    {
      var a := assets[members[i]];
      var marked := RewriteRefs(a.content, a.refs, Marked(members, names, n.prefix));
      assert [members[i], a.content, marked] == MemberFields(assets, names, n.prefix, members, members[i]);
      fields := fields + [members[i], a.content, marked];
    }
  }

  ghost function First(members: seq<string>, i: nat): set<string>
    requires i <= |members|
  {
    set k | 0 <= k < i :: members[k]
  }

  lemma FirstNone(members: seq<string>)
    ensures First(members, 0) == {}
  {}

  lemma FirstNext(members: seq<string>, i: nat)
    requires i < |members| && Distinct(members)
    ensures First(members, i + 1) == First(members, i) + {members[i]} && members[i] !in First(members, i) &&
            members[i] in members
  {}

  lemma FirstAll(members: seq<string>)
    ensures First(members, |members|) == Elements(members)
    ensures forall a :: a in First(members, |members|) <==> a in members
  {}

  lemma NamesKnown(assets: Assets, n: Naming, h: Digests, d: Draft)
    requires Scanned(assets) && Good(assets, n, h, d)
    ensures d.names.Keys <= assets.Keys
  {}

  /** Gives every member of a cycle its name. */
  method NameMembers(assets: Assets, n: Naming, ghost h: Digests, d0: Draft, members: seq<string>, hash: string)
    returns (r: Result, d: Draft)
    requires Scanned(assets) && Good(assets, n, h, d0) && Distinct(members)
    requires forall a :: a in members ==> a in assets && a !in d0.names && a in h && h[a] == hash
    ensures r.Ok? ==> Good(assets, n, h, d) && Extends(assets, d0.names, d.names) && d.planned == d0.planned
    ensures r.Ok? ==> d.names.Keys == d0.names.Keys + Elements(members)
    ensures r.Ok? ==> forall a :: a in members ==> d.names[a] == n.hashed(a, hash)
    ensures r.Err? ==> IsCollision(assets, n, h, r.error)
  {
    NamesKnown(assets, n, h, d0);
    assert Extends(assets, d0.names, d0.names);
    hide Good, Scanned, Collides, Distinct, First, IsCollision, Extends, HashedAll, Named;
    r, d := Ok(map[], map[], []), d0;
    FirstNone(members);
    HashedNone(n, d0.names, hash);
    for i := 0 to |members|
      invariant r.Ok? && Good(assets, n, h, d) && Extends(assets, d0.names, d.names) && d.planned == d0.planned
      invariant d.names.Keys == d0.names.Keys + First(members, i)
      invariant HashedAll(n, d.names, First(members, i), hash)
    {
      var a := members[i];
      FirstNext(members, i);
      r := CheckCollision(assets, n, h, d, a, hash);
      if r.Err? { return; }
      var output := n.hashed(a, hash);
      NameNext(assets, n, h, d0.names, d, First(members, i), a, hash);
      d := Named(d, a, output);
    }
    FirstAll(members);
    HashedEach(n, d.names, First(members, |members|), hash);
  }

  ghost predicate HashedAll(n: Naming, names: map<string, string>, given: set<string>, hash: string) {
    given <= names.Keys && forall a :: a in given ==> names[a] == n.hashed(a, hash)
  }

  lemma HashedNone(n: Naming, names: map<string, string>, hash: string)
    ensures HashedAll(n, names, {}, hash)
  {}

  lemma HashedEach(n: Naming, names: map<string, string>, given: set<string>, hash: string)
    requires HashedAll(n, names, given, hash)
    ensures forall a :: a in given ==> a in names && names[a] == n.hashed(a, hash)
  {}

  lemma NameNext(assets: Assets, n: Naming, h: Digests, names: map<string, string>, d: Draft, given: set<string>,
                 a: string, hash: string)
    requires Scanned(assets) && Good(assets, n, h, d) && a in assets && a !in d.names
    requires !Collides(assets, d, n.hashed(a, hash)) && a in h && h[a] == hash
    requires Extends(assets, names, d.names) && HashedAll(n, d.names, given, hash) && d.names.Keys == names.Keys + given
    ensures var e := Named(d, a, n.hashed(a, hash));
            && Good(assets, n, h, e) && Extends(assets, names, e.names) && HashedAll(n, e.names, given + {a}, hash)
            && e.names.Keys == names.Keys + (given + {a}) && e.planned == d.planned
  {
    hide Good, Collides;
    NamedGood(assets, n, h, d, a, n.hashed(a, hash));
    NamedMore(assets, n, names, d.names, given, a, hash);
  }

  lemma NamedMore(assets: Assets, n: Naming, names: map<string, string>, more: map<string, string>, given: set<string>,
                  a: string, hash: string)
    requires Extends(assets, names, more) && HashedAll(n, more, given, hash) && a in assets && a !in more
    ensures Extends(assets, names, more[a := n.hashed(a, hash)])
    ensures HashedAll(n, more[a := n.hashed(a, hash)], given + {a}, hash)
  {}

  /** Rewrites every member of a cycle, all names being known. */
  method FinishMembers(assets: Assets, n: Naming, ghost h: Digests, d0: Draft, members: seq<string>, hash: string)
    returns (d: Draft)
    requires Scanned(assets) && Good(assets, n, h, d0) && Distinct(members)
    requires forall a :: a in members ==> a in assets && a in d0.names && Rewritable(assets[a]) && a !in d0.planned
    requires forall a :: a in members ==> Settled(assets, d0.names, assets[a]) && d0.names[a] == n.hashed(a, hash)
    requires forall a :: a in members ==> a in h && h[a] == hash
    ensures Good(assets, n, h, d) && d.names == d0.names
    ensures forall a :: a in d.planned <==> a in d0.planned || a in members
    ensures forall b :: b in d0.planned ==> d.planned[b] == d0.planned[b]
    ensures forall a :: a in members ==> d.planned[a].hash == hash
  {
    hide Good, Settled, Distinct, First;
    d := d0;
    FirstNone(members);
    for i := 0 to |members|
      invariant Good(assets, n, h, d) && d.names == d0.names
      invariant d.planned.Keys == d0.planned.Keys + First(members, i)
      invariant forall b :: b in d0.planned ==> d.planned[b] == d0.planned[b]
      invariant forall a :: a in First(members, i) ==> d.planned[a].hash == hash
    {
      FirstNext(members, i);
      var a := members[i];
      var content := RewritePlanned(assets[a], d.names, n.prefix);
      var p := Planned(d.names[a], hash, content);
      FinishedGood(assets, n, h, d, a, p);
      d := Finished(d, a, p);
    }
    FirstAll(members);
  }

  /** Every reference of a to a collected asset leads to a named asset or to a member. */
  ghost predicate SettledWith(assets: Assets, names: map<string, string>, members: seq<string>, a: Asset) {
    forall i :: 0 <= i < |a.refs| && a.refs[i].resolved != "" && a.refs[i].resolved in assets ==>
                  a.refs[i].resolved in names || a.refs[i].resolved in members
  }

  /** A cycle: one digest names all members, and only then are their texts rewritten. */
  method PlanCycle(assets: Assets, n: Naming, ghost h: Digests, d0: Draft, members: seq<string>)
    returns (r: Result, d: Draft)
    requires Scanned(assets) && Good(assets, n, h, d0) && Distinct(members)
    requires forall a :: a in members ==> a in assets && Rewritable(assets[a]) && a !in d0.names && a !in d0.planned
    requires forall a :: a in members ==> SettledWith(assets, d0.names, members, assets[a])
    requires forall a :: a in members ==> a in h && h[a] == CycleDigest(assets, n, d0.names, members)
    ensures r.Ok? ==> Good(assets, n, h, d) && Extends(assets, d0.names, d.names)
    ensures r.Ok? ==> forall a :: a in d.names <==> a in d0.names || a in members
    ensures r.Ok? ==> forall a :: a in d.planned <==> a in d0.planned || a in members
    ensures r.Ok? ==> forall b :: b in d0.planned ==> d.planned[b] == d0.planned[b]
    ensures r.Ok? ==> forall a :: a in members ==> d.planned[a].hash == CycleDigest(assets, n, d0.names, members)
    ensures r.Err? ==> IsCollision(assets, n, h, r.error)
  {
    hide AllFit, Good, IsCollision;
    var fields := CollectFields(assets, n, d0.names, members);
    var hash := n.cycleDigest(fields);
    assert hash == CycleDigest(assets, n, d0.names, members);
    hide CycleDigest, CycleFields;
    r, d := NameMembers(assets, n, h, d0, members, hash);
    if r.Ok? {
      forall a | a in members
        ensures Settled(assets, d.names, assets[a])
      {
        assert SettledWith(assets, d0.names, members, assets[a]);
      }
      d := FinishMembers(assets, n, h, d, members, hash);
    }
  }

  // ---- the whole plan ----

  function DepGraph(assets: Assets): Graph<string> {
    GraphOf(DependencyMap(assets))
  }

  lemma DepGraphNodes(assets: Assets, a: string)
    ensures a in DepGraph(assets) <==> a in assets && Rewritable(assets[a])
  {}

  lemma RefEdge(assets: Assets, a: string, i: nat)
    requires a in assets && Rewritable(assets[a]) && i < |assets[a].refs| && IsDependency(assets, assets[a].refs[i])
    ensures assets[a].refs[i].resolved in Succ(DepGraph(assets), a)
  {}

  /** The components to plan, as dependencyComponents returns them. */
  ghost predicate Ordered(assets: Assets, comps: seq<Component<string>>) {
    && IsDecomposition(DepGraph(assets), StringLeq, NodesOf(comps))
    && DependenciesFirst(DepGraph(assets), NodesOf(comps))
    && forall k, v :: 0 <= k < |comps| && v in comps[k].nodes ==> (comps[k].cyclic <==> OnCycle(DepGraph(assets), v))
  }

  /** The names given out before component k: all passthrough assets and everything placed earlier. */
  ghost predicate NamedBefore(assets: Assets, comps: seq<Component<string>>, k: nat, names: map<string, string>) {
    forall a :: a in names <==> (a in assets && !Rewritable(assets[a])) || Placed(NodesOf(comps), k, a)
  }

  lemma PlacedNext(lists: seq<seq<string>>, k: nat, a: string)
    requires k < |lists|
    ensures Placed(lists, k + 1, a) <==> Placed(lists, k, a) || a in lists[k]
  {
    if a in lists[k] { assert a in lists[k]; }
  }

  lemma MemberPlace(assets: Assets, comps: seq<Component<string>>, k: nat, a: string)
    requires Ordered(assets, comps) && k < |comps| && a in comps[k].nodes
    ensures a in assets && Rewritable(assets[a]) && !Placed(NodesOf(comps), k, a)
    ensures !comps[k].cyclic ==> comps[k].nodes == [a]
    ensures comps[k].cyclic <==> OnCycle(DepGraph(assets), a)
  {
    var lists := NodesOf(comps);
    assert a in lists[k] && Placed(lists, |lists|, a);
    DepGraphNodes(assets, a);
    CyclicIffOnCycle(DependencyMap(assets), StringLeq, lists, k, a);
  }

  lemma RefPlaced(assets: Assets, comps: seq<Component<string>>, k: nat, a: string, i: nat)
    requires Ordered(assets, comps) && k < |comps| && a in comps[k].nodes && a in assets && Rewritable(assets[a])
    requires i < |assets[a].refs| && IsDependency(assets, assets[a].refs[i])
    ensures Placed(NodesOf(comps), k + 1, assets[a].refs[i].resolved)
    ensures assets[a].refs[i].resolved == a ==> OnCycle(DepGraph(assets), a)
  {
    RefEdge(assets, a, i);
    assert a in NodesOf(comps)[k];
    if assets[a].refs[i].resolved == a { ReachRefl(DepGraph(assets), a); }
  }

  lemma MemberFacts(assets: Assets, comps: seq<Component<string>>, k: nat, names: map<string, string>, a: string)
    requires Ordered(assets, comps) && k < |comps| && a in comps[k].nodes && NamedBefore(assets, comps, k, names)
    ensures a in assets && Rewritable(assets[a]) && a !in names
    ensures SettledWith(assets, names, comps[k].nodes, assets[a])
    ensures !comps[k].cyclic ==> comps[k].nodes == [a] && Settled(assets, names, assets[a])
  {
    hide Ordered, DepGraph, OnCycle, Placed;
    MemberPlace(assets, comps, k, a);
    forall i | 0 <= i < |assets[a].refs| && assets[a].refs[i].resolved != "" && assets[a].refs[i].resolved in assets
      ensures assets[a].refs[i].resolved in names || assets[a].refs[i].resolved in comps[k].nodes
      ensures !comps[k].cyclic ==> assets[a].refs[i].resolved != a
    {
      if IsDependency(assets, assets[a].refs[i]) {
        RefPlaced(assets, comps, k, a, i);
        PlacedNext(NodesOf(comps), k, assets[a].refs[i].resolved);
      }
    }
  }

  /** members are the cycle of a, in order. */
  ghost predicate CycleOf(assets: Assets, a: string, members: seq<string>) {
    && SortedBy(members, StringLeq) && Distinct(members) && (forall b :: b in members ==> b in assets)
    && (forall b :: b in members <==> Mutual(DepGraph(assets), a, b))
  }

  ghost predicate CycleSettled(assets: Assets, names: map<string, string>, members: seq<string>) {
    forall b :: b in members && b in assets ==> SettledWith(assets, names, members, assets[b])
  }

  /** hash is the digest of the canonical fields of these members. */
  ghost predicate DigestOf(assets: Assets, n: Naming, names: map<string, string>, a: string, hash: string,
                           members: seq<string>)
    requires Scanned(assets)
  {
    && CycleOf(assets, a, members) && CycleSettled(assets, names, members)
    && hash == CycleDigest(assets, n, names, members)
  }

  ghost predicate CycleHash(assets: Assets, n: Naming, names: map<string, string>, a: string, hash: string)
    requires Scanned(assets)
  {
    exists members: seq<string> :: DigestOf(assets, n, names, a, hash, members)
  }

  lemma MemberFieldsStable(assets: Assets, names: map<string, string>, more: map<string, string>, prefix: string,
                           members: seq<string>, a: string)
    requires Scanned(assets) && a in assets && SettledWith(assets, names, members, assets[a])
    requires Extends(assets, names, more)
    ensures MemberFields(assets, names, prefix, members, a) == MemberFields(assets, more, prefix, members, a)
  {
    var refs := assets[a].refs;
    var sorted := Sort(refs, StartLeq);
    var f, g := Marked(members, names, prefix), Marked(members, more, prefix);
    InBoundsSort(assets[a].content, refs);
    forall i | 0 <= i < |sorted|
      ensures sorted[i].resolved == "" || f(sorted[i]) == g(sorted[i])
    {
      InMultiset(sorted, refs, sorted[i]);
      var k :| 0 <= k < |refs| && refs[k] == sorted[i];
    }
    hide Sort, Marked;
    SpliceCongruent(assets[a].content, sorted, f, g, 0);
  }

  /** Names given out later do not change a cycle's canonical fields. */
  lemma {:induction false} CycleFieldsStable(assets: Assets, names: map<string, string>, more: map<string, string>,
                                             prefix: string, members: seq<string>, k: nat)
    requires Scanned(assets) && k <= |members| && (forall b :: b in members ==> b in assets)
    requires CycleSettled(assets, names, members) && Extends(assets, names, more)
    ensures CycleFields(assets, names, prefix, members, k) == CycleFields(assets, more, prefix, members, k)
  {
    hide SettledWith, Extends, MemberFields;
    if k > 0 {
      assert members[k - 1] in members;
      CycleFieldsStable(assets, names, more, prefix, members, k - 1);
      MemberFieldsStable(assets, names, more, prefix, members, members[k - 1]);
    }
  }

  lemma SettledMore(assets: Assets, names: map<string, string>, more: map<string, string>, members: seq<string>)
    requires CycleSettled(assets, names, members) && Extends(assets, names, more)
    ensures CycleSettled(assets, more, members)
  {
    forall b | b in members && b in assets
      ensures SettledWith(assets, more, members, assets[b])
    {
      assert SettledWith(assets, names, members, assets[b]);
    }
  }

  lemma DigestStable(assets: Assets, n: Naming, names: map<string, string>, more: map<string, string>, a: string,
                     hash: string, members: seq<string>)
    requires Scanned(assets) && Extends(assets, names, more) && DigestOf(assets, n, names, a, hash, members)
    ensures CycleHash(assets, n, more, a, hash)
  {
    hide CycleSettled, Extends, StringLeq;
    CycleFieldsStable(assets, names, more, n.prefix, members, |members|);
    SettledMore(assets, names, more, members);
    assert DigestOf(assets, n, more, a, hash, members);
  }

  lemma ComponentCycle(assets: Assets, comps: seq<Component<string>>, k: nat, a: string)
    requires Ordered(assets, comps) && k < |comps| && a in comps[k].nodes
    requires forall b :: b in comps[k].nodes ==> b in assets
    ensures CycleOf(assets, a, comps[k].nodes) && (OnCycle(DepGraph(assets), a) <==> comps[k].cyclic)
  {
    assert NodesOf(comps)[k] == comps[k].nodes;
  }

  // ---- the digests of a set of assets ----

  /** What digest asset a has when the other assets are called names: of its bytes, of its final text, or of the
      canonical fields of its cycle. */
  ghost predicate HasDigest(assets: Assets, n: Naming, names: map<string, string>, a: string, hash: string)
    requires Scanned(assets)
  {
    && a in assets
    && (!Rewritable(assets[a]) ==> hash == n.digest(assets[a].content))
    && (Rewritable(assets[a]) && OnCycle(DepGraph(assets), a) ==> CycleHash(assets, n, names, a, hash))
    && (Rewritable(assets[a]) && !OnCycle(DepGraph(assets), a) ==>
          Settled(assets, names, assets[a]) && hash == n.digest(Final(assets[a], names, n.prefix)))
  }

  ghost predicate Digested(assets: Assets, n: Naming, h: Digests)
    requires Scanned(assets)
  {
    forall a :: a in h ==> HasDigest(assets, n, NamesOf(n, h), a, h[a])
  }

  /** The digests of all assets, each by the names that the digests themselves give. */
  ghost predicate AreDigests(assets: Assets, n: Naming, h: Digests)
    requires Scanned(assets)
  {
    h.Keys == assets.Keys && Digested(assets, n, h)
  }

  /** The digest that planning computes for a member of component c. */
  function Computed(assets: Assets, n: Naming, names: map<string, string>, c: Component<string>, a: string): string
    requires Scanned(assets) && a in assets && forall b :: b in c.nodes ==> b in assets
  {
    if c.cyclic then CycleDigest(assets, n, names, c.nodes) else n.digest(Final(assets[a], names, n.prefix))
  }

  lemma CycleUnique(assets: Assets, a: string, ms: seq<string>, members: seq<string>)
    requires CycleOf(assets, a, ms) && CycleOf(assets, a, members)
    ensures ms == members
  {
    StringOrder();
    hide StringLeq, Mutual, TotalOrder, SortedBy;
    DistinctMultiset(ms, members);
    SortedUnique(ms, members, StringLeq);
  }

  /** Whatever names extend those given out before component k, its digests are the computed ones. */
  lemma ComputedHas(assets: Assets, n: Naming, comps: seq<Component<string>>, k: nat, names: map<string, string>,
                    more: map<string, string>, a: string, hash: string)
    requires Scanned(assets) && Ordered(assets, comps) && k < |comps| && NamedBefore(assets, comps, k, names)
    requires Extends(assets, names, more) && a in comps[k].nodes && forall b :: b in comps[k].nodes ==> b in assets
    ensures hash == Computed(assets, n, names, comps[k], a) ==> HasDigest(assets, n, more, a, hash)
    ensures HasDigest(assets, n, more, a, hash) ==> hash == Computed(assets, n, names, comps[k], a)
  {
    var members := comps[k].nodes;
    MembersReady(assets, comps, k, names);
    ComponentCycle(assets, comps, k, a);
    hide Ordered, NamedBefore, CycleDigest, CycleOf, Extends, SettledWith, Settled, OnCycle, Final;
    if comps[k].cyclic {
      DigestMore(assets, n, names, more, members);
      if hash == CycleDigest(assets, n, names, members) {
        assert DigestOf(assets, n, more, a, hash, members);
      }
      if CycleHash(assets, n, more, a, hash) {
        var ms: seq<string> :| DigestOf(assets, n, more, a, hash, ms);
        CycleUnique(assets, a, ms, members);
      }
    } else {
      assert members[0] == a;
      FinalStable(assets, names, more, n.prefix, assets[a]);
      SettledLater(assets, names, more, assets[a]);
    }
  }

  lemma SettledLater(assets: Assets, names: map<string, string>, more: map<string, string>, a: Asset)
    requires Settled(assets, names, a) && Extends(assets, names, more)
    ensures Settled(assets, more, a)
  {}

  lemma DigestMore(assets: Assets, n: Naming, names: map<string, string>, more: map<string, string>,
                   members: seq<string>)
    requires Scanned(assets) && Extends(assets, names, more) && forall b :: b in members ==> b in assets
    requires CycleSettled(assets, names, members)
    ensures CycleDigest(assets, n, names, members) == CycleDigest(assets, n, more, members)
    ensures CycleSettled(assets, more, members)
  {
    hide CycleSettled, Extends;
    CycleFieldsStable(assets, names, more, n.prefix, members, |members|);
    SettledMore(assets, names, more, members);
  }

  /** Digests stay what they are when more names are given out. */
  lemma HasDigestStable(assets: Assets, n: Naming, names: map<string, string>, more: map<string, string>, a: string,
                        hash: string)
    requires Scanned(assets) && HasDigest(assets, n, names, a, hash) && Extends(assets, names, more)
    ensures HasDigest(assets, n, more, a, hash)
  {
    hide Extends, Final, Settled, DigestOf, OnCycle;
    if Rewritable(assets[a]) && OnCycle(DepGraph(assets), a) {
      var ms: seq<string> :| DigestOf(assets, n, names, a, hash, ms);
      DigestStable(assets, n, names, more, a, hash, ms);
    } else if Rewritable(assets[a]) {
      FinalStable(assets, names, more, n.prefix, assets[a]);
      SettledLater(assets, names, more, assets[a]);
    }
  }

  /** The digests of everything before component k. */
  lemma {:induction false} DigestsBefore(assets: Assets, n: Naming, comps: seq<Component<string>>, k: nat)
    returns (h: Digests)
    requires Scanned(assets) && Ordered(assets, comps) && k <= |comps|
    ensures NamedBefore(assets, comps, k, h) && Digested(assets, n, h)
  {
    if k == 0 {
      h := map a | a in assets && !Rewritable(assets[a]) :: n.digest(assets[a].content);
      NamedBeforeIntro(assets, comps, h);
    } else {
      var g := DigestsBefore(assets, n, comps, k - 1);
      h := NextDigests(assets, n, comps, k - 1, g);
    }
  }

  lemma NextDigests(assets: Assets, n: Naming, comps: seq<Component<string>>, k: nat, g: Digests) returns (h: Digests)
    requires Scanned(assets) && Ordered(assets, comps) && k < |comps|
    requires NamedBefore(assets, comps, k, g) && Digested(assets, n, g)
    ensures NamedBefore(assets, comps, k + 1, h) && Digested(assets, n, h)
  {
    var names := NamesOf(n, g);
    assert NamedBefore(assets, comps, k, names);
    MembersReady(assets, comps, k, names);
    hide Ordered, NamedBefore, Extends, HasDigest, Computed, SettledWith, Settled, Scanned, Distinct;
    h := map a | a in g.Keys + Elements(comps[k].nodes) ::
      if a in g then g[a] else Computed(assets, n, names, comps[k], a);
    NamedNext(assets, comps, k, g, h);
    NamedWithin(assets, comps, k + 1, h);
    MoreNames(assets, n, g, h);
    forall a | a in h
      ensures HasDigest(assets, n, NamesOf(n, h), a, h[a])
    {
      if a in g {
        HasDigestStable(assets, n, names, NamesOf(n, h), a, h[a]);
      } else {
        ComputedHas(assets, n, comps, k, names, NamesOf(n, h), a, h[a]);
      }
    }
  }

  lemma MoreNames(assets: Assets, n: Naming, g: Digests, h: Digests)
    requires g.Keys <= h.Keys <= assets.Keys && forall a :: a in g ==> h[a] == g[a]
    ensures Extends(assets, NamesOf(n, g), NamesOf(n, h))
  {}

  lemma NamedWithin(assets: Assets, comps: seq<Component<string>>, k: nat, names: map<string, string>)
    requires Ordered(assets, comps) && k <= |comps| && NamedBefore(assets, comps, k, names)
    ensures names.Keys <= assets.Keys
  {
    forall a | a in names
      ensures a in assets
    {
      if j: nat :| j < k && a in NodesOf(comps)[j] { MemberPlace(assets, comps, j, a); }
    }
  }

  /** There is one digest for every asset. */
  lemma DigestsExist(assets: Assets, n: Naming, comps: seq<Component<string>>) returns (h: Digests)
    requires Scanned(assets) && Ordered(assets, comps)
    ensures AreDigests(assets, n, h)
  {
    h := DigestsBefore(assets, n, comps, |comps|);
    AllNamed(assets, comps, h);
  }

  /** And only one: the digests do not depend on the order in which names are given out. */
  lemma {:induction false} DigestsAgree(assets: Assets, n: Naming, comps: seq<Component<string>>, k: nat, g: Digests,
                                        h: Digests, a: string)
    requires Scanned(assets) && Ordered(assets, comps) && AreDigests(assets, n, g) && AreDigests(assets, n, h)
    requires k <= |comps| && a in assets && (Rewritable(assets[a]) ==> Placed(NodesOf(comps), k, a))
    ensures g[a] == h[a]
  {
    if Rewritable(assets[a]) {
      assert k > 0;
      if Placed(NodesOf(comps), k - 1, a) {
        DigestsAgree(assets, n, comps, k - 1, g, h, a);
      } else {
        PlacedNext(NodesOf(comps), k - 1, a);
        var names := map b | b in assets && (!Rewritable(assets[b]) || Placed(NodesOf(comps), k - 1, b)) ::
          NamesOf(n, g)[b];
        forall b | b in names
          ensures names[b] == NamesOf(n, h)[b]
        {
          DigestsAgree(assets, n, comps, k - 1, g, h, b);
        }
        BothComputed(assets, n, comps, k - 1, names, g, h, a);
      }
    }
  }

  lemma BothComputed(assets: Assets, n: Naming, comps: seq<Component<string>>, k: nat, names: map<string, string>,
                     g: Digests, h: Digests, a: string)
    requires Scanned(assets) && Ordered(assets, comps) && AreDigests(assets, n, g) && AreDigests(assets, n, h)
    requires k < |comps| && a in comps[k].nodes && a in assets
    requires forall b :: b in names <==> b in assets && (!Rewritable(assets[b]) || Placed(NodesOf(comps), k, b))
    requires forall b :: b in names ==> names[b] == NamesOf(n, g)[b] == NamesOf(n, h)[b]
    ensures g[a] == h[a]
  {
    NamedExactly(assets, comps, k, names);
    MembersReady(assets, comps, k, names);
    WithinNames(assets, n, names, g);
    WithinNames(assets, n, names, h);
    hide Ordered, NamedBefore, Extends, HasDigest, Computed, SettledWith, Settled, Scanned, Distinct, NamesOf, Placed;
    ComputedHas(assets, n, comps, k, names, NamesOf(n, g), a, g[a]);
    ComputedHas(assets, n, comps, k, names, NamesOf(n, h), a, h[a]);
  }

  lemma WithinNames(assets: Assets, n: Naming, names: map<string, string>, h: Digests)
    requires h.Keys == assets.Keys && forall b :: b in names ==> b in assets && names[b] == NamesOf(n, h)[b]
    ensures Extends(assets, names, NamesOf(n, h))
  {}

  lemma NamedExactly(assets: Assets, comps: seq<Component<string>>, k: nat, names: map<string, string>)
    requires Ordered(assets, comps) && k <= |comps|
    requires forall b :: b in names <==> b in assets && (!Rewritable(assets[b]) || Placed(NodesOf(comps), k, b))
    ensures NamedBefore(assets, comps, k, names)
  {
    PlacedWithin(assets, comps, k);
  }

  lemma PlacedWithin(assets: Assets, comps: seq<Component<string>>, k: nat)
    requires Ordered(assets, comps) && k <= |comps|
    ensures forall a :: Placed(NodesOf(comps), k, a) ==> a in assets
  {
    forall a | Placed(NodesOf(comps), k, a)
      ensures a in assets
    {
      var j: nat :| j < k && a in NodesOf(comps)[j];
      MemberPlace(assets, comps, j, a);
    }
  }

  /** An asset's digest is unique. */
  lemma DigestsUnique(assets: Assets, n: Naming, comps: seq<Component<string>>, g: Digests, h: Digests)
    requires Scanned(assets) && Ordered(assets, comps) && AreDigests(assets, n, g) && AreDigests(assets, n, h)
    ensures g == h
  {
    forall a | a in assets
      ensures g[a] == h[a]
    {
      DepGraphNodes(assets, a);
      assert a in DepGraph(assets) <==> Placed(NodesOf(comps), |comps|, a);
      DigestsAgree(assets, n, comps, |comps|, g, h, a);
    }
  }

  /** What a successful plan guarantees: every asset has the name of its digest, names do not clash, and every text is
      final. */
  ghost predicate IsPlan(assets: Assets, n: Naming, h: Digests, r: Result)
    requires Scanned(assets) && r.Ok?
  {
    && r.names == NamesOf(n, h) && r.planned.Keys == assets.Keys
    && (forall a :: a in r.planned ==> a in h && r.planned[a].hash == h[a])
    && AllFit(assets, n, r.names, r.planned)
    && Distinct(r.order) && forall a :: a in r.order <==> a in assets
  }

  /** No asset's name is a source path or another asset's name. */
  ghost predicate NoClash(assets: Assets, n: Naming, h: Digests) {
    forall a, owner :: !Clash(assets, NamesOf(n, h), a, owner)
  }

  /** Content addressing of a plan: off a cycle an output is named by its own final text, and the members of a cycle
      share one digest. */
  lemma ContentAddressed(assets: Assets, n: Naming, h: Digests, r: Result, a: string, b: string)
    requires Scanned(assets) && r.Ok? && AreDigests(assets, n, h) && IsPlan(assets, n, h, r) && a in assets
    ensures Rewritable(assets[a]) && !OnCycle(DepGraph(assets), a) ==>
              r.planned[a].hash == n.digest(r.planned[a].content)
    ensures b in assets && OnCycle(DepGraph(assets), a) && Mutual(DepGraph(assets), a, b) ==>
              r.planned[b].hash == r.planned[a].hash
  {
    hide OnCycle, CycleHash, Final;
    assert HasDigest(assets, n, r.names, a, h[a]) && Fits(assets, n, r.names, a, r.planned[a]);
    if b in assets && OnCycle(DepGraph(assets), a) && Mutual(DepGraph(assets), a, b) {
      CycleShares(assets, n, r.names, a, b, h[a], h[b]);
    }
  }

  lemma CycleShares(assets: Assets, n: Naming, names: map<string, string>, a: string, b: string, x: string, y: string)
    requires Scanned(assets) && HasDigest(assets, n, names, a, x) && HasDigest(assets, n, names, b, y)
    requires b in assets && OnCycle(DepGraph(assets), a) && Mutual(DepGraph(assets), a, b)
    ensures x == y
  {
    OnCycleMutual(assets, a, b);
    hide HasDigest, Mutual, Reach, OnCycle, CycleDigest, CycleSettled;
    assert CycleHash(assets, n, names, a, x) && CycleHash(assets, n, names, b, y) by {
      CycleDigestOf(assets, n, names, a, x);
      CycleDigestOf(assets, n, names, b, y);
    }
    var ms: seq<string> :| DigestOf(assets, n, names, a, x, ms);
    var others: seq<string> :| DigestOf(assets, n, names, b, y, others);
    MutualCycles(assets, a, b, ms);
    CycleUnique(assets, b, ms, others);
  }

  lemma CycleDigestOf(assets: Assets, n: Naming, names: map<string, string>, a: string, x: string)
    requires Scanned(assets) && HasDigest(assets, n, names, a, x) && OnCycle(DepGraph(assets), a)
    ensures CycleHash(assets, n, names, a, x)
  {
    DepGraphNodes(assets, a);
  }

  lemma OnCycleMutual(assets: Assets, a: string, b: string)
    requires OnCycle(DepGraph(assets), a) && Mutual(DepGraph(assets), a, b)
    ensures OnCycle(DepGraph(assets), b)
  {
    var g := DepGraph(assets);
    if a != b {
      var p: seq<string> :| IsPath(g, p, b, a);
      assert IsPath(g, p[1..], p[1], a);
      ReachTrans(g, p[1], a, b);
    }
  }

  lemma MutualCycles(assets: Assets, a: string, b: string, ms: seq<string>)
    requires CycleOf(assets, a, ms) && Mutual(DepGraph(assets), a, b)
    ensures CycleOf(assets, b, ms)
  {
    var g := DepGraph(assets);
    forall c
      ensures c in ms <==> Mutual(g, b, c)
    {
      hide Reach;
      if Mutual(g, a, c) {
        ReachTrans(g, b, a, c);
        ReachTrans(g, c, a, b);
      }
      if Mutual(g, b, c) {
        ReachTrans(g, a, b, c);
        ReachTrans(g, c, b, a);
      }
    }
  }

  method PlanComponents(assets: Assets, n: Naming, ghost h: Digests, d0: Draft, comps: seq<Component<string>>)
    returns (r: Result)
    requires Scanned(assets) && Good(assets, n, h, d0) && Ordered(assets, comps) && AreDigests(assets, n, h)
    requires d0.planned.Keys == d0.names.Keys && NamedBefore(assets, comps, 0, d0.names)
    ensures r.Ok? ==> IsPlan(assets, n, h, r) && NoClash(assets, n, h)
    ensures r.Err? ==> IsCollision(assets, n, h, r.error)
  {
    hide Scanned, Good, IsPlan, NamedBefore, Ordered, SettledWith, Settled, Extends, StringLeq, IsCollision,
         CycleDigest, AreDigests, Final, NoClash, Distinct;
    var d := d0;
    for k := 0 to |comps|
      invariant Good(assets, n, h, d) && NamedBefore(assets, comps, k, d.names) && d.planned.Keys == d.names.Keys
    {
      var members := comps[k].nodes;
      ghost var before := d;
      MembersReady(assets, comps, k, d.names);
      MembersDigest(assets, n, h, comps, k, d);
      if !comps[k].cyclic {
        r, d := PlanSingle(assets, n, h, d, members[0]);
      } else {
        r, d := PlanCycle(assets, n, h, d, members);
      }
      if r.Err? { return; }
      NamedNext(assets, comps, k, before.names, d.names);
    }
    AllNamed(assets, comps, d.names);
    PlanIntro(assets, n, h, d);
    r := Ok(d.names, d.planned, d.order);
  }

  /** The digests computed for component k are those of h. */
  lemma MembersDigest(assets: Assets, n: Naming, h: Digests, comps: seq<Component<string>>, k: nat, d: Draft)
    requires Scanned(assets) && Good(assets, n, h, d) && Ordered(assets, comps) && AreDigests(assets, n, h)
    requires k < |comps| && NamedBefore(assets, comps, k, d.names)
    requires forall a :: a in comps[k].nodes ==> a in assets
    ensures forall a :: a in comps[k].nodes ==> a in h && h[a] == Computed(assets, n, d.names, comps[k], a)
  {
    assert Extends(assets, d.names, NamesOf(n, h)) by { NamesKnown(assets, n, h, d); }
    hide Ordered, NamedBefore, Extends, HasDigest, Computed, Good;
    forall a | a in comps[k].nodes
      ensures a in h && h[a] == Computed(assets, n, d.names, comps[k], a)
    {
      ComputedHas(assets, n, comps, k, d.names, NamesOf(n, h), a, h[a]);
    }
  }

  lemma NamedNext(assets: Assets, comps: seq<Component<string>>, k: nat, names: map<string, string>,
                  more: map<string, string>)
    requires k < |comps| && NamedBefore(assets, comps, k, names)
    requires forall a :: a in more <==> a in names || a in comps[k].nodes
    ensures NamedBefore(assets, comps, k + 1, more)
  {
    forall a { PlacedNext(NodesOf(comps), k, a); }
  }

  lemma PlanIntro(assets: Assets, n: Naming, h: Digests, d: Draft)
    requires Scanned(assets) && Good(assets, n, h, d) && AreDigests(assets, n, h)
    requires d.names.Keys == assets.Keys && d.planned.Keys == assets.Keys
    ensures IsPlan(assets, n, h, Ok(d.names, d.planned, d.order)) && NoClash(assets, n, h)
  {
    hide AllFit, Digested;
    assert d.names == NamesOf(n, h);
  }

  lemma MembersReady(assets: Assets, comps: seq<Component<string>>, k: nat, names: map<string, string>)
    requires Ordered(assets, comps) && k < |comps| && NamedBefore(assets, comps, k, names)
    ensures comps[k].nodes != [] && Distinct(comps[k].nodes)
    ensures forall a :: a in comps[k].nodes ==> a in assets && Rewritable(assets[a]) && a !in names
    ensures forall a :: a in comps[k].nodes ==> SettledWith(assets, names, comps[k].nodes, assets[a])
    ensures !comps[k].cyclic ==> |comps[k].nodes| == 1 && Settled(assets, names, assets[comps[k].nodes[0]])
  {
    assert NodesOf(comps)[k] == comps[k].nodes;
    forall a | a in comps[k].nodes
      ensures a in assets && Rewritable(assets[a]) && a !in names &&
              SettledWith(assets, names, comps[k].nodes, assets[a])
      ensures !comps[k].cyclic ==> comps[k].nodes == [a] && Settled(assets, names, assets[a])
    {
      MemberFacts(assets, comps, k, names, a);
    }
    assert comps[k].nodes[0] in comps[k].nodes;
  }

  lemma AllNamed(assets: Assets, comps: seq<Component<string>>, names: map<string, string>)
    requires Ordered(assets, comps) && NamedBefore(assets, comps, |comps|, names)
    ensures names.Keys == assets.Keys
  {
    forall a
      ensures a in names <==> a in assets
    {
      DepGraphNodes(assets, a);
      assert a in DepGraph(assets) <==> Placed(NodesOf(comps), |NodesOf(comps)|, a);
    }
  }

  /** The first reference the validator rejects, importers in order. */
  method FirstRejected(assets: Assets, importers: seq<string>, accept: (string, Ref) -> bool) returns (r: Result)
    requires forall a :: a in importers ==> a in assets
    ensures r.Err? ==> r.error.Rejected? && r.error.importer in importers
                       && r.error.ref in assets[r.error.importer].refs && !accept(r.error.importer, r.error.ref)
    ensures r.Ok? ==> forall a, i :: a in importers && 0 <= i < |assets[a].refs| ==> accept(a, assets[a].refs[i])
  {
    for k := 0 to |importers|
      invariant forall a, i :: a in importers[..k] && 0 <= i < |assets[a].refs| ==> accept(a, assets[a].refs[i])
    {
      var a := importers[k];
      for i := 0 to |assets[a].refs|
        invariant forall j :: 0 <= j < i ==> accept(a, assets[a].refs[j])
      {
        if !accept(a, assets[a].refs[i]) {
          return Err(Rejected(a, assets[a].refs[i]));
        }
      }
    }
    assert importers[..|importers|] == importers;
    r := Ok(map[], map[], []);
  }

  function Importers(assets: Assets): set<string> {
    set a | a in assets && Rewritable(assets[a])
  }

  /** The validator accepts every reference of every importer. */
  ghost predicate AllAccepted(assets: Assets, accept: (string, Ref) -> bool) {
    forall a, i :: a in assets && Rewritable(assets[a]) && 0 <= i < |assets[a].refs| ==> accept(a, assets[a].refs[i])
  }

  /** planBuild: it fails exactly when the validator rejects a reference or two names clash, and else names every asset
      by its digest. The order of the components depends on nothing that is named, so it is found first. */
  method PlanBuild(assets: Assets, n: Naming, accept: (string, Ref) -> bool) returns (r: Result, ghost h: Digests)
    requires Scanned(assets)
    ensures AreDigests(assets, n, h)
    ensures forall g {:trigger AreDigests(assets, n, g)} :: AreDigests(assets, n, g) ==> g == h
    ensures r.Ok? <==> AllAccepted(assets, accept) && NoClash(assets, n, h)
    ensures r.Ok? ==> IsPlan(assets, n, h, r)
    ensures r.Err? && r.error.Collision? ==> IsCollision(assets, n, h, r.error)
    ensures r.Err? && r.error.Rejected? ==> r.error.importer in assets && r.error.ref in assets[r.error.importer].refs
                                            && !accept(r.error.importer, r.error.ref)
  {
    hide Good, IsPlan, Ordered, NamedBefore, StringLeq, TotalOrder, IsDecomposition, DependenciesFirst, LeastFirst,
         AreDigests, Scanned, NoClash, IsCollision, Distinct;
    StringOrder();
    var comps := DependencyComponents(DependencyMap(assets), StringLeq);
    OrderedIntro(assets, comps);
    h := DigestsExist(assets, n, comps);
    forall g | AreDigests(assets, n, g)
      ensures g == h
    {
      DigestsUnique(assets, n, comps, g, h);
    }
    var sorted := SortedPaths(assets.Keys - Importers(assets));
    PassthroughDigests(assets, n, h);
    var d;
    r, d := PlanPassthrough(assets, n, h, sorted);
    if r.Err? { Collided(assets, n, h, r.error); return; }
    var importers := SortedPaths(Importers(assets));
    r := FirstRejected(assets, importers, accept);
    if r.Err? { return; }
    NamedBeforeIntro(assets, comps, d.names);
    r := PlanComponents(assets, n, h, d, comps);
    if r.Err? { Collided(assets, n, h, r.error); }
  }

  lemma PassthroughDigests(assets: Assets, n: Naming, h: Digests)
    requires Scanned(assets) && AreDigests(assets, n, h)
    ensures forall a :: a in assets && !Rewritable(assets[a]) ==> a in h && h[a] == n.digest(assets[a].content)
  {
    assert forall a :: a in h ==> HasDigest(assets, n, NamesOf(n, h), a, h[a]);
  }

  lemma Collided(assets: Assets, n: Naming, h: Digests, e: Error)
    requires IsCollision(assets, n, h, e)
    ensures e.Collision? && !NoClash(assets, n, h)
  {}

  lemma OrderedIntro(assets: Assets, comps: seq<Component<string>>)
    requires IsDecomposition(DepGraph(assets), StringLeq, NodesOf(comps))
    requires DependenciesFirst(DepGraph(assets), NodesOf(comps))
    requires forall k, v :: 0 <= k < |comps| && v in comps[k].nodes ==>
             (comps[k].cyclic <==> OnCycle(DepGraph(assets), v))
    ensures Ordered(assets, comps)
  {}

  lemma NamedBeforeIntro(assets: Assets, comps: seq<Component<string>>, names: map<string, string>)
    requires forall a :: a in names <==> a in assets && !Rewritable(assets[a])
    ensures NamedBefore(assets, comps, 0, names)
  {}

  method SortedPaths(paths: set<string>) returns (sorted: seq<string>)
    ensures Distinct(sorted) && forall a :: a in sorted <==> a in paths
  {
    var rest := paths;
    var s := [];
    while rest != {}
      invariant rest <= paths && Distinct(s) && forall a :: a in s <==> a in paths && a !in rest
      decreases rest
    {
      var a :| a in rest;
      s, rest := s + [a], rest - {a};
    }
    SortDistinct(s, StringLeq);
    sorted := Sort(s, StringLeq);
  }

  // ---- what the plan means for a reader of the output ----

  /** In a successful plan, each reference of an asset to a collected asset stands in its output as prefix + that
      asset's final name + suffix, at the reference's own place, inside cycles too. */
  lemma ReferenceFinal(assets: Assets, n: Naming, h: Digests, r: Result, a: string, k: nat)
    returns (before: string, after: string)
    requires Scanned(assets) && r.Ok? && IsPlan(assets, n, h, r)
    requires a in assets && Rewritable(assets[a]) && WellPlaced(assets[a].content, assets[a].refs)
    requires k < |assets[a].refs|
    requires var ref := Sort(assets[a].refs, StartLeq)[k]; ref.resolved != "" && ref.resolved in assets
    ensures var refs := Sort(assets[a].refs, StartLeq);
            var next := if k + 1 < |refs| then refs[k + 1].start else |assets[a].content|;
            && refs[k].end <= next <= |assets[a].content|
            && r.planned[a].content == before + (n.prefix + r.names[refs[k].resolved] + refs[k].suffix) +
                                       assets[a].content[refs[k].end..next] + after
            && |before| == Offset(refs, ByName(r.names, n.prefix), k)
  {
    var text, refs := assets[a].content, Sort(assets[a].refs, StartLeq);
    SortedInOrder(text, assets[a].refs);
    PlannedText(assets, n, h, r, a);
    hide IsPlan, Sort, Scanned, WellPlaced, ByName;
    SpliceRenders(text, refs, ByName(r.names, n.prefix), 0);
    InOrderAt(text, refs, 0, k);
    before, after := PieceAt(text, refs, ByName(r.names, n.prefix), 0, k);
    assert ByName(r.names, n.prefix)(refs[k]) == Target(r.names, n.prefix, refs[k]) by { ByNameIs(r.names, n.prefix); }
  }

  lemma ByNameIs(names: map<string, string>, prefix: string)
    ensures forall r :: ByName(names, prefix)(r) == Target(names, prefix, r)
  {}

  lemma PlannedText(assets: Assets, n: Naming, h: Digests, r: Result, a: string)
    requires Scanned(assets) && r.Ok? && IsPlan(assets, n, h, r) && a in assets && Rewritable(assets[a])
    ensures assets.Keys <= r.names.Keys && a in r.planned
    ensures InBounds(assets[a].content, Sort(assets[a].refs, StartLeq))
    ensures r.planned[a].content ==
            Splice(assets[a].content, Sort(assets[a].refs, StartLeq), ByName(r.names, n.prefix), 0)
  {
    assert Fits(assets, n, r.names, a, r.planned[a]);
    hide Settled, ByName, Distinct;
    InBoundsSort(assets[a].content, assets[a].refs);
    forall b | b in assets
      ensures b in r.names
    {
      assert b in r.planned;
    }
  }
}
