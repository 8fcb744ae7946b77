/**
 * Taking a tracked run entry, and whatever region it anchors, out of its parent: what exactly is
 * torn down, and that nothing else is.
 */
module Teardown {
  import opened Prelude
  import opened VirtualDom
  import opened Dom
  import opened Resources

  // --- What is torn down ---

  /** The region registered under `n`. */
  ghost function AnchorOf(a: Snapshot, n: NodeId): Option<RegionId> {
    if n in a.dom.data && a.dom.data[n].regionId.Some? && a.dom.data[n].regionId.value in a.regions
    then Some(a.regions[a.dom.data[n].regionId.value]) else None
  }

  /** The run of the region registered under `n`. */
  ghost function RunAt(a: Snapshot, n: NodeId): seq<NodeId> {
    var r := AnchorOf(a, n);
    if r.Some? && r.value in a.cells then a.cells[r.value].rendered else []
  }

  /** `s` holds the run of every region anchored in it. */
  ghost predicate Closed(a: Snapshot, s: set<NodeId>) {
    forall x, y :: x in s && y in RunAt(a, x) ==> y in s
  }

  /** `torn` is the least set that holds `roots` and is closed: their runs, the runs nested in those, and so on. */
  ghost predicate LeastFrom(a: Snapshot, roots: set<NodeId>, torn: set<NodeId>) {
    && roots <= torn && Closed(a, torn)
    && forall s :: roots <= s && Closed(a, s) ==> torn <= s
  }

  /** Every node of the closed set `scope` hangs under `el`, or nowhere. */
  ghost predicate Scoped(a: Snapshot, el: NodeId, scope: set<NodeId>) {
    && Closed(a, scope)
    && forall x :: x in scope ==>
         x in a.dom.tree && a.dom.tree[x].parent in {None, Some(el)} && !Under(a.dom.tree, x, el)
  }

  function Excluding(s: seq<NodeId>, gone: set<NodeId>): (r: seq<NodeId>)
    ensures forall x :: x in r <==> x in s && x !in gone
  {
    if s == [] then [] else (if s[0] in gone then [] else [s[0]]) + Excluding(s[1..], gone)
  }

  /** `t` with the nodes of `torn` taken out of `el`; the other children keep their order. */
  ghost function Pruned(t: Tree, el: NodeId, torn: set<NodeId>): Tree {
    map x | x in t ::
      if x == el then Link(t[x].parent, Excluding(t[x].kids, torn))
      else if x in torn then Link(None, t[x].kids)
      else t[x]
  }

  /** The subtrees of the nodes in `s`. */
  ghost function Below(t: Tree, s: set<NodeId>): set<NodeId> {
    set x | x in t && exists y :: y in s && Under(t, y, x)
  }

  /** Each child of `el` in `torn` was removed once, and nothing else happened. */
  ghost predicate RemovalLog(d: Document, e: Document, el: NodeId, torn: set<NodeId>) {
    && d.log <= e.log
    && var added := e.log[|d.log|..];
    && Distinct(added)
    && (forall m :: m in added ==> m.Removed? && m.target == el)
    && (forall x :: Removed(el, x) in added <==> x in torn && IsChild(d, el, x))
  }

  /**
   * From `a` to `b` the nodes of `torn` were taken out of `el`, their subtrees' resources were
   * released, the regions anchored in those were unregistered and disposed, and nothing else changed.
   */
  ghost predicate TornDown(a: Snapshot, b: Snapshot, el: NodeId, torn: set<NodeId>) {
    var s := Below(a.dom.tree, torn);
    && b.dom.rules == a.dom.rules && b.dom.next == a.dom.next
    && b.dom.tree == Pruned(a.dom.tree, el, torn) && b.dom.data == Muted(a.dom.data, s)
    && RemovalLog(a.dom, b.dom, el, torn)
    && b.events == Purged(a.events, a.eventOwner, s)
    && b.effects == Purged(a.effects, a.attrOwner, s)
    && b.regions == Purged(a.regions, a.regionOwner, s)
    && b.cells == Disposed(a.cells, RegionsIn(a.regions, a.regionOwner, s))
    && b.eventOwner == a.eventOwner && b.attrOwner == a.attrOwner && b.regionOwner == a.regionOwner
  }

  // --- Composing two teardowns ---

  lemma {:induction false} ExcludingTwice(s: seq<NodeId>, a: set<NodeId>, b: set<NodeId>)
    ensures Excluding(Excluding(s, a), b) == Excluding(s, a + b)
  {
    if s != [] {
      ExcludingTwice(s[1..], a, b);
      var rest := Excluding(s[1..], a);
      if s[0] in a {
        assert Excluding(s, a) == rest;
      } else {
        assert Excluding(s, a) == [s[0]] + rest && ([s[0]] + rest)[1..] == rest;
      }
    }
  }

  lemma PrunedTwice(t: Tree, el: NodeId, a: set<NodeId>, b: set<NodeId>)
    ensures Pruned(Pruned(t, el, a), el, b) == Pruned(t, el, a + b)
  {
    if el in t {
      ExcludingTwice(t[el].kids, a, b);
    }
  }

  /** Taking siblings out does not change what hangs below one of them. */
  lemma {:induction false} PrunedUnder(t: Tree, el: NodeId, torn: set<NodeId>, y: NodeId, x: NodeId)
    requires forall z :: z in torn ==> z in t ==> t[z].parent in {None, Some(el)}
    requires !Under(t, y, el)
    ensures Under(Pruned(t, el, torn), y, x) <==> Under(t, y, x)
    decreases x
  {
    if x != y && x in t && t[x].parent.Some? && t[x].parent.value < x {
      PrunedUnder(t, el, torn, y, t[x].parent.value);
    }
  }

  lemma BelowTwice(t: Tree, el: NodeId, a: set<NodeId>, b: set<NodeId>)
    requires forall z :: z in a ==> z in t ==> t[z].parent in {None, Some(el)}
    requires forall y :: y in b ==> !Under(t, y, el)
    ensures Below(t, a) + Below(Pruned(t, el, a), b) == Below(t, a + b)
  {
    forall x | x in t ensures x in Below(t, a) + Below(Pruned(t, el, a), b) <==> x in Below(t, a + b) {
      forall y | y in b ensures Under(Pruned(t, el, a), y, x) <==> Under(t, y, x) {
        PrunedUnder(t, el, a, y, x);
      }
    }
  }

  lemma RemovalLogTrans(d: Document, e: Document, f: Document, el: NodeId, a: set<NodeId>, b: set<NodeId>)
    requires RemovalLog(d, e, el, a) && RemovalLog(e, f, el, b)
    requires e.tree == Pruned(d.tree, el, a) && el !in a && el !in b
    ensures RemovalLog(d, f, el, a + b)
  {
    var x, y := e.log[|d.log|..], f.log[|e.log|..];
    assert f.log[|d.log|..] == x + y;
    assert forall n :: n in b ==> (IsChild(e, el, n) <==> IsChild(d, el, n) && n !in a);
    forall m | m in x ensures m !in y {
      assert m == Removed(el, m.node);
    }
    DistinctConcat(x, y);
  }

  lemma TornTrans(a: Snapshot, b: Snapshot, c: Snapshot, el: NodeId, s: set<NodeId>, t: set<NodeId>)
    requires TornDown(a, b, el, s) && TornDown(b, c, el, t)
    requires forall z :: z in s + t ==> z in a.dom.tree && a.dom.tree[z].parent in {None, Some(el)}
    requires forall y :: y in s + t ==> !Under(a.dom.tree, y, el)
    ensures TornDown(a, c, el, s + t)
  {
    hide Pruned, Muted, Purged, Disposed, RegionsIn, Below, RemovalLog;
    var u, v := Below(a.dom.tree, s), Below(b.dom.tree, t);
    BelowTwice(a.dom.tree, el, s, t);
    PrunedTwice(a.dom.tree, el, s, t);
    MutedTwice(a.dom.data, u, v);
    PurgedTwice(a.events, a.eventOwner, u, v);
    PurgedTwice(a.effects, a.attrOwner, u, v);
    PurgedTwice(a.regions, a.regionOwner, u, v);
    DisposedTwice(a.cells, a.regions, a.regionOwner, u, v);
    assert Under(a.dom.tree, el, el);
    RemovalLogTrans(a.dom, b.dom, c.dom, el, s, t);
  }

  // --- One node ---

  /** `a` once the region registered under `n` was taken and disposed. */
  ghost function Taken(a: Snapshot, n: NodeId): Snapshot {
    a.(regions := Purged(a.regions, a.regionOwner, {n}),
       cells := Disposed(a.cells, RegionsIn(a.regions, a.regionOwner, {n})))
  }

  lemma TakenFirst(a: Snapshot, b: Snapshot, el: NodeId, n: NodeId, torn: set<NodeId>)
    requires TornDown(Taken(a, n), b, el, torn) && n in torn && n in a.dom.tree
    ensures TornDown(a, b, el, torn)
  {
    hide Pruned, Muted, Purged, Disposed, RegionsIn, RemovalLog;
    var s := Below(a.dom.tree, torn);
    assert Under(a.dom.tree, n, n);
    assert {n} + s == s;
    PurgedTwice(a.regions, a.regionOwner, {n}, s);
    DisposedTwice(a.cells, a.regions, a.regionOwner, {n}, s);
  }

  lemma {:induction false} ExcludingOne(s: seq<NodeId>, n: NodeId)
    ensures Excluding(s, {n}) == Without(s, n)
  {
    if s != [] {
      ExcludingOne(s[1..], n);
    }
  }

  /** Releasing a node's subtree and removing the node tears down just it. */
  lemma RemovedOne(a: Snapshot, b: Snapshot, el: NodeId, n: NodeId)
    requires WellFormed(a.dom) && WellFormed(b.dom) && Released(a, b, Subtree(a.dom.tree, n))
    requires el in a.dom.tree && n in a.dom.tree
    requires a.dom.tree[n].parent in {None, Some(el)} && !Under(a.dom.tree, n, el)
    ensures TornDown(a, b.(dom := RemoveChild(b.dom, el, n).0), el, {n})
  {
    hide Muted, Purged, Disposed, RegionsIn, WellFormed, Pruned, RemoveChild;
    assert Below(a.dom.tree, {n}) == Subtree(a.dom.tree, n);
    assert Under(a.dom.tree, el, el);
    assert n != el;
    PrunedOne(b.dom, el, n);
    RemovalLogOne(b.dom, el, n);
  }

  lemma PrunedOne(d: Document, el: NodeId, n: NodeId)
    requires WellFormed(d) && el in d.tree && n in d.tree && n != el && d.tree[n].parent in {None, Some(el)}
    ensures RemoveChild(d, el, n).0.tree == Pruned(d.tree, el, {n})
  {
    hide RemoveChild, Detach, WellFormed;
    ExcludingOne(d.tree[el].kids, n);
    if d.tree[n].parent == None {
      NotListed(d, el, n);
    } else {
      DetachedLinks(d, el, n);
    }
  }

  lemma NotListed(d: Document, el: NodeId, n: NodeId)
    requires WellFormed(d) && el in d.tree && n in d.tree && d.tree[n].parent == None
    ensures Without(d.tree[el].kids, n) == d.tree[el].kids
  {
    assert LinksOk(d.tree, el);
    WithoutAbsent(d.tree[el].kids, n);
  }

  lemma DetachedLinks(d: Document, el: NodeId, n: NodeId)
    requires WellFormed(d) && el in d.tree && n in d.tree && n != el && d.tree[n].parent == Some(el)
    ensures RemoveChild(d, el, n).0.tree ==
            d.tree[el := Link(d.tree[el].parent, Without(d.tree[el].kids, n))][n := Link(None, d.tree[n].kids)]
  {
    hide RemoveChild;
  }

  lemma RemovalLogOne(d: Document, el: NodeId, n: NodeId)
    requires WellFormed(d)
    ensures RemovalLog(d, RemoveChild(d, el, n).0, el, {n})
  {
    var e := RemoveChild(d, el, n).0;
    assert e.log[|d.log|..] == if IsChild(d, el, n) then [Removed(el, n)] else [];
  }

  // --- Closure bookkeeping ---

  /** Ids are handed out once, so a registered id found on a node is that node's. */
  ghost predicate OwnIds(a: Snapshot) {
    && RegionsAgree(a.dom.data, a.regions, a.regionOwner)
    && CellsExist(a.regions, a.cells)
  }

  /** After a region was taken, the other anchors still hold their runs. */
  lemma TakenRuns(a: Snapshot, n: NodeId, x: NodeId)
    requires OwnIds(a)
    ensures RunAt(Taken(a, n), x) == if x == n then [] else RunAt(a, x)
  {
  }

  /** After a teardown, the anchors outside what was torn still hold their runs. */
  lemma TornRuns(a: Snapshot, b: Snapshot, el: NodeId, torn: set<NodeId>, x: NodeId)
    requires OwnIds(a) && TornDown(a, b, el, torn)
    ensures RunAt(b, x) == if x in Below(a.dom.tree, torn) then [] else RunAt(a, x)
  {
    hide Below, RemovalLog, Pruned;
  }

  /** No node of the scope hangs below another. */
  lemma {:induction false} ScopeApart(a: Snapshot, el: NodeId, scope: set<NodeId>, y: NodeId, x: NodeId)
    requires Scoped(a, el, scope) && y in scope && x in scope && x != y
    ensures !Under(a.dom.tree, y, x)
  {
  }

  lemma FewerRuns(a: Snapshot, b: Snapshot, s: set<NodeId>)
    requires Closed(a, s)
    requires forall x :: x in s ==> RunAt(b, x) == RunAt(a, x) || RunAt(b, x) == []
    ensures Closed(b, s)
  {
  }

  lemma ScopedTaken(a: Snapshot, el: NodeId, scope: set<NodeId>, n: NodeId)
    requires OwnIds(a) && Scoped(a, el, scope)
    ensures Scoped(Taken(a, n), el, scope)
  {
    hide RunAt;
    forall x ensures RunAt(Taken(a, n), x) == RunAt(a, x) || RunAt(Taken(a, n), x) == [] {
      TakenRuns(a, n, x);
    }
    FewerRuns(a, Taken(a, n), scope);
  }

  lemma ScopedTorn(a: Snapshot, b: Snapshot, el: NodeId, scope: set<NodeId>, torn: set<NodeId>)
    requires OwnIds(a) && Scoped(a, el, scope) && TornDown(a, b, el, torn) && torn <= scope
    ensures Scoped(b, el, scope)
  {
    hide RunAt, RemovalLog, Muted, Purged, Disposed, Below;
    forall x ensures RunAt(b, x) == RunAt(a, x) || RunAt(b, x) == [] {
      TornRuns(a, b, el, torn, x);
    }
    FewerRuns(a, b, scope);
    forall x | x in scope ensures !Under(b.dom.tree, x, el) {
      PrunedUnder(a.dom.tree, el, torn, x, el);
    }
  }

  /** The content of the region anchored at `n`, and `n`, is what `n` reaches. */
  lemma LeastOfAnchor(a: Snapshot, n: NodeId, torn: set<NodeId>)
    requires OwnIds(a) && LeastFrom(Taken(a, n), Members(RunAt(a, n)), torn)
    ensures LeastFrom(a, {n}, torn + {n})
  {
    hide RunAt;
    var b := Taken(a, n);
    forall x ensures RunAt(b, x) == if x == n then [] else RunAt(a, x) {
      TakenRuns(a, n, x);
    }
    forall s | {n} <= s && Closed(a, s) ensures torn + {n} <= s {
      assert n in s;
      FewerRuns(a, b, s);
      assert Members(RunAt(a, n)) <= s;
    }
  }

  ghost function Members(s: seq<NodeId>): set<NodeId> {
    set x | x in s
  }

  lemma MembersNone()
    ensures Members([]) == {}
  {
  }

  lemma MembersNext(s: seq<NodeId>, i: nat)
    requires i < |s|
    ensures Members(s[..i + 1]) == Members(s[..i]) + {s[i]}
  {
  }

  /** Tearing down one more root after the rest reaches what all of them reach. */
  lemma LeastNext(a: Snapshot, b: Snapshot, el: NodeId, scope: set<NodeId>, roots: set<NodeId>, s: set<NodeId>,
                  n: NodeId, t: set<NodeId>)
    requires OwnIds(a) && Scoped(a, el, scope) && s <= scope && t <= scope
    requires LeastFrom(a, roots, s) && TornDown(a, b, el, s) && LeastFrom(b, {n}, t)
    ensures LeastFrom(a, roots + {n}, s + t)
  {
    hide RunAt, TornDown;
    forall x ensures RunAt(b, x) == if x in Below(a.dom.tree, s) then [] else RunAt(a, x) {
      TornRuns(a, b, el, s, x);
    }
    forall x | x in t && x !in s ensures RunAt(b, x) == RunAt(a, x) {
      forall y | y in s ensures !Under(a.dom.tree, y, x) {
        ScopeApart(a, el, scope, y, x);
      }
    }
    forall u | roots + {n} <= u && Closed(a, u) ensures s + t <= u {
      assert n in u;
      FewerRuns(a, b, u);
    }
  }

  // --- The runtime's two functions ---

  /** Every handle a region tracks is a node. */
  ghost predicate HandlesOk(cells: map<RegionId, RegionCells>, tree: Tree) {
    forall r :: r in cells ==> forall n :: n in cells[r].rendered ==> n in tree
  }

  /** A teardown that unregisters and disposes region `n` on the way and tears `torn` down. */
  ghost predicate ContentTorn(a: Snapshot, b: Snapshot, el: NodeId, n: NodeId, torn: set<NodeId>) {
    && TornDown(Taken(a, n), b, el, torn)
    && LeastFrom(Taken(a, n), Members(RunAt(a, n)), torn)
  }

  /** `n` and everything it reaches is torn down, and nothing else. */
  ghost predicate NodeTorn(a: Snapshot, b: Snapshot, el: NodeId, n: NodeId, torn: set<NodeId>) {
    TornDown(a, b, el, torn) && LeastFrom(a, {n}, torn)
  }

  /** What the loop over a region's run has torn down so far. */
  ghost predicate Partly(a: Snapshot, b: Snapshot, el: NodeId, scope: set<NodeId>, roots: set<NodeId>,
                         torn: set<NodeId>) {
    && OwnIds(a) && Scoped(a, el, scope) && roots <= scope
    && TornDown(a, b, el, torn) && LeastFrom(a, roots, torn)
  }

  lemma PartlyNone(a: Snapshot, el: NodeId, scope: set<NodeId>)
    requires OwnIds(a) && Scoped(a, el, scope)
    ensures Partly(a, a, el, scope, {}, {})
  {
    NoneTorn(a, el);
  }

  lemma NoneTorn(a: Snapshot, el: NodeId)
    ensures TornDown(a, a, el, {}) && LeastFrom(a, {}, {})
  {
    hide RunAt;
    if el in a.dom.tree {
      ExcludingNone(a.dom.tree[el].kids);
    }
    assert Below(a.dom.tree, {}) == {};
    assert a.dom.log[|a.dom.log|..] == [];
  }

  lemma {:induction false} ExcludingNone(s: seq<NodeId>)
    ensures Excluding(s, {}) == s
  {
    if s != [] {
      ExcludingNone(s[1..]);
    }
  }

  lemma PartlyNext(a: Snapshot, b: Snapshot, c: Snapshot, el: NodeId, scope: set<NodeId>, roots: set<NodeId>,
                   s: set<NodeId>, n: NodeId, t: set<NodeId>)
    requires Partly(a, b, el, scope, roots, s) && n in scope && NodeTorn(b, c, el, n, t) && OwnIds(b)
    ensures Partly(a, c, el, scope, roots + {n}, s + t)
  {
    hide TornDown, OwnIds, Closed;
    assert s <= scope && Scoped(b, el, scope) by {
      assert Closed(a, scope);
      ScopedTorn(a, b, el, scope, s);
    }
    assert t <= scope;
    LeastNext(a, b, el, scope, roots, s, n, t);
    TornTrans(a, b, c, el, s, t);
  }

  /** The content of the region at `n` was torn down; now `n` itself went. */
  lemma NodeAfterContent(a: Snapshot, b: Snapshot, c: Snapshot, el: NodeId, scope: set<NodeId>, n: NodeId,
                         torn: set<NodeId>)
    requires OwnIds(a) && Scoped(a, el, scope) && n in scope && ContentTorn(a, b, el, n, torn)
    requires WellFormed(a.dom) && WellFormed(b.dom) && WellFormed(c.dom) && el in a.dom.tree
    requires Released(b, c, Subtree(b.dom.tree, n))
    ensures NodeTorn(a, c.(dom := RemoveChild(c.dom, el, n).0), el, n, torn + {n})
  {
    hide TornDown, OwnIds, Closed, WellFormed, Released, RemoveChild, RunAt;
    var a' := Taken(a, n);
    var d := c.(dom := RemoveChild(c.dom, el, n).0);
    LeastOfAnchor(a, n, torn);
    assert torn + {n} <= scope by {
      assert Closed(a, scope);
    }
    TakenKept(a, n);
    ScopedTaken(a, el, scope, n);
    ScopedTorn(a', b, el, scope, torn);
    TornKeeps(a', b, el, torn);
    RemovedOne(b, c, el, n);
    TornTrans(a', b, d, el, torn, {n});
    TakenFirst(a, d, el, n, torn + {n});
  }

  lemma TakenKept(a: Snapshot, n: NodeId)
    requires OwnIds(a)
    ensures OwnIds(Taken(a, n)) && Taken(a, n).dom == a.dom
  {
  }

  lemma TornKeeps(a: Snapshot, b: Snapshot, el: NodeId, torn: set<NodeId>)
    requires TornDown(a, b, el, torn)
    ensures b.dom.tree.Keys == a.dom.tree.Keys
  {
  }

  lemma Owned(rt: Runtime)
    requires rt.Valid()
    ensures OwnIds(Now(rt)) && WellFormed(rt.dom) && rt.dom.tree.Keys == rt.dom.data.Keys
  {
  }

  lemma TakenNow(rt: Runtime, n: NodeId)
    requires rt.Valid() && n in rt.dom.data
    ensures Taken(Now(rt), n) == Now(rt).(
              regions := Dropped(rt.dynamicRegions, rt.dom.data[n].regionId),
              cells := DisposedAt(rt.cells, RegionAt(rt, n)))
  {
    hide WellFormed, EventsAgree, EffectsAgree, RegionsAgree, Purged;
    ReleasedAnchor(rt.dom.data, n, rt.dynamicRegions, rt.regionOwner);
  }

  ghost function DisposedAt(cells: map<RegionId, RegionCells>, r: Option<RegionId>): map<RegionId, RegionCells> {
    if r.Some? && r.value in cells then cells[r.value := cells[r.value].(effect := None)] else cells
  }

  /**
   * If `n` is a region anchor, tears the region down: unregisters it, disposes its effect and
   * removes its run, recursively. The anchor itself is left to the caller.
   */
  method RemoveRegionContent(rt: Runtime, el: NodeId, n: NodeId,
                             ghost scope: set<NodeId>) returns (ghost torn: set<NodeId>)
    requires rt.Valid() && el in rt.dom.tree && n in rt.dom.data
    requires RegionAt(rt, n).Some? ==> HandlesOk(rt.cells, rt.dom.tree)
    modifies rt`dom, rt`eventClosures, rt`attributeEffects, rt`liveEffects, rt`dynamicRegions, rt`cells
    ensures rt.Valid()
    ensures old(RegionAt(rt, n)).None? ==> Now(rt) == old(Now(rt)) && rt.liveEffects == old(rt.liveEffects)
    ensures rt.dom.tree.Keys == old(rt.dom).tree.Keys && rt.dom.data.Keys == old(rt.dom).data.Keys
    ensures HandlesOk(old(rt.cells), old(rt.dom).tree) ==> HandlesOk(rt.cells, rt.dom.tree)
    ensures rt.dynamicRegions.Keys <= old(rt.dynamicRegions).Keys
    ensures old(Scoped(Now(rt), el, scope)) && n in scope ==> ContentTorn(old(Now(rt)), Now(rt), el, n, torn)
    decreases rt.dynamicRegions.Keys, 0
  {
    hide WellFormed, EventsAgree, EffectsAgree, RegionsAgree, Issued, CellsExist, Numbered, Scoped, TornDown, LeastFrom,
         OwnIds, Taken, Purged, Disposed, RegionsIn, Closed, Members, Partly, NodeTorn;
    torn := {};
    ghost var a, a' := Now(rt), Taken(Now(rt), n);
    Owned(rt);
    TakenKept(a, n);
    TakenNow(rt, n);
    NoneTorn(a', el);
    var region := TakeDynamicRegion(rt, n);
    if region.None? {
      assert Members([]) == {} by {
        MembersNone();
      }
      return;
    }
    DisposeRegionEffect(rt, region.value);
    var rendered := rt.cells[region.value].rendered;
    ghost var scoped := Scoped(a, el, scope) && n in scope;
    if scoped {
      ScopedTaken(a, el, scope, n);
      RunInScope(a, el, scope, n);
    }
    assert Now(rt) == a' && RunAt(a, n) == rendered;
    torn := RemoveRun(rt, el, rendered, if scoped then scope else {});
  }

  /** Removes the entries of a region's run. */
  method RemoveRun(rt: Runtime, el: NodeId, run: seq<NodeId>,
                   ghost scope: set<NodeId>) returns (ghost torn: set<NodeId>)
    requires rt.Valid() && el in rt.dom.tree && HandlesOk(rt.cells, rt.dom.tree)
    requires forall i :: 0 <= i < |run| ==> run[i] in rt.dom.tree
    modifies rt`dom, rt`eventClosures, rt`attributeEffects, rt`liveEffects, rt`dynamicRegions, rt`cells
    ensures rt.Valid() && HandlesOk(rt.cells, rt.dom.tree)
    ensures rt.dom.tree.Keys == old(rt.dom).tree.Keys && rt.dom.data.Keys == old(rt.dom).data.Keys
    ensures rt.dynamicRegions.Keys <= old(rt.dynamicRegions).Keys
    ensures old(Scoped(Now(rt), el, scope)) && Members(run) <= scope ==>
              TornDown(old(Now(rt)), Now(rt), el, torn) && LeastFrom(old(Now(rt)), Members(run), torn)
    decreases rt.dynamicRegions.Keys, 2
  {
    hide WellFormed, EventsAgree, EffectsAgree, RegionsAgree, Issued, CellsExist, Numbered, Scoped, TornDown, LeastFrom,
         OwnIds, Closed, Members, Partly, NodeTorn, HandlesOk;
    torn := {};
    ghost var a := Now(rt);
    ghost var scoped := Scoped(a, el, scope) && Members(run) <= scope;
    Owned(rt);
    MembersNone();
    MembersAll(run);
    if scoped {
      PartlyNone(a, el, scope);
    }
    assert run[..0] == [];
    for i := 0 to |run|
      invariant rt.Valid() && HandlesOk(rt.cells, rt.dom.tree)
      invariant rt.dom.tree.Keys == old(rt.dom).tree.Keys && rt.dom.data.Keys == old(rt.dom).data.Keys
      invariant rt.dynamicRegions.Keys <= old(rt.dynamicRegions).Keys
      invariant scoped ==> Partly(a, Now(rt), el, scope, Members(run[..i]), torn)
    {
      ghost var b := Now(rt);
      Owned(rt);
      if scoped {
        ScopedPartly(a, b, el, scope, Members(run[..i]), torn);
      }
      ghost var more := RemoveTrackedNode(rt, el, run[i], scope);
      if scoped {
        PartlyNext(a, b, Now(rt), el, scope, Members(run[..i]), torn, run[i], more);
        MembersNext(run, i);
      }
      torn := torn + more;
    }
    assert run[..|run|] == run;
    if scoped {
      PartlyAll(a, Now(rt), el, scope, Members(run), torn);
    }
  }

  lemma MembersAll(s: seq<NodeId>)
    ensures forall i :: 0 <= i < |s| ==> s[i] in Members(s)
  {
  }

  lemma PartlyAll(a: Snapshot, b: Snapshot, el: NodeId, scope: set<NodeId>, roots: set<NodeId>, torn: set<NodeId>)
    requires Partly(a, b, el, scope, roots, torn)
    ensures TornDown(a, b, el, torn) && LeastFrom(a, roots, torn)
  {
    hide TornDown, LeastFrom;
  }

  lemma ScopedPartly(a: Snapshot, b: Snapshot, el: NodeId, scope: set<NodeId>, roots: set<NodeId>, torn: set<NodeId>)
    requires Partly(a, b, el, scope, roots, torn)
    ensures Scoped(b, el, scope)
  {
    hide TornDown, OwnIds, Closed;
    assert Closed(a, scope);
    ScopedTorn(a, b, el, scope, torn);
  }

  lemma RunInScope(a: Snapshot, el: NodeId, scope: set<NodeId>, n: NodeId)
    requires Scoped(a, el, scope) && n in scope
    ensures Members(RunAt(a, n)) <= scope
  {
    hide RunAt;
  }

  /** Removes a tracked run entry: its region if it anchors one, its resources, and itself. */
  method RemoveTrackedNode(rt: Runtime, el: NodeId, n: NodeId,
                           ghost scope: set<NodeId>) returns (ghost torn: set<NodeId>)
    requires rt.Valid() && el in rt.dom.tree && n in rt.dom.tree
    requires RegionAt(rt, n).Some? ==> HandlesOk(rt.cells, rt.dom.tree)
    modifies rt`dom, rt`eventClosures, rt`attributeEffects, rt`liveEffects, rt`dynamicRegions, rt`cells
    ensures rt.Valid()
    ensures rt.dom.tree.Keys == old(rt.dom).tree.Keys && rt.dom.data.Keys == old(rt.dom).data.Keys
    ensures HandlesOk(old(rt.cells), old(rt.dom).tree) ==> HandlesOk(rt.cells, rt.dom.tree)
    ensures rt.dynamicRegions.Keys <= old(rt.dynamicRegions).Keys
    ensures old(RegionAt(rt, n)).None? ==> RemovedPlain(old(Now(rt)), Now(rt), el, n)
    ensures old(Scoped(Now(rt), el, scope)) && n in scope ==> NodeTorn(old(Now(rt)), Now(rt), el, n, torn)
    decreases rt.dynamicRegions.Keys, 1
  {
    hide WellFormed, EventsAgree, EffectsAgree, RegionsAgree, Issued, CellsExist, Numbered, RegionsIn, Scoped, NodeTorn,
         ContentTorn, OwnIds, RemovedPlain, Released, HandlesOk, RemoveChild, Subtree, Under, RegionAt;
    ghost var a := Now(rt);
    TreeAndData(rt.dom);
    Owned(rt);
    torn := RemoveRegionContent(rt, el, n, scope);
    ghost var b := Now(rt);
    Owned(rt);
    ReleaseDomNodeResources(rt, n);
    ReleasedTree(b, Now(rt), Subtree(rt.dom.tree, n));
    ReleasedHandles(b, Now(rt), Subtree(rt.dom.tree, n));
    Owned(rt);
    PlainRemoved(b, Now(rt), el, n);
    if Scoped(a, el, scope) && n in scope {
      NodeAfterContent(a, b, Now(rt), el, scope, n, torn);
    }
    torn := torn + {n};
    SameHandles(rt.cells, rt.dom.tree, RemoveChild(rt.dom, el, n).0.tree);
    Unlink(rt, el, n);
  }

  /** Removes `n` from `el`; a node that is not its child stays where it is. */
  method Unlink(rt: Runtime, el: NodeId, n: NodeId)
    requires rt.Valid() && el in rt.dom.tree && n in rt.dom.tree
    modifies rt`dom
    ensures rt.Valid() && rt.dom == RemoveChild(old(rt.dom), el, n).0
  {
    hide WellFormed, EventsAgree, EffectsAgree, RegionsAgree, Issued, CellsExist, Numbered, RemoveChild;
    TreeAndData(rt.dom);
    rt.dom := RemoveChild(rt.dom, el, n).0;
  }

  lemma SameHandles(cells: map<RegionId, RegionCells>, t: Tree, u: Tree)
    requires t.Keys == u.Keys
    ensures HandlesOk(cells, t) ==> HandlesOk(cells, u)
  {
  }

  /** Every run reached goes with its region; every other child stays, and so does every region anchored elsewhere. */
  lemma TeardownExact(a: Snapshot, b: Snapshot, el: NodeId, n: NodeId, torn: set<NodeId>)
    requires OwnIds(a) && NodeTorn(a, b, el, n, torn) && el in a.dom.tree
    ensures n !in b.dom.tree[el].kids
    ensures forall x, y :: x in torn && y in RunAt(a, x) ==> y !in b.dom.tree[el].kids
    ensures forall x :: x in torn && x in a.dom.tree && AnchorOf(a, x).Some? ==>
              AnchorOf(b, x) == None && b.cells[AnchorOf(a, x).value].effect == None
    ensures forall k :: k in a.dom.tree[el].kids && k !in torn ==> k in b.dom.tree[el].kids
    ensures forall id :: id in a.regions && a.regionOwner[id] !in Below(a.dom.tree, torn) ==> id in b.regions
    ensures forall r :: r in a.cells && AnchoredOutside(a, r, Below(a.dom.tree, torn)) ==> b.cells[r] == a.cells[r]
  {
    hide RunAt, Muted, RemovalLog;
    forall x | x in torn && x in a.dom.tree && AnchorOf(a, x).Some?
      ensures AnchorOf(b, x) == None && b.cells[AnchorOf(a, x).value].effect == None
    {
      assert Under(a.dom.tree, x, x);
      assert x in Below(a.dom.tree, torn);
      var id := a.dom.data[x].regionId.value;
      assert a.regionOwner[id] == x;
      MutedIds(a.dom.data, Below(a.dom.tree, torn), x);
    }
  }

  /** No anchor of `r` lies in `s`. */
  ghost predicate AnchoredOutside(a: Snapshot, r: RegionId, s: set<NodeId>) {
    forall id :: id in a.regions && id in a.regionOwner && a.regions[id] == r ==> a.regionOwner[id] !in s
  }

  lemma MutedIds(data: map<NodeId, NodeData>, s: set<NodeId>, x: NodeId)
    requires x in data
    ensures x in Muted(data, s) && Muted(data, s)[x].regionId == data[x].regionId
  {
  }

  /** What removing an entry that anchors no region does. */
  ghost predicate RemovedPlain(a: Snapshot, b: Snapshot, el: NodeId, n: NodeId)
    requires n in a.dom.tree
  {
    var s := Subtree(a.dom.tree, n);
    && b.dom.rules == a.dom.rules && b.dom.next == a.dom.next && b.dom.data == Muted(a.dom.data, s)
    && b.dom.tree == (if WellFormed(a.dom) && IsChild(a.dom, el, n) then Detach(a.dom.tree, n) else a.dom.tree)
    && b.dom.log == (if IsChild(a.dom, el, n) then a.dom.log + [Removed(el, n)] else a.dom.log)
    && b.regions == Purged(a.regions, a.regionOwner, s)
    && b.cells == Disposed(a.cells, RegionsIn(a.regions, a.regionOwner, s))
  }

  lemma PlainRemoved(a: Snapshot, b: Snapshot, el: NodeId, n: NodeId)
    requires WellFormed(a.dom) && WellFormed(b.dom) && n in a.dom.tree && Released(a, b, Subtree(a.dom.tree, n))
    ensures RemovedPlain(a, b.(dom := RemoveChild(b.dom, el, n).0), el, n)
  {
    hide WellFormed, Muted, Purged, Disposed, RegionsIn;
  }

  lemma ReleasedHandles(a: Snapshot, b: Snapshot, s: set<NodeId>)
    requires Released(a, b, s)
    ensures b.dom.tree == a.dom.tree && b.dom.data.Keys == a.dom.data.Keys
    ensures b.regions.Keys <= a.regions.Keys
    ensures HandlesOk(a.cells, a.dom.tree) ==> HandlesOk(b.cells, b.dom.tree)
  {
    MutedKeys(a.dom.data, s);
    DisposedHandles(a.cells, a.dom.tree, RegionsIn(a.regions, a.regionOwner, s));
  }

  lemma TreeAndData(d: Document)
    requires WellFormed(d)
    ensures d.tree.Keys == d.data.Keys
  {
  }

  lemma DisposedHandles(cells: map<RegionId, RegionCells>, tree: Tree, gone: set<RegionId>)
    ensures HandlesOk(cells, tree) ==> HandlesOk(Disposed(cells, gone), tree)
  {
  }
}
