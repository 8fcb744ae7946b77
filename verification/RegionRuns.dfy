/** Rendering the run of a dynamic region in front of its anchor. */
module RegionRuns {
  import opened Prelude
  import opened VirtualDom
  import opened Dom
  import opened Resources
  import opened Rendering
  import opened Attributes
  import opened Building
  import opened Teardown
  import opened Confinement
  import opened KeyedMatching
  import opened Placement
  import opened PatchSteps
  import opened Runs
  import opened Reconcile

  // --- The region invariant ---

  /** The tracked run is contiguous and sits directly before its anchor. */
  ghost predicate Anchored(d: Document, c: RegionCells) {
    && c.anchor.Some? && c.anchor.value in d.tree && d.tree[c.anchor.value].parent.Some?
    && var el := d.tree[c.anchor.value].parent.value;
    && el in d.tree && IsElement(d, el) && c.anchor.value in d.tree[el].kids
    && var i := IndexOf(d.tree[el].kids, c.anchor.value);
    |c.rendered| <= i && d.tree[el].kids[i - |c.rendered|..i] == c.rendered
  }

  ghost function ParentOf(d: Document, c: RegionCells): NodeId
    requires Anchored(d, c)
  {
    d.tree[c.anchor.value].parent.value
  }

  /** What precedes the region's run in its parent. */
  ghost function BeforeRun(d: Document, c: RegionCells): seq<NodeId>
    requires Anchored(d, c)
  {
    var kids := d.tree[ParentOf(d, c)].kids;
    kids[..IndexOf(kids, c.anchor.value) - |c.rendered|]
  }

  /** What follows the region's anchor in its parent. */
  ghost function AfterRun(d: Document, c: RegionCells): seq<NodeId>
    requires Anchored(d, c)
  {
    var kids := d.tree[ParentOf(d, c)].kids;
    kids[IndexOf(kids, c.anchor.value) + 1..]
  }

  lemma AnchoredSplit(d: Document, c: RegionCells)
    requires WellFormed(d) && Anchored(d, c)
    ensures d.tree[ParentOf(d, c)].kids == BeforeRun(d, c) + c.rendered + ([c.anchor.value] + AfterRun(d, c))
    ensures ParentOf(d, c) < c.anchor.value
  {
    var kids, a := d.tree[ParentOf(d, c)].kids, c.anchor.value;
    var i := IndexOf(kids, a);
    assert LinksOk(d.tree, ParentOf(d, c));
    assert kids == kids[..i - |c.rendered|] + kids[i - |c.rendered|..i] + ([kids[i]] + kids[i + 1..]);
  }

  lemma SplitAnchored(d: Document, c: RegionCells, el: NodeId, a: NodeId, pre: seq<NodeId>, suf: seq<NodeId>)
    requires WellFormed(d) && IsElement(d, el) && el in d.tree && c.anchor == Some(a)
    requires d.tree[el].kids == pre + c.rendered + ([a] + suf)
    ensures Anchored(d, c) && ParentOf(d, c) == el && BeforeRun(d, c) == pre && AfterRun(d, c) == suf
  {
    var kids, p := d.tree[el].kids, pre + c.rendered;
    assert LinksOk(d.tree, el);
    assert kids == p + [a] + suf;
    assert a in kids;
    DistinctParts(p + [a], suf);
    DistinctParts(p, [a]);
    IndexOfAfter(p, a, suf);
    assert kids[|pre|..|p|] == c.rendered;
    assert kids[..|pre|] == pre;
    assert kids[|p| + 1..] == suf;
  }

  lemma RegionParent(d: Document, c: RegionCells)
    requires Anchored(d, c)
    ensures c.anchor.Some? && c.anchor.value in d.tree && d.tree[c.anchor.value].parent == Some(ParentOf(d, c))
    ensures ParentOf(d, c) in d.tree && IsElement(d, ParentOf(d, c))
  {
  }

  /** The render the run came from. */
  ghost function Prior(c: RegionCells): seq<VNode> {
    if c.current.Some? then [c.current.value] else []
  }

  /** If the run lines up with the region's vnode, it shows it up to drift. */
  ghost predicate TracksCurrent(d: Document, c: RegionCells) {
    && PlainAll(Prior(c))
    && (|c.rendered| == |Flatten(Prior(c))| ==> AllMatch(d, c.rendered, Flatten(Prior(c)), true))
  }

  ghost predicate ShowsCurrent(d: Document, c: RegionCells) {
    c.current.Some? && AllShow(d, c.rendered, Flatten(Prior(c)))
  }

  ghost predicate RegionOk(d: Document, regions: map<nat, RegionId>, id: nat, c: RegionCells) {
    && Anchored(d, c) && c.anchor.value in d.data && d.data[c.anchor.value].regionId == Some(id)
    && d.data[c.anchor.value].kind.CommentNode?
    && (forall n :: n in c.rendered ==> NoAnchors(d, regions, n))
    && TracksCurrent(d, c)
  }

  // --- Rebuilding a run ---

  /** `ns` are new detached nodes showing `vs`; nothing else changed. */
  ghost predicate RunBuilt(d: Document, e: Document, ns: seq<NodeId>, vs: seq<VNode>) {
    && Grows(d, e) && (forall x :: x in d.tree ==> SameNode(d, e, x))
    && AllShow(e, ns, vs)
    && (forall i :: 0 <= i < |ns| ==>
          && d.next <= ns[i] < e.next && ns[i] in e.tree && ns[i] in e.data && e.tree[ns[i]].parent == None
          && !e.data[ns[i]].kind.FragmentNode?)
    && (forall i, k :: 0 <= i < k < |ns| ==> ns[i] < ns[k])
    && forall m :: m in Since(d, e) ==> Subject(m) >= d.next
  }

  lemma RunBuiltNext(d: Document, e: Document, f: Document, ns: seq<NodeId>, vs: seq<VNode>, n: NodeId, v: VNode)
    requires WellFormed(d) && WellFormed(e) && WellFormed(f) && RunBuilt(d, e, ns, vs) && Built(e, f, n, v)
             && !v.Fragment?
    ensures RunBuilt(d, f, ns + [n], vs + [v])
  {
    hide Matches, TreeOk, SameBelow;
    BuiltGrows(e, f, n, v);
    GrowsTrans(d, e, f);
    assert AllShow(f, ns, vs) by {
      StillShown(e, f, ns, vs);
    }
    assert n < f.next;
  }

  /** Where no node changed, everything shown still is. */
  lemma StillShown(e: Document, f: Document, ns: seq<NodeId>, vs: seq<VNode>)
    requires WellFormed(e) && Grows(e, f) && AllShow(e, ns, vs) && forall x :: x in e.tree ==> SameNode(e, f, x)
    ensures AllShow(f, ns, vs)
  {
    hide Matches, TreeOk;
    forall i | 0 <= i < |vs| ensures Matches(f, ns[i], vs[i], false) {
      assert Matches(e, ns[i], vs[i], false);
      assert SameBelow(e, f, ns[i]);
      MatchesFrame(e, f, ns[i], vs[i], false);
    }
  }

  lemma BuiltGrows(e: Document, f: Document, n: NodeId, v: VNode)
    requires WellFormed(e) && WellFormed(f) && Built(e, f, n, v)
    ensures Grows(e, f) && forall x :: x in e.tree ==> SameNode(e, f, x)
    ensures n >= e.next && n in f.tree && n in f.data
  {
    hide Matches, TreeOk;
  }

  /** Builds one detached node per child a vnode contributes to its parent. */
  method CreateRunNodes(rt: Runtime, v: VNode) returns (ns: seq<NodeId>)
    requires rt.Valid() && Plain(v)
    modifies rt`dom, rt`eventClosures, rt`attributeEffects, rt`liveEffects, rt`nextDomId, rt`nextSerial, rt`eventOwner,
             rt`attrOwner, rt`home
    ensures rt.Valid() && RunBuilt(old(rt.dom), rt.dom, ns, Flatten([v]))
  {
    hide WellFormed, EventsAgree, EffectsAgree, RegionsAgree, Issued, CellsExist, Numbered, RunBuilt, Built, Flatten,
         Plain;
    var flat := Flatten([v]);
    ghost var before := rt.dom;
    ns := [];
    NoneBuilt(before);
    for i := 0 to |flat|
      invariant rt.Valid() && RunBuilt(before, rt.dom, ns, flat[..i])
    {
      ghost var middle := rt.dom;
      PlainOne(v);
      PlainMember([v], i);
      var n := CreateDomNode(rt, flat[i]);
      RunBuiltNext(before, middle, rt.dom, ns, flat[..i], n, flat[i]);
      assert flat[..i + 1] == flat[..i] + [flat[i]];
      ns := ns + [n];
    }
    assert flat[..|flat|] == flat;
  }

  lemma PlainOne(v: VNode)
    requires Plain(v)
    ensures PlainAll([v])
  {
  }

  lemma NoneBuilt(d: Document)
    ensures RunBuilt(d, d, [], [])
  {
    assert Since(d, d) == [];
  }

  /** `e` is `d` with the new nodes `ns` inserted between `p` and `q` under `el`. */
  ghost predicate RunInserted(d: Document, e: Document, el: NodeId, ns: seq<NodeId>, done: nat, p: seq<NodeId>,
                              q: seq<NodeId>)
    requires done <= |ns|
  {
    && SameNodes(d, e) && el in d.tree && el in e.tree && e.tree[el] == Link(d.tree[el].parent, p + ns[..done] + q)
    && (forall x :: x in d.tree && x != el ==> x in e.tree && e.tree[x].kids == d.tree[x].kids)
    && (forall x :: x in d.tree && x != el && x !in ns[..done] ==> e.tree[x] == d.tree[x])
    && d.log <= e.log && forall m :: m in Since(d, e) ==> Subject(m) in ns
  }

  lemma InsertedNext(d: Document, e: Document, el: NodeId, ns: seq<NodeId>, i: nat, p: seq<NodeId>, q: seq<NodeId>)
    requires WellFormed(d) && WellFormed(e) && IsElement(d, el) && i < |ns| && q != []
             && RunInserted(d, e, el, ns, i, p, q)
    requires ns[i] in d.tree && d.tree[ns[i]].parent == None && el < ns[i] && !d.data[ns[i]].kind.FragmentNode?
    requires forall k :: 0 <= k < i ==> ns[k] < ns[i]
    ensures IsChild(e, el, q[0]) && el in e.tree && ns[i] in e.tree
    ensures InsertBefore(e, el, ns[i], Some(q[0])).1
    ensures RunInserted(d, InsertBefore(e, el, ns[i], Some(q[0])).0, el, ns, i + 1, p, q)
  {
    hide InsertBefore, WellFormed, Without;
    var n := ns[i];
    assert n !in ns[..i];
    assert e.tree[n] == d.tree[n];
    Detached(e, el, n, p + ns[..i], q);
    SameElement(d, e, el);
    PlacedKids(e, el, n, p + ns[..i], q);
    WithoutAbsent(q, n);
    var f := InsertBefore(e, el, n, Some(q[0])).0;
    assert ns[..i + 1] == ns[..i] + [n];
    assert p + ns[..i] + [n] + q == p + ns[..i + 1] + q;
    InsertedLog(d, e, f, el, n, ns);
  }

  lemma Detached(e: Document, el: NodeId, n: NodeId, p: seq<NodeId>, q: seq<NodeId>)
    requires WellFormed(e) && el in e.tree && n in e.tree && e.tree[n].parent == None && e.tree[el].kids == p + q
             && q != []
    ensures n !in q && IsChild(e, el, q[0])
  {
    assert LinksOk(e.tree, el);
    assert forall k :: k in q ==> k in e.tree[el].kids;
    assert q[0] in q;
  }

  lemma SameElement(d: Document, e: Document, el: NodeId)
    requires SameNodes(d, e) && IsElement(d, el)
    ensures IsElement(e, el) && e.data == d.data
  {
  }

  lemma InsertedLog(d: Document, e: Document, f: Document, el: NodeId, n: NodeId, ns: seq<NodeId>)
    requires d.log <= e.log && f.log == e.log + [Inserted(el, n)] && n in ns
    requires forall m :: m in Since(d, e) ==> Subject(m) in ns
    ensures d.log <= f.log && forall m :: m in Since(d, f) ==> Subject(m) in ns
  {
    assert Since(d, f) == Since(d, e) + [Inserted(el, n)];
  }

  /** Inserts the new nodes `ns` before the anchor heading `q`. */
  method InsertRun(rt: Runtime, el: NodeId, ns: seq<NodeId>, anchor: NodeId, ghost p: seq<NodeId>, ghost q: seq<NodeId>)
    requires rt.Valid() && IsElement(rt.dom, el) && el in rt.dom.tree && rt.dom.tree[el].kids == p + q
    requires q != [] && q[0] == anchor
    requires forall i :: 0 <= i < |ns| ==>
               && ns[i] in rt.dom.tree && rt.dom.tree[ns[i]].parent == None && el < ns[i]
               && ns[i] in rt.dom.data && !rt.dom.data[ns[i]].kind.FragmentNode?
    requires forall i, k :: 0 <= i < k < |ns| ==> ns[i] < ns[k]
    modifies rt`dom
    ensures rt.Valid() && RunInserted(old(rt.dom), rt.dom, el, ns, |ns|, p, q)
  {
    hide WellFormed, EventsAgree, EffectsAgree, RegionsAgree, Issued, CellsExist, Numbered, RunInserted, InsertBefore;
    ghost var before := rt.dom;
    NoneInserted(before, el, ns, p, q);
    for i := 0 to |ns|
      invariant rt.Valid() && SameNodes(before, rt.dom) && RunInserted(before, rt.dom, el, ns, i, p, q)
    {
      InsertedNext(before, rt.dom, el, ns, i, p, q);
      rt.dom := InsertBefore(rt.dom, el, ns[i], Some(anchor)).0;
    }
  }

  lemma NoneInserted(d: Document, el: NodeId, ns: seq<NodeId>, p: seq<NodeId>, q: seq<NodeId>)
    requires el in d.tree && d.tree[el].kids == p + q
    ensures RunInserted(d, d, el, ns, 0, p, q)
  {
    assert p + ns[..0] + q == p + q;
    assert Since(d, d) == [];
  }

  // --- Rendering a run ---

  /** The run's nodes stand between `p` and `q` and show `vs`; the effect stays within the run. */
  ghost predicate RunRendered(d: Document, e: Document, el: NodeId, ns: seq<NodeId>, placed: seq<NodeId>,
                              p: seq<NodeId>, q: seq<NodeId>)
  {
    && RunFrame(d, e, el, ns) && e.tree[el].kids == p + placed + q
    && (forall n :: n in placed ==> n in ns || n >= d.next)
    && forall m :: m in Since(d, e) ==> Subject(m) >= d.next || UnderAny(d.tree, ns, Subject(m))
  }

  function Blanks(n: nat): (r: seq<VNode>)
    ensures |r| == n
  {
    seq(n, i => Text(""))
  }

  /** Removes the stale run wholesale and builds the new one in its place. */
  method RebuildRun(rt: Runtime, el: NodeId, stale: seq<NodeId>, anchor: NodeId, v: VNode, ghost p: seq<NodeId>,
                    ghost q: seq<NodeId>) returns (ns: seq<NodeId>)
    requires rt.Valid() && IsElement(rt.dom, el) && el in rt.dom.tree && Plain(v)
    requires rt.dom.tree[el].kids == p + stale + q && q != [] && q[0] == anchor
    requires forall i :: 0 <= i < |stale| ==> NoAnchors(rt.dom, rt.dynamicRegions, stale[i])
    modifies rt
    ensures rt.Valid() && SameRegions(rt)
    ensures RunRendered(old(rt.dom), rt.dom, el, stale, ns, p, q)
    ensures AllShow(rt.dom, ns, Flatten([v]))
  {
    hide WellFormed, EventsAgree, EffectsAgree, RegionsAgree, Issued, CellsExist, Numbered, NoAnchors, RunSetting,
         RunState,
         RunFrame, RunLog, RunBuilt, RunInserted, RunRendered, Matches, Flatten, Plain, PlacedShow, PlacedOrigins;
    ghost var d, blanks := rt.dom, Blanks(|stale|);
    SettingHolds(d, el, p, stale, q);
    RunBegins(d, el, p, stale, q, blanks, []);
    NothingConsumed(blanks, []);
    RemoveUnclaimed(rt, el, stale, seq(|stale|, i => false), d, p, stale, q, blanks, [], []);
    RunEnds(d, rt.dom, el, p, stale, q, blanks, [], []);
    RunBasics(d, rt.dom, el, stale);
    assert p + [] + q == p + q;
    ghost var emptied := rt.dom;
    ns := CreateRunNodes(rt, v);
    BuiltReady(emptied, rt.dom, el, ns, Flatten([v]));
    ghost var built := rt.dom;
    InsertRun(rt, el, ns, anchor, p, q);
    Rebuilt(d, emptied, built, rt.dom, el, stale, blanks, ns, Flatten([v]), p, q);
  }

  lemma BuiltReady(d: Document, e: Document, el: NodeId, ns: seq<NodeId>, vs: seq<VNode>)
    requires WellFormed(d) && RunBuilt(d, e, ns, vs) && el in d.tree && el in d.data
    ensures el in e.tree && el in e.data && e.tree[el] == d.tree[el] && e.data[el] == d.data[el]
    ensures forall i :: 0 <= i < |ns| ==>
              && ns[i] in e.tree && e.tree[ns[i]].parent == None && el < ns[i]
              && ns[i] in e.data && !e.data[ns[i]].kind.FragmentNode?
    ensures forall i, k :: 0 <= i < k < |ns| ==> ns[i] < ns[k]
  {
    hide Matches, TreeOk;
    assert SameNode(d, e, el);
  }

  lemma Rebuilt(d: Document, e: Document, f: Document, g: Document, el: NodeId, stale: seq<NodeId>, blanks: seq<VNode>,
                ns: seq<NodeId>, vs: seq<VNode>, p: seq<NodeId>, q: seq<NodeId>)
    requires WellFormed(e) && WellFormed(f) && |blanks| == |stale| && RunFrame(d, e, el, stale)
    requires RunLog(d, e, stale, Keys(blanks), Keys([]))
    requires RunBuilt(e, f, ns, vs) && RunInserted(f, g, el, ns, |ns|, p, q) && el in e.tree && el in e.data
    ensures RunRendered(d, g, el, stale, ns, p, q) && AllShow(g, ns, vs)
  {
    hide Matches, WellFormed, RunBuilt, RunInserted, RunFrame, RunLog;
    InsertedStep(e, f, g, el, ns, vs, p, q);
    RunBasics(d, e, el, stale);
    CreateFrame(d, e, g, el, stale);
    CreateLog(d, e, g, stale, Keys(blanks), Keys([]));
    LogUnder(d, g, stale, Keys(blanks), Keys([]));
    assert ns[..|ns|] == ns;
  }

  lemma LogUnder(d: Document, e: Document, ns: seq<NodeId>, prior: seq<Key>, wanted: seq<Key>)
    requires |ns| == |prior| && RunLog(d, e, ns, prior, wanted)
    ensures forall m :: m in Since(d, e) ==> Subject(m) >= d.next || UnderAny(d.tree, ns, Subject(m))
  {
    forall m | m in Since(d, e) ensures Subject(m) >= d.next || UnderAny(d.tree, ns, Subject(m)) {
      assert RunMutation(d, ns, prior, wanted, m);
    }
  }

  lemma InsertedStep(e: Document, f: Document, g: Document, el: NodeId, ns: seq<NodeId>, vs: seq<VNode>, p: seq<NodeId>,
                     q: seq<NodeId>)
    requires WellFormed(e) && WellFormed(f) && RunBuilt(e, f, ns, vs) && RunInserted(f, g, el, ns, |ns|, p, q)
    requires el in e.tree && el in e.data
    ensures KidStep(e, g, el, None) && g.tree[el].kids == p + ns[..|ns|] + q && AllShow(g, ns, vs)
    ensures forall m :: m in Since(e, g) ==> Subject(m) >= e.next
    ensures forall n :: n in ns ==> n >= e.next
  {
    hide Matches, TreeOk, AllMatch, SameBelow;
    assert SameNode(e, f, el);
    assert forall i :: 0 <= i < |ns| ==> el < ns[i];
    InsertedShow(f, g, el, ns, vs, p, q);
    InsertedFrame(e, f, g, el, ns, vs, p, q);
  }

  lemma InsertedFrame(e: Document, f: Document, g: Document, el: NodeId, ns: seq<NodeId>, vs: seq<VNode>,
                      p: seq<NodeId>, q: seq<NodeId>)
    requires WellFormed(e) && WellFormed(f) && RunBuilt(e, f, ns, vs) && RunInserted(f, g, el, ns, |ns|, p, q)
    requires el in e.tree && el in e.data
    ensures KidStep(e, g, el, None) && forall m :: m in Since(e, g) ==> Subject(m) >= e.next
  {
    hide Matches, TreeOk, AllMatch, SameBelow;
    assert SameNode(e, f, el);
    assert Since(e, g) == Since(e, f) + Since(f, g);
    assert forall x :: x in e.tree ==> SameNode(e, f, x);
    assert forall x :: x in e.tree ==> x !in ns;
  }

  lemma InsertedShow(f: Document, g: Document, el: NodeId, ns: seq<NodeId>, vs: seq<VNode>, p: seq<NodeId>,
                     q: seq<NodeId>)
    requires WellFormed(f) && RunInserted(f, g, el, ns, |ns|, p, q) && AllShow(f, ns, vs)
    requires forall i :: 0 <= i < |ns| ==> el < ns[i]
    ensures AllShow(g, ns, vs)
  {
    hide Matches, TreeOk;
    forall i | 0 <= i < |vs| ensures Matches(g, ns[i], vs[i], false) {
      assert Matches(f, ns[i], vs[i], false);
      assert SameBelow(f, g, ns[i]);
      MatchesFrame(f, g, ns[i], vs[i], false);
    }
  }

  /** A run that lines up with its last render keeps every claimed node that can be patched. */
  ghost predicate RunKept(d: Document, rendered: seq<NodeId>, prior: seq<VNode>, v: VNode, ns: seq<NodeId>) {
    |rendered| == |Flatten(prior)| ==>
      |ns| == |Flatten([v])| && PlacedOrigins(d, rendered, Flatten(prior), Flatten([v]), ns)
  }

  /** Reconciles the run with the new render, or rebuilds it when it does not line up. */
  method RenderRun(rt: Runtime, el: NodeId, rendered: seq<NodeId>, prior: seq<VNode>, v: VNode, anchor: NodeId,
                   ghost p: seq<NodeId>, ghost q: seq<NodeId>) returns (ns: seq<NodeId>)
    requires rt.Valid() && IsElement(rt.dom, el) && el in rt.dom.tree && Plain(v) && PlainAll(prior)
    requires rt.dom.tree[el].kids == p + rendered + q && q != [] && q[0] == anchor
    requires forall i :: 0 <= i < |rendered| ==> NoAnchors(rt.dom, rt.dynamicRegions, rendered[i])
    requires |rendered| == |Flatten(prior)| ==> AllMatch(rt.dom, rendered, Flatten(prior), true)
    modifies rt
    ensures rt.Valid() && SameRegions(rt)
    ensures RunRendered(old(rt.dom), rt.dom, el, rendered, ns, p, q)
    ensures AllShow(rt.dom, ns, Flatten([v])) && RunKept(old(rt.dom), rendered, prior, v, ns)
  {
    hide WellFormed, EventsAgree, EffectsAgree, RegionsAgree, NoAnchors, RunFrame, RunLog, RunRendered, Matches,
         Flatten, Plain, PlacedShow, PlacedOrigins;
    ghost var d := rt.dom;
    PlainOne(v);
    var r := ReconcileRange(rt, el, rendered, prior, [v], Some(anchor), p, q);
    match r {
      case Some(nodes) =>
        ns := nodes;
        AllPlacedShow(d, rt.dom, rendered, Flatten(prior), Flatten([v]), ns);
        LogUnder(d, rt.dom, rendered, Keys(Flatten(prior)), Keys(Flatten([v])));
        Reconciled(d, rt.dom, el, rendered, Flatten(prior), Flatten([v]), ns, p, q);
      case None =>
        ns := RebuildRun(rt, el, rendered, anchor, v, p, q);
    }
  }

  lemma Reconciled(d: Document, e: Document, el: NodeId, ns: seq<NodeId>, prior: seq<VNode>, wanted: seq<VNode>,
                   placed: seq<NodeId>, p: seq<NodeId>, q: seq<NodeId>)
    requires RunFrame(d, e, el, ns) && e.tree[el].kids == p + placed + q && |ns| == |prior| && |placed| == |wanted|
    requires PlacedOrigins(d, ns, prior, wanted, placed)
    requires forall m :: m in Since(d, e) ==> Subject(m) >= d.next || UnderAny(d.tree, ns, Subject(m))
    ensures RunRendered(d, e, el, ns, placed, p, q)
  {
    hide Matches, Claim, RunFrame;
    forall n | n in placed ensures n in ns || n >= d.next {
      var i :| 0 <= i < |placed| && placed[i] == n;
      assert PlacedFrom(d, ns, prior, wanted, i, n);
    }
  }

  // --- What a render leaves alone ---

  /** What was outside the run does not get into its new nodes. */
  lemma {:induction false} StaysOutsideRun(d: Document, e: Document, el: NodeId, ns: seq<NodeId>, x: NodeId, y: NodeId)
    requires WellFormed(d) && WellFormed(e) && RunFrame(d, e, el, ns) && y in d.tree && !UnderAny(d.tree, ns, y)
    requires el < x && (x in ns || x >= d.next)
    ensures !Under(e.tree, x, y)
    decreases y
  {
    if y != el {
      assert SameNode(d, e, y);
      assert x == y ==> Under(d.tree, x, y);
      if d.tree[y].parent.Some? {
        var q := d.tree[y].parent.value;
        assert LinksOk(d.tree, y);
        assert LinksOk(d.tree, q);
        StaysOutsideRun(d, e, el, ns, x, q);
      }
    }
  }

  lemma RunStaysPlain(d: Document, e: Document, regions: map<nat, RegionId>, el: NodeId, ns: seq<NodeId>, x: NodeId)
    requires WellFormed(d) && WellFormed(e) && RunFrame(d, e, el, ns) && el < x && (x in ns || x >= d.next)
    requires forall i :: 0 <= i < |ns| ==> NoAnchors(d, regions, ns[i])
    ensures NoAnchors(e, regions, x)
  {
    forall y | y in e.data && Under(e.tree, x, y) && e.data[y].regionId.Some?
      ensures e.data[y].regionId.value !in regions
    {
      assert y in d.data;
      if UnderAny(d.tree, ns, y) {
        var i :| 0 <= i < |ns| && Under(d.tree, ns[i], y);
        assert NoAnchors(d, regions, ns[i]);
      } else {
        StaysOutsideRun(d, e, el, ns, x, y);
      }
    }
  }

  lemma RunMembers(d: Document, el: NodeId, ns: seq<NodeId>, a: NodeId, p: seq<NodeId>, suf: seq<NodeId>)
    requires WellFormed(d) && el in d.tree && d.tree[el].kids == p + ns + ([a] + suf)
    ensures forall i :: 0 <= i < |ns| ==> ns[i] in d.tree && IsChild(d, el, ns[i]) && el < ns[i]
    ensures a in d.tree && IsChild(d, el, a)
  {
    assert LinksOk(d.tree, el);
    assert d.tree[el].kids[|p| + |ns|] == a;
    forall i | 0 <= i < |ns| ensures ns[i] in d.tree && IsChild(d, el, ns[i]) && el < ns[i] {
      assert d.tree[el].kids[|p| + i] == ns[i];
      assert ns[i] in d.tree[el].kids;
    }
    assert a in d.tree[el].kids;
  }

  lemma RenderedKids(d: Document, e: Document, el: NodeId, ns: seq<NodeId>, ms: seq<NodeId>, p: seq<NodeId>,
                     q: seq<NodeId>)
    requires RunRendered(d, e, el, ns, ms, p, q) && IsElement(d, el)
    ensures el in e.tree && IsElement(e, el) && e.tree[el].kids == p + ms + q
  {
  }

  lemma AnchorUntouched(d: Document, e: Document, regions: map<nat, RegionId>, el: NodeId, ns: seq<NodeId>, a2: NodeId)
    requires WellFormed(d) && RunFrame(d, e, el, ns) && a2 in d.tree && a2 in d.data && IsElement(d, el)
    requires d.data[a2].kind.CommentNode? && d.data[a2].regionId.Some? && d.data[a2].regionId.value in regions
    requires forall i :: 0 <= i < |ns| ==> NoAnchors(d, regions, ns[i])
    ensures SameNode(d, e, a2) && IsElement(e, el)
    ensures forall i :: 0 <= i < |ns| ==> !Under(d.tree, ns[i], a2)
  {
    assert forall i :: 0 <= i < |ns| ==> !Under(d.tree, ns[i], a2);
  }

  lemma OtherContent(d: Document, e: Document, c: RegionCells)
    requires WellFormed(d) && forall x :: x in c.rendered ==> SameBelow(d, e, x)
    ensures TracksCurrent(d, c) ==> TracksCurrent(e, c)
    ensures ShowsCurrent(d, c) ==> ShowsCurrent(e, c)
  {
    hide Matches, SameBelow;
    var flat := Flatten(Prior(c));
    forall i, drift | 0 <= i < |flat| && |flat| == |c.rendered| && Matches(d, c.rendered[i], flat[i], drift)
      ensures Matches(e, c.rendered[i], flat[i], drift)
    {
      assert c.rendered[i] in c.rendered;
      MatchesFrame(d, e, c.rendered[i], flat[i], drift);
    }
  }

  // --- Updating a region ---

  /** `c` after a render of `v` left it with the run `ns`. */
  function Rerendered(c: RegionCells, ns: seq<NodeId>, v: VNode): RegionCells {
    c.(rendered := ns, current := Some(v))
  }

  /** The rendered region itself is in order again, and shows its new vnode. */
  lemma OwnRegion(d: Document, e: Document, regions: map<nat, RegionId>, c: RegionCells, id: nat, ns: seq<NodeId>,
                  v: VNode)
    requires WellFormed(d) && WellFormed(e) && RegionOk(d, regions, id, c) && id in regions && Plain(v)
    requires RunRendered(d, e, ParentOf(d, c), c.rendered, ns, BeforeRun(d, c), [c.anchor.value] + AfterRun(d, c))
    requires AllShow(e, ns, Flatten([v]))
    ensures RegionOk(e, regions, id, Rerendered(c, ns, v)) && ShowsCurrent(e, Rerendered(c, ns, v))
    ensures ParentOf(e, Rerendered(c, ns, v)) == ParentOf(d, c)
    ensures BeforeRun(e, Rerendered(c, ns, v)) == BeforeRun(d, c) && AfterRun(e, Rerendered(c, ns, v)) == AfterRun(d, c)
  {
    hide Matches, NoAnchors, Flatten, RunFrame, WellFormed, AllMatch, IsChild, Anchored, ParentOf, BeforeRun, AfterRun,
         TracksCurrent, ShowsCurrent, Plain;
    RegionParent(d, c);
    var el, a, p, q := ParentOf(d, c), c.anchor.value, BeforeRun(d, c), AfterRun(d, c);
    var c' := Rerendered(c, ns, v);
    AnchoredSplit(d, c);
    RunMembers(d, el, c.rendered, a, p, q);
    OwnAnchor(d, e, regions, el, c.rendered, a, id);
    RenderedKids(d, e, el, c.rendered, ns, p, [a] + q);
    SplitAnchored(e, c', el, a, p, q);
    forall n | n in ns ensures NoAnchors(e, regions, n) {
      AboveRun(d, e, el, c.rendered, ns, n, p, [a] + q);
      RunStaysPlain(d, e, regions, el, c.rendered, n);
    }
    RerenderedContent(e, c, ns, v);
  }

  lemma RerenderedContent(e: Document, c: RegionCells, ns: seq<NodeId>, v: VNode)
    requires AllShow(e, ns, Flatten([v])) && Plain(v)
    ensures TracksCurrent(e, Rerendered(c, ns, v)) && ShowsCurrent(e, Rerendered(c, ns, v))
  {
    hide Matches, Flatten, Plain, AllMatch;
    PlainOne(v);
    ShownIsTracked(e, ns, Flatten([v]));
  }

  lemma OwnAnchor(d: Document, e: Document, regions: map<nat, RegionId>, el: NodeId, ns: seq<NodeId>, a: NodeId,
                  id: nat)
    requires WellFormed(d) && RunFrame(d, e, el, ns) && a in d.tree && a in d.data && IsElement(d, el)
    requires d.data[a].kind.CommentNode? && d.data[a].regionId == Some(id) && id in regions
    requires forall n :: n in ns ==> NoAnchors(d, regions, n)
    ensures SameNode(d, e, a) && a in e.data && e.data[a] == d.data[a]
  {
    assert forall i :: 0 <= i < |ns| ==> ns[i] in ns;
    AnchorUntouched(d, e, regions, el, ns, a);
  }

  lemma AboveRun(d: Document, e: Document, el: NodeId, ns: seq<NodeId>, ms: seq<NodeId>, n: NodeId, p: seq<NodeId>,
                 q: seq<NodeId>)
    requires WellFormed(e) && RunRendered(d, e, el, ns, ms, p, q) && n in ms
    ensures el < n && (n in ns || n >= d.next) && el in e.tree
  {
    RunBasics(d, e, el, ns);
    assert LinksOk(e.tree, el);
    assert n in e.tree[el].kids;
  }
}
