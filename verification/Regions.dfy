/** Dynamic regions: applying one new render of a region to the run it owns, any number of times. */
module Regions {
  import opened Prelude
  import opened VirtualDom
  import opened Dom
  import opened Resources
  import opened Rendering
  import opened Attributes
  import opened Building
  import opened Teardown
  import opened Confinement
  import opened Placement
  import opened PatchSteps
  import opened KeyedMatching
  import opened Runs
  import opened RegionRuns
  import opened RegionBlocks

  const ANCHOR_TEXT := "krab-dynamic"

  /** The registered regions are in order, and those in `waiting` wait for their first update. */
  ghost predicate RegionsOk(rt: Runtime, waiting: set<RegionId>)
    reads rt
  {
    InOrder(rt.dom, rt.cells, rt.dynamicRegions, waiting)
  }

  // --- A region with an anchor ---

  /** A render of an anchored region changes its block only. */
  lemma RenderedStep(d: Document, e: Document, regions: map<nat, RegionId>, id: nat, c: RegionCells, ns: seq<NodeId>,
                     v: VNode)
    requires WellFormed(d) && RegionOk(d, regions, id, c)
    requires RunRendered(d, e, ParentOf(d, c), c.rendered, ns, BeforeRun(d, c), [c.anchor.value] + AfterRun(d, c))
    ensures BlockStep(d, e, ParentOf(d, c), BeforeRun(d, c), AfterRun(d, c), c, Rerendered(c, ns, v))
  {
    hide NoAnchors, TracksCurrent, Anchored, ParentOf, BeforeRun, AfterRun, WellFormed;
    RegionParent(d, c);
    AnchoredSplit(d, c);
    var el, a, p, q := ParentOf(d, c), c.anchor.value, BeforeRun(d, c), AfterRun(d, c);
    StepFromRender(d, e, el, c, ns, v, p, q);
  }

  lemma StepFromRender(d: Document, e: Document, el: NodeId, c: RegionCells, ns: seq<NodeId>, v: VNode, p: seq<NodeId>,
                       q: seq<NodeId>)
    requires WellFormed(d) && IsElement(d, el) && c.anchor.Some?
    requires el in d.tree && d.tree[el].kids == p + c.rendered + ([c.anchor.value] + q)
    requires RunRendered(d, e, el, c.rendered, ns, p, [c.anchor.value] + q)
    ensures BlockStep(d, e, el, p, q, c, Rerendered(c, ns, v))
  {
    assert forall x :: x in d.tree ==> x < d.next;
    hide WellFormed;
    Reassociated(p, c.rendered, c.anchor.value, q);
    Reassociated(p, ns, c.anchor.value, q);
  }

  /** Renders `v` into the registered, anchored region `id`. */
  method RenderAnchored(rt: Runtime, ghost id: nat, region: RegionId, v: VNode, ghost waiting: set<RegionId>)
    requires rt.Valid() && id in rt.dynamicRegions && rt.dynamicRegions[id] == region && Plain(v)
    requires region in rt.cells && RegionOk(rt.dom, rt.dynamicRegions, id, rt.cells[region])
    modifies rt
    ensures rt.Valid() && rt.dynamicRegions == old(rt.dynamicRegions)
    ensures region in rt.cells && region in old(rt.cells)
    ensures rt.cells == old(rt.cells)[region := Rerendered(old(rt.cells)[region], rt.cells[region].rendered, v)]
    ensures RegionOk(rt.dom, rt.dynamicRegions, id, rt.cells[region]) && ShowsCurrent(rt.dom, rt.cells[region])
    ensures ParentOf(rt.dom, rt.cells[region]) == old(ParentOf(rt.dom, rt.cells[region]))
    ensures BeforeRun(rt.dom, rt.cells[region]) == old(BeforeRun(rt.dom, rt.cells[region]))
    ensures AfterRun(rt.dom, rt.cells[region]) == old(AfterRun(rt.dom, rt.cells[region]))
    ensures RunFrame(old(rt.dom), rt.dom, old(ParentOf(rt.dom, rt.cells[region])), old(rt.cells[region].rendered))
    ensures RunKept(old(rt.dom), old(rt.cells[region].rendered), old(Prior(rt.cells[region])), v,
                    rt.cells[region].rendered)
    ensures old(RegionsOk(rt, waiting)) ==>
              && RegionsOk(rt, waiting)
              && OthersKeepShowing(old(rt.dom), old(rt.cells), rt.dom, rt.cells, waiting + rt.dynamicRegions.Values,
                                   region)
  {
    hide WellFormed, EventsAgree, EffectsAgree, RegionsAgree, Issued, Numbered, NoAnchors, RunFrame, Matches, AllMatch,
         Flatten, Plain, Anchored, ParentOf, BeforeRun, AfterRun, InOrder, OthersKeepShowing;
    ghost var d, cells := rt.dom, rt.cells;
    var c := rt.cells[region];
    AnchoredSplit(d, c);
    RegionParent(d, c);
    var el := rt.dom.tree[c.anchor.value].parent.value;
    var prior := if c.current.Some? then [c.current.value] else [];
    var ns := RenderRun(rt, el, c.rendered, prior, v, c.anchor.value, BeforeRun(d, c),
                        [c.anchor.value] + AfterRun(d, c));
    rt.cells := rt.cells[region := Rerendered(c, ns, v)];
    OwnRegion(d, rt.dom, rt.dynamicRegions, c, id, ns, v);
    if InOrder(d, cells, rt.dynamicRegions, waiting) {
      OthersAfterRender(rt, d, cells, id, region, ns, v, waiting);
    }
  }

  lemma OthersAfterRender(rt: Runtime, d: Document, cells: map<RegionId, RegionCells>, id: nat, region: RegionId,
                          ns: seq<NodeId>, v: VNode, waiting: set<RegionId>)
    requires WellFormed(d) && WellFormed(rt.dom) && id in rt.dynamicRegions && rt.dynamicRegions[id] == region
    requires InOrder(d, cells, rt.dynamicRegions, waiting) && region in cells
             && RegionOk(d, rt.dynamicRegions, id, cells[region])
    requires var c := cells[region];
             && RunRendered(d, rt.dom, ParentOf(d, c), c.rendered, ns, BeforeRun(d, c),
                            [c.anchor.value] + AfterRun(d, c))
             && rt.cells == cells[region := Rerendered(c, ns, v)]
             && RegionOk(rt.dom, rt.dynamicRegions, id, Rerendered(c, ns, v))
    ensures RegionsOk(rt, waiting)
    ensures OthersKeepShowing(d, cells, rt.dom, rt.cells, waiting + rt.dynamicRegions.Values, region)
  {
    hide WellFormed, BlockStep, RegionOk, RunRendered, OthersKeepShowing, WaitingOk, Separate;
    var regions := rt.dynamicRegions;
    RenderedStep(d, rt.dom, regions, id, cells[region], ns, v);
    assert region in regions.Values && region !in waiting;
    assert regions[id := region] == regions && waiting - {region} == waiting;
    RegionStands(d, regions, id, cells[region]);
    var c := cells[region];
    OthersIntact(d, cells, regions, waiting, rt.dom, rt.cells, regions, region, id, ParentOf(d, c), BeforeRun(d, c),
                 AfterRun(d, c));
  }

  // --- The anchor of a region that was hydrated without one ---

  /** Nothing of `d` changed but the child list of `el`. */
  ghost predicate OnlyKidsOf(d: Document, e: Document, el: NodeId) {
    && e.rules == d.rules && d.next <= e.next && d.log <= e.log
    && el in d.tree && el in d.data && el in e.tree && el in e.data
    && e.data[el] == d.data[el] && e.tree[el].parent == d.tree[el].parent
    && forall x :: x in d.tree && x != el ==> SameNode(d, e, x)
  }

  /** A comment inserted under `el` and registered under a new id. */
  ghost predicate AnchorAdded(d: Document, e: Document, el: NodeId, a: NodeId, id: nat, p: seq<NodeId>,
                              q: seq<NodeId>) {
    && OnlyKidsOf(d, e, el) && a !in d.tree && a in e.tree && a in e.data
    && e.tree[el].kids == p + ([a] + q) && e.tree[a] == Link(Some(el), [])
    && e.data[a].kind.CommentNode? && e.data[a].regionId == Some(id)
    && forall x :: x in e.data && x != a ==> x in d.data
  }

  lemma AnchorInserted(d: Document, el: NodeId, p: seq<NodeId>, q: seq<NodeId>)
    requires WellFormed(d) && IsElement(d, el) && el in d.tree && d.tree[el].kids == p + q
    ensures var made := CreateNode(d, CommentNode, ANCHOR_TEXT);
            var r := InsertBefore(made, el, d.next, Placement.Before(q));
            && r.1 && KidStep(d, r.0, el, None) && r.0.tree[el].kids == p + ([d.next] + q)
            && r.0.tree[d.next] == Link(Some(el), []) && d.next in r.0.data
            && r.0.data == made.data
  {
    hide InsertBefore, TreeOk;
    var made := CreateNode(d, CommentNode, ANCHOR_TEXT);
    FreshOutside(d, el, q, p);
    PlacedKids(made, el, d.next, p, q);
    WithoutAbsent(q, d.next);
    assert p + [d.next] + q == p + ([d.next] + q);
    var e := InsertBefore(made, el, d.next, Placement.Before(q)).0;
    assert Since(d, e) == [Inserted(el, d.next)];
  }

  lemma FreshOutside(d: Document, el: NodeId, q: seq<NodeId>, p: seq<NodeId>)
    requires WellFormed(d) && el in d.tree && d.tree[el].kids == p + q
    ensures d.next !in q && el < d.next && el in d.data
  {
    assert LinksOk(d.tree, el);
    assert forall k :: k in q ==> k in d.tree[el].kids;
  }

  lemma AnchorRegistered(d: Document, m: Document, el: NodeId, a: NodeId, id: nat, p: seq<NodeId>, q: seq<NodeId>)
    requires WellFormed(d) && WellFormed(m) && KidStep(d, m, el, None) && m.tree[el].kids == p + ([a] + q)
             && a == d.next
    requires a in m.tree && m.tree[a] == Link(Some(el), []) && m.data == CreateNode(d, CommentNode, ANCHOR_TEXT).data
    ensures AnchorAdded(d, SetData(m, a, m.data[a].(regionId := Some(id))), el, a, id, p, q)
  {
    hide TreeOk;
    var e := SetData(m, a, m.data[a].(regionId := Some(id)));
    assert a !in d.tree && el != a;
    assert Since(d, e) == Since(d, m);
    forall x | x in d.tree && x != el ensures SameNode(d, e, x) {
      assert SameNode(d, m, x);
    }
  }

  /** The region with its new anchor is in order. */
  lemma NewRegionOk(d: Document, e: Document, regions: map<nat, RegionId>, el: NodeId, a: NodeId, id: nat,
                    region: RegionId, c: RegionCells, p: seq<NodeId>, q: seq<NodeId>)
    requires WellFormed(d) && WellFormed(e) && AnchorAdded(d, e, el, a, id, p + c.rendered, q) && IsElement(d, el)
    requires d.tree[el].kids == p + c.rendered + q
    requires (forall x :: x in c.rendered ==> NoAnchors(d, regions, x)) && TracksCurrent(d, c)
    requires forall x :: x in d.data ==> d.data[x].regionId != Some(id)
    ensures RegionOk(e, regions[id := region], id, c.(anchor := Some(a)))
    ensures BeforeRun(e, c.(anchor := Some(a))) == p && AfterRun(e, c.(anchor := Some(a))) == q
    ensures ParentOf(e, c.(anchor := Some(a))) == el
  {
    hide Matches, WellFormed;
    var c' := c.(anchor := Some(a));
    SplitAnchored(e, c', el, a, p, q);
    forall x | x in c.rendered ensures SameBelow(d, e, x) && NoAnchors(e, regions[id := region], x) {
      ChildSame(d, e, el, x, p + c.rendered + q);
      StillPlain(d, e, regions, el, a, id, region, x, p + c.rendered, q);
    }
    OtherContent(d, e, c);
  }

  lemma ChildSame(d: Document, e: Document, el: NodeId, x: NodeId, kids: seq<NodeId>)
    requires WellFormed(d) && OnlyKidsOf(d, e, el) && d.tree[el].kids == kids && x in kids
    ensures x in d.tree && IsChild(d, el, x) && SameBelow(d, e, x) && !Under(d.tree, x, el)
    ensures forall y :: y in d.tree && Under(d.tree, x, y) ==> SameNode(d, e, y)
  {
    assert LinksOk(d.tree, el);
    KeysAgree(d);
  }

  lemma StillPlain(d: Document, e: Document, regions: map<nat, RegionId>, el: NodeId, a: NodeId, id: nat,
                   region: RegionId, x: NodeId, p: seq<NodeId>, q: seq<NodeId>)
    requires WellFormed(d) && WellFormed(e) && AnchorAdded(d, e, el, a, id, p, q) && x in d.tree
    requires NoAnchors(d, regions, x) && (forall y :: y in d.tree && Under(d.tree, x, y) ==> SameNode(d, e, y))
    requires forall y :: y in d.data ==> d.data[y].regionId != Some(id)
    ensures NoAnchors(e, regions[id := region], x)
  {
    KeysAgree(d);
    forall y | y in e.data && Under(e.tree, x, y) && e.data[y].regionId.Some?
      ensures e.data[y].regionId.value !in regions[id := region]
    {
      SameSubtree(d, e, x, y);
      assert SameNode(d, e, y);
    }
  }

  /** Adding the anchor extends the region's block. */
  lemma AnchorStep(d: Document, e: Document, el: NodeId, a: NodeId, id: nat, c: RegionCells, p: seq<NodeId>,
                   q: seq<NodeId>)
    requires WellFormed(d) && IsElement(d, el) && AnchorAdded(d, e, el, a, id, p + c.rendered, q)
    requires c.anchor == None && c.rendered != [] && d.tree[el].kids == p + c.rendered + q
    ensures BlockStep(d, e, el, p, q, c, c.(anchor := Some(a)))
  {
    Reassociated(p, c.rendered, a, q);
    assert p + c.rendered + q == p + (c.rendered + []) + q;
  }

  /** An unanchored run stands in an element, and is where the anchor will be put after. */
  ghost predicate Lazy(d: Document, c: RegionCells) {
    c.anchor == None && c.rendered != [] && Standing(d, c)
  }

  /** Where an anchor could be put, if anywhere: after the run, or where the empty run was hydrated. */
  ghost predicate Placeable(d: Document, c: RegionCells) {
    if c.rendered != [] then Lazy(d, c) else c.emptyPosition.Some?
  }

  /** The handles a region without an anchor holds. */
  ghost predicate LazyHandles(d: Document, c: RegionCells) {
    && c.anchor == None
    && (c.rendered != [] ==>
          var last := c.rendered[|c.rendered| - 1];
          last in d.tree && (d.tree[last].parent.Some? ==> Lazy(d, c)))
    && (c.rendered == [] && c.emptyPosition.Some? ==>
          c.emptyPosition.value.0 in d.tree && IsElement(d, c.emptyPosition.value.0))
  }

  /** Splits the parent's children where the anchor goes. */
  lemma AnchorSpot(d: Document, c: RegionCells) returns (p: seq<NodeId>, q: seq<NodeId>)
    requires WellFormed(d) && LazyHandles(d, c) && Placeable(d, c)
    ensures var el := SpotParent(d, c);
            el in d.tree && IsElement(d, el) && d.tree[el].kids == p + c.rendered + q
              && SpotBefore(d, c) == Placement.Before(q)
  {
    hide NextSibling, WellFormed;
    if c.rendered != [] {
      p, q := RunSpot(d, c);
    } else {
      hide Lazy;
      p, q := EmptySpot(d, SpotParent(d, c), SpotBefore(d, c));
      assert p + [] + q == p + q;
    }
  }

  lemma RunSpot(d: Document, c: RegionCells) returns (p: seq<NodeId>, q: seq<NodeId>)
    requires WellFormed(d) && Lazy(d, c)
    ensures var last := c.rendered[|c.rendered| - 1];
            && last in d.tree && d.tree[last].parent == Some(Host(d, c)) && IsElement(d, Host(d, c))
            && Host(d, c) in d.tree && d.tree[Host(d, c)].kids == p + c.rendered + q
            && NextSibling(d.tree, last) == Placement.Before(q)
  {
    hide NextSibling, Standing, Host;
    p, q := StandingSplit(d, c);
    assert Block(c) == c.rendered;
    SiblingAfter(d, Host(d, c), p + c.rendered, q);
  }

  lemma EmptySpot(d: Document, el: NodeId, at: Option<NodeId>) returns (p: seq<NodeId>, q: seq<NodeId>)
    requires WellFormed(d) && el in d.tree && (at.Some? ==> IsChild(d, el, at.value))
    ensures d.tree[el].kids == p + q && at == Placement.Before(q)
  {
    var kids := d.tree[el].kids;
    if at == None {
      p, q := kids, [];
    } else {
      assert LinksOk(d.tree, at.value);
      var i := IndexOf(kids, at.value);
      p, q := kids[..i], kids[i..];
    }
  }

  function SpotParent(d: Document, c: RegionCells): NodeId
    requires LazyHandles(d, c) && Placeable(d, c)
  {
    if c.rendered != [] then d.tree[c.rendered[|c.rendered| - 1]].parent.value else c.emptyPosition.value.0
  }

  /** The reference node: the run's next sibling, or the captured one if it still stands there. */
  function SpotBefore(d: Document, c: RegionCells): Option<NodeId>
    requires LazyHandles(d, c) && Placeable(d, c)
  {
    if c.rendered != [] then NextSibling(d.tree, c.rendered[|c.rendered| - 1])
    else
      var captured := c.emptyPosition.value.1;
      if captured.Some? && IsChild(d, c.emptyPosition.value.0, captured.value) then captured else None
  }

  /** Whether the runtime finds a parent for the anchor, as it tests it. */
  predicate FindsSpot(d: Document, c: RegionCells)
    requires LazyHandles(d, c)
    ensures FindsSpot(d, c) == Placeable(d, c)
  {
    if c.rendered != [] then d.tree[c.rendered[|c.rendered| - 1]].parent.Some? else c.emptyPosition.Some?
  }

  lemma Unissued(data: map<NodeId, NodeData>, regions: map<nat, RegionId>, owner: map<nat, NodeId>, next: nat)
    requires RegionsAgree(data, regions, owner) && Issued(owner, next)
    ensures next !in regions && forall n :: n in data ==> data[n].regionId != Some(next)
  {
  }

  /** Puts the new anchor comment where it goes and registers the region under it. */
  method PlaceAnchor(rt: Runtime, region: RegionId, el: NodeId, at: Option<NodeId>, ghost p: seq<NodeId>,
                     ghost q: seq<NodeId>)
    returns (a: NodeId, ghost id: nat)
    requires rt.Valid() && region in rt.cells && el in rt.dom.tree && IsElement(rt.dom, el)
    requires rt.dom.tree[el].kids == p + q && at == Placement.Before(q)
    modifies rt`dom, rt`dynamicRegions, rt`nextDomId, rt`regionOwner
    ensures rt.Valid() && AnchorAdded(old(rt.dom), rt.dom, el, a, id, p, q)
    ensures id !in old(rt.dynamicRegions) && rt.dynamicRegions == old(rt.dynamicRegions)[id := region]
    ensures forall x :: x in old(rt.dom).data ==> old(rt.dom).data[x].regionId != Some(id)
  {
    hide WellFormed, EventsAgree, EffectsAgree, RegionsAgree, Issued, Numbered, InsertBefore, AnchorAdded, KidStep;
    ghost var d := rt.dom;
    id := rt.nextDomId;
    Unissued(d.data, rt.dynamicRegions, rt.regionOwner, id);
    AnchorInserted(d, el, p, q);
    a := NewNode(rt, CommentNode, ANCHOR_TEXT);
    FreshBelow(d, el);
    rt.dom := InsertBefore(rt.dom, el, a, at).0;
    ghost var m := rt.dom;
    RegisterDynamicRegion(rt, a, region);
    AnchorRegistered(d, m, el, a, id, p, q);
  }

  lemma FreshBelow(d: Document, el: NodeId)
    requires WellFormed(d) && el in d.tree
    ensures el < d.next
  {
  }

  /**
   * Gives a region hydrated without an anchor its anchor comment: after its run, or at the
   * captured position of an empty run.
   */
  method EnsureAnchor(rt: Runtime, region: RegionId, ghost waiting: set<RegionId>) returns (ready: bool, ghost id: nat)
    requires rt.Valid() && region in rt.cells && LazyHandles(rt.dom, rt.cells[region])
    requires (forall x :: x in rt.cells[region].rendered ==> NoAnchors(rt.dom, rt.dynamicRegions, x))
    requires TracksCurrent(rt.dom, rt.cells[region])
    modifies rt`dom, rt`dynamicRegions, rt`nextDomId, rt`regionOwner, rt`cells
    ensures rt.Valid() && ready == old(Placeable(rt.dom, rt.cells[region]))
    ensures !ready ==> rt.dom == old(rt.dom) && rt.cells == old(rt.cells) && rt.dynamicRegions == old(rt.dynamicRegions)
    ensures ready ==>
              && id !in old(rt.dynamicRegions) && rt.dynamicRegions == old(rt.dynamicRegions)[id := region]
              && region in rt.cells
              && rt.cells == old(rt.cells)[region := old(rt.cells)[region].(anchor := rt.cells[region].anchor)]
              && RegionOk(rt.dom, rt.dynamicRegions, id, rt.cells[region])
              && SameRun(old(rt.dom), rt.dom, old(rt.cells[region].rendered))
    ensures ready && old(RegionsOk(rt, waiting)) && region in waiting ==>
              && RegionsOk(rt, waiting - {region})
                && rt.dynamicRegions.Values == old(rt.dynamicRegions).Values + {region}
              && OthersKeepShowing(old(rt.dom), old(rt.cells), rt.dom, rt.cells,
                                   waiting + old(rt.dynamicRegions).Values, region)
  {
    hide WellFormed, EventsAgree, EffectsAgree, RegionsAgree, Issued, Numbered, NoAnchors, Matches, AllMatch, Flatten,
         Anchored, Lazy, TracksCurrent, AnchorAdded, RegionOk, InOrder, Placeable, LazyHandles, SpotParent,
         SpotBefore, OthersKeepShowing, Standing, Host;
    var c := rt.cells[region];
    ghost var d, regions, cells := rt.dom, rt.dynamicRegions, rt.cells;
    id := 0;
    ready := FindsSpot(rt.dom, c);
    if !ready {
      return;
    }
    ghost var p, q := AnchorSpot(d, c);
    var el := SpotParent(rt.dom, c);
    var a: NodeId;
    a, id := PlaceAnchor(rt, region, el, SpotBefore(rt.dom, c), p + c.rendered, q);
    rt.cells := rt.cells[region := c.(anchor := Some(a))];
    NewRegionOk(d, rt.dom, regions, el, a, id, region, c, p, q);
    RunStaysSame(d, rt.dom, el, a, id, c.rendered, p, q);
    if InOrder(d, cells, regions, waiting) && region in waiting {
      OthersAfterAnchor(rt, d, cells, regions, el, a, id, region, p, q, waiting);
    }
  }

  /** The run's nodes are of the same kind and have the same children. */
  ghost predicate SameRun(d: Document, e: Document, ns: seq<NodeId>) {
    d.next <= e.next && forall x :: x in ns ==>
      x in d.tree && x in d.data && x in e.tree && x in e.data && e.tree[x].kids == d.tree[x].kids
        && e.data[x].kind == d.data[x].kind
  }

  lemma RunStaysSame(d: Document, e: Document, el: NodeId, a: NodeId, id: nat, ns: seq<NodeId>, p: seq<NodeId>,
                     q: seq<NodeId>)
    requires WellFormed(d) && AnchorAdded(d, e, el, a, id, p + ns, q) && d.tree[el].kids == p + ns + q
    ensures SameRun(d, e, ns)
  {
    KeysAgree(d);
    assert LinksOk(d.tree, el);
    forall x | x in ns ensures x in d.tree && x != el && SameNode(d, e, x) {
      assert x in p + ns + q;
    }
  }

  lemma KeptFromBefore(d: Document, e: Document, rendered: seq<NodeId>, prior: seq<VNode>, v: VNode, ns: seq<NodeId>)
    requires SameRun(d, e, rendered) && RunKept(e, rendered, prior, v, ns)
    ensures RunKept(d, rendered, prior, v, ns)
  {
    hide Flatten, Claim, Keys, Patchable;
    var flat, wanted := Flatten(prior), Flatten([v]);
    if |rendered| == |flat| {
      forall i | 0 <= i < |ns| ensures PlacedFrom(d, rendered, flat, wanted, i, ns[i]) {
        assert PlacedFrom(e, rendered, flat, wanted, i, ns[i]);
        var c := Claim(Keys(flat), Keys(wanted), i);
        if c.Some? {
          assert rendered[c.value] in rendered;
          PatchableSame(d, e, rendered[c.value], flat[c.value], wanted[i]);
        }
      }
    }
  }

  lemma OthersAfterAnchor(rt: Runtime, d: Document, cells: map<RegionId, RegionCells>, regions: map<nat, RegionId>,
                          el: NodeId, a: NodeId, id: nat, region: RegionId, p: seq<NodeId>, q: seq<NodeId>,
                          waiting: set<RegionId>)
    requires WellFormed(d) && WellFormed(rt.dom) && region in cells && region in waiting && id !in regions
    requires InOrder(d, cells, regions, waiting) && el in d.tree && IsElement(d, el)
    requires var c := cells[region];
             && d.tree[el].kids == p + c.rendered + q
             && AnchorAdded(d, rt.dom, el, a, id, p + c.rendered, q)
               && rt.cells == cells[region := c.(anchor := Some(a))]
             && RegionOk(rt.dom, rt.dynamicRegions, id, c.(anchor := Some(a)))
    requires rt.dynamicRegions == regions[id := region]
    requires forall x :: x in d.data ==> d.data[x].regionId != Some(id)
    ensures RegionsOk(rt, waiting - {region}) && rt.dynamicRegions.Values == regions.Values + {region}
    ensures OthersKeepShowing(d, cells, rt.dom, rt.cells, waiting + regions.Values, region)
  {
    hide WellFormed, AnchorAdded, RegionOk, BlockStep, OthersKeepShowing, Separate;
    WaitingRun(d, cells, regions, waiting, region);
    AnchorStep(d, rt.dom, el, a, id, cells[region], p, q);
    OthersIntact(d, cells, regions, waiting, rt.dom, rt.cells, rt.dynamicRegions, region, id, el, p, q);
  }

  lemma WaitingRun(d: Document, cells: map<RegionId, RegionCells>, regions: map<nat, RegionId>, waiting: set<RegionId>,
                   region: RegionId)
    requires InOrder(d, cells, regions, waiting) && region in waiting
    ensures region in cells && region !in regions.Values && cells[region].anchor == None && cells[region].rendered != []
    ensures Lazy(d, cells[region]) && TracksCurrent(d, cells[region])
    ensures forall x :: x in cells[region].rendered ==> NoAnchors(d, regions, x)
  {
    hide Separate, TracksCurrent, NoAnchors;
  }

  // --- One render of a region ---

  /** The region's anchor hangs under an element. */
  predicate Mounted(d: Document, c: RegionCells) {
    && c.anchor.Some? && c.anchor.value in d.tree && d.tree[c.anchor.value].parent.Some?
    && IsElement(d, d.tree[c.anchor.value].parent.value)
  }

  /**
   * What a render asks of the region: a mounted anchor is registered and in order, and a region
   * without an anchor holds a run it could be anchored after.
   */
  ghost predicate Renderable(d: Document, cells: map<RegionId, RegionCells>, regions: map<nat, RegionId>,
                             region: RegionId) {
    && region in cells
    && (Mounted(d, cells[region]) ==>
          exists id :: id in regions && regions[id] == region && RegionOk(d, regions, id, cells[region]))
    && (cells[region].anchor == None ==>
          && LazyHandles(d, cells[region]) && TracksCurrent(d, cells[region])
          && forall x :: x in cells[region].rendered ==> NoAnchors(d, regions, x))
  }

  /** The render will reach the document. */
  ghost predicate Reachable(d: Document, c: RegionCells) {
    Mounted(d, c) || (c.anchor == None && Placeable(d, c))
  }

  lemma KeepsShowingTrans(d: Document, cells: map<RegionId, RegionCells>, e: Document, cells': map<RegionId,
                          RegionCells>,
                          f: Document, cells'': map<RegionId, RegionCells>, tracked: set<RegionId>, region: RegionId)
    requires (d == e && cells == cells') || OthersKeepShowing(d, cells, e, cells', tracked, region)
    requires OthersKeepShowing(e, cells', f, cells'', tracked, region)
    ensures OthersKeepShowing(d, cells, f, cells'', tracked, region)
  {
    hide ShowsCurrent;
  }

  lemma RegionMounted(d: Document, regions: map<nat, RegionId>, id: nat, c: RegionCells)
    requires RegionOk(d, regions, id, c)
    ensures Mounted(d, c)
  {
  }

  /**
   * Applies one new render of a region. It shows the new vnode if it has a place in the document,
   * and only records it otherwise. Every other tracked region is left as it was; a waiting region
   * is anchored and registered by its first update.
   */
  method UpdateDynamicRegion(rt: Runtime, region: RegionId, v: VNode, ghost waiting: set<RegionId>)
    requires rt.Valid() && Plain(v) && Renderable(rt.dom, rt.cells, rt.dynamicRegions, region)
    modifies rt
    ensures rt.Valid() && region in rt.cells
    ensures old(Reachable(rt.dom, rt.cells[region])) ==>
              && ShowsCurrent(rt.dom, rt.cells[region]) && rt.cells[region].current == Some(v)
              && Mounted(rt.dom, rt.cells[region])
              && Renderable(rt.dom, rt.cells, rt.dynamicRegions, region)
    ensures old(Reachable(rt.dom, rt.cells[region])) ==>
              RunKept(old(rt.dom), old(rt.cells[region].rendered), old(Prior(rt.cells[region])), v,
                      rt.cells[region].rendered)
    ensures !old(Reachable(rt.dom, rt.cells[region])) ==>
              && rt.dom == old(rt.dom) && rt.dynamicRegions == old(rt.dynamicRegions)
              && rt.cells == old(rt.cells)[region := old(rt.cells[region]).(current := Some(v))]
    ensures old(Mounted(rt.dom, rt.cells[region])) ==> rt.dynamicRegions == old(rt.dynamicRegions)
    ensures rt.cells.Keys == old(rt.cells).Keys
    ensures old(RegionsOk(rt, waiting)) && region in waiting + old(rt.dynamicRegions).Values ==>
              && RegionsOk(rt, waiting - {region})
              && rt.dynamicRegions.Values == old(rt.dynamicRegions).Values + {region}
              && OthersKeepShowing(old(rt.dom), old(rt.cells), rt.dom, rt.cells,
                                   waiting + old(rt.dynamicRegions).Values, region)
  {
    hide WellFormed, EventsAgree, EffectsAgree, RegionsAgree, Issued, Numbered, NoAnchors, Matches, AllMatch, Flatten,
         Plain, LazyHandles, TracksCurrent, Anchored, InOrder, OthersKeepShowing, RegionOk, Placeable, ShowsCurrent,
         ParentOf, BeforeRun, AfterRun, RunFrame, RunKept, SameRun;
    ghost var d, cells, regions := rt.dom, rt.cells, rt.dynamicRegions;
    ghost var id: nat;
    if InOrder(d, cells, regions, waiting) && region in waiting + regions.Values {
      TrackedPlace(d, cells, regions, waiting, region);
    }
    if rt.cells[region].anchor == None {
      var ready: bool;
      ready, id := EnsureAnchor(rt, region, waiting);
      if !ready {
        rt.cells := rt.cells[region := rt.cells[region].(current := Some(v))];
        return;
      }
    } else if !Mounted(rt.dom, rt.cells[region]) {
      rt.cells := rt.cells[region := rt.cells[region].(current := Some(v))];
      return;
    } else {
      id :| id in regions && regions[id] == region && RegionOk(d, regions, id, cells[region]);
    }
    ghost var d', cells' := rt.dom, rt.cells;
    RenderAnchored(rt, id, region, v, waiting - {region});
    RegionMounted(rt.dom, rt.dynamicRegions, id, rt.cells[region]);
    if cells[region].anchor == None {
      KeptFromBefore(d, d', cells[region].rendered, Prior(cells[region]), v, rt.cells[region].rendered);
    }
    if InOrder(d, cells, regions, waiting) && region in waiting + regions.Values {
      assert waiting - {region} + (regions.Values + {region}) == waiting + regions.Values;
      KeepsShowingTrans(d, cells, d', cells', rt.dom, rt.cells, waiting + regions.Values, region);
    }
  }

  /** A tracked region is registered and mounted, or waits where an anchor can be put. */
  lemma TrackedPlace(d: Document, cells: map<RegionId, RegionCells>, regions: map<nat, RegionId>,
                     waiting: set<RegionId>, region: RegionId)
    requires InOrder(d, cells, regions, waiting) && region in waiting + regions.Values
    ensures region in cells
    ensures region in waiting ==>
              region !in regions.Values && cells[region].anchor == None && Placeable(d, cells[region])
    ensures region !in waiting ==> Mounted(d, cells[region]) && waiting - {region} == waiting
    ensures region !in waiting ==> regions.Values + {region} == regions.Values
  {
    hide NoAnchors, TracksCurrent, Separate, Standing, RegionOk, InOrder;
    if region in waiting {
      WaitingRun(d, cells, regions, waiting, region);
    } else {
      var id :| id in regions && regions[id] == region;
      RegisteredOne(d, cells, regions, waiting, id);
      RegionMounted(d, regions, id, cells[region]);
    }
  }

  lemma RegisteredOne(d: Document, cells: map<RegionId, RegionCells>, regions: map<nat, RegionId>,
                      waiting: set<RegionId>, id: nat)
    requires InOrder(d, cells, regions, waiting) && id in regions
    ensures regions[id] in cells && RegionOk(d, regions, id, cells[regions[id]])
  {
    hide RegionOk, Separate, WaitingOk;
  }

  // --- Any number of updates ---

  /** A render of some region. */
  datatype Update = Update(region: RegionId, view: VNode)

  /** The view the last of `updates` gave `region`, if any did. */
  ghost function Latest(updates: seq<Update>, region: RegionId): Option<VNode> {
    if updates == [] then None
    else
      var u := updates[|updates| - 1];
      if u.region == region then Some(u.view) else Latest(updates[..|updates| - 1], region)
  }

  /** Each region shows the last view it was given. */
  ghost predicate ShowsLatest(d: Document, cells: map<RegionId, RegionCells>, updates: seq<Update>) {
    forall r :: Latest(updates, r).Some? ==>
      r in cells && cells[r].current == Latest(updates, r) && ShowsCurrent(d, cells[r])
  }

  ghost function Named(updates: seq<Update>): set<RegionId> {
    set u | u in updates :: u.region
  }

  lemma {:induction false} LatestNamed(updates: seq<Update>, r: RegionId)
    ensures Latest(updates, r).Some? <==> r in Named(updates)
  {
    if updates != [] {
      var u, rest := updates[|updates| - 1], updates[..|updates| - 1];
      LatestNamed(rest, r);
      assert updates == rest + [u];
      assert Named(updates) == Named(rest) + {u.region} by {
        forall s | s in Named(rest) ensures s in Named(updates) {
          var w :| w in rest && w.region == s;
          assert w in updates;
        }
        assert u in updates;
      }
    }
  }

  lemma ShowsLatestNext(d: Document, cells: map<RegionId, RegionCells>, e: Document, cells': map<RegionId, RegionCells>,
                        tracked: set<RegionId>, updates: seq<Update>, u: Update)
    requires ShowsLatest(d, cells, updates) && OthersKeepShowing(d, cells, e, cells', tracked, u.region)
    requires forall i :: 0 <= i < |updates| ==> updates[i].region in tracked
    requires u.region in cells' && cells'[u.region].current == Some(u.view) && ShowsCurrent(e, cells'[u.region])
    ensures ShowsLatest(e, cells', updates + [u])
  {
    hide ShowsCurrent;
    assert (updates + [u])[..|updates|] == updates;
    forall r | Latest(updates + [u], r).Some?
      ensures r in cells' && cells'[r].current == Latest(updates + [u], r) && ShowsCurrent(e, cells'[r])
    {
      LatestNamed(updates, r);
    }
  }

  /** A tracked region no update names keeps its cells, and goes on showing its view if it did. */
  ghost predicate KeepsUntouched(d: Document, cells: map<RegionId, RegionCells>, e: Document,
                                 cells': map<RegionId, RegionCells>, tracked: set<RegionId>, updates: seq<Update>)
  {
    forall r :: r in cells && r in tracked && Latest(updates, r) == None ==>
      && r in cells' && cells'[r] == cells[r] && (ShowsCurrent(d, cells[r]) ==> ShowsCurrent(e, cells[r]))
  }

  lemma UntouchedNext(d: Document, cells: map<RegionId, RegionCells>, e: Document, cells': map<RegionId, RegionCells>,
                      f: Document, cells'': map<RegionId, RegionCells>, tracked: set<RegionId>,
                      updates: seq<Update>, u: Update)
    requires KeepsUntouched(d, cells, e, cells', tracked, updates)
    requires OthersKeepShowing(e, cells', f, cells'', tracked, u.region)
    ensures KeepsUntouched(d, cells, f, cells'', tracked, updates + [u])
  {
    hide ShowsCurrent;
    assert (updates + [u])[..|updates|] == updates;
  }

  lemma NoneLatest(d: Document, cells: map<RegionId, RegionCells>, tracked: set<RegionId>)
    ensures ShowsLatest(d, cells, []) && KeepsUntouched(d, cells, d, cells, tracked, [])
  {
  }

  /** A tracked region can be rendered, and the render will reach the document. */
  lemma TrackedRenderable(rt: Runtime, waiting: set<RegionId>, region: RegionId)
    requires RegionsOk(rt, waiting) && region in waiting + rt.dynamicRegions.Values
    ensures Renderable(rt.dom, rt.cells, rt.dynamicRegions, region) && Reachable(rt.dom, rt.cells[region])
  {
    hide NoAnchors, TracksCurrent, RegionOk, InOrder, Anchored;
    var d, cells, regions := rt.dom, rt.cells, rt.dynamicRegions;
    TrackedPlace(d, cells, regions, waiting, region);
    if region in waiting {
      WaitingRun(d, cells, regions, waiting, region);
      WaitingHandles(d, cells[region]);
    } else {
      var id :| id in regions && regions[id] == region;
      RegisteredOne(d, cells, regions, waiting, id);
      RegionStands(d, regions, id, cells[region]);
    }
  }

  lemma WaitingHandles(d: Document, c: RegionCells)
    requires Lazy(d, c)
    ensures LazyHandles(d, c) && !Mounted(d, c)
  {
  }

  lemma NamedNext(updates: seq<Update>, u: Update)
    ensures Named(updates + [u]) == Named(updates) + {u.region}
  {
    LatestNamed(updates, u.region);
    forall r | r in Named(updates) + {u.region} ensures r in Named(updates + [u]) {
      if r == u.region {
        assert u in updates + [u];
      } else {
        var w :| w in updates && w.region == r;
        assert w in updates + [u];
      }
    }
  }

  /**
   * Over any sequence of updates of tracked regions all stay in order, each shows the last view it
   * was given, and the rest keep theirs. Exactly the waiting regions no update named still wait.
   */
  method RunUpdates(rt: Runtime, updates: seq<Update>, ghost waiting: set<RegionId>) returns (ghost left: set<RegionId>)
    requires rt.Valid() && RegionsOk(rt, waiting)
    requires forall i :: 0 <= i < |updates| ==> Plain(updates[i].view)
    requires forall i :: 0 <= i < |updates| ==> updates[i].region in waiting + rt.dynamicRegions.Values
    modifies rt
    ensures rt.Valid() && RegionsOk(rt, left) && left == waiting - Named(updates)
    ensures left + rt.dynamicRegions.Values == waiting + old(rt.dynamicRegions).Values
    ensures ShowsLatest(rt.dom, rt.cells, updates)
    ensures KeepsUntouched(old(rt.dom), old(rt.cells), rt.dom, rt.cells, waiting + old(rt.dynamicRegions).Values,
                           updates)
  {
    hide WellFormed, EventsAgree, EffectsAgree, RegionsAgree, Issued, Numbered, NoAnchors, Matches, AllMatch, Flatten,
         Plain,
         LazyHandles, TracksCurrent, Anchored, OthersKeepShowing, Placeable, ShowsCurrent, ShowsLatest, Latest, Named,
         KeepsUntouched, Mounted, InOrder, Renderable;
    ghost var tracked := waiting + rt.dynamicRegions.Values;
    left := waiting;
    NoneLatest(rt.dom, rt.cells, tracked);
    NoneNamed();
    for i := 0 to |updates|
      invariant rt.Valid() && RegionsOk(rt, left) && left == waiting - Named(updates[..i])
      invariant left + rt.dynamicRegions.Values == tracked
      invariant ShowsLatest(rt.dom, rt.cells, updates[..i])
      invariant KeepsUntouched(old(rt.dom), old(rt.cells), rt.dom, rt.cells, tracked, updates[..i])
    {
      var u := updates[i];
      ghost var d, cells := rt.dom, rt.cells;
      TrackedRenderable(rt, left, u.region);
      UpdateDynamicRegion(rt, u.region, u.view, left);
      left := left - {u.region};
      ShowsLatestNext(d, cells, rt.dom, rt.cells, tracked, updates[..i], u);
      UntouchedNext(old(rt.dom), old(rt.cells), d, cells, rt.dom, rt.cells, tracked, updates[..i], u);
      NamedNext(updates[..i], u);
      assert updates[..i + 1] == updates[..i] + [u];
    }
    assert updates[..|updates|] == updates;
  }

  lemma NoneNamed()
    ensures Named([]) == {}
  {
  }
}
