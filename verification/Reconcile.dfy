/** Patching DOM in place from one render to the next. */
module Reconcile {
  import opened Prelude
  import opened VirtualDom
  import opened Dom
  import opened Resources
  import opened Rendering
  import opened Attributes
  import opened Building
  import opened Teardown
  import opened Confinement
  import opened KeyedMatching
  import opened Placement
  import opened PatchSteps
  import opened Runs

  /** The region registry is as it was. */
  twostate predicate SameRegions(rt: Runtime)
    reads rt
  {
    rt.dynamicRegions == old(rt.dynamicRegions) && rt.cells == old(rt.cells) && rt.regionOwner == old(rt.regionOwner)
  }

  /** Patches one node in place; `false` asks the caller to rebuild it. */
  method PatchDom(rt: Runtime, n: NodeId, v: VNode, w: VNode) returns (patched: bool)
    requires rt.Valid() && n in rt.dom.tree && Plain(v) && Plain(w) && NoAnchors(rt.dom, rt.dynamicRegions, n)
    modifies rt
    ensures rt.Valid() && SameRegions(rt)
    ensures Confined(old(rt.dom), rt.dom, n) && LocalLog(old(rt.dom), rt.dom, n)
    ensures patched && Tracks(old(rt.dom), n, v) ==> Shows(rt.dom, n, w)
    ensures patched <==> Patchable(old(rt.dom), n, v, w)
    decreases Weight(w), 0
  {
    hide WellFormed, EventsAgree, EffectsAgree, RegionsAgree, Issued, CellsExist, Numbered, Confined, LocalLog,
         NoAnchors, Matches, Plain;
    KeysAgree(rt.dom);
    NothingConfined(rt.dom, n);
    if v.Text? && w.Text? {
      if v.text != w.text {
        WriteText(rt, n, w.text);
      }
      LeafPatched(old(rt.dom), rt.dom, n, v, w);
      return true;
    }
    if v.Comment? && w.Comment? {
      if v.text != w.text {
        WriteText(rt, n, w.text);
      }
      LeafPatched(old(rt.dom), rt.dom, n, v, w);
      return true;
    }
    if v.Element? && w.Element? && v.tag == w.tag {
      if !IsElement(rt.dom, n) {
        return false;
      }
      PatchRecord(rt, n, v, w);
      ghost var middle := rt.dom;
      RecordPatched(old(rt.dom), n, middle.data[n], rt.dynamicRegions);
      PlainElement(v);
      PlainElement(w);
      WeightElement(w);
      patched := PatchChildren(rt, n, v.children, w.children);
      ConfinedTrans(old(rt.dom), middle, rt.dom, n);
      ConfinedGrows(middle, rt.dom, n);
      LocalTrans(old(rt.dom), middle, rt.dom, n);
      ElementPatched(old(rt.dom), middle, rt.dom, n, v, w, patched);
      return;
    }
    return false;
  }

  lemma ConfinedGrows(d: Document, e: Document, n: NodeId)
    requires Confined(d, e, n)
    ensures Grows(d, e)
  {
  }

  lemma WeightElement(v: VNode)
    requires v.Element?
    ensures Weight(v) == 1 + WeightAll(v.children)
  {
  }

  lemma LeafPatched(d: Document, e: Document, n: NodeId, v: VNode, w: VNode)
    requires (v.Text? && w.Text?) || (v.Comment? && w.Comment?)
    requires n in e.tree && n in e.data
    requires if v.text == w.text then e == d
             else n in d.data && (!MayHaveKids(d, n) ==> e.data[n] == d.data[n].(text := w.text))
    ensures Tracks(d, n, v) ==> Shows(e, n, w)
  {
  }

  lemma RecordPatched(d: Document, n: NodeId, data: NodeData, regions: map<nat, RegionId>)
    requires WellFormed(d) && n in d.data && data.kind == d.data[n].kind && data.regionId == d.data[n].regionId
    ensures Confined(d, SetData(d, n, data), n) && LocalLog(d, SetData(d, n, data), n)
    ensures NoAnchors(d, regions, n) ==> NoAnchors(SetData(d, n, data), regions, n)
  {
    RecordConfined(d, n, data);
    if NoAnchors(d, regions, n) {
      KeysAgree(d);
      NoAnchorsKept(d, SetData(d, n, data), regions, n);
    }
  }

  lemma ElementPatched(d: Document, m: Document, e: Document, n: NodeId, v: VNode, w: VNode, patched: bool)
    requires WellFormed(d) && IsElement(d, n) && v.Element? && w.Element? && v.tag == w.tag && n in m.data
    requires m.data[n].kind == d.data[n].kind && m == SetData(d, n, m.data[n])
    requires RecordTracks(d.data[n], d.rules, v) ==> RecordShows(m.data[n], d.rules, w)
    requires n in d.tree && n in e.tree && n in e.data && e.data[n] == m.data[n] && e.rules == d.rules
    requires patched <==> |d.tree[n].kids| == |Flatten(v.children)|
    requires patched && AllMatch(m, d.tree[n].kids, Flatten(v.children), true) ==>
               AllShow(e, e.tree[n].kids, Flatten(w.children))
    ensures patched && Tracks(d, n, v) ==> Shows(e, n, w)
  {
    if patched && Tracks(d, n, v) {
      var kids, flat := d.tree[n].kids, Flatten(v.children);
      forall i | 0 <= i < |flat| ensures Matches(m, kids[i], flat[i], true) {
        assert flat[i] in flat;
        KidsBelow(d, n);
        RecordSameBelow(d, n, m.data[n], kids[i]);
        MatchesFrame(d, m, kids[i], flat[i], true);
      }
      ElementShows(e, n, w);
    }
  }

  lemma RecordSameBelow(d: Document, n: NodeId, data: NodeData, k: NodeId)
    requires WellFormed(d) && n in d.data && data.kind == d.data[n].kind && n < k
    ensures SameBelow(d, SetData(d, n, data), k)
  {
  }

  lemma WholeRunLocal(d: Document, e: Document, el: NodeId, prior: seq<Key>, wanted: seq<Key>)
    requires WellFormed(d) && el in d.tree && |prior| == |d.tree[el].kids|
    requires RunLog(d, e, d.tree[el].kids, prior, wanted)
    ensures LocalLog(d, e, el)
  {
    forall m | m in Since(d, e) ensures LocalMutation(d, el, m) {
      assert RunMutation(d, d.tree[el].kids, prior, wanted, m);
      if Subject(m) < d.next {
        var i :| 0 <= i < |d.tree[el].kids| && Under(d.tree, d.tree[el].kids[i], Subject(m));
        UnderKid(d, el, d.tree[el].kids[i], Subject(m));
      }
    }
  }

  /** Reconciles all children of `el`; `false` when they do not line up with the old render. */
  method PatchChildren(rt: Runtime, el: NodeId, prior: seq<VNode>, wanted: seq<VNode>) returns (patched: bool)
    requires rt.Valid() && IsElement(rt.dom, el) && PlainAll(prior) && PlainAll(wanted)
    requires NoAnchors(rt.dom, rt.dynamicRegions, el)
    modifies rt
    ensures rt.Valid() && SameRegions(rt) && el in rt.dom.tree && el in rt.dom.data && el in old(rt.dom).tree
    ensures Confined(old(rt.dom), rt.dom, el) && LocalLog(old(rt.dom), rt.dom, el)
    ensures rt.dom.data[el] == old(rt.dom).data[el]
    ensures patched <==> |old(rt.dom).tree[el].kids| == |Flatten(prior)|
    ensures patched && AllMatch(old(rt.dom), old(rt.dom).tree[el].kids, Flatten(prior), true) ==>
              AllShow(rt.dom, rt.dom.tree[el].kids, Flatten(wanted))
    decreases WeightAll(wanted), 4
  {
    hide WellFormed, EventsAgree, EffectsAgree, RegionsAgree, Issued, CellsExist, Numbered, Confined, LocalLog,
         NoAnchors, Matches, Flatten, PlainAll, RunLog, RunFrame, PlacedShow, PlacedOrigins;
    KeysAgree(rt.dom);
    var existing := rt.dom.tree[el].kids;
    assert existing == [] + existing + [];
    WholeRunPlain(rt.dom, rt.dynamicRegions, el);
    NothingConfined(rt.dom, el);
    var r := ReconcileRange(rt, el, existing, prior, wanted, None, [], []);
    if r.None? {
      return false;
    }
    RunBasics(old(rt.dom), rt.dom, el, existing);
    WholeRunConfined(old(rt.dom), rt.dom, el);
    WholeRunLocal(old(rt.dom), rt.dom, el, Keys(Flatten(prior)), Keys(Flatten(wanted)));
    assert rt.dom.tree[el].kids == r.value;
    AllPlacedShow(old(rt.dom), rt.dom, existing, Flatten(prior), Flatten(wanted), r.value);
    return true;
  }

  lemma AllPlacedShow(d: Document, e: Document, ns: seq<NodeId>, prior: seq<VNode>, wanted: seq<VNode>,
                      placed: seq<NodeId>)
    requires |placed| == |wanted| && PlacedShow(d, e, ns, prior, wanted, placed)
    ensures AllMatch(d, ns, prior, true) ==> AllShow(e, placed, wanted)
  {
  }

  lemma WholeRunPlain(d: Document, regions: map<nat, RegionId>, el: NodeId)
    requires WellFormed(d) && el in d.tree && NoAnchors(d, regions, el)
    ensures forall i :: 0 <= i < |d.tree[el].kids| ==> NoAnchors(d, regions, d.tree[el].kids[i])
  {
    forall i | 0 <= i < |d.tree[el].kids| ensures NoAnchors(d, regions, d.tree[el].kids[i]) {
      NoAnchorsBelow(d, regions, el, d.tree[el].kids[i]);
    }
  }

  lemma RunBasics(d: Document, e: Document, el: NodeId, ns: seq<NodeId>)
    requires RunFrame(d, e, el, ns)
    ensures Grows(d, e) && el in d.tree && el in d.data && el in e.tree && el in e.data && e.data[el] == d.data[el]
    ensures e.tree[el].parent == d.tree[el].parent && e.rules == d.rules
  {
  }

  /** Patches a claimed node in place; if the shapes are incompatible, swaps it for a new one. */
  method ReuseSource(rt: Runtime, el: NodeId, n: NodeId, v: VNode, w: VNode, ghost a: seq<NodeId>, ghost b: seq<NodeId>)
    returns (r: NodeId)
    requires rt.Valid() && IsElement(rt.dom, el) && el in rt.dom.tree && n in rt.dom.tree && IsChild(rt.dom, el, n)
    requires rt.dom.tree[el].kids == a + [n] + b && Plain(v) && Plain(w) && !w.Fragment?
    requires NoAnchors(rt.dom, rt.dynamicRegions, n)
    modifies rt
    ensures rt.Valid() && SameRegions(rt)
    ensures KidStep(old(rt.dom), rt.dom, el, Some(n)) && rt.dom.tree[el].kids == a + [r] + b
    ensures r in rt.dom.tree && IsChild(rt.dom, el, r) && (r == n || (r >= old(rt.dom).next && !IsChild(rt.dom, el, n)))
    ensures Tracks(old(rt.dom), n, v) ==> Shows(rt.dom, r, w)
    ensures r == n <==> Patchable(old(rt.dom), n, v, w)
    ensures forall m :: m in Since(old(rt.dom), rt.dom) ==> StepMutation(old(rt.dom), n, m)
    decreases Weight(w), 1
  {
    hide WellFormed, EventsAgree, EffectsAgree, RegionsAgree, Issued, CellsExist, Numbered, Confined, LocalLog,
         NoAnchors, Matches, Plain, KidStep, Built, StepMutation, Released, ReplaceChild, Patchable;
    KeysAgree(rt.dom);
    BelowNew(rt.dom, n);
    ghost var before := rt.dom;
    var patched := PatchDom(rt, n, v, w);
    if patched {
      KeepStep(before, rt.dom, el, n);
      return n;
    }
    r := Swap(rt, el, n, w, before, a, b);
  }

  lemma BelowNew(d: Document, n: NodeId)
    requires WellFormed(d) && n in d.tree
    ensures n < d.next
  {
  }

  method Swap(rt: Runtime, el: NodeId, n: NodeId, w: VNode, ghost before: Document, ghost a: seq<NodeId>,
              ghost b: seq<NodeId>) returns (r: NodeId)
    requires rt.Valid() && WellFormed(before) && Plain(w) && !w.Fragment?
    requires el in before.tree && n in before.tree && IsChild(before, el, n) && before.tree[el].kids == a + [n] + b
    requires Confined(before, rt.dom, n) && LocalLog(before, rt.dom, n) && NoAnchors(before, rt.dynamicRegions, n)
    modifies rt
    ensures rt.Valid() && SameRegions(rt)
    ensures KidStep(before, rt.dom, el, Some(n)) && rt.dom.tree[el].kids == a + [r] + b
    ensures r in rt.dom.tree && IsChild(rt.dom, el, r) && r >= before.next && !IsChild(rt.dom, el, n)
    ensures Shows(rt.dom, r, w)
    ensures forall m :: m in Since(before, rt.dom) ==> StepMutation(before, n, m)
  {
    hide WellFormed, EventsAgree, EffectsAgree, RegionsAgree, Issued, CellsExist, Numbered, Confined, LocalLog,
         NoAnchors, Matches, Plain, KidStep, Built, StepMutation, Released, ReplaceChild, Subtree;
    ghost var patched := rt.dom;
    SwapReady(before, patched, el, n);
    r := CreateDomNode(rt, w);
    SwapBuilt(before, patched, rt.dom, rt.dynamicRegions, el, n, r, w);
    PlainAnchor(rt, n);
    ghost var _ := RemoveRegionContent(rt, el, n, {});
    ghost var held := Now(rt);
    ReleaseDomNodeResources(rt, n);
    ReleasedTree(held, Now(rt), Subtree(rt.dom.tree, n));
    Swapped(before, patched, held, Now(rt), el, n, r, w, a, b);
    rt.dom := ReplaceChild(rt.dom, el, r, n).0;
  }

  /** The new node is built; the old one still anchors nothing. */
  lemma SwapBuilt(before: Document, patched: Document, built: Document, regions: map<nat, RegionId>, el: NodeId,
                  n: NodeId, r: NodeId, w: VNode)
    requires WellFormed(before) && WellFormed(patched) && WellFormed(built) && el in before.tree && n in before.tree
    requires Confined(before, patched, n) && NoAnchors(before, regions, n) && Built(patched, built, r, w)
    ensures el in built.tree && n in built.tree && n in built.data && Confined(before, built, n)
            && NoAnchors(built, regions, n)
  {
    hide WellFormed, Confined, NoAnchors, Built;
    SwapReady(before, patched, el, n);
    BuiltConfined(patched, built, n, r, w);
    ConfinedTrans(before, patched, built, n);
    NoAnchorsKept(before, built, regions, n);
    SwapReady(before, built, el, n);
  }

  /** Replacing the patched node by the new one is one step of the parent. */
  lemma Swapped(before: Document, patched: Document, held: Snapshot, freed: Snapshot, el: NodeId, n: NodeId, r: NodeId,
                w: VNode, a: seq<NodeId>, b: seq<NodeId>)
    requires WellFormed(before) && WellFormed(patched) && WellFormed(held.dom) && WellFormed(freed.dom) && !w.Fragment?
    requires el in before.tree && n in before.tree && IsChild(before, el, n) && before.tree[el].kids == a + [n] + b
    requires Confined(before, patched, n) && LocalLog(before, patched, n) && NoAnchors(before, held.regions, n)
    requires Built(patched, held.dom, r, w) && Released(held, freed, Subtree(held.dom.tree, n))
    requires RegionsAgree(held.dom.data, held.regions, held.regionOwner)
    ensures freed.regions == held.regions && freed.cells == held.cells
    ensures el in freed.dom.tree && n in freed.dom.tree && r in freed.dom.tree && el < r
            && freed.dom.tree[r].parent == None
    ensures r in freed.dom.data && !freed.dom.data[r].kind.FragmentNode?
    ensures var f := ReplaceChild(freed.dom, el, r, n).0;
            && KidStep(before, f, el, Some(n)) && f.tree[el].kids == a + [r] + b
            && r in f.tree && IsChild(f, el, r) && r >= before.next && !IsChild(f, el, n) && Shows(f, r, w)
            && forall m :: m in Since(before, f) ==> StepMutation(before, n, m)
  {
    hide WellFormed, RegionsAgree, Confined, LocalLog, NoAnchors, Matches, KidStep, Built, StepMutation, Released,
         ReplaceChild, Subtree;
    var built := held.dom;
    SwapReady(before, patched, el, n);
    SwapBuilt(before, patched, built, held.regions, el, n, r, w);
    BuiltConfined(patched, built, n, r, w);
    ConfinedGrows(patched, built, n);
    LocalTrans(before, patched, built, n);
    ReleasedConfined(held, freed, n);
    ReleasedTree(held, freed, Subtree(built.tree, n));
    ConfinedTrans(before, built, freed.dom, n);
    ConfinedGrows(built, freed.dom, n);
    LocalTrans(before, built, freed.dom, n);
    BuiltSurvivesRelease(before, patched, held, freed, n, r, w);
    ParentOutside(before, freed.dom, el, n);
    ReplaceStep(before, freed.dom, el, r, n, a, b);
    MatchesFrame(freed.dom, ReplaceChild(freed.dom, el, r, n).0, r, w, false);
  }

  lemma SwapReady(d: Document, e: Document, el: NodeId, n: NodeId)
    requires WellFormed(d) && WellFormed(e) && el in d.tree && n in d.tree && Confined(d, e, n)
    ensures el in e.tree && n in e.tree && n in e.data
    ensures d.next <= e.next && d.tree.Keys <= e.tree.Keys
  {
  }

  lemma PlainAnchor(rt: Runtime, n: NodeId)
    requires n in rt.dom.data && NoAnchors(rt.dom, rt.dynamicRegions, n)
    ensures RegionAt(rt, n).None?
  {
  }

  /** A new tree still shows its vnode after the resources of the node it replaces are released. */
  lemma BuiltSurvivesRelease(before: Document, patched: Document, a: Snapshot, b: Snapshot, n: NodeId, r: NodeId,
                             w: VNode)
    requires WellFormed(patched) && WellFormed(a.dom) && n in before.tree && n in patched.tree
    requires before.next <= patched.next && before.tree.Keys <= patched.tree.Keys
    requires Built(patched, a.dom, r, w) && !w.Fragment? && Released(a, b, Subtree(a.dom.tree, n))
    ensures Shows(b.dom, r, w) && r in b.dom.tree && r in b.dom.data && r >= before.next && r !in before.tree
    ensures b.dom.tree[r].parent == None && !b.dom.data[r].kind.FragmentNode?
  {
    var t := a.dom.tree;
    assert !Under(t, r, n) && !Under(t, n, r);
    forall x | Under(t, r, x) && x in t
      ensures x in b.dom.tree && x in b.dom.data && x in a.dom.data && b.dom.tree[x].kids == t[x].kids
      ensures b.dom.data[x] == a.dom.data[x]
    {
      SubtreesApart(t, r, n, x);
    }
    MatchesFrame(a.dom, b.dom, r, w, false);
  }

  /** Reuses the claimed node `n` for `w` and puts it at the end of `p`. */
  method PlaceClaimed(rt: Runtime, el: NodeId, n: NodeId, v: VNode, w: VNode, previous: Option<NodeId>,
                      runStart: Option<NodeId>, ghost p: seq<NodeId>, ghost q: seq<NodeId>) returns (r: NodeId)
    requires rt.Valid() && IsElement(rt.dom, el) && el in rt.dom.tree && rt.dom.tree[el].kids == p + q && n in q
    requires Plain(v) && Plain(w) && !w.Fragment? && NoAnchors(rt.dom, rt.dynamicRegions, n)
    requires StartOk(previous, runStart, p, q)
    modifies rt
    ensures rt.Valid() && SameRegions(rt) && ClaimedStep(old(rt.dom), rt.dom, el, n, v, w, r, p, q)
    decreases Weight(w), 2
  {
    hide WellFormed, EventsAgree, EffectsAgree, RegionsAgree, Issued, CellsExist, Numbered, NoAnchors, Matches, Plain,
         KidStep, StepMutation, Without, ClaimedStep, Patchable;
    ghost var before := rt.dom;
    ghost var a, b := Around(rt.dom, el, n, p, q);
    r := ReuseSource(rt, el, n, v, w, p + a, b);
    Regrouped(p, a, r, b);
    ghost var reused := rt.dom;
    StepBasics(before, reused, el, Some(n));
    ChildBelow(reused, el, r);
    PlaceBefore(rt, el, r, previous, runStart, p, a + [r] + b);
    AroundSame(reused, el, r, p, a, b);
    AfterPlaced(before, reused, rt.dom, el, n, v, w, r, p, a, b);
  }

  lemma Regrouped(p: seq<NodeId>, a: seq<NodeId>, r: NodeId, b: seq<NodeId>)
    ensures p + a + [r] + b == p + (a + [r] + b) && r in a + [r] + b
  {
  }

  /** As `TargetOk`, for a run whose start is not stale yet. */
  ghost predicate StartOk(previous: Option<NodeId>, runStart: Option<NodeId>, p: seq<NodeId>, q: seq<NodeId>) {
    match previous
    case Some(last) => p != [] && p[|p| - 1] == last
    case None =>
      (match runStart
       case None => p == []
       case Some(start) => q != [] && start == q[0])
  }

  lemma Around(d: Document, el: NodeId, n: NodeId, p: seq<NodeId>, q: seq<NodeId>)
    returns (a: seq<NodeId>, b: seq<NodeId>)
    requires WellFormed(d) && el in d.tree && d.tree[el].kids == p + q && n in q
    ensures q == a + [n] + b && p + q == p + a + [n] + b
    ensures n in d.tree && IsChild(d, el, n) && Without(q, n) == a + b
    ensures a == [] <==> q[0] == n
  {
    var i := IndexOf(q, n);
    a, b := q[..i], q[i + 1..];
    assert LinksOk(d.tree, el);
    assert n in d.tree[el].kids;
    DistinctParts(p, q);
    assert q == a + [n] + b;
    DistinctParts(a + [n], b);
    DistinctParts(a, [n]);
    WithoutMiddle(a, n, b);
  }

  lemma AroundSame(d: Document, el: NodeId, r: NodeId, p: seq<NodeId>, a: seq<NodeId>, b: seq<NodeId>)
    requires WellFormed(d) && el in d.tree && d.tree[el].kids == p + (a + [r] + b)
    ensures Without(a + [r] + b, r) == a + b
    ensures (a + [r] + b)[0] == r <==> a == []
  {
    assert LinksOk(d.tree, el);
    DistinctParts(p, a + [r] + b);
    DistinctParts(a + [r], b);
    DistinctParts(a, [r]);
    WithoutMiddle(a, r, b);
  }

  lemma StepBasics(d: Document, e: Document, el: NodeId, n: Option<NodeId>)
    requires KidStep(d, e, el, n)
    ensures Grows(d, e) && el in e.tree && el in e.data && e.data[el] == d.data[el]
  {
  }

  lemma ChildBelow(d: Document, el: NodeId, r: NodeId)
    requires WellFormed(d) && r in d.tree && IsChild(d, el, r)
    ensures el < r
  {
    assert LinksOk(d.tree, r);
    assert LinksOk(d.tree, el);
  }

  lemma AfterPlaced(d: Document, e: Document, f: Document, el: NodeId, n: NodeId, v: VNode, w: VNode, r: NodeId,
                    p: seq<NodeId>, a: seq<NodeId>, b: seq<NodeId>)
    requires WellFormed(d) && WellFormed(e) && KidStep(d, e, el, Some(n)) && SameNodes(e, f) && r in e.tree && el < r
    requires n in d.tree && (r == n || r >= d.next)
    requires el in e.tree && f.tree[el] == Link(e.tree[el].parent, p + [r] + (a + b))
             && f.tree[r] == Link(Some(el), e.tree[r].kids)
    requires forall x :: x in e.tree && x != el && x != r ==> f.tree[x] == e.tree[x]
    requires f.log == e.log + (if a == [] then [] else [Inserted(el, r)])
    requires Without(a + [n] + b, n) == a + b && (a == [] <==> (a + [n] + b)[0] == n)
    requires Tracks(d, n, v) ==> Shows(e, r, w)
    requires r == n <==> Patchable(d, n, v, w)
    requires forall m :: m in Since(d, e) ==> StepMutation(d, n, m)
    ensures ClaimedStep(d, f, el, n, v, w, r, p, a + [n] + b)
  {
    hide Matches, Without, WellFormed, StepMutation, Patchable;
    PlacedStep(d, e, f, el, n, r);
    PlacedLog(d, e, f, el, n, r, a, b);
    if Tracks(d, n, v) {
      PlacedSame(e, f, el, r);
      MatchesFrame(e, f, r, w, false);
    }
  }

  lemma PlacedStep(d: Document, e: Document, f: Document, el: NodeId, n: NodeId, r: NodeId)
    requires WellFormed(d) && KidStep(d, e, el, Some(n)) && SameNodes(e, f) && r in e.tree
    requires (r == n || r >= d.next) && el in e.tree && f.tree[el].parent == e.tree[el].parent && e.log <= f.log
    requires forall x :: x in e.tree && x != el && x != r ==> f.tree[x] == e.tree[x]
    ensures KidStep(d, f, el, Some(n))
  {
    hide TreeOk, Grows;
    RelinkedGrows(d, e, f);
    forall x | x in d.tree && x != el && !Under(d.tree, n, x) ensures SameNode(d, f, x) {
      assert SameNode(d, e, x);
    }
  }

  lemma RelinkedGrows(d: Document, e: Document, f: Document)
    requires Grows(d, e) && SameNodes(e, f) && e.log <= f.log
    ensures Grows(d, f)
  {
  }

  lemma PlacedLog(d: Document, e: Document, f: Document, el: NodeId, n: NodeId, r: NodeId, a: seq<NodeId>,
                  b: seq<NodeId>)
    requires Grows(d, e) && (r == n || r >= d.next) && f.log == e.log + (if a == [] then [] else [Inserted(el, r)])
    requires a == [] <==> (a + [n] + b)[0] == n
    requires forall m :: m in Since(d, e) ==> StepMutation(d, n, m)
    ensures forall m :: m in Since(d, f) ==>
              Subject(m) >= d.next
              || (Under(d.tree, n, Subject(m)) && (m.Inserted? && m.node == n ==> (a + [n] + b)[0] != n))
  {
    assert Since(d, f) == Since(d, e) + (if a == [] then [] else [Inserted(el, r)]);
    assert Under(d.tree, n, n);
    assert forall m :: m in Since(d, e) ==> StepMutation(d, n, m);
  }

  lemma PlacedSame(e: Document, f: Document, el: NodeId, r: NodeId)
    requires WellFormed(e) && SameNodes(e, f) && r in e.tree && el < r && f.tree[r].kids == e.tree[r].kids
    requires forall x :: x in e.tree && x != el && x != r ==> f.tree[x] == e.tree[x]
    ensures SameBelow(e, f, r)
  {
    hide TreeOk;
  }

  /** Builds a node for `w` and puts it between `p` and `q`. */
  method PlaceCreated(rt: Runtime, el: NodeId, w: VNode, previous: Option<NodeId>, runStart: Option<NodeId>,
                      ghost p: seq<NodeId>, ghost q: seq<NodeId>) returns (r: NodeId)
    requires rt.Valid() && IsElement(rt.dom, el) && el in rt.dom.tree && rt.dom.tree[el].kids == p + q
    requires Plain(w) && !w.Fragment? && StartOk(previous, runStart, p, q)
    modifies rt
    ensures rt.Valid() && SameRegions(rt) && CreatedStep(old(rt.dom), rt.dom, el, w, r, p, q)
  {
    hide WellFormed, EventsAgree, EffectsAgree, RegionsAgree, Issued, CellsExist, Numbered, NoAnchors, Matches, Plain,
         KidStep, Without, CreatedStep, Built;
    ghost var before := rt.dom;
    r := CreateDomNode(rt, w);
    ghost var built := rt.dom;
    CreatedReady(before, built, el, r, w, q);
    PlaceBefore(rt, el, r, previous, runStart, p, q);
    WithoutAbsent(q, r);
    AfterCreatedPlaced(before, built, rt.dom, el, w, r, p, q);
  }

  lemma CreatedReady(d: Document, e: Document, el: NodeId, r: NodeId, w: VNode, q: seq<NodeId>)
    requires WellFormed(d) && WellFormed(e) && Built(d, e, r, w) && !w.Fragment? && el in d.tree
    requires forall x :: x in q ==> x in d.tree[el].kids
    ensures r in e.tree && r in e.data && el in e.tree && el in e.data && el < r && e.tree[r].parent == None
    ensures e.tree[el] == d.tree[el] && e.data[el] == d.data[el] && !e.data[r].kind.FragmentNode? && r !in q
    ensures r >= d.next
  {
    assert LinksOk(d.tree, el);
  }

  lemma AfterCreatedPlaced(d: Document, e: Document, f: Document, el: NodeId, w: VNode, r: NodeId, p: seq<NodeId>,
                           q: seq<NodeId>)
    requires WellFormed(d) && WellFormed(e) && Built(d, e, r, w) && !w.Fragment? && SameNodes(e, f)
    requires el in d.tree && el in e.tree && r in e.tree && el < r && r >= d.next
    requires f.tree[el] == Link(e.tree[el].parent, p + [r] + q) && f.tree[r] == Link(Some(el), e.tree[r].kids)
    requires forall x :: x in e.tree && x != el && x != r ==> f.tree[x] == e.tree[x]
    requires f.log == e.log || f.log == e.log + [Inserted(el, r)]
    ensures CreatedStep(d, f, el, w, r, p, q)
  {
    hide Matches, WellFormed;
    PlacedSame(e, f, el, r);
    MatchesFrame(e, f, r, w, false);
    assert Since(d, f) == Since(d, e) || Since(d, f) == Since(d, e) + [Inserted(el, r)];
    CreatedKidStep(d, e, f, el, r, w);
  }

  lemma CreatedKidStep(d: Document, e: Document, f: Document, el: NodeId, r: NodeId, w: VNode)
    requires WellFormed(d) && WellFormed(e) && Built(d, e, r, w) && SameNodes(e, f) && el in d.tree && el in e.tree
    requires f.tree[el].parent == e.tree[el].parent && r >= d.next && e.log <= f.log
    requires forall x :: x in e.tree && x != el && x != r ==> f.tree[x] == e.tree[x]
    ensures KidStep(d, f, el, None)
  {
    hide Matches, TreeOk;
    assert forall x :: x in d.tree ==> x != r;
  }

  /** Where the anchor of a run stands. */
  ghost predicate AnchorOk(anchor: Option<NodeId>, pre: seq<NodeId>, suf: seq<NodeId>) {
    match anchor
    case Some(a) => suf != [] && suf[0] == a
    case None => pre == [] && suf == []
  }

  function LastOf(placed: seq<NodeId>): Option<NodeId> {
    if placed == [] then None else Some(placed[|placed| - 1])
  }

  lemma StartHolds(anchor: Option<NodeId>, existing: seq<NodeId>, pre: seq<NodeId>, suf: seq<NodeId>,
                   placed: seq<NodeId>, consumed: seq<bool>)
    requires AnchorOk(anchor, pre, suf) && |consumed| == |existing|
    requires placed == [] ==> forall i :: 0 <= i < |consumed| ==> !consumed[i]
    ensures StartOk(LastOf(placed), if existing != [] then Some(existing[0]) else anchor, pre + placed,
                    Rest(existing, consumed) + suf)
  {
    if placed == [] {
      RestStart(existing, consumed);
      assert pre + placed == pre;
    }
  }

  lemma UnclaimedPlain(d: Document, e: Document, regions: map<nat, RegionId>, ns: seq<NodeId>, consumed: seq<bool>,
                       s: nat)
    requires WellFormed(d) && WellFormed(e) && Grows(d, e) && |consumed| == |ns| && Untouched(d, e, ns, consumed)
    requires s < |ns| && !consumed[s] && ns[s] in d.tree && NoAnchors(d, regions, ns[s])
    ensures NoAnchors(e, regions, ns[s])
  {
    forall x | x in e.data && Under(e.tree, ns[s], x) && e.data[x].regionId.Some?
      ensures e.data[x].regionId.value !in regions
    {
      UnclaimedSubtree(d, e, ns, consumed, s, x);
    }
  }

  /** What the next claimed or created child needs. */
  lemma RunReady(d: Document, e: Document, regions: map<nat, RegionId>, el: NodeId, pre: seq<NodeId>, ns: seq<NodeId>,
                 suf: seq<NodeId>, prior: seq<VNode>, wanted: seq<VNode>, placed: seq<NodeId>, consumed: seq<bool>)
    requires WellFormed(d) && WellFormed(e) && IsElement(d, el) && RunSetting(d, el, pre, ns, suf)
    requires RunState(d, e, el, pre, ns, suf, prior, wanted, placed, consumed)
    requires forall i :: 0 <= i < |ns| ==> NoAnchors(d, regions, ns[i])
    ensures IsElement(e, el) && el in e.tree && e.tree[el].kids == pre + placed + (Rest(ns, consumed) + suf)
    ensures forall s :: 0 <= s < |ns| && !consumed[s] ==>
              NoAnchors(e, regions, ns[s]) && ns[s] in Rest(ns, consumed) + suf && ns[s] in e.tree
                && IsChild(e, el, ns[s])
  {
    hide NoAnchors, PlacedShow, PlacedOrigins, RunLog, Untouched, WellFormed;
    forall s | 0 <= s < |ns| && !consumed[s]
      ensures NoAnchors(e, regions, ns[s]) && ns[s] in Rest(ns, consumed) + suf && ns[s] in e.tree
              && IsChild(e, el, ns[s])
    {
      UnclaimedPlain(d, e, regions, ns, consumed, s);
      UnclaimedChild(e, el, pre + placed, ns, consumed, suf, s);
    }
  }

  lemma RemovedStep(a: Snapshot, b: Snapshot, el: NodeId, n: NodeId, p: seq<NodeId>, q: seq<NodeId>)
    requires WellFormed(a.dom) && el in a.dom.tree && n in a.dom.tree && IsChild(a.dom, el, n)
    requires a.dom.tree[el].kids == p + q && n in q
    requires NoAnchors(a.dom, a.regions, n) && RegionsAgree(a.dom.data, a.regions, a.regionOwner)
    requires RemovedPlain(a, b, el, n)
    ensures KidStep(a.dom, b.dom, el, Some(n)) && b.dom.tree[el].kids == p + Without(q, n)
    ensures forall m :: m in Since(a.dom, b.dom) ==> Subject(m) == n && !m.Inserted?
    ensures b.regions == a.regions && b.cells == a.cells
  {
    hide WellFormed, LinksOk, Without, Disposed, Purged, RegionsIn;
    RemovedRegions(a, n);
    Linked(a.dom, el, n);
    WithoutLater(p, n, q);
    assert Since(a.dom, b.dom) == [Removed(el, n)];
    RemovedKidStep(a, b, el, n);
  }

  lemma RemovedKidStep(a: Snapshot, b: Snapshot, el: NodeId, n: NodeId)
    requires WellFormed(a.dom) && el in a.dom.tree && n in a.dom.tree && IsChild(a.dom, el, n)
    requires RemovedPlain(a, b, el, n)
    ensures KidStep(a.dom, b.dom, el, Some(n))
  {
    hide TreeOk, Disposed, Purged, RegionsIn, Detach, Grows, Without;
    Linked(a.dom, el, n);
    RemovedGrows(a, b, el, n);
    assert !Under(a.dom.tree, n, el);
    assert Under(a.dom.tree, n, n);
  }

  lemma RemovedGrows(a: Snapshot, b: Snapshot, el: NodeId, n: NodeId)
    requires WellFormed(a.dom) && n in a.dom.tree && IsChild(a.dom, el, n) && RemovedPlain(a, b, el, n)
    ensures Grows(a.dom, b.dom) && b.dom.tree == Detach(a.dom.tree, n)
  {
    hide TreeOk, Disposed, Purged, RegionsIn, Detach;
  }

  lemma Linked(d: Document, el: NodeId, n: NodeId)
    requires WellFormed(d) && el in d.tree && n in d.tree
    ensures LinksOk(d.tree, el) && LinksOk(d.tree, n) && Distinct(d.tree[el].kids)
  {
  }

  lemma RemovedRegions(a: Snapshot, n: NodeId)
    requires WellFormed(a.dom) && n in a.dom.tree
    requires NoAnchors(a.dom, a.regions, n) && RegionsAgree(a.dom.data, a.regions, a.regionOwner)
    ensures Purged(a.regions, a.regionOwner, Subtree(a.dom.tree, n)) == a.regions
    ensures Disposed(a.cells, RegionsIn(a.regions, a.regionOwner, Subtree(a.dom.tree, n))) == a.cells
  {
    hide TreeOk;
    assert RegionsIn(a.regions, a.regionOwner, Subtree(a.dom.tree, n)) == {};
  }

  /** Removes whatever the new list did not claim. */
  method RemoveUnclaimed(rt: Runtime, el: NodeId, nodes: seq<NodeId>, consumed: seq<bool>, ghost d: Document,
                         ghost pre: seq<NodeId>, ghost ns: seq<NodeId>, ghost suf: seq<NodeId>,
                         ghost prior: seq<VNode>, ghost wanted: seq<VNode>, ghost placed: seq<NodeId>)
    requires rt.Valid() && WellFormed(d) && IsElement(d, el) && RunSetting(d, el, pre, ns, suf)
    requires RunState(d, rt.dom, el, pre, ns, suf, prior, wanted, placed, consumed)
    requires |nodes| == |consumed| && forall s :: 0 <= s < |ns| && !consumed[s] ==> nodes[s] == ns[s]
    requires forall i :: 0 <= i < |ns| ==> NoAnchors(d, rt.dynamicRegions, ns[i])
    modifies rt
    ensures rt.Valid() && SameRegions(rt)
    ensures RunState(d, rt.dom, el, pre, ns, suf, prior, wanted, placed, seq(|ns|, i => true))
  {
    hide WellFormed, EventsAgree, EffectsAgree, RegionsAgree, Issued, CellsExist, Numbered, NoAnchors, KidStep, Rest,
         Without, RunFrame, RunKids, Untouched, PlacedShow, PlacedOrigins, RunLog, RemovedPlain, RunSetting;
    ghost var gone := consumed;
    for i := 0 to |nodes|
      invariant rt.Valid() && SameRegions(rt) && |gone| == |ns|
      invariant RunState(d, rt.dom, el, pre, ns, suf, prior, wanted, placed, gone)
      invariant forall s :: 0 <= s < |ns| ==> gone[s] == (s < i || consumed[s])
    {
      if !consumed[i] {
        RunReady(d, rt.dom, rt.dynamicRegions, el, pre, ns, suf, prior, wanted, placed, gone);
        ghost var before := Now(rt);
        KeysAgree(rt.dom);
        PlainAnchor(rt, nodes[i]);
        ghost var _ := RemoveTrackedNode(rt, el, nodes[i], {});
        RemovedStep(before, Now(rt), el, nodes[i], pre + placed, Rest(ns, gone) + suf);
        AfterRemoved(d, before.dom, rt.dom, el, pre, ns, suf, prior, wanted, placed, gone, i);
        gone := gone[i := true];
      }
    }
    assert gone == seq(|ns|, i => true);
  }

  /**
   * Reconciles an explicit run of siblings: `existing`, standing between `pre` and `suf`, with
   * `anchor` heading `suf`. Returns the run's nodes from now on, or nothing when the old render
   * and the nodes do not line up one to one.
   */
  method ReconcileRange(rt: Runtime, el: NodeId, existing: seq<NodeId>, prior: seq<VNode>, wanted: seq<VNode>,
                        anchor: Option<NodeId>, ghost pre: seq<NodeId>, ghost suf: seq<NodeId>)
    returns (r: Option<seq<NodeId>>)
    requires rt.Valid() && IsElement(rt.dom, el) && el in rt.dom.tree && PlainAll(prior) && PlainAll(wanted)
    requires rt.dom.tree[el].kids == pre + existing + suf && AnchorOk(anchor, pre, suf)
    requires forall i :: 0 <= i < |existing| ==> NoAnchors(rt.dom, rt.dynamicRegions, existing[i])
    modifies rt
    ensures rt.Valid() && SameRegions(rt)
    ensures r.Some? <==> |existing| == |Flatten(prior)|
    ensures r.None? ==> rt.dom == old(rt.dom)
    ensures r.Some? ==>
              && RunFrame(old(rt.dom), rt.dom, el, existing)
              && |r.value| == |Flatten(wanted)|
              && rt.dom.tree[el].kids == pre + r.value + suf
              && PlacedShow(old(rt.dom), rt.dom, existing, Flatten(prior), Flatten(wanted), r.value)
              && PlacedOrigins(old(rt.dom), existing, Flatten(prior), Flatten(wanted), r.value)
              && RunLog(old(rt.dom), rt.dom, existing, Keys(Flatten(prior)), Keys(Flatten(wanted)))
    decreases WeightAll(wanted), 3
  {
    hide WellFormed, EventsAgree, EffectsAgree, RegionsAgree, Issued, CellsExist, Numbered, NoAnchors, KidStep, Rest,
         Keys,
         Without, RunState, RunSetting, ClaimedStep, CreatedStep, Plain, Flatten, StartOk, Indexes, ConsumedAfter,
             Claim,
         Weight, WeightAll, RunFrame, PlacedShow, PlacedOrigins, RunLog, AnchorOk, Consume, ClaimOf;
    var priorFlat, wantedFlat := Flatten(prior), Flatten(wanted);
    if |existing| != |priorFlat| {
      return None;
    }
    ghost var before := rt.dom;
    SettingHolds(before, el, pre, existing, suf);
    RunBegins(before, el, pre, existing, suf, priorFlat, wantedFlat);
    var nodes, placed: seq<NodeId> := existing, [];
    var consumed := seq(|existing|, i => false);
    NothingConsumed(priorFlat, wantedFlat);
    var index := IndexKeys(Keys(priorFlat));
    var runStart := if existing != [] then Some(existing[0]) else anchor;
    for j := 0 to |wantedFlat|
      invariant rt.Valid() && SameRegions(rt) && |placed| == j && |consumed| == |nodes| == |existing|
      invariant consumed == ConsumedAfter(Keys(priorFlat), Keys(wantedFlat), j)
      invariant Indexes(index, Keys(priorFlat), consumed, |priorFlat|)
      invariant RunState(before, rt.dom, el, pre, existing, suf, priorFlat, wantedFlat, placed, consumed)
      invariant forall s :: 0 <= s < |nodes| && !consumed[s] ==> nodes[s] == existing[s]
    {
      var w, previous := wantedFlat[j], LastOf(placed);
      ghost var middle, p, q := rt.dom, pre + placed, Rest(existing, consumed) + suf;
      RunReady(before, middle, rt.dynamicRegions, el, pre, existing, suf, priorFlat, wantedFlat, placed, consumed);
      StartHolds(anchor, existing, pre, suf, placed, consumed);
      NextClaim(priorFlat, wantedFlat, j);
      var source;
      source, index := ClaimSource(index, Keys(priorFlat), consumed, j, KeyOf(w));
      match source {
        case Some(s) =>
          PlainMembers(prior, wanted, s, j);
          var r := PlaceClaimed(rt, el, nodes[s], priorFlat[s], w, previous, runStart, p, q);
          AfterClaimed(before, middle, rt.dom, el, pre, existing, suf, priorFlat, wantedFlat, placed, consumed, s, r);
          consumed, nodes, placed := consumed[s := true], nodes[s := r], placed + [r];
        case None =>
          PlainMember(wanted, j);
          var r := PlaceCreated(rt, el, w, previous, runStart, p, q);
          AfterCreated(before, middle, rt.dom, el, pre, existing, suf, priorFlat, wantedFlat, placed, consumed, r);
          placed := placed + [r];
      }
    }
    RemoveUnclaimed(rt, el, nodes, consumed, before, pre, existing, suf, priorFlat, wantedFlat, placed);
    RunEnds(before, rt.dom, el, pre, existing, suf, priorFlat, wantedFlat, placed);
    return Some(placed);
  }

  lemma NextClaim(prior: seq<VNode>, wanted: seq<VNode>, j: nat)
    requires j < |wanted|
    ensures var consumed := ConsumedAfter(Keys(prior), Keys(wanted), j);
            var c := ClaimOf(Keys(prior), consumed, j, KeyOf(wanted[j]));
            && c == Claim(Keys(prior), Keys(wanted), j)
            && ConsumedAfter(Keys(prior), Keys(wanted), j + 1) == Consume(consumed, c)
            && (c.Some? ==> c.value < |prior| && Consume(consumed, c) == consumed[c.value := true])
            && (c.None? ==> Consume(consumed, c) == consumed)
  {
  }

  lemma PlainMember(vs: seq<VNode>, j: nat)
    requires PlainAll(vs) && j < |Flatten(vs)|
    ensures Plain(Flatten(vs)[j]) && !Flatten(vs)[j].Fragment? && Weight(Flatten(vs)[j]) <= WeightAll(vs)
  {
    FlattenPlain(vs);
    assert Flatten(vs)[j] in Flatten(vs);
  }

  lemma PlainMembers(prior: seq<VNode>, wanted: seq<VNode>, s: nat, j: nat)
    requires PlainAll(prior) && PlainAll(wanted) && s < |Flatten(prior)| && j < |Flatten(wanted)|
    ensures Plain(Flatten(prior)[s]) && Plain(Flatten(wanted)[j]) && !Flatten(wanted)[j].Fragment?
    ensures Weight(Flatten(wanted)[j]) <= WeightAll(wanted)
  {
    PlainMember(prior, s);
    PlainMember(wanted, j);
  }

  lemma NothingConsumed(prior: seq<VNode>, wanted: seq<VNode>)
    ensures ConsumedAfter(Keys(prior), Keys(wanted), 0) == seq(|prior|, i => false)
  {
  }

  lemma RunEnds(d: Document, e: Document, el: NodeId, pre: seq<NodeId>, ns: seq<NodeId>, suf: seq<NodeId>,
                prior: seq<VNode>, wanted: seq<VNode>, placed: seq<NodeId>)
    requires RunState(d, e, el, pre, ns, suf, prior, wanted, placed, seq(|ns|, i => true))
    ensures RunFrame(d, e, el, ns) && e.tree[el].kids == pre + placed + suf
    ensures PlacedShow(d, e, ns, prior, wanted, placed)
    ensures PlacedOrigins(d, ns, prior, wanted, placed)
    ensures RunLog(d, e, ns, Keys(prior), Keys(wanted))
  {
    hide PlacedShow, PlacedOrigins, RunLog, Untouched;
    RestEmpty(ns, seq(|ns|, i => true));
    assert [] + suf == suf;
  }
}
