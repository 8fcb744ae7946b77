/** The single effects a patch is made of, each with its frame. */
module PatchSteps {
  import opened Prelude
  import opened VirtualDom
  import opened Dom
  import opened Resources
  import opened Rendering
  import opened Attributes
  import opened Building
  import opened Confinement
  import opened Placement

  // --- Frames of the single effects ---

  lemma RecordConfined(d: Document, n: NodeId, data: NodeData)
    requires WellFormed(d) && n in d.data && data.kind == d.data[n].kind && data.regionId == d.data[n].regionId
    ensures Confined(d, SetData(d, n, data), n) && LocalLog(d, SetData(d, n, data), n)
  {
    hide TreeOk;
  }

  lemma NothingConfined(d: Document, n: NodeId)
    ensures Confined(d, d, n) && LocalLog(d, d, n)
  {
  }

  lemma BuiltConfined(d: Document, e: Document, n: NodeId, c: NodeId, v: VNode)
    requires WellFormed(d) && Built(d, e, c, v) && n in d.tree
    ensures Confined(d, e, n) && LocalLog(d, e, n)
    ensures SameNode(d, e, n) && c >= d.next && !e.data[c].kind.FragmentNode? == !v.Fragment?
  {
    hide TreeOk, Matches;
  }

  /** Releasing a subtree that anchors no region touches no region. */
  lemma ReleasedConfined(a: Snapshot, b: Snapshot, n: NodeId)
    requires WellFormed(a.dom) && n in a.dom.tree && Released(a, b, Subtree(a.dom.tree, n))
    requires RegionsAgree(a.dom.data, a.regions, a.regionOwner) && NoAnchors(a.dom, a.regions, n)
    ensures Confined(a.dom, b.dom, n) && LocalLog(a.dom, b.dom, n)
    ensures b.regions == a.regions && b.cells == a.cells
  {
    hide WellFormed, Released, RegionsAgree, NoAnchors;
    ReleasedMuted(a, b, n);
    NothingRegistered(a, b, n);
  }

  lemma ReleasedMuted(a: Snapshot, b: Snapshot, n: NodeId)
    requires WellFormed(a.dom) && n in a.dom.tree && Released(a, b, Subtree(a.dom.tree, n))
    ensures Confined(a.dom, b.dom, n) && LocalLog(a.dom, b.dom, n)
  {
    hide TreeOk, Purged, Disposed, RegionsIn;
    assert Since(a.dom, b.dom) == [];
  }

  lemma NothingRegistered(a: Snapshot, b: Snapshot, n: NodeId)
    requires WellFormed(a.dom) && n in a.dom.tree && Released(a, b, Subtree(a.dom.tree, n))
    requires RegionsAgree(a.dom.data, a.regions, a.regionOwner) && NoAnchors(a.dom, a.regions, n)
    ensures b.regions == a.regions && b.cells == a.cells
  {
    hide TreeOk, Muted;
    assert RegionsIn(a.regions, a.regionOwner, Subtree(a.dom.tree, n)) == {};
  }

  // --- Text ---

  lemma TextConfined(d: Document, n: NodeId, text: string)
    requires WellFormed(d) && n in d.tree
    ensures var e := SetTextContent(d, n, text);
            && Confined(d, e, n) && LocalLog(d, e, n)
            && (!MayHaveKids(d, n) ==> e.tree == d.tree && e.data[n] == d.data[n].(text := text))
  {
    hide WellFormed, ReplaceAll, SetData, LinksOk;
    var e := SetTextContent(d, n, text);
    KidsUnder(d, n);
    KeysAgree(d);
    KeysAgree(e);
    assert Since(d, e) == [TextSet(n)];
  }

  lemma KidsUnder(d: Document, n: NodeId)
    requires WellFormed(d) && n in d.tree
    ensures forall k :: k in d.tree[n].kids ==> Under(d.tree, n, k)
  {
    assert LinksOk(d.tree, n);
  }

  lemma KeysAgree(d: Document)
    requires WellFormed(d)
    ensures d.tree.Keys == d.data.Keys
  {
  }

  lemma TextKeepsValid(rt: Runtime, n: NodeId, text: string)
    requires rt.Valid() && n in rt.dom.tree
    ensures var e := SetTextContent(rt.dom, n, text);
            && EventsAgree(e.data, rt.eventClosures, rt.eventOwner)
            && EffectsAgree(e.data, rt.attributeEffects, rt.attrOwner, rt.liveEffects, rt.home)
            && RegionsAgree(e.data, rt.dynamicRegions, rt.regionOwner)
  {
    hide EventsAgree, EffectsAgree, RegionsAgree, WellFormed, ReplaceAll, SetData;
    KeysAgree(rt.dom);
    var e := SetTextContent(rt.dom, n, text);
    EventsKept(rt.dom.data, e.data, rt.eventClosures, rt.eventOwner);
    EffectsKept(rt.dom.data, e.data, rt.attributeEffects, rt.attrOwner, rt.liveEffects, rt.home);
    RegionsKept(rt.dom.data, e.data, rt.dynamicRegions, rt.regionOwner);
  }

  /** `set_text_content` on a live node. */
  method WriteText(rt: Runtime, n: NodeId, text: string)
    requires rt.Valid() && n in rt.dom.tree
    modifies rt`dom
    ensures rt.Valid() && Confined(old(rt.dom), rt.dom, n) && LocalLog(old(rt.dom), rt.dom, n)
    ensures n in rt.dom.data && n in rt.dom.tree
    ensures !MayHaveKids(old(rt.dom), n) ==>
              && rt.dom.tree == old(rt.dom).tree && rt.dom.data[n] == old(rt.dom).data[n].(text := text)
              && rt.dom.data == old(rt.dom).data[n := rt.dom.data[n]]
    ensures rt.dom.log == old(rt.dom).log + [TextSet(n)]
  {
    hide EventsAgree, EffectsAgree, RegionsAgree, Issued, CellsExist, Numbered, TreeOk;
    TextConfined(rt.dom, n, text);
    TextKeepsValid(rt, n, text);
    rt.dom := SetTextContent(rt.dom, n, text);
  }

  // --- Replacement ---

  lemma Replacing(d: Document, el: NodeId, r: NodeId, n: NodeId, a: seq<NodeId>, b: seq<NodeId>)
    requires WellFormed(d) && el in d.tree && n in d.tree && r in d.tree && el < r
    requires d.tree[r].parent == None && !d.data[r].kind.FragmentNode?
    requires d.tree[el].kids == a + [n] + b
    ensures var e := ReplaceChild(d, el, r, n);
            && e.1 && e.0.tree[el] == Link(d.tree[el].parent, a + [r] + b)
            && e.0.tree[r] == Link(Some(el), d.tree[r].kids) && e.0.tree[n].parent == None
            && forall x :: x in d.tree && x != el && x != n && x != r ==> e.0.tree[x] == d.tree[x]
  {
    ReplaceParts(d, el, n, a, b);
    hide Without, NextSibling, LinksOk, Spliced;
    SiblingAfter(d, el, a + [n], b);
    SplicedBetween(a, r, b);
  }

  lemma ReplaceParts(d: Document, el: NodeId, n: NodeId, a: seq<NodeId>, b: seq<NodeId>)
    requires WellFormed(d) && el in d.tree && n in d.tree && d.tree[el].kids == a + [n] + b
    ensures Distinct(a + b) && Without(d.tree[el].kids, n) == a + b && IsChild(d, el, n)
  {
    assert LinksOk(d.tree, el);
    assert n in d.tree[el].kids;
    assert a + [n] + b == a + ([n] + b);
    DistinctParts(a, [n] + b);
    DistinctParts([n], b);
    WithoutMiddle(a, n, b);
    WithoutDistinct(d.tree[el].kids, n);
  }

  /** A patch confined to `n` followed by the replacement of `n` is one step of the parent. */
  lemma ReplaceStep(d: Document, e: Document, el: NodeId, r: NodeId, n: NodeId, a: seq<NodeId>, b: seq<NodeId>)
    requires WellFormed(d) && WellFormed(e) && Confined(d, e, n) && n in d.tree && el in d.tree && IsChild(d, el, n)
    requires LocalLog(d, e, n)
    requires r in e.tree && r !in d.tree && r >= d.next && e.tree[r].parent == None && !e.data[r].kind.FragmentNode?
    requires e.tree[el].kids == a + [n] + b
    ensures var f := ReplaceChild(e, el, r, n).0;
            && KidStep(d, f, el, Some(n)) && f.tree[el].kids == a + [r] + b && f.tree[r].parent == Some(el)
            && f.tree[n].parent == None && SameBelow(e, f, r)
            && forall m :: m in Since(d, f) ==> StepMutation(d, n, m)
  {
    hide WellFormed, ReplaceChild, LinksOk, SameBelow, StepMutation;
    ParentOutside(d, e, el, n);
    Replacing(e, el, r, n, a, b);
    var f := ReplaceChild(e, el, r, n).0;
    ReplacedLog(d, e, f, el, n, r);
    ReplacedSame(e, el, r, n, a, b);
    KeysAgree(e);
    KeysAgree(f);
    forall x | x in d.tree && x != el && !Under(d.tree, n, x) ensures SameNode(d, f, x) {
      assert SameNode(d, e, x);
    }
  }

  /** The replacement arrives as it was built. */
  lemma ReplacedSame(e: Document, el: NodeId, r: NodeId, n: NodeId, a: seq<NodeId>, b: seq<NodeId>)
    requires WellFormed(e) && el in e.tree && n in e.tree && r in e.tree && el < r && n < r
    requires e.tree[r].parent == None && !e.data[r].kind.FragmentNode? && e.tree[el].kids == a + [n] + b
    ensures SameBelow(e, ReplaceChild(e, el, r, n).0, r)
  {
    hide ReplaceChild, LinksOk, TreeOk;
    Replacing(e, el, r, n, a, b);
  }

  lemma ParentOutside(d: Document, e: Document, el: NodeId, n: NodeId)
    requires WellFormed(d) && Confined(d, e, n) && n in d.tree && el in d.tree && IsChild(d, el, n)
    ensures SameNode(d, e, el) && el in d.data && el < n < d.next
  {
    assert LinksOk(d.tree, n);
    assert LinksOk(d.tree, el);
    assert !Under(d.tree, n, el);
  }

  lemma ReplacedLog(d: Document, e: Document, f: Document, el: NodeId, n: NodeId, r: NodeId)
    requires Grows(d, e) && LocalLog(d, e, n) && f.log == e.log + [Replaced(el, n, r)]
    ensures d.log <= f.log && forall m :: m in Since(d, f) ==> StepMutation(d, n, m)
  {
    assert Since(d, f) == Since(d, e) + [Replaced(el, n, r)];
    assert Under(d.tree, n, n);
  }

  /** A mutation of a new node, or one in the subtree of `n` that does not insert `n` anywhere. */
  ghost predicate StepMutation(d: Document, n: NodeId, m: Mutation) {
    Subject(m) >= d.next || (Under(d.tree, n, Subject(m)) && (Subject(m) == n ==> !m.Inserted?))
  }

  /** A patch in place is one step of the parent. */
  lemma KeepStep(d: Document, e: Document, el: NodeId, n: NodeId)
    requires WellFormed(d) && Confined(d, e, n) && LocalLog(d, e, n) && n in d.tree && el in d.tree && el in d.data
    requires IsChild(d, el, n)
    ensures KidStep(d, e, el, Some(n)) && e.tree[el] == d.tree[el] && n in e.tree && e.tree[n].parent == Some(el)
    ensures forall m :: m in Since(d, e) ==> StepMutation(d, n, m)
  {
    assert LinksOk(d.tree, n);
    assert !Under(d.tree, n, el);
    assert SameNode(d, e, el);
  }

  // --- An element's own record ---

  /**
   * Node `n`, made for `v`, can be turned into one for `w` in place: text into text, comment into
   * comment, or an element into one of the same tag whose children line up with the old render.
   */
  ghost predicate Patchable(d: Document, n: NodeId, v: VNode, w: VNode) {
    match v
    case Text(_) => w.Text?
    case Comment(_) => w.Comment?
    case Element(tag, _, children, _) =>
      w.Element? && w.tag == tag && IsElement(d, n) && n in d.tree && |d.tree[n].kids| == |Flatten(children)|
    case Fragment(_) => false
  }

  lemma PatchableSame(d: Document, e: Document, n: NodeId, v: VNode, w: VNode)
    requires n in d.tree && n in d.data && n in e.tree && n in e.data
    requires e.tree[n].kids == d.tree[n].kids && e.data[n].kind == d.data[n].kind
    ensures Patchable(e, n, v, w) == Patchable(d, n, v, w)
  {
  }

  predicate AnyDynamic(attributes: seq<Attribute>) {
    exists i :: 0 <= i < |attributes| && attributes[i].IsDynamic()
  }

  /** The element's record agrees with the render it came from. */
  ghost predicate RecordTracks(data: NodeData, rules: Rules, v: VNode)
    requires v.Element?
  {
    AttrsTracked(data.attrs, v.attributes, rules.attrOk) && HandlersOf(data.listeners) == v.events
  }

  ghost predicate RecordShows(data: NodeData, rules: Rules, v: VNode)
    requires v.Element?
  {
    AttrsShown(data.attrs, v.attributes, rules.attrOk) && HandlersOf(data.listeners) == v.events
  }

  /** Patches attributes, attribute effects and listeners of a reused element. */
  method PatchRecord(rt: Runtime, n: NodeId, v: VNode, w: VNode)
    requires rt.Valid() && IsElement(rt.dom, n) && v.Element? && w.Element? && Plain(v) && Plain(w)
    modifies rt`dom, rt`eventClosures, rt`attributeEffects, rt`liveEffects, rt`nextDomId, rt`nextSerial, rt`eventOwner,
             rt`attrOwner, rt`home
    ensures rt.Valid() && n in rt.dom.data && rt.dom.data[n].kind == old(rt.dom).data[n].kind
    ensures rt.dom.data[n].regionId == old(rt.dom).data[n].regionId
    ensures rt.dom == SetData(old(rt.dom), n, rt.dom.data[n])
    ensures RecordTracks(old(rt.dom).data[n], rt.dom.rules, v) ==> RecordShows(rt.dom.data[n], rt.dom.rules, w)
  {
    hide WellFormed, EventsAgree, EffectsAgree, RegionsAgree, Issued, CellsExist, Numbered, SetData, Plain, Written,
         Stripped, StaticsSet, AttrsTracked, AttrsShown, DistinctNames, HandlersOf;
    ghost var before, ok := rt.dom, rt.dom.rules.attrOk;
    PlainElement(v);
    PlainElement(w);
    StripAttributes(rt, n, v.attributes, w.attributes);
    ghost var first := rt.dom.data[n];
    SetStatics(rt, n, v.attributes, w.attributes);
    SetDataTwice(before, n, first, rt.dom.data[n]);
    ghost var second := rt.dom.data[n];
    if AnyDynamic(v.attributes) || AnyDynamic(w.attributes) {
      BindDynamicAttributes(rt, n, w.attributes);
      SetDataTwice(before, n, second, rt.dom.data[n]);
    } else {
      WrittenStatic(second.attrs, w.attributes, ok);
    }
    ghost var third := rt.dom.data[n];
    if v.events != [] || w.events != [] {
      AttachElementEvents(rt, n, w.events);
      SetDataTwice(before, n, third, rt.dom.data[n]);
    }
    if RecordTracks(before.data[n], before.rules, v) {
      PatchedShows(before.data[n].attrs, v.attributes, w.attributes, ok);
    }
  }
}
