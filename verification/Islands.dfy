/**
 * Hydration passes: one boundary after the other, each claimed once, a failing one contained.
 * An island's factory either returns a view or panics.
 */
module Islands {
  import opened Prelude
  import opened VirtualDom
  import opened Dom
  import opened Resources
  import opened Rendering
  import opened Attributes
  import opened Building
  import opened Confinement
  import opened PatchSteps
  import opened Adoption
  import opened KeptContent
  import opened HydrationPlan
  import opened HydrationSteps
  import opened Hydration
  import Reconcile

  const BOUNDARY_STATE_ATTR := "data-krab-boundary-state"
  const BOUNDARY_STATE_SSR := "ssr"
  const ISLAND_ATTR := "data-island"
  const BOUNDARY_ATTR := "data-krab-boundary"
  const BOUNDARY_ID_ATTR := "data-krab-boundary-id"
  const MISMATCHES_ATTR := "data-krab-boundary-mismatches"
  const BOOKKEEPING := {BOUNDARY_ATTR, BOUNDARY_ID_ATTR, MISMATCHES_ATTR, BOUNDARY_STATE_ATTR}
  const PROPS_ATTR := "data-props"
  const FALLBACK_TEXT := "Hydration fallback rendered."

  /** A factory panics, or renders a view; hydrating against that may trap half-way. */
  datatype Attempt = Panics | Traps(partial: VNode) | Renders(view: VNode)

  /** From the props and the boundary's id to the annotated view. */
  type Factory = (string, string) -> Attempt

  ghost predicate FactoriesOk(factories: map<string, Factory>) {
    forall name, props, id :: name in factories ==>
      match factories[name](props, id)
      case Panics => true
      case Traps(v) => Plain(v)
      case Renders(v) => Plain(v)
  }

  /** The names the pass and the fallback use are valid ones. */
  ghost predicate NamesOk(rules: Rules) {
    && rules.attrOk(BOUNDARY_STATE_ATTR) && rules.attrOk(MISMATCHES_ATTR)
    && rules.tagOk("div") && rules.attrOk("role")
  }

  function AttrOf(d: Document, n: NodeId, name: string): Option<string> {
    if IsElement(d, n) then Lookup(d.data[n].attrs, name) else None
  }

  function StateOf(d: Document, n: NodeId): Option<string> {
    AttrOf(d, n, BOUNDARY_STATE_ATTR)
  }

  predicate ClaimedState(state: Option<string>) {
    state.Some? && state.value != BOUNDARY_STATE_SSR
  }

  /** A hydration pass has claimed the boundary: its state has moved off `ssr`. */
  predicate IsHydrated(d: Document, n: NodeId) {
    ClaimedState(StateOf(d, n))
  }

  predicate IsIsland(d: Document, n: NodeId) {
    AttrOf(d, n, ISLAND_ATTR).Some?
  }

  function FactoryState(v: VNode): Option<string> {
    match v
    case Element(_, attributes, _, _) =>
      (match Find(attributes, BOUNDARY_STATE_ATTR)
       case Some(a) => Some(a.value)
       case None => None)
    case _ => None
  }

  function Classify(factoryState: Option<string>, mismatches: nat): string {
    if factoryState == Some("decode-error") then "decode-error"
    else if factoryState == Some("error") then "error"
    else if mismatches > 0 then "patched"
    else "ok"
  }

  // --- Writing attributes ---

  lemma WrittenFrame(d: Document, n: NodeId, data: NodeData)
    requires WellFormed(d) && n in d.data && data.kind == d.data[n].kind && data.regionId == d.data[n].regionId
    ensures Confined(d, SetData(d, n, data), n) && KeepsParents(d, SetData(d, n, data))
  {
    RecordConfined(d, n, data);
  }

  /** Nothing changed but the record of `n`. */
  ghost predicate OnlyRecord(d: Document, e: Document, n: NodeId) {
    && e.tree == d.tree && e.rules == d.rules && e.next == d.next && e.log == d.log
    && e.data.Keys == d.data.Keys
    && forall x :: x in d.data && x != n ==> x in e.data && e.data[x] == d.data[x]
  }

  method WriteAttr(rt: Runtime, n: NodeId, name: string, value: string)
    requires rt.Valid() && IsElement(rt.dom, n) && n in rt.dom.tree
    modifies rt`dom
    ensures rt.Valid() && Confined(old(rt.dom), rt.dom, n) && KeepsParents(old(rt.dom), rt.dom)
    ensures IsElement(rt.dom, n) && n in rt.dom.tree && rt.dom.rules == old(rt.dom).rules
            && rt.dom.tree == old(rt.dom.tree)
    ensures rt.dom.rules.attrOk(name) ==> AttrOf(rt.dom, n, name) == Some(value)
    ensures forall other :: other != name ==> AttrOf(rt.dom, n, other) == AttrOf(old(rt.dom), n, other)
    ensures OnlyRecord(old(rt.dom), rt.dom, n)
  {
    hide WellFormed, EventsAgree, EffectsAgree, RegionsAgree, Issued, CellsExist, Numbered, Confined, KeepsParents;
    NothingConfined(rt.dom, n);
    SameKeeps(rt.dom);
    if rt.dom.rules.attrOk(name) {
      var data := rt.dom.data[n].(attrs := rt.dom.data[n].attrs[name := value]);
      ContentKeepsValid(rt, n, data);
      WrittenFrame(rt.dom, n, data);
      rt.dom := SetAttribute(rt.dom, n, name, value);
    }
  }

  lemma SameKeeps(d: Document)
    ensures KeepsParents(d, d)
  {
  }

  // --- The fallback ---

  /** What hung below `k` before still only hangs there. */
  lemma {:induction false} KeptBelow(d: Document, e: Document, k: NodeId, x: NodeId)
    requires WellFormed(d) && KeepsParents(d, e) && x in d.tree && Under(e.tree, k, x)
    ensures Under(d.tree, k, x)
    decreases x
  {
    assert LinksOk(d.tree, x);
    if x != k {
      KeptBelow(d, e, k, e.tree[x].parent.value);
    }
  }

  lemma EmptiedFrame(d: Document, el: NodeId)
    requires WellFormed(d) && el in d.tree
    ensures var e := d.(tree := Emptied(d.tree, el));
            WellFormed(e) && Confined(d, e, el) && KeepsParents(d, e) && e.tree[el] == Link(d.tree[el].parent, [])
  {
    KidsUnder(d, el);
  }

  /** The view that the fallback markup denotes. */
  function FallbackView(): VNode {
    Element("div", [Attribute("role", "alert", None)], [Text(FALLBACK_TEXT)], [])
  }

  ghost predicate FallbackShown(d: Document, el: NodeId) {
    el in d.tree && |d.tree[el].kids| == 1 && Shows(d, d.tree[el].kids[0], FallbackView())
  }

  /** What hung below `el` is intact, but cut off from it. */
  ghost predicate Detached(d: Document, e: Document, el: NodeId)
    requires el in d.tree
  {
    forall x :: x in d.tree && x != el ==>
      x in e.tree && e.tree[x] == if x in d.tree[el].kids then Link(None, d.tree[x].kids) else d.tree[x]
  }

  /** Empties `el` and shows the fallback in it. */
  method SetFallback(rt: Runtime, el: NodeId)
    requires rt.Valid() && IsElement(rt.dom, el) && el in rt.dom.tree
    modifies rt
    ensures rt.Valid() && Confined(old(rt.dom), rt.dom, el) && KeepsParents(old(rt.dom), rt.dom)
    ensures el in rt.dom.tree && el in rt.dom.data && rt.dom.data[el] == old(rt.dom).data[el]
    ensures FallbackShown(rt.dom, el) && rt.dom.tree[el].kids[0] >= old(rt.dom.next)
    ensures IsChild(rt.dom, el, rt.dom.tree[el].kids[0])
    ensures Detached(old(rt.dom), rt.dom, el)
  {
    hide WellFormed, EventsAgree, EffectsAgree, RegionsAgree, Issued, CellsExist, Numbered, AppendChild, InsertBefore,
         Emptied, Built, Conforms, KidStep, Confined, KeepsParents, Count, TreeOk, Matches, Detached;
    ghost var d := rt.dom;
    EmptiedFrame(d, el);
    LinksFine(d);
    rt.dom := rt.dom.(tree := Emptied(rt.dom.tree, el));
    ghost var e := rt.dom;
    FallbackPlain();
    BelowNext(e, el);
    var div := CreateDomNode(rt, FallbackView());
    BuiltFresh(e, rt.dom, div, FallbackView());
    BuiltInserted(e, rt.dom, el, div, FallbackView(), [], [], e);
    rt.dom := AppendChild(rt.dom, el, div).0;
    StepConfined(d, e, rt.dom, el);
    KeepsTrans(d, e, rt.dom);
    ChildHangs(rt.dom, el, div);
    DetachedKids(d, e, rt.dom, el);
  }

  lemma BuiltFresh(d: Document, e: Document, n: NodeId, v: VNode)
    requires Built(d, e, n, v)
    ensures n >= d.next
  {
    hide Matches;
  }

  lemma ChildHangs(d: Document, el: NodeId, k: NodeId)
    requires WellFormed(d) && el in d.tree && k in d.tree[el].kids
    ensures IsChild(d, el, k)
  {
    assert LinksOk(d.tree, el);
  }

  lemma DetachedKids(d: Document, e: Document, f: Document, el: NodeId)
    requires WellFormed(d) && el in d.tree && e == d.(tree := Emptied(d.tree, el)) && KidStep(e, f, el, None)
    ensures Detached(d, f, el)
  {
    hide WellFormed, Emptied;
    EmptiedLinks(d, el);
    forall x | x in d.tree && x != el
      ensures x in f.tree && f.tree[x] == if x in d.tree[el].kids then Link(None, d.tree[x].kids) else d.tree[x]
    {
      assert SameNode(e, f, x);
    }
  }

  lemma EmptiedLinks(d: Document, el: NodeId)
    requires WellFormed(d) && el in d.tree
    ensures forall x :: x in d.tree && x != el ==>
              x in Emptied(d.tree, el)
              && Emptied(d.tree, el)[x] == if x in d.tree[el].kids then Link(None, d.tree[x].kids) else d.tree[x]
  {
    hide TreeOk;
  }

  lemma FallbackPlain()
    ensures Plain(FallbackView()) && FallbackView().Element?
  {
  }

  lemma LinksFine(d: Document)
    requires WellFormed(d)
    ensures TreeOk(d.tree)
  {
  }

  lemma BelowNext(d: Document, el: NodeId)
    requires WellFormed(d) && el in d.tree
    ensures el < d.next
  {
  }

  lemma StepConfined(d: Document, e: Document, f: Document, el: NodeId)
    requires WellFormed(d) && WellFormed(e) && el in d.tree && Confined(d, e, el) && KidStep(e, f, el, None)
    ensures Confined(d, f, el) && el in f.tree && el in f.data && el in e.data && f.data[el] == e.data[el]
  {
    assert Confined(e, f, el);
    ConfinedTrans(d, e, f, el);
  }

  ghost function BelowAny(t: Tree, ns: seq<NodeId>): set<NodeId> {
    set x | x in t && UnderAny(t, ns, x)
  }

  /** Releases exactly what the subtrees of `stale` hold, nodes that used to hang below `el`. */
  method ReleaseStale(rt: Runtime, el: NodeId, stale: seq<NodeId>, ghost d: Document)
    requires rt.Valid() && WellFormed(d) && el in d.tree && Confined(d, rt.dom, el) && KeepsParents(d, rt.dom)
    requires el in d.data && el in rt.dom.data && rt.dom.data[el].attrs == d.data[el].attrs
             && rt.dom.data[el].kind == d.data[el].kind
    requires forall i :: 0 <= i < |stale| ==> stale[i] in d.tree && IsChild(d, el, stale[i])
    modifies rt`dom, rt`eventClosures, rt`attributeEffects, rt`liveEffects, rt`dynamicRegions, rt`cells
    ensures rt.Valid() && Confined(d, rt.dom, el) && KeepsParents(d, rt.dom) && rt.dom.tree == old(rt.dom.tree)
    ensures el in rt.dom.data && rt.dom.data[el].attrs == d.data[el].attrs && rt.dom.data[el].kind == d.data[el].kind
    ensures Released(old(Now(rt)), Now(rt), BelowAny(rt.dom.tree, stale))
  {
    hide WellFormed, EventsAgree, EffectsAgree, RegionsAgree, Issued, CellsExist, Numbered, Confined, KeepsParents,
         Released, BelowAny;
    ghost var b := Now(rt);
    NothingReleased(b);
    NoneBelow(rt.dom.tree, stale);
    for i := 0 to |stale|
      invariant rt.Valid() && Confined(d, rt.dom, el) && KeepsParents(d, rt.dom) && rt.dom.tree == old(rt.dom.tree)
      invariant el in rt.dom.data && rt.dom.data[el].attrs == d.data[el].attrs
                && rt.dom.data[el].kind == d.data[el].kind
      invariant Released(b, Now(rt), BelowAny(rt.dom.tree, stale[..i]))
    {
      ghost var a := Now(rt);
      KeptNode(d, rt.dom, stale[i]);
      ReleaseDomNodeResources(rt, stale[i]);
      ReleasedTree(a, Now(rt), Subtree(rt.dom.tree, stale[i]));
      ReleasedStale(d, a, Now(rt), el, stale[i]);
      ReleasedTrans(b, a, Now(rt), BelowAny(rt.dom.tree, stale[..i]), Subtree(rt.dom.tree, stale[i]));
      OneMoreBelow(rt.dom.tree, stale, i);
    }
    assert stale[..|stale|] == stale;
  }

  lemma NothingReleased(a: Snapshot)
    ensures Released(a, a, {})
  {
    assert Muted(a.dom.data, {}) == a.dom.data;
    assert Purged(a.events, a.eventOwner, {}) == a.events;
    assert Purged(a.effects, a.attrOwner, {}) == a.effects;
    assert Purged(a.regions, a.regionOwner, {}) == a.regions;
    assert RegionsIn(a.regions, a.regionOwner, {}) == {};
    assert Disposed(a.cells, {}) == a.cells;
  }

  lemma NoneBelow(t: Tree, ns: seq<NodeId>)
    ensures BelowAny(t, ns[..0]) == {}
  {
  }

  lemma OneMoreBelow(t: Tree, ns: seq<NodeId>, i: nat)
    requires i < |ns|
    ensures BelowAny(t, ns[..i + 1]) == BelowAny(t, ns[..i]) + Subtree(t, ns[i])
  {
    forall x | x in t ensures UnderAny(t, ns[..i + 1], x) <==> UnderAny(t, ns[..i], x) || Under(t, ns[i], x) {
      if Under(t, ns[i], x) {
        assert ns[..i + 1][i] == ns[i];
      }
      if k :| 0 <= k < i && Under(t, ns[..i][k], x) {
        assert ns[..i + 1][k] == ns[..i][k];
      }
    }
  }

  lemma KeptNode(d: Document, e: Document, n: NodeId)
    requires KeepsParents(d, e) && n in d.tree
    ensures n in e.tree
  {
  }

  lemma ReleasedStale(d: Document, a: Snapshot, b: Snapshot, el: NodeId, k: NodeId)
    requires WellFormed(d) && WellFormed(a.dom) && el in d.tree && Confined(d, a.dom, el) && KeepsParents(d, a.dom)
    requires k in a.dom.tree && k in d.tree && IsChild(d, el, k) && Released(a, b, Subtree(a.dom.tree, k))
    requires el in d.data && el in a.dom.data
    ensures Confined(d, b.dom, el) && KeepsParents(d, b.dom)
    ensures el in b.dom.data && b.dom.data[el].attrs == a.dom.data[el].attrs
            && b.dom.data[el].kind == a.dom.data[el].kind
  {
    hide WellFormed, Released, Under;
    ReleasedFrame(a, b, k);
    ReleasedRecord(a, b, Subtree(a.dom.tree, k), el);
    GrowsTrans(d, a.dom, b.dom);
    forall x | x in d.tree && !Under(d.tree, el, x) ensures SameNode(d, b.dom, x) {
      assert SameNode(d, a.dom, x);
      NotBelowStale(d, a.dom, el, k, x);
      assert SameNode(a.dom, b.dom, x);
    }
  }

  lemma ReleasedRecord(a: Snapshot, b: Snapshot, s: set<NodeId>, n: NodeId)
    requires Released(a, b, s) && n in a.dom.data
    ensures n in b.dom.data && b.dom.data[n].attrs == a.dom.data[n].attrs && b.dom.data[n].kind == a.dom.data[n].kind
  {
    hide Purged, Disposed, RegionsIn;
  }

  lemma NotBelowStale(d: Document, e: Document, el: NodeId, k: NodeId, x: NodeId)
    requires WellFormed(d) && KeepsParents(d, e) && el in d.tree && k in d.tree && IsChild(d, el, k) && x in d.tree
    requires !Under(d.tree, el, x)
    ensures !Under(e.tree, k, x)
  {
    if Under(e.tree, k, x) {
      KeptBelow(d, e, k, x);
      assert LinksOk(d.tree, k);
      UnderKid(d, el, k, x);
    }
  }

  // --- One boundary ---

  /** The island's run is contained: only its own subtree changed, and nothing was reparented. */
  ghost predicate Contained(d: Document, e: Document, el: NodeId) {
    && Confined(d, e, el) && KeepsParents(d, e) && e.rules == d.rules
    && el in e.tree && IsElement(e, el)
  }

  lemma ContainedTrans(d: Document, e: Document, f: Document, el: NodeId)
    requires WellFormed(d) && WellFormed(e) && el in d.tree && Contained(d, e, el) && Contained(e, f, el)
    ensures Contained(d, f, el)
  {
    hide WellFormed, Confined;
    ConfinedTrans(d, e, f, el);
    KeepsTrans(d, e, f);
  }

  lemma ContainedSelf(d: Document, el: NodeId)
    requires el in d.tree && IsElement(d, el)
    ensures Contained(d, d, el)
  {
    NothingConfined(d, el);
  }

  /** Stamps one attribute and composes the effect so far. */
  method Stamp(rt: Runtime, el: NodeId, name: string, value: string, ghost d: Document)
    requires rt.Valid() && WellFormed(d) && el in d.tree && Contained(d, rt.dom, el)
    modifies rt`dom
    ensures rt.Valid() && Contained(d, rt.dom, el) && rt.dom.rules == old(rt.dom).rules
            && rt.dom.tree == old(rt.dom.tree)
    ensures rt.dom.rules.attrOk(name) ==> AttrOf(rt.dom, el, name) == Some(value)
    ensures forall other :: other != name ==> AttrOf(rt.dom, el, other) == AttrOf(old(rt.dom), el, other)
    ensures OnlyRecord(old(rt.dom), rt.dom, el)
  {
    hide WellFormed, EventsAgree, EffectsAgree, RegionsAgree, Issued, CellsExist, Numbered, Confined, KeepsParents,
         AttrOf, OnlyRecord;
    ghost var e := rt.dom;
    WriteAttr(rt, el, name, value);
    ContainedTrans(d, e, rt.dom, el);
  }

  /** The props and the id the factory gets. */
  function PropsOf(d: Document, el: NodeId): string {
    var written := AttrOf(d, el, PROPS_ATTR);
    if written.Some? then written.value else "{}"
  }

  function IdOf(d: Document, el: NodeId, name: string, ordinal: nat): string {
    var given := AttrOf(d, el, BOUNDARY_ID_ATTR);
    if given.Some? then given.value else name + ":legacy-" + Decimal(ordinal)
  }

  /** What island `name` comes to: a factory's verdict, if there is a factory. */
  function AttemptOf(d: Document, el: NodeId, factories: map<string, Factory>, ordinal: nat): Option<Attempt>
  {
    var name := AttrOf(d, el, ISLAND_ATTR);
    if name.Some? && name.value in factories then
      Some(factories[name.value](PropsOf(d, el), IdOf(d, el, name.value, ordinal)))
    else None
  }

  /** The content of `el` was hydrated against `v`, with these counts and their consequences. */
  ghost predicate Rehydrated(d: Document, e: Document, el: NodeId, v: VNode, stats: Stats) {
    var vs := Flatten([v]);
    && el in d.tree && el in e.tree && AllConform(e, e.tree[el].kids, vs, d) && NamesLeft(d, e, el, vs)
    && stats == PlanList(d, d.tree[el].kids, vs)
    && Count(Since(d, e), d.next) == ByKind(stats) && stats.Repairs() == OnAdopted(Since(d, e), d.next)
    && (stats.MismatchCount() == 0 ==> e.tree == d.tree)
    && (AllReady(d, d.tree[el].kids, vs) ==>
          && stats.MismatchCount() == 0
          && (AllReady(e, e.tree[el].kids, vs) <==> AllMarkersStay(vs, e.rules.attrOk)))
    && (Shuffled(d, d.tree[el].kids, vs) ==>
          && multiset(e.tree[el].kids) == multiset(d.tree[el].kids) && AllReady(d, e.tree[el].kids, vs)
          && stats.MismatchCount() == stats.reorders)
  }

  /** The state that the root of the view gives itself, among those that override the count. */
  ghost predicate Overrides(v: VNode, state: string) {
    && state in {"error", "decode-error"} && v.Element?
    && exists a :: a in v.attributes && a.name == BOUNDARY_STATE_ATTR && a.value == state
  }

  ghost predicate MutatesAdopted(log: seq<Mutation>, bound: NodeId) {
    exists m :: m in log && m.target < bound
  }

  /**
   * The state of a rendered boundary: what the root of the view says, if that is an error, and
   * otherwise whether anything that was there had to be repaired or carried another's marker.
   */
  ghost predicate StateTold(d: Document, e: Document, el: NodeId, v: VNode, stats: Stats) {
    && (forall state :: Overrides(v, state) ==> StateOf(e, el) == Some(state))
    && ((forall state :: !Overrides(v, state)) ==>
          && StateOf(e, el) in {Some("ok"), Some("patched")}
          && (StateOf(e, el) == Some("patched") <==>
                MutatesAdopted(Since(d, e), d.next) || stats.markerMismatches > 0)
          && (el in d.tree && AllReady(d, d.tree[el].kids, Flatten([v])) ==> StateOf(e, el) == Some("ok")))
    && (StateOf(e, el) == Some("ok") ==> e.tree == d.tree)
  }

  lemma {:induction false} AdoptedMutated(log: seq<Mutation>, bound: NodeId)
    ensures OnAdopted(log, bound) > 0 <==> MutatesAdopted(log, bound)
  {
    if log != [] {
      AdoptedMutated(log[1..], bound);
      assert log == [log[0]] + log[1..];
      if MutatesAdopted(log, bound) && log[0].target >= bound {
        var m :| m in log && m.target < bound;
        assert m in log[1..];
      }
    }
  }

  lemma {:induction false} StatedOnce(attributes: seq<Attribute>, a: Attribute, name: string)
    requires DistinctNames(attributes) && a in attributes && a.name == name
    ensures Find(attributes, name) == Some(a)
  {
    var i :| 0 <= i < |attributes| && attributes[i] == a;
    var f := Find(attributes, name).value;
    var j :| 0 <= j < |attributes| && attributes[j] == f;
  }

  lemma FactoryOverrides(v: VNode, state: string)
    requires Plain(v) && state in {"error", "decode-error"}
    ensures Overrides(v, state) <==> FactoryState(v) == Some(state)
  {
    if Overrides(v, state) {
      var a :| a in v.attributes && a.name == BOUNDARY_STATE_ATTR && a.value == state;
      StatedOnce(v.attributes, a, BOUNDARY_STATE_ATTR);
    }
  }

  /** What the classification comes to. */
  lemma Classified(d: Document, e: Document, el: NodeId, v: VNode, stats: Stats)
    requires Plain(v) && Rehydrated(d, e, el, v, stats)
    requires StateOf(e, el) == Some(Classify(FactoryState(v), stats.MismatchCount()))
    ensures StateTold(d, e, el, v, stats) && IsHydrated(e, el)
  {
    hide AllConform, NamesLeft, PlanList, AllReady, Shuffled, AllMarkersStay, StateOf, Overrides, MutatesAdopted, Plain;
    AdoptedMutated(Since(d, e), d.next);
    FactoryOverrides(v, "error");
    FactoryOverrides(v, "decode-error");
    OnlyTwo(v);
  }

  lemma OnlyTwo(v: VNode)
    ensures forall state :: Overrides(v, state) ==> state in {"error", "decode-error"}
  {
  }

  /** What every boundary says about itself once a pass has turned to it; its other attributes stay. */
  ghost predicate Labelled(d: Document, e: Document, el: NodeId, ordinal: nat) {
    var name := AttrOf(d, el, ISLAND_ATTR);
    && (e.rules.attrOk(BOUNDARY_ATTR) ==> AttrOf(e, el, BOUNDARY_ATTR) == name)
    && (e.rules.attrOk(BOUNDARY_ID_ATTR) && name.Some? ==>
          AttrOf(e, el, BOUNDARY_ID_ATTR) ==
            match AttrOf(d, el, BOUNDARY_ID_ATTR)
            case Some(given) => Some(given)
            case None => Some(name.value + ":legacy-" + Decimal(ordinal)))
    && forall other :: other !in BOOKKEEPING ==> AttrOf(e, el, other) == AttrOf(d, el, other)
  }

  /** The content a boundary is left with and its terminal state. */
  ghost predicate Outcome(d: Document, s: Snapshot, el: NodeId, attempt: Option<Attempt>, stats: Stats) {
    match attempt
    case None => StateOf(s.dom, el) == Some("missing-definition") && OnlyRecord(d, s.dom, el)
    case Some(Panics) => Failed(d, s, el)
    case Some(Traps(_)) => exists m: Document :: Contained(d, m, el) && Failed(m, s, el)
    case Some(Renders(v)) =>
      && StateTold(d, s.dom, el, v, stats)
      && AttrOf(s.dom, el, MISMATCHES_ATTR) == Some(Decimal(stats.MismatchCount()))
      && Rehydrated(d, s.dom, el, v, stats)
  }

  lemma FailedBefore(d: Document, e: Document, s: Snapshot, el: NodeId)
    requires Failed(e, s, el) && e.tree == d.tree
    ensures Failed(d, s, el)
  {
    hide Silent, FallbackShown;
  }

  lemma FactoryPlain(factories: map<string, Factory>, name: string, props: string, id: string)
    requires FactoriesOk(factories) && name in factories
    ensures var a := factories[name](props, id); (a.Renders? ==> Plain(a.view)) && (a.Traps? ==> Plain(a.partial))
  {
    hide Plain;
  }

  lemma ContainedParts(d: Document, e: Document, el: NodeId)
    requires Contained(d, e, el)
    ensures el in e.tree && IsElement(e, el) && e.rules == d.rules
  {
    hide Confined;
  }

  lemma HydratedContained(d: Document, e: Document, f: Document, el: NodeId)
    requires WellFormed(d) && WellFormed(e) && el in d.tree && Contained(d, e, el)
    requires Confined(e, f, el) && KeepsParents(e, f) && el in f.tree && el in f.data && el in e.data
             && f.data[el] == e.data[el]
    ensures Contained(d, f, el) && forall name :: AttrOf(f, el, name) == AttrOf(e, el, name)
  {
    ContainedTrans(d, e, f, el);
  }

  /** Stamping the boundary does not touch its content. */
  lemma StampedConform(d: Document, e: Document, el: NodeId, vs: seq<VNode>, base: Document)
    requires WellFormed(d) && WellFormed(e) && OnlyRecord(d, e, el) && el in d.tree
    requires AllConform(d, d.tree[el].kids, vs, base)
    ensures AllConform(e, e.tree[el].kids, vs, base)
  {
    hide Conforms;
    var kids := d.tree[el].kids;
    KidsBelow(d, el);
    KeysAgree(d);
    forall i | 0 <= i < |vs| ensures Conforms(e, kids[i], vs[i], base) {
      assert SameBelow(d, e, kids[i]);
      ConformsFrame(d, e, kids[i], vs[i], base);
    }
  }

  /** Conformance below a boundary does not depend on the boundary's own record before. */
  lemma {:induction false} Rebased(d: Document, e: Document, f: Document, el: NodeId, n: NodeId, v: VNode)
    requires OnlyRecord(d, e, el) && WellFormed(f) && el < n && Conforms(f, n, v, e)
    ensures Conforms(f, n, v, d)
    decreases Weight(v)
  {
    hide WellFormed, RecordKept, DynamicsShown, HandlersOf;
    if v.Element? && !RawTag(v.tag) && !f.data[n].kind.CommentNode? {
      var flat, kids := Flatten(v.children), f.tree[n].kids;
      KidsBelow(f, n);
      forall i | 0 <= i < |flat| ensures Conforms(f, kids[i], flat[i], d) {
        assert flat[i] in flat;
        Rebased(d, e, f, el, kids[i], flat[i]);
      }
    }
  }

  lemma AllRebased(d: Document, e: Document, f: Document, el: NodeId, vs: seq<VNode>)
    requires OnlyRecord(d, e, el) && WellFormed(f) && el in f.tree && AllConform(f, f.tree[el].kids, vs, e)
    ensures AllConform(f, f.tree[el].kids, vs, d)
  {
    hide Conforms, WellFormed, OnlyRecord;
    KidsBelow(f, el);
    forall i | 0 <= i < |vs| ensures Conforms(f, f.tree[el].kids[i], vs[i], d) {
      Rebased(d, e, f, el, f.tree[el].kids[i], vs[i]);
    }
  }

  lemma OnlyRecordTrans(d: Document, e: Document, f: Document, n: NodeId)
    requires OnlyRecord(d, e, n) && OnlyRecord(e, f, n)
    ensures OnlyRecord(d, f, n)
  {
  }

  /** Nothing is base to `x` any more. */
  ghost predicate Silent(s: Snapshot, x: NodeId) {
    && x in s.dom.data && s.dom.data[x].listeners == []
    && Lapsed(s.events, s.dom.data[x].eventId) && Lapsed(s.effects, s.dom.data[x].attrId)
    && Lapsed(s.regions, s.dom.data[x].regionId)
  }

  /** Every id found on a node was handed out to it. */
  ghost predicate AllIssued(s: Snapshot) {
    forall n :: n in s.dom.data ==>
      && IssuedTo(s.eventOwner, s.dom.data[n].eventId, n) && IssuedTo(s.attrOwner, s.dom.data[n].attrId, n)
      && IssuedTo(s.regionOwner, s.dom.data[n].regionId, n)
  }

  lemma IdsIssued(rt: Runtime)
    requires rt.Valid()
    ensures AllIssued(Now(rt)) && WellFormed(rt.dom)
  {
    hide WellFormed;
  }

  /** A failed boundary shows the fallback, and nothing is base to its former content. */
  ghost predicate Failed(d: Document, s: Snapshot, el: NodeId) {
    && StateOf(s.dom, el) == Some("error") && FallbackShown(s.dom, el)
    && forall x :: x in d.tree && x != el && Under(d.tree, el, x) ==> Silent(s, x)
  }

  /** Contains a failed boundary: stamped first, then the fallback, then the old content is released. */
  method Fail(rt: Runtime, el: NodeId, ghost d: Document)
    requires rt.Valid() && WellFormed(d) && el in d.tree && Contained(d, rt.dom, el) && NamesOk(rt.dom.rules)
    modifies rt
    ensures rt.Valid() && Contained(d, rt.dom, el) && Failed(old(rt.dom), Now(rt), el)
    ensures forall other :: other != BOUNDARY_STATE_ATTR ==> AttrOf(rt.dom, el, other) == AttrOf(old(rt.dom), el, other)
  {
    hide WellFormed, EventsAgree, EffectsAgree, RegionsAgree, Issued, CellsExist, Numbered, Confined, KeepsParents,
         Contained, AttrOf, FallbackShown, Detached, BelowAny, Released, Silent, OnlyRecord;
    ContainedParts(d, rt.dom, el);
    ghost var c := rt.dom;
    Stamp(rt, el, BOUNDARY_STATE_ATTR, "error", d);
    ContainedParts(d, rt.dom, el);
    ghost var e := rt.dom;
    var stale := rt.dom.tree[el].kids;
    StaleKids(e, el);
    SetFallback(rt, el);
    ghost var m := Now(rt);
    IdsIssued(rt);
    ReleaseStale(rt, el, stale, e);
    KeptNode(e, rt.dom, el);
    SameAttrs(e, rt.dom, el);
    FailContained(d, e, rt.dom, el);
    FallbackStays(e, m, Now(rt), el, stale);
    AllSilent(c, e, m, Now(rt), el, stale);
  }

  /** The new content holds none of the old nodes, so the release leaves it alone. */
  lemma FallbackStays(e: Document, a: Snapshot, b: Snapshot, el: NodeId, stale: seq<NodeId>)
    requires WellFormed(e) && WellFormed(a.dom) && el in e.tree && stale == e.tree[el].kids && Detached(e, a.dom, el)
    requires FallbackShown(a.dom, el) && a.dom.tree[el].kids[0] >= e.next
    requires IsChild(a.dom, el, a.dom.tree[el].kids[0])
    requires Released(a, b, BelowAny(a.dom.tree, stale))
    ensures FallbackShown(b.dom, el)
  {
    hide Purged, Disposed, RegionsIn, Matches;
    var t, div := a.dom.tree, a.dom.tree[el].kids[0];
    assert LinksOk(e.tree, el);
    forall x | Under(t, div, x) && x in t ensures x !in BelowAny(t, stale) {
      forall i | 0 <= i < |stale| ensures !Under(t, stale[i], x) {
        assert stale[i] in e.tree[el].kids;
        SubtreesApart(t, div, stale[i], x);
      }
    }
    KeysAgree(a.dom);
    assert SameBelow(a.dom, b.dom, div);
    MatchesFrame(a.dom, b.dom, div, FallbackView(), false);
  }

  lemma AllSilent(c: Document, e: Document, a: Snapshot, b: Snapshot, el: NodeId, stale: seq<NodeId>)
    requires WellFormed(e) && el in e.tree && c.tree == e.tree && stale == e.tree[el].kids && Detached(e, a.dom, el)
    requires WellFormed(a.dom) && AllIssued(a) && Released(a, b, BelowAny(a.dom.tree, stale))
    ensures forall x :: x in c.tree && x != el && Under(c.tree, el, x) ==> Silent(b, x)
  {
    hide Silent, Detached, Released, AllIssued, BelowAny, WellFormed;
    forall x | x in c.tree && x != el && Under(c.tree, el, x) ensures Silent(b, x) {
      var k := UnderSomeKid(e, el, x);
      StillBelow(e, a.dom, el, k, x);
      var i := IndexOf(stale, k);
      StillThere(e, a.dom, el, x);
      OneSilent(a, b, stale, i, x);
    }
  }

  /** Detaching the children keeps their subtrees together. */
  lemma {:induction false} StillBelow(d: Document, e: Document, el: NodeId, k: NodeId, x: NodeId)
    requires WellFormed(d) && WellFormed(e) && el in d.tree && Detached(d, e, el) && k in d.tree[el].kids && x in d.tree
    requires Under(d.tree, k, x)
    ensures Under(e.tree, k, x)
    decreases x
  {
    assert LinksOk(d.tree, el);
    if x != k {
      assert LinksOk(d.tree, x);
      var p := d.tree[x].parent.value;
      assert p != el && x !in d.tree[el].kids;
      StillBelow(d, e, el, k, p);
    }
  }

  lemma StillThere(d: Document, e: Document, el: NodeId, x: NodeId)
    requires el in d.tree && Detached(d, e, el) && x in d.tree && x != el
    ensures x in e.tree
  {
  }

  lemma OneSilent(a: Snapshot, b: Snapshot, stale: seq<NodeId>, i: nat, x: NodeId)
    requires WellFormed(a.dom) && AllIssued(a) && Released(a, b, BelowAny(a.dom.tree, stale))
    requires i < |stale| && x in a.dom.tree && Under(a.dom.tree, stale[i], x)
    ensures Silent(b, x)
  {
    hide Disposed, RegionsIn, TreeOk;
    assert x in BelowAny(a.dom.tree, stale);
  }

  lemma StaleKids(d: Document, el: NodeId)
    requires WellFormed(d) && el in d.tree
    ensures el in d.data
    ensures forall i :: 0 <= i < |d.tree[el].kids| ==>
              d.tree[el].kids[i] in d.tree && IsChild(d, el, d.tree[el].kids[i])
  {
    KidsBelow(d, el);
    assert LinksOk(d.tree, el);
    forall i | 0 <= i < |d.tree[el].kids| ensures IsChild(d, el, d.tree[el].kids[i]) {
      assert d.tree[el].kids[i] in d.tree[el].kids;
    }
  }

  lemma SameAttrs(d: Document, e: Document, el: NodeId)
    requires el in d.data && el in e.data && e.data[el].attrs == d.data[el].attrs && e.data[el].kind == d.data[el].kind
    ensures forall name :: AttrOf(e, el, name) == AttrOf(d, el, name)
  {
  }

  lemma FailContained(d: Document, e: Document, f: Document, el: NodeId)
    requires WellFormed(d) && WellFormed(e) && el in d.tree && Contained(d, e, el) && Confined(e, f, el)
             && KeepsParents(e, f)
    requires el in f.tree && el in f.data && el in e.data && f.data[el].kind == e.data[el].kind
    ensures Contained(d, f, el)
  {
    ContainedTrans(d, e, f, el);
  }

  lemma StampedBelow(d: Document, e: Document, el: NodeId, k: NodeId)
    requires WellFormed(d) && OnlyRecord(d, e, el) && el in d.tree && IsChild(d, el, k)
    ensures k in d.tree && SameBelow(d, e, k) && SameBelow(e, d, k)
  {
    assert LinksOk(d.tree, k);
    KidsBelow(d, el);
    KeysAgree(d);
  }

  lemma StampedReady(d: Document, e: Document, el: NodeId, k: NodeId, v: VNode)
    requires WellFormed(d) && WellFormed(e) && OnlyRecord(d, e, el) && el in d.tree && IsChild(d, el, k)
    ensures Ready(d, k, v) == Ready(e, k, v)
  {
    hide Ready, SameBelow;
    StampedBelow(d, e, el, k);
    if Ready(d, k, v) {
      ReadyFrame(d, e, k, v);
    }
    if Ready(e, k, v) {
      ReadyFrame(e, d, k, v);
    }
  }

  /** Being ready, or ready but for the order, is about the children alone. */
  lemma StampedReadiness(d: Document, e: Document, el: NodeId, ns: seq<NodeId>, vs: seq<VNode>)
    requires WellFormed(d) && WellFormed(e) && OnlyRecord(d, e, el) && el in d.tree
    requires forall j :: 0 <= j < |ns| ==> IsChild(d, el, ns[j])
    ensures AllReady(d, ns, vs) == AllReady(e, ns, vs) && Shuffled(d, ns, vs) == Shuffled(e, ns, vs)
  {
    hide Ready, OnlyRecord, WellFormed, DistinctlyMarked, SomeReady, IsChild;
    forall i | 0 <= i < |vs| ensures SomeReady(d, ns, vs[i]) == SomeReady(e, ns, vs[i]) {
      StampedSome(d, e, el, ns, vs[i]);
    }
    if |ns| == |vs| {
      forall i | 0 <= i < |vs| ensures Ready(d, ns[i], vs[i]) == Ready(e, ns[i], vs[i]) {
        StampedReady(d, e, el, ns[i], vs[i]);
      }
    }
  }

  lemma StampedSome(d: Document, e: Document, el: NodeId, ns: seq<NodeId>, v: VNode)
    requires WellFormed(d) && WellFormed(e) && OnlyRecord(d, e, el) && el in d.tree
    requires forall j :: 0 <= j < |ns| ==> IsChild(d, el, ns[j])
    ensures SomeReady(d, ns, v) == SomeReady(e, ns, v)
  {
    hide Ready, OnlyRecord, WellFormed, IsChild;
    forall j | 0 <= j < |ns| ensures Ready(d, ns[j], v) == Ready(e, ns[j], v) {
      StampedReady(d, e, el, ns[j], v);
    }
  }

  lemma StampedPlan(d: Document, e: Document, el: NodeId, vs: seq<VNode>)
    requires WellFormed(d) && WellFormed(e) && OnlyRecord(d, e, el) && el in d.tree
    ensures PlanList(e, e.tree[el].kids, vs) == PlanList(d, d.tree[el].kids, vs)
  {
    hide PlanList, SameBelow, WellFormed;
    forall k | k in d.tree[el].kids ensures k in d.tree && SameBelow(d, e, k) {
      ChildHangs(d, el, k);
      StampedBelow(d, e, el, k);
    }
    PlanListFrame(d, e, d.tree[el].kids, vs);
  }

  /** What holds from the stamped boundary to its hydrated content holds from before to after the stamps. */
  lemma StampsApart(d: Document, e: Document, f: Document, g: Document, el: NodeId, v: VNode, stats: Stats)
    requires WellFormed(d) && WellFormed(e) && WellFormed(f) && WellFormed(g) && el in d.tree && OnlyRecord(d, e, el)
             && OnlyRecord(f, g, el)
    requires Rehydrated(e, f, el, v, stats)
    ensures Rehydrated(d, g, el, v, stats)
  {
    hide WellFormed, Conforms, PlanList, Shuffled, AllReady, OnAdopted, AllConform, NamesLeft, AllMarkersStay, Count;
    var vs := Flatten([v]);
    AllRebased(d, e, f, el, vs);
    StampedConform(f, g, el, vs, d);
    ContentLeft(d, g, el, vs);
    StampedPlan(d, e, el, vs);
    assert Since(d, g) == Since(e, f);
    KidsHang(d, el);
    StampedReadiness(d, e, el, d.tree[el].kids, vs);
    KidsHang(f, el);
    StampedReadiness(f, g, el, f.tree[el].kids, vs);
    if Shuffled(d, d.tree[el].kids, vs) {
      SameMembers(d.tree[el].kids, f.tree[el].kids);
      MembersHang(d, el, f.tree[el].kids);
      StampedReadiness(d, e, el, f.tree[el].kids, vs);
    }
  }

  lemma KidsHang(d: Document, el: NodeId)
    requires WellFormed(d) && el in d.tree
    ensures forall j :: 0 <= j < |d.tree[el].kids| ==> IsChild(d, el, d.tree[el].kids[j])
  {
    assert LinksOk(d.tree, el);
    assert forall j :: 0 <= j < |d.tree[el].kids| ==> d.tree[el].kids[j] in d.tree[el].kids;
  }

  lemma MembersHang(d: Document, el: NodeId, ns: seq<NodeId>)
    requires WellFormed(d) && el in d.tree && forall x :: x in ns ==> x in d.tree[el].kids
    ensures forall j :: 0 <= j < |ns| ==> IsChild(d, el, ns[j])
  {
    assert LinksOk(d.tree, el);
    assert forall j :: 0 <= j < |ns| ==> ns[j] in ns;
  }

  lemma SameMembers(a: seq<NodeId>, b: seq<NodeId>)
    requires multiset(a) == multiset(b)
    ensures forall x :: x in b ==> x in a
  {
    forall x | x in b ensures x in a {
      assert x in multiset(b);
    }
  }

  /** Hydrates the content of a claimed boundary and stamps the result. */
  method Render(rt: Runtime, el: NodeId, v: VNode, ghost d: Document) returns (stats: Stats)
    requires rt.Valid() && WellFormed(d) && el in d.tree && OnlyRecord(d, rt.dom, el) && Contained(d, rt.dom, el)
    requires Plain(v) && NamesOk(rt.dom.rules)
    modifies rt
    ensures rt.Valid() && Contained(d, rt.dom, el) && Rehydrated(d, rt.dom, el, v, stats)
    ensures StateTold(d, rt.dom, el, v, stats) && IsHydrated(rt.dom, el)
    ensures AttrOf(rt.dom, el, MISMATCHES_ATTR) == Some(Decimal(stats.MismatchCount()))
    ensures forall other :: other !in {MISMATCHES_ATTR, BOUNDARY_STATE_ATTR} ==>
              AttrOf(rt.dom, el, other) == AttrOf(old(rt.dom), el, other)
  {
    hide WellFormed, EventsAgree, EffectsAgree, RegionsAgree, Issued, CellsExist, Numbered, Confined, KeepsParents,
         AttrOf, Contained, Flatten, Plain, Conforms, AllReady, Shuffled, OnAdopted, OnlyRecord, AllConform, PlanList,
         NamesLeft, AllMarkersStay, StateTold, IsHydrated, Decimal, Classify, FactoryState;
    ghost var e := rt.dom;
    ContainedParts(d, e, el);
    stats := HydrateNode(rt, el, v);
    HydratedContained(d, e, rt.dom, el);
    var mismatches := stats.MismatchCount();
    ghost var f := rt.dom;
    ContainedParts(d, f, el);
    Stamp(rt, el, MISMATCHES_ATTR, Decimal(mismatches), d);
    ghost var g := rt.dom;
    Stamp(rt, el, BOUNDARY_STATE_ATTR, Classify(FactoryState(v), mismatches), d);
    OnlyRecordTrans(f, g, rt.dom, el);
    StampsApart(d, e, f, rt.dom, el, v, stats);
    Classified(d, rt.dom, el, v, stats);
  }

  /** Hydration against `v` that stops after some of its nodes. */
  method Interrupt(rt: Runtime, el: NodeId, v: VNode, ghost d: Document)
    requires rt.Valid() && WellFormed(d) && el in d.tree && Contained(d, rt.dom, el) && Plain(v)
    modifies rt
    ensures rt.Valid() && Contained(d, rt.dom, el)
    ensures forall name :: AttrOf(rt.dom, el, name) == AttrOf(old(rt.dom), el, name)
  {
    hide WellFormed, EventsAgree, EffectsAgree, RegionsAgree, Issued, CellsExist, Numbered, Confined, KeepsParents,
         Contained, Flatten, Plain, Hydrated, Setting, AttrOf;
    ghost var e := rt.dom;
    ContainedParts(d, e, el);
    var flat := Flatten([v]);
    PlainFlat(v);
    var n :| 0 <= n <= |flat|;
    WholeSetting(e, el);
    ghost var kids := e.tree[el].kids;
    ghost var stats, placed, left;
    stats, placed, left := HydrateEach(rt, el, 0, flat[..n], [], kids, e);
    PartlyContained(d, e, rt.dom, el, Flatten(flat[..n]), placed, left, stats);
  }

  lemma PlainFlat(v: VNode)
    requires Plain(v)
    ensures PlainAll(Flatten([v])) && forall n :: 0 <= n <= |Flatten([v])| ==> PlainAll(Flatten([v])[..n])
  {
    hide Plain, Flatten;
    assert PlainAll([v]);
    FlattenPlain([v]);
  }

  lemma PartlyContained(d: Document, e: Document, f: Document, el: NodeId, vs: seq<VNode>, placed: seq<NodeId>,
                        left: seq<NodeId>, s: Stats)
    requires WellFormed(d) && WellFormed(e) && el in d.tree && Contained(d, e, el)
    requires el in e.tree && Hydrated(e, f, el, [], e.tree[el].kids, vs, placed, left, s, e)
    ensures Contained(d, f, el) && forall name :: AttrOf(f, el, name) == AttrOf(e, el, name)
  {
    hide WellFormed, Conforms, Spared, Planned, KeepsParents;
    Reconcile.RunBasics(e, f, el, e.tree[el].kids);
    WholeRunConfined(e, f, el);
    ContainedTrans(d, e, f, el);
  }

  lemma SelfRecord(d: Document, n: NodeId)
    ensures OnlyRecord(d, d, n)
  {
  }

  /** Claims a boundary: four attributes, and nothing else. */
  method Claim(rt: Runtime, el: NodeId, name: string, id: string)
    requires rt.Valid() && el in rt.dom.tree && IsElement(rt.dom, el)
    modifies rt`dom
    ensures rt.Valid() && Contained(old(rt.dom), rt.dom, el) && OnlyRecord(old(rt.dom), rt.dom, el)
    ensures rt.dom.rules.attrOk(BOUNDARY_ATTR) ==> AttrOf(rt.dom, el, BOUNDARY_ATTR) == Some(name)
    ensures rt.dom.rules.attrOk(BOUNDARY_ID_ATTR) ==> AttrOf(rt.dom, el, BOUNDARY_ID_ATTR) == Some(id)
    ensures forall other :: other !in BOOKKEEPING ==> AttrOf(rt.dom, el, other) == AttrOf(old(rt.dom), el, other)
  {
    hide WellFormed, EventsAgree, EffectsAgree, RegionsAgree, Issued, CellsExist, Numbered, Contained, AttrOf,
        OnlyRecord;
    ghost var d := rt.dom;
    ContainedSelf(d, el);
    SelfRecord(d, el);
    Stamp(rt, el, BOUNDARY_ATTR, name, d);
    ghost var e := rt.dom;
    Stamp(rt, el, BOUNDARY_ID_ATTR, id, d);
    OnlyRecordTrans(d, e, rt.dom, el);
    e := rt.dom;
    Stamp(rt, el, MISMATCHES_ATTR, "0", d);
    OnlyRecordTrans(d, e, rt.dom, el);
    e := rt.dom;
    Stamp(rt, el, BOUNDARY_STATE_ATTR, "hydrating", d);
    OnlyRecordTrans(d, e, rt.dom, el);
  }

  lemma RecordTree(d: Document, e: Document, n: NodeId)
    requires OnlyRecord(d, e, n)
    ensures e.tree == d.tree && e.rules == d.rules
  {
  }

  /**
   * Hydrates one boundary, unless a pass has already claimed it: it leaves `ssr` before anything
   * else, and ends in a terminal state; a factory that panics, or a hydration that traps, leaves
   * the fallback behind.
   */
  method HydrateBoundary(rt: Runtime, el: NodeId, ordinal: nat, factories: map<string, Factory>)
    returns (ghost stats: Stats)
    requires rt.Valid() && el in rt.dom.tree && IsElement(rt.dom, el) && FactoriesOk(factories) && NamesOk(rt.dom.rules)
    modifies rt
    ensures rt.Valid() && Contained(old(rt.dom), rt.dom, el)
    ensures old(IsHydrated(rt.dom, el) || !IsIsland(rt.dom, el)) ==> Now(rt) == old(Now(rt))
    ensures old(!IsHydrated(rt.dom, el) && IsIsland(rt.dom, el)) ==>
              && IsHydrated(rt.dom, el) && Labelled(old(rt.dom), rt.dom, el, ordinal)
              && Outcome(old(rt.dom), Now(rt), el, AttemptOf(old(rt.dom), el, factories, ordinal), stats)
  {
    hide WellFormed, EventsAgree, EffectsAgree, RegionsAgree, Issued, CellsExist, Numbered, Confined, KeepsParents,
         AttrOf, Contained, Plain, FactoriesOk, Failed, OnlyRecord, Rehydrated, Labelled, Decimal, StateTold;
    stats := NO_STATS;
    ghost var d := rt.dom;
    ContainedSelf(d, el);
    var island := AttrOf(rt.dom, el, ISLAND_ATTR);
    if IsHydrated(rt.dom, el) || island.None? {
      return;
    }
    var name := island.value;
    var id := IdOf(rt.dom, el, name, ordinal);
    Claim(rt, el, name, id);
    RecordTree(d, rt.dom, el);
    ghost var c := rt.dom;
    ClaimLabels(d, c, el, name, id, ordinal);
    var props := PropsOf(rt.dom, el);
    assert props == PropsOf(d, el);
    if name !in factories {
      Stamp(rt, el, BOUNDARY_STATE_ATTR, "missing-definition", d);
      OnlyRecordTrans(d, c, rt.dom, el);
      LabelsKept(d, c, rt.dom, el, ordinal);
      return;
    }
    var attempt := factories[name](props, id);
    FactoryPlain(factories, name, props, id);
    match attempt {
      case Panics =>
        ghost var e := rt.dom;
        Fail(rt, el, d);
        FailedState(e, Now(rt), el);
        FailedBefore(d, e, Now(rt), el);
      case Traps(v) =>
        Interrupt(rt, el, v, d);
        ghost var e := rt.dom;
        ContainedParts(d, e, el);
        Fail(rt, el, d);
        FailedState(e, Now(rt), el);
        assert Contained(d, e, el) && Failed(e, Now(rt), el);
      case Renders(v) =>
        stats := Render(rt, el, v, d);
    }
    ContainedParts(d, rt.dom, el);
    LabelsKept(d, c, rt.dom, el, ordinal);
  }

  lemma ClaimLabels(d: Document, c: Document, el: NodeId, name: string, id: string, ordinal: nat)
    requires AttrOf(d, el, ISLAND_ATTR) == Some(name) && id == IdOf(d, el, name, ordinal) && c.rules == d.rules
    requires c.rules.attrOk(BOUNDARY_ATTR) ==> AttrOf(c, el, BOUNDARY_ATTR) == Some(name)
    requires c.rules.attrOk(BOUNDARY_ID_ATTR) ==> AttrOf(c, el, BOUNDARY_ID_ATTR) == Some(id)
    requires forall other :: other !in BOOKKEEPING ==> AttrOf(c, el, other) == AttrOf(d, el, other)
    ensures Labelled(d, c, el, ordinal)
  {
    hide AttrOf, Decimal;
  }

  lemma LabelsKept(d: Document, c: Document, e: Document, el: NodeId, ordinal: nat)
    requires Labelled(d, c, el, ordinal) && e.rules == c.rules
    requires forall other :: other !in {MISMATCHES_ATTR, BOUNDARY_STATE_ATTR} ==>
               AttrOf(e, el, other) == AttrOf(c, el, other)
    ensures Labelled(d, e, el, ordinal)
  {
    hide AttrOf, Decimal;
    assert BOUNDARY_ATTR !in {MISMATCHES_ATTR, BOUNDARY_STATE_ATTR};
    assert BOUNDARY_ID_ATTR !in {MISMATCHES_ATTR, BOUNDARY_STATE_ATTR};
  }

  /** What a factory is called with. */
  lemma FactoryArguments(d: Document, el: NodeId, factories: map<string, Factory>, ordinal: nat)
    ensures AttemptOf(d, el, factories, ordinal) ==
              match AttrOf(d, el, ISLAND_ATTR)
              case None => None
              case Some(name) =>
                if name !in factories then None
                else
                  var props := match AttrOf(d, el, PROPS_ATTR) case Some(written) => written case None => "{}";
                  var id := match AttrOf(d, el, BOUNDARY_ID_ATTR)
                            case Some(given) => given
                            case None => name + ":legacy-" + Decimal(ordinal);
                  Some(factories[name](props, id))
  {
    hide AttrOf, Decimal;
  }

  lemma FailedState(d: Document, s: Snapshot, el: NodeId)
    requires Failed(d, s, el)
    ensures IsHydrated(s.dom, el)
  {
  }
}
