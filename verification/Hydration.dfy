/** Walking a vnode list against a live child list, repairing whatever does not conform. */
module Hydration {
  import opened Prelude
  import opened VirtualDom
  import opened Dom
  import opened Resources
  import opened Rendering
  import opened Attributes
  import opened Building
  import opened Confinement
  import opened Placement
  import opened PatchSteps
  import opened Runs
  import opened Reconcile
  import opened Adoption
  import opened KeptContent
  import opened HydrationPlan
  import opened HydrationSteps

  // --- Realignment by marker ---

  /** The node for `v` was brought to the front of `rest`; nothing else moved. */
  ghost predicate Aligned(d: Document, e: Document, el: NodeId, done: seq<NodeId>, rest: seq<NodeId>, v: VNode,
                          s: Stats, base: Document)
  {
    && Advance(d, e, el, done, rest, [], [], InFront(d, rest, v), base)
    && Counted(d, e, s, base.next) && s == AlignCount(d, rest, v)
    && (s.Repairs() == 0 ==> e.tree == d.tree)
  }

  /** The index of the first node from `start` on that carries marker `id`. */
  method FindMarked(rt: Runtime, kids: seq<NodeId>, start: nat, id: string) returns (found: Option<nat>)
    requires start <= |kids|
    ensures match FirstMarked(rt.dom, kids[start..], id)
            case Some(i) => found == Some(start + i)
            case None => found == None
  {
    for i := start to |kids|
      invariant forall k :: start <= k < i ==> MarkerOf(rt.dom, kids[k]) != Some(id)
    {
      if MarkerOf(rt.dom, kids[i]) == Some(id) {
        assert kids[start..][i - start] == kids[i];
        FoundFirst(rt.dom, kids[start..], id, i - start);
        return Some(i);
      }
    }
    found := None;
  }

  lemma FoundFirst(d: Document, rest: seq<NodeId>, id: string, i: nat)
    requires i < |rest| && MarkerOf(d, rest[i]) == Some(id)
    requires forall k :: 0 <= k < i ==> MarkerOf(d, rest[k]) != Some(id)
    ensures FirstMarked(d, rest, id) == Some(i)
  {
    var r := FirstMarked(d, rest, id);
    assert r.Some?;
    assert r.value == i;
  }

  lemma {:induction false} FirstBehind(d: Document, rest: seq<NodeId>, id: string)
    requires rest != [] && MarkerOf(d, rest[0]) != Some(id)
    ensures FirstMarked(d, rest, id) == match FirstMarked(d, rest[1..], id)
                                        case Some(i) => Some(i + 1)
                                        case None => None
  {
  }

  /**
   * Brings the node with marker `id` to `index`, if it stands there or later; otherwise the node
   * at `index` is taken, and a marker on it that disagrees is counted.
   */
  method RealignNode(rt: Runtime, el: NodeId, index: nat, v: VNode, id: string, ghost done: seq<NodeId>,
                     ghost rest: seq<NodeId>, ghost base: Document) returns (node: Option<NodeId>, stats: Stats)
    requires rt.Valid() && Setting(rt.dom, el, done, rest, base) && index == |done| && KeyOf(v) == Some(id)
    modifies rt`dom
    ensures rt.Valid() && Aligned(old(rt.dom), rt.dom, el, done, rest, v, stats, base)
    ensures node == Item(InFront(old(rt.dom), rest, v), 0)
  {
    hide WellFormed, EventsAgree, EffectsAgree, RegionsAgree, Issued, CellsExist, Numbered, InsertBefore, Aligned,
         MarkerOf, AllOld, FirstMarked, Target, AlignCount, InFront, KeyOf, DropAt, Setting, OddMarker, Stats.Repairs;
    ghost var d := rt.dom;
    SettingKids(d, el, done, rest, base);
    var kids := rt.dom.tree[el].kids;
    ItemHead(done, rest);
    var current := Item(kids, index);
    if current.None? {
      NoneLeft(d, v);
      AlignedInPlace(d, el, done, rest, v, NO_STATS, base);
      return None, NO_STATS;
    }
    if MarkerOf(rt.dom, current.value) == Some(id) {
      HeadMarked(d, rest, v, id);
      AlignedInPlace(d, el, done, rest, v, NO_STATS, base);
      return current, NO_STATS;
    }
    var found := FindMarked(rt, kids, index + 1, id);
    if found.Some? {
      FoundBehind(d, done, rest, v, id, found.value);
      MovedInFront(d, el, done, rest, v, base);
      node := Some(kids[found.value]);
      stats := Stats(0, 0, 0, 0, 1, 0, 0);
      rt.dom := InsertBefore(rt.dom, el, kids[found.value], current).0;
    } else {
      NoneBehind(d, done, rest, v, id);
      node := current;
      stats := OddMarker(MarkerOf(rt.dom, current.value));
      AlignedInPlace(d, el, done, rest, v, stats, base);
    }
  }

  lemma SettingKids(d: Document, el: NodeId, done: seq<NodeId>, rest: seq<NodeId>, base: Document)
    requires Setting(d, el, done, rest, base)
    ensures IsElement(d, el) && el in d.tree && d.tree[el].kids == done + rest
  {
  }

  lemma BehindHead(done: seq<NodeId>, rest: seq<NodeId>)
    requires rest != []
    ensures (done + rest)[|done| + 1..] == rest[1..]
  {
  }

  lemma TailItem(done: seq<NodeId>, rest: seq<NodeId>, k: nat)
    requires k < |rest|
    ensures (done + rest)[|done| + k] == rest[k]
  {
  }

  lemma NoneLeft(d: Document, v: VNode)
    ensures AlignCount(d, [], v) == NO_STATS
  {
  }

  /** The head carries the marker. */
  lemma HeadMarked(d: Document, rest: seq<NodeId>, v: VNode, id: string)
    requires KeyOf(v) == Some(id) && rest != [] && MarkerOf(d, rest[0]) == Some(id)
    ensures Target(d, rest, v) == 0 && AlignCount(d, rest, v) == NO_STATS
  {
    hide MarkerOf, FirstMarked;
    FoundFirst(d, rest, id, 0);
  }

  /** A later node does. */
  lemma FoundBehind(d: Document, done: seq<NodeId>, rest: seq<NodeId>, v: VNode, id: string, found: nat)
    requires KeyOf(v) == Some(id) && rest != [] && MarkerOf(d, rest[0]) != Some(id) && found > |done|
    requires FirstMarked(d, (done + rest)[|done| + 1..], id) == Some(found - |done| - 1)
    ensures Target(d, rest, v) == found - |done| && AlignCount(d, rest, v) == Stats(0, 0, 0, 0, 1, 0, 0)
    ensures found < |done + rest| && (done + rest)[found] == rest[Target(d, rest, v)]
    ensures Item(InFront(d, rest, v), 0) == Some((done + rest)[found])
  {
    hide MarkerOf, FirstMarked;
    BehindHead(done, rest);
    FirstBehind(d, rest, id);
    TailItem(done, rest, found - |done|);
  }

  /** No node does. */
  lemma NoneBehind(d: Document, done: seq<NodeId>, rest: seq<NodeId>, v: VNode, id: string)
    requires KeyOf(v) == Some(id) && rest != [] && MarkerOf(d, rest[0]) != Some(id)
    requires FirstMarked(d, (done + rest)[|done| + 1..], id) == None
    ensures Target(d, rest, v) == 0
    ensures AlignCount(d, rest, v) == OddMarker(MarkerOf(d, rest[0]))
  {
    hide MarkerOf, FirstMarked;
    BehindHead(done, rest);
    FirstBehind(d, rest, id);
  }

  lemma AlignedInPlace(d: Document, el: NodeId, done: seq<NodeId>, rest: seq<NodeId>, v: VNode, s: Stats,
                       base: Document)
    requires WellFormed(d) && Setting(d, el, done, rest, base) && s == AlignCount(d, rest, v)
    requires rest != [] ==> Target(d, rest, v) == 0
    ensures Aligned(d, d, el, done, rest, v, s, base) && InFront(d, rest, v) == rest
  {
    InPlaceCount(d, rest, v);
    hide WellFormed, Setting, Advance, Target, AlignCount, InFront, Planned, Counted;
    NothingHydrated(d, el, done, rest, base);
    HeadInFront(d, rest, v);
    SameCount(d, s, base.next);
  }

  lemma InPlaceCount(d: Document, rest: seq<NodeId>, v: VNode)
    requires rest != [] ==> Target(d, rest, v) == 0
    ensures AlignCount(d, rest, v).Repairs() == 0
  {
    hide Target, MarkerOf;
  }

  lemma HeadInFront(d: Document, rest: seq<NodeId>, v: VNode)
    requires rest != [] ==> Target(d, rest, v) == 0
    ensures InFront(d, rest, v) == rest
  {
    hide Target;
    if rest != [] {
      assert DropAt(rest, 0) == rest[1..];
    }
  }

  lemma SameCount(d: Document, s: Stats, bound: NodeId)
    requires s.Repairs() == 0
    ensures Counted(d, d, s, bound)
  {
    assert Since(d, d) == [];
  }

  lemma MovedInFront(d: Document, el: NodeId, done: seq<NodeId>, rest: seq<NodeId>, v: VNode, base: Document)
    requires WellFormed(d) && Setting(d, el, done, rest, base) && rest != [] && Target(d, rest, v) > 0
    requires AlignCount(d, rest, v) == Stats(0, 0, 0, 0, 1, 0, 0)
    ensures rest[Target(d, rest, v)] in d.tree && el < rest[Target(d, rest, v)]
    ensures var e := InsertBefore(d, el, rest[Target(d, rest, v)], Some(rest[0])).0;
            WellFormed(e) && Aligned(d, e, el, done, rest, v, Stats(0, 0, 0, 0, 1, 0, 0), base)
  {
    hide InsertBefore, WellFormed, Target, AllOld, AlignCount, LinksOk, KidStep, RunFrame, Spared, Conforms, Distinct;
    var t := Target(d, rest, v);
    var n := rest[t];
    RestKids(d, el, done, rest);
    assert rest[0] in rest && n in rest && n != rest[0];
    PlacedKids(d, el, n, done, rest);
    WithoutAt(rest, t);
    var e := InsertBefore(d, el, n, Some(rest[0])).0;
    MoveKidStep(d, e, el, n);
    StepKeeps(d, e, el);
    assert done + [n] + DropAt(rest, t) == done + [] + InFront(d, rest, v);
    StepAdvances(d, e, el, None, done, rest, [], [], InFront(d, rest, v), base);
    assert Since(d, d) == [];
    OldMember(d, rest, t, base);
    OneMore(d, d, e, Inserted(el, n), base.next);
  }

  lemma WithoutAt(rest: seq<NodeId>, t: nat)
    requires Distinct(rest) && t < |rest|
    ensures Without(rest, rest[t]) == DropAt(rest, t)
    ensures forall x :: x in [rest[t]] + DropAt(rest, t) ==> x in rest
  {
    assert rest == rest[..t] + [rest[t]] + rest[t + 1..];
    DistinctParts(rest[..t] + [rest[t]], rest[t + 1..]);
    DistinctParts(rest[..t], [rest[t]]);
    WithoutMiddle(rest[..t], rest[t], rest[t + 1..]);
  }

  lemma MoveKidStep(d: Document, e: Document, el: NodeId, n: NodeId)
    requires WellFormed(d) && el in d.tree && n in d.tree && IsChild(d, el, n) && SameNodes(d, e) && d.log <= e.log
    requires e.tree[el].parent == d.tree[el].parent && e.tree[n] == Link(Some(el), d.tree[n].kids)
    requires forall x :: x in d.tree && x != el && x != n ==> e.tree[x] == d.tree[x]
    ensures KidStep(d, e, el, None)
  {
    hide TreeOk;
  }

  /** Hydrating the aligned list hydrates the list. */
  lemma AlignedHydrated(d: Document, e: Document, f: Document, el: NodeId, done: seq<NodeId>, rest: seq<NodeId>,
                        v: VNode, s: Stats, placed: seq<NodeId>, left: seq<NodeId>, t: Stats, base: Document)
    requires WellFormed(d) && WellFormed(e) && WellFormed(f) && Aligned(d, e, el, done, rest, v, s, base)
    requires Repaired(e, f, el, done, InFront(d, rest, v), [v], placed, left, t, base)
    requires OnePlanned(e, InFront(d, rest, v), v, placed, left, t)
    ensures Hydrated(d, f, el, done, rest, [v], placed, left, t.Merge(s), base)
  {
    hide WellFormed, Advance, Counted, Planned, OnePlanned, Aligned, InFront;
    var front := InFront(d, rest, v);
    NilConcat(done, [v], placed);
    AlignedParts(d, e, el, done, rest, v, s, base);
    AdvanceTrans(d, e, f, el, done, rest, [], [], front, [v], placed, left, base);
    CountedTrans(d, e, f, s, t, base.next);
    assert t.Merge(s) == s.Merge(t);
    AlignedPlanned(d, e, el, done, rest, v, s, placed, left, t, base);
  }

  lemma NilConcat(a: seq<NodeId>, b: seq<VNode>, c: seq<NodeId>)
    ensures a + [] == a && [] + b == b && [] + c == c
  {
  }

  lemma AlignedParts(d: Document, e: Document, el: NodeId, done: seq<NodeId>, rest: seq<NodeId>, v: VNode, s: Stats,
                     base: Document)
    requires Aligned(d, e, el, done, rest, v, s, base)
    ensures Advance(d, e, el, done, rest, [], [], InFront(d, rest, v), base) && Counted(d, e, s, base.next)
    ensures (s.Repairs() == 0 ==> e.tree == d.tree) && s.consumed == 0
  {
    hide Advance, Counted;
  }

  lemma AlignedPlanned(d: Document, e: Document, el: NodeId, done: seq<NodeId>, rest: seq<NodeId>, v: VNode, s: Stats,
                       placed: seq<NodeId>, left: seq<NodeId>, t: Stats, base: Document)
    requires WellFormed(d) && WellFormed(e) && Aligned(d, e, el, done, rest, v, s, base)
    requires OnePlanned(e, InFront(d, rest, v), v, placed, left, t)
    ensures Planned(d, rest, [v], placed, left, t.Merge(s))
  {
    hide WellFormed, Ready, RunFrame, Counted, Target, AlignCount, PlanOne, PlanEach, Quiet, Order, SameBelow, DropAt;
    var front := InFront(d, rest, v);
    assert Undisturbed(d, e, front);
    PlanOneFrame(d, e, front, v);
    PlanSingle(d, rest, v);
    QuietOne(d, rest, v);
    if Quiet(d, rest, [v]) {
      assert front[0] in front;
      ReadyFrame(d, e, front[0], v);
    }
  }

  // --- Texts and comments ---

  method HydrateText(rt: Runtime, el: NodeId, node: Option<NodeId>, v: VNode, ghost done: seq<NodeId>,
                     ghost rest: seq<NodeId>, ghost base: Document)
    returns (stats: Stats, ghost placed: seq<NodeId>, ghost left: seq<NodeId>)
    requires rt.Valid() && Setting(rt.dom, el, done, rest, base) && v.Text? && node == Before(rest)
    modifies rt
    ensures rt.Valid() && Hydrated(old(rt.dom), rt.dom, el, done, rest, [v], placed, left, stats, base)
  {
    hide WellFormed, EventsAgree, EffectsAgree, RegionsAgree, Issued, CellsExist, Numbered, Hydrated, Repaired, Planned,
         AllOld, Confined, LocalLog;
    ghost var d := rt.dom;
    left := [];
    match node {
      case None =>
        ghost var r := AppendDomNode(rt, el, v, done, base);
        placed, stats := [r], Stats(1, 0, 1, 0, 0, 0, 0);
        LeafHydrated(d, rt.dom, el, done, rest, v, placed, left, stats, base);
      case Some(n) =>
        HeadFacts(rt.dom, el, done, rest, base);
        left := rest[1..];
        if !rt.dom.data[n].kind.TextNode? {
          ghost var r := ReplaceDomNode(rt, el, n, v, done, rest, base);
          placed, stats := [r], Stats(1, 1, 0, 0, 0, 0, 0);
          LeafHydrated(d, rt.dom, el, done, rest, v, placed, left, stats, base);
        } else if rt.dom.data[n].text == v.text {
          Kept(rt.dom, el, done, rest, v, base);
          placed, stats := [n], Stats(1, 0, 0, 0, 0, 0, 0);
        } else {
          WriteText(rt, n, v.text);
          HydrationSteps.Patched(old(rt.dom), rt.dom, el, done, rest, v, base);
          placed, stats := [n], Stats(1, 0, 0, 0, 0, 1, 0);
        }
    }
  }

  /** A repair that the plan calls for. */
  lemma LeafHydrated(d: Document, e: Document, el: NodeId, done: seq<NodeId>, rest: seq<NodeId>, v: VNode,
                     placed: seq<NodeId>, left: seq<NodeId>, s: Stats, base: Document)
    requires v.Text? || v.Comment?
    requires Repaired(d, e, el, done, rest, [v], placed, left, s, base) && PlanOne(d, rest, v) == Plan(s, left)
    requires rest == [] || !Ready(d, rest[0], v)
    ensures Hydrated(d, e, el, done, rest, [v], placed, left, s, base)
  {
    hide Repaired, Planned, Ready, PlanOne;
    UnmarkedPlanned(d, rest, v, placed, left, s);
  }

  method HydrateComment(rt: Runtime, el: NodeId, node: Option<NodeId>, v: VNode, ghost done: seq<NodeId>,
                        ghost rest: seq<NodeId>, ghost base: Document)
    returns (stats: Stats, ghost placed: seq<NodeId>, ghost left: seq<NodeId>)
    requires rt.Valid() && Setting(rt.dom, el, done, rest, base) && v.Comment? && node == Before(rest)
    modifies rt
    ensures rt.Valid() && Hydrated(old(rt.dom), rt.dom, el, done, rest, [v], placed, left, stats, base)
  {
    hide WellFormed, EventsAgree, EffectsAgree, RegionsAgree, Issued, CellsExist, Numbered, Hydrated, Repaired, Planned,
         AllOld;
    ghost var d := rt.dom;
    if rest != [] {
      HeadFacts(rt.dom, el, done, rest, base);
    }
    if node.Some? && rt.dom.data[node.value].kind.CommentNode? {
      Kept(rt.dom, el, done, rest, v, base);
      placed, left, stats := [node.value], rest[1..], Stats(1, 0, 0, 0, 0, 0, 0);
      return;
    }
    ghost var r := InsertComment(rt, el, node, v, done, rest, base);
    placed, left, stats := [r], rest, Stats(1, 0, 1, 0, 0, 0, 0);
    LeafHydrated(d, rt.dom, el, done, rest, v, placed, left, stats, base);
  }

  // --- Elements and child lists ---

  /** The whole child list of `n` was hydrated against `vs`. */
  ghost predicate ListHydrated(d: Document, e: Document, n: NodeId, vs: seq<VNode>, s: Stats, base: Document) {
    && Confined(d, e, n) && n in d.tree && n in e.tree && n in d.data && n in e.data && e.data[n] == d.data[n]
    && AllConform(e, e.tree[n].kids, vs, base)
    && Counted(d, e, s, base.next)
    && (s.Repairs() == 0 ==> e.tree == d.tree)
    && s == PlanList(d, d.tree[n].kids, vs)
    && (Quiet(d, d.tree[n].kids, vs) ==> e.tree[n].kids == Order(d, d.tree[n].kids, vs))
  }

  /** The element's own record after adoption. */
  ghost predicate RecordAdopted(d: Document, m: Document, n: NodeId, v: VNode)
    requires v.Element?
  {
    && n in d.data && n in m.data && WellFormed(d) && RecordKept(d.data[n], m.data[n], v, d.rules.attrOk)
    && m == SetData(d, n, m.data[n])
    && HandlersOf(m.data[n].listeners) == v.events && DynamicsShown(m.data[n].attrs, v.attributes, d.rules.attrOk)
  }

  lemma WrittenDynamics(attrs: map<string, string>, attributes: seq<Attribute>, ok: string -> bool)
    requires DistinctNames(attributes)
    ensures DynamicsShown(Written(attrs, attributes, ok), attributes, ok)
    ensures OthersKept(attrs, Written(attrs, attributes, ok), attributes, ok)
  {
    hide Written;
    forall name ensures var w, f := Lookup(Written(attrs, attributes, ok), name), Find(attributes, name);
            if f.Some? && f.value.IsDynamic() && (ok(name) || f.value.CurrentValue().None?)
            then w == f.value.CurrentValue() else w == Lookup(attrs, name)
    {
      WrittenAt(attrs, attributes, ok, name);
    }
  }

  /** Binds the vnode's listeners and reactive attributes to an adopted element. */
  method AdoptRecord(rt: Runtime, n: NodeId, v: VNode)
    requires rt.Valid() && IsElement(rt.dom, n) && v.Element? && Plain(v)
    modifies rt
    ensures rt.Valid() && RecordAdopted(old(rt.dom), rt.dom, n, v)
  {
    hide WellFormed, EventsAgree, EffectsAgree, RegionsAgree, Issued, CellsExist, Numbered, SetData, Plain, Written,
         DynamicsShown, OthersKept, HandlersOf, DistinctNames;
    ghost var d := rt.dom;
    PlainElement(v);
    AttachElementEvents(rt, n, v.events);
    ghost var first := rt.dom.data[n];
    WrittenDynamics(first.attrs, v.attributes, d.rules.attrOk);
    RulesKept(d, n, first);
    BindDynamicAttributes(rt, n, v.attributes);
    SetDataTwice(d, n, first, rt.dom.data[n]);
  }

  lemma RulesKept(d: Document, n: NodeId, data: NodeData)
    requires WellFormed(d) && n in d.data && data.kind == d.data[n].kind
    ensures SetData(d, n, data).rules == d.rules && SetData(d, n, data).data[n] == data
  {
  }

  /** The list below an adopted element. */
  lemma ChildSetting(d: Document, m: Document, el: NodeId, done: seq<NodeId>, rest: seq<NodeId>, v: VNode,
                     base: Document)
    requires WellFormed(d) && Setting(d, el, done, rest, base) && rest != [] && v.Element?
    requires RecordAdopted(d, m, rest[0], v) && IsElement(d, rest[0])
    ensures rest[0] in m.tree && Setting(m, rest[0], [], m.tree[rest[0]].kids, base)
    ensures ContentKept(base, m, rest[0]) && IsElement(m, rest[0])
  {
    hide OthersKept, DynamicsShown, HandlersOf;
    HeadFacts(d, el, done, rest, base);
    var n := rest[0];
    var kids := m.tree[n].kids;
    assert kids == [] + kids;
    forall y | y in m.tree && y != n && Under(m.tree, n, y) ensures y < base.next && AsBefore(base, m, y) {
      assert Under(d.tree, rest[0], y);
    }
    forall y | y in m.tree && UnderAny(m.tree, kids, y) ensures y < base.next && AsBefore(base, m, y) {
      var i :| 0 <= i < |kids| && Under(m.tree, kids[i], y);
      assert kids[i] in kids;
      UnderKid(d, n, kids[i], y);
    }
  }

  /** The plan for the children does not depend on the adopted record. */
  lemma RecordPlan(d: Document, m: Document, rest: seq<NodeId>, v: VNode)
    requires WellFormed(m) && v.Element? && rest != [] && RecordAdopted(d, m, rest[0], v) && rest[0] in d.tree
    requires IsElement(d, rest[0]) && Lower(d.data[rest[0]].kind.tag) == Lower(v.tag)
    ensures PlanOne(d, rest, v) ==
            Plan(if RawTag(v.tag) then KEEP else PlanList(m, m.tree[rest[0]].kids, Flatten(v.children)).(consumed := 1),
                 rest[1..])
  {
    hide PlanList, SameBelow, DynamicsShown, WellFormed, Flatten;
    var n := rest[0];
    var kids := d.tree[n].kids;
    KidsBelow(d, n);
    forall k | k in kids ensures k in d.tree && SameBelow(d, m, k) {
      KidKnown(d, n, k);
      RecordSameBelow(d, n, m.data[n], k);
    }
    PlanListFrame(d, m, kids, Flatten(v.children));
  }

  lemma KidKnown(d: Document, n: NodeId, k: NodeId)
    requires WellFormed(d) && n in d.tree && k in d.tree[n].kids
    ensures k in d.tree && n < k
  {
    assert LinksOk(d.tree, n);
  }

  /** Adopting an element's record and then hydrating its children is one advance. */
  lemma ElementAdopted(d: Document, m: Document, f: Document, el: NodeId, done: seq<NodeId>, rest: seq<NodeId>,
                       v: VNode, child: Stats, base: Document)
    requires WellFormed(d) && WellFormed(m) && WellFormed(f) && Setting(d, el, done, rest, base) && rest != []
             && v.Element?
    requires IsElement(d, rest[0]) && Lower(d.data[rest[0]].kind.tag) == Lower(v.tag)
    requires RecordAdopted(d, m, rest[0], v)
    requires if RawTag(v.tag) then f == m && child == NO_STATS
             else ListHydrated(m, f, rest[0], Flatten(v.children), child, base)
    ensures Repaired(d, f, el, done, rest, [v], [rest[0]], rest[1..], child.(consumed := 1), base)
    ensures OnePlanned(d, rest, v, [rest[0]], rest[1..], child.(consumed := 1))
  {
    hide WellFormed, Conforms, Ready, Quiet, Order, AllOld, Confined, KidStep, Counted, DynamicsShown, PlanOne,
        PlanList;
    var n, s := rest[0], child.(consumed := 1);
    HeadFacts(d, el, done, rest, base);
    RecordStep(d, m, n, v);
    AdoptedFrame(d, m, f, n, v, child, base);
    ChildSetting(d, m, el, done, rest, v, base);
    AdoptedConforms(d, m, f, n, v, child, base);
    ConfinedStep(d, f, el, n);
    RecordPlan(d, m, rest, v);
    OneRepaired(d, f, el, Some(n), done, rest, v, n, rest[1..], s, base);
  }

  lemma RecordStep(d: Document, m: Document, n: NodeId, v: VNode)
    requires v.Element? && RecordAdopted(d, m, n, v)
    ensures Confined(d, m, n) && m.tree == d.tree && m.log == d.log && m.rules == d.rules
    ensures m.next == d.next
  {
    RecordConfined(d, n, m.data[n]);
  }

  lemma AdoptedFrame(d: Document, m: Document, f: Document, n: NodeId, v: VNode, child: Stats, base: Document)
    requires WellFormed(d) && WellFormed(m) && v.Element? && RecordAdopted(d, m, n, v) && n in d.tree
    requires if RawTag(v.tag) then f == m && child == NO_STATS
             else ListHydrated(m, f, n, Flatten(v.children), child, base)
    ensures Confined(d, f, n) && Counted(d, f, child.(consumed := 1), base.next) && f.rules == d.rules
    ensures child.Repairs() == 0 ==> f.tree == d.tree
  {
    hide WellFormed, Confined, AllConform, Quiet, DynamicsShown, Order, PlanList, Count;
    RecordStep(d, m, n, v);
    if RawTag(v.tag) {
      assert Since(d, f) == [];
      CountFresh([], base.next);
    } else {
      ConfinedTrans(d, m, f, n);
      ConfinedGrows(m, f, n);
      assert Since(d, f) == Since(m, f);
    }
  }

  lemma AdoptedConforms(d: Document, m: Document, f: Document, n: NodeId, v: VNode, child: Stats, base: Document)
    requires v.Element? && RecordAdopted(d, m, n, v) && IsElement(d, n) && n in d.tree
    requires Lower(d.data[n].kind.tag) == Lower(v.tag) && f.rules == d.rules && n < base.next
    requires AsBefore(base, d, n) && ContentKept(base, m, n)
    requires if RawTag(v.tag) then f == m else ListHydrated(m, f, n, Flatten(v.children), child, base)
    ensures Conforms(f, n, v, base)
  {
    hide WellFormed, Confined, Counted, Quiet, DynamicsShown, Order, PlanList, Shows, ContentKept, OthersKept;
    if !RawTag(v.tag) {
      forall i | 0 <= i < |Flatten(v.children)| ensures Conforms(f, f.tree[n].kids[i], Flatten(v.children)[i], base) {
      }
    }
  }

  /** Reuses the element at the head of `rest`. */
  method AdoptElement(rt: Runtime, el: NodeId, n: NodeId, v: VNode, ghost done: seq<NodeId>, ghost rest: seq<NodeId>,
                      ghost base: Document) returns (stats: Stats)
    requires rt.Valid() && Setting(rt.dom, el, done, rest, base) && v.Element? && Plain(v)
    requires rest != [] && rest[0] == n && IsElement(rt.dom, n) && Lower(rt.dom.data[n].kind.tag) == Lower(v.tag)
    modifies rt
    ensures rt.Valid() && Repaired(old(rt.dom), rt.dom, el, done, rest, [v], [n], rest[1..], stats, base)
    ensures OnePlanned(old(rt.dom), rest, v, [n], rest[1..], stats)
    decreases Weight(v), 0
  {
    hide WellFormed, EventsAgree, EffectsAgree, RegionsAgree, Issued, CellsExist, Numbered, Plain, Repaired, Setting,
         RecordAdopted, ListHydrated, Flatten, OnePlanned;
    ghost var d := rt.dom;
    AdoptRecord(rt, n, v);
    ghost var m := rt.dom;
    ChildSetting(d, m, el, done, rest, v, base);
    if Lower(v.tag) == "script" || Lower(v.tag) == "style" {
      stats := NO_STATS.(consumed := 1);
      ElementAdopted(d, m, m, el, done, rest, v, NO_STATS, base);
      return;
    }
    PlainElement(v);
    WeightElement(v);
    var child := HydrateChildren(rt, n, v.children, base);
    stats := child.(consumed := 1);
    ElementAdopted(d, m, rt.dom, el, done, rest, v, child, base);
  }

  /** Reuses, replaces or appends the node for an element vnode, after looking for its marker. */
  method HydrateElement(rt: Runtime, el: NodeId, index: nat, v: VNode, ghost done: seq<NodeId>, ghost rest: seq<NodeId>,
                        ghost base: Document) returns (stats: Stats, ghost placed: seq<NodeId>, ghost left: seq<NodeId>)
    requires rt.Valid() && Setting(rt.dom, el, done, rest, base) && v.Element? && Plain(v) && index == |done|
    modifies rt
    ensures rt.Valid() && Hydrated(old(rt.dom), rt.dom, el, done, rest, [v], placed, left, stats, base)
    decreases Weight(v), 1
  {
    hide WellFormed, EventsAgree, EffectsAgree, RegionsAgree, Issued, CellsExist, Numbered, Plain, Hydrated, Aligned,
         AllOld, Target, Ready, Repaired, InFront, PlanList, RawTag;
    ghost var d := rt.dom;
    var node, alignment;
    var key := KeyOf(v);
    if key.Some? {
      node, alignment := RealignNode(rt, el, index, v, key.value, done, rest, base);
    } else {
      ItemHead(done, rest);
      node, alignment := Item(rt.dom.tree[el].kids, index), NO_STATS;
      Unmarked(d, el, done, rest, v, base);
    }
    ghost var e, front := rt.dom, InFront(d, rest, v);
    FrontSize(d, rest, v);
    AlignedSetting(d, e, el, done, rest, v, alignment, base);
    left := [];
    if node.None? {
      ghost var r := AppendDomNode(rt, el, v, done, base);
      placed, stats := [r], Stats(1, 0, 1, 0, 0, 0, 0);
    } else {
      var n := node.value;
      HeadFacts(e, el, done, front, base);
      left := front[1..];
      if IsElement(rt.dom, n) && Lower(rt.dom.data[n].kind.tag) == Lower(v.tag) {
        stats := AdoptElement(rt, el, n, v, done, front, base);
        placed := [n];
      } else {
        OtherTag(e, n, v);
        ghost var r := ReplaceDomNode(rt, el, n, v, done, front, base);
        placed, stats := [r], Stats(1, 1, 0, 0, 0, 0, 0);
      }
    }
    AlignedHydrated(d, e, rt.dom, el, done, rest, v, alignment, placed, left, stats, base);
    stats := stats.Merge(alignment);
  }

  lemma FrontSize(d: Document, rest: seq<NodeId>, v: VNode)
    ensures |InFront(d, rest, v)| == |rest|
  {
    hide Target;
  }

  lemma OtherTag(d: Document, n: NodeId, v: VNode)
    requires v.Element? && !(IsElement(d, n) && Lower(d.data[n].kind.tag) == Lower(v.tag))
    ensures !Ready(d, n, v)
  {
  }

  lemma Unmarked(d: Document, el: NodeId, done: seq<NodeId>, rest: seq<NodeId>, v: VNode, base: Document)
    requires WellFormed(d) && Setting(d, el, done, rest, base) && KeyOf(v) == None
    ensures Aligned(d, d, el, done, rest, v, NO_STATS, base) && InFront(d, rest, v) == rest
  {
    HeadInFront(d, rest, v);
    AlignedInPlace(d, el, done, rest, v, NO_STATS, base);
  }

  lemma AlignedSetting(d: Document, e: Document, el: NodeId, done: seq<NodeId>, rest: seq<NodeId>, v: VNode, s: Stats,
                       base: Document)
    requires WellFormed(d) && WellFormed(e) && Setting(d, el, done, rest, base)
             && Aligned(d, e, el, done, rest, v, s, base)
    ensures Setting(e, el, done, InFront(d, rest, v), base)
  {
    hide WellFormed, Setting, Advance, Counted, AlignCount;
    SettingNext(d, e, el, done, rest, [], [], InFront(d, rest, v), base);
    assert done + [] == done;
  }

  /** Hydrates one vnode against the child at `index`; a fragment hydrates as its children. */
  method HydrateRecursive(rt: Runtime, el: NodeId, index: nat, v: VNode, ghost done: seq<NodeId>,
                          ghost rest: seq<NodeId>, ghost base: Document)
    returns (stats: Stats, ghost placed: seq<NodeId>, ghost left: seq<NodeId>)
    requires rt.Valid() && Setting(rt.dom, el, done, rest, base) && Plain(v) && index == |done|
    modifies rt
    ensures rt.Valid() && Hydrated(old(rt.dom), rt.dom, el, done, rest, Flatten([v]), placed, left, stats, base)
    decreases Weight(v), 2
  {
    hide WellFormed, EventsAgree, EffectsAgree, RegionsAgree, Issued, CellsExist, Numbered, Plain, Hydrated, AllOld,
         Flatten;
    FlattenOne(v);
    ItemHead(done, rest);
    match v {
      case Element(_, _, _, _) =>
        stats, placed, left := HydrateElement(rt, el, index, v, done, rest, base);
      case Text(_) =>
        stats, placed, left := HydrateText(rt, el, Item(rt.dom.tree[el].kids, index), v, done, rest, base);
      case Comment(_) =>
        stats, placed, left := HydrateComment(rt, el, Item(rt.dom.tree[el].kids, index), v, done, rest, base);
      case Fragment(nodes) =>
        PlainFragment(v);
        stats, placed, left := HydrateEach(rt, el, index, nodes, done, rest, base);
    }
  }

  lemma PlainFragment(v: VNode)
    requires v.Fragment? && Plain(v)
    ensures PlainAll(v.nodes) && Weight(v) == 1 + WeightAll(v.nodes)
  {
  }

  /** Hydrates `vs` one after the other from `index` on. */
  method HydrateEach(rt: Runtime, el: NodeId, index: nat, vs: seq<VNode>, ghost done: seq<NodeId>,
                     ghost rest: seq<NodeId>, ghost base: Document)
    returns (stats: Stats, ghost placed: seq<NodeId>, ghost left: seq<NodeId>)
    requires rt.Valid() && Setting(rt.dom, el, done, rest, base) && PlainAll(vs) && index == |done|
    modifies rt
    ensures rt.Valid() && Hydrated(old(rt.dom), rt.dom, el, done, rest, Flatten(vs), placed, left, stats, base)
    decreases WeightAll(vs), 3
  {
    hide WellFormed, EventsAgree, EffectsAgree, RegionsAgree, Issued, CellsExist, Numbered, Plain, Hydrated, Setting,
         Flatten, WeightAll, Weight;
    ghost var d := rt.dom;
    placed, left, stats := [], rest, NO_STATS;
    var consumed := 0;
    NothingHydrated(d, el, done, rest, base);
    FlattenNone(vs);
    assert done + [] == done;
    for i := 0 to |vs|
      invariant rt.Valid() && Setting(rt.dom, el, done + placed, left, base) && consumed == |placed|
      invariant Hydrated(d, rt.dom, el, done, rest, Flatten(vs[..i]), placed, left, stats, base)
    {
      ghost var e := rt.dom;
      WeightMember(vs, i);
      assert vs[i] in vs;
      ghost var p, l;
      var s;
      s, p, l := HydrateRecursive(rt, el, index + consumed, vs[i], done + placed, left, base);
      HydratedTrans(d, e, rt.dom, el, done, rest, Flatten(vs[..i]), placed, left, stats, Flatten([vs[i]]), p, l, s,
                    base);
      FlattenSnoc(vs, i);
      Consumes(e, rt.dom, el, done + placed, left, Flatten([vs[i]]), p, l, s, base);
      assert done + placed + p == done + (placed + p);
      placed, left := placed + p, l;
      consumed := consumed + s.consumed;
      stats := stats.Merge(s);
    }
    assert vs[..|vs|] == vs;
  }

  lemma FlattenNone(vs: seq<VNode>)
    ensures Flatten(vs[..0]) == []
  {
  }

  lemma Consumes(d: Document, e: Document, el: NodeId, done: seq<NodeId>, rest: seq<NodeId>, vs: seq<VNode>,
                 placed: seq<NodeId>, left: seq<NodeId>, s: Stats, base: Document)
    requires WellFormed(d) && WellFormed(e) && Setting(d, el, done, rest, base)
    requires Hydrated(d, e, el, done, rest, vs, placed, left, s, base)
    ensures s.consumed == |placed| == |vs| && Setting(e, el, done + placed, left, base)
  {
    hide WellFormed, Conforms, Setting, RunFrame, Spared, Counted, Planned;
    SettingNext(d, e, el, done, rest, vs, placed, left, base);
  }

  // --- Extra nodes ---

  /** Everything is placed and conforms; the nodes of `left` are still to be removed. */
  ghost predicate Trimmed(d: Document, e: Document, el: NodeId, rest: seq<NodeId>, vs: seq<VNode>, placed: seq<NodeId>,
                          left: seq<NodeId>, s: Stats, base: Document)
  {
    && Advance(d, e, el, [], rest, vs, placed, left, base) && Counted(d, e, s, base.next)
    && (s.Repairs() == 0 ==> e.tree == d.tree)
  }

  lemma TrimNext(d: Document, a: Snapshot, b: Snapshot, el: NodeId, rest: seq<NodeId>, vs: seq<VNode>,
                 placed: seq<NodeId>, left: seq<NodeId>, s: Stats, base: Document)
    requires WellFormed(d) && WellFormed(a.dom) && WellFormed(b.dom) && left != []
    requires Setting(a.dom, el, placed, left, base) && Trimmed(d, a.dom, el, rest, vs, placed, left, s, base)
    requires Released(a, b, Subtree(a.dom.tree, left[0]))
    ensures var e := RemoveChild(b.dom, el, left[0]).0;
            && Trimmed(d, e, el, rest, vs, placed, left[1..], s.(removals := s.removals + 1), base)
            && Setting(e, el, placed, left[1..], base)
  {
    hide WellFormed, Advance, Setting, AllOld, Counted, Released, RemoveChild, Teardown.RemovedPlain, Subtree;
    var n := left[0];
    var c := b.(dom := RemoveChild(b.dom, el, n).0);
    HeadFacts(a.dom, el, placed, left, base);
    Teardown.PlainRemoved(a, b, el, n);
    TrimAdvances(a, c, el, placed, left, base);
    AdvanceMore(d, a.dom, c.dom, el, rest, vs, placed, left, left[1..], base);
    RemovedCount(d, a.dom, c.dom, el, n, s, base.next);
  }

  /** Removing the head of what is left is an advance that places nothing. */
  lemma TrimAdvances(a: Snapshot, c: Snapshot, el: NodeId, placed: seq<NodeId>, left: seq<NodeId>, base: Document)
    requires WellFormed(a.dom) && WellFormed(c.dom) && left != [] && Setting(a.dom, el, placed, left, base)
    requires left[0] in a.dom.tree && Teardown.RemovedPlain(a, c, el, left[0])
    ensures Advance(a.dom, c.dom, el, placed, left, [], [], left[1..], base)
            && Setting(c.dom, el, placed, left[1..], base)
    ensures KeepsParents(a.dom, c.dom) && c.dom.log == a.dom.log + [Removed(el, left[0])] && el < base.next
  {
    hide WellFormed, AllOld, Teardown.RemovedPlain, KidStep, Distinct, IsChild, Advance, KeepsParents;
    var n := left[0];
    RemovedHead(a, c, el, placed, left);
    RestKids(a.dom, el, placed, left);
    HeadAndTail(left);
    NilBetween(placed, left[1..]);
    NoneConform(c.dom, base);
    StepAdvances(a.dom, c.dom, el, Some(n), placed, left, [], [], left[1..], base);
    SettingNext(a.dom, c.dom, el, placed, left, [], [], left[1..], base);
  }

  lemma NilBetween(a: seq<NodeId>, b: seq<NodeId>)
    ensures a + [] + b == a + b && a + [] == a
  {
  }

  lemma NoneConform(d: Document, base: Document)
    ensures AllConform(d, [], [], base)
  {
  }

  /** An advance that places nothing, after one from the front. */
  lemma AdvanceMore(d: Document, e: Document, f: Document, el: NodeId, rest: seq<NodeId>, vs: seq<VNode>,
                    placed: seq<NodeId>, left: seq<NodeId>, left': seq<NodeId>, base: Document)
    requires WellFormed(d) && WellFormed(e) && WellFormed(f) && Advance(d, e, el, [], rest, vs, placed, left, base)
    requires Advance(e, f, el, placed, left, [], [], left', base)
    ensures Advance(d, f, el, [], rest, vs, placed, left', base)
  {
    hide WellFormed, Advance;
    assert [] + placed == placed && placed + [] == placed && vs + [] == vs;
    AdvanceTrans(d, e, f, el, [], rest, vs, placed, left, [], [], left', base);
  }

  lemma RemovedHead(a: Snapshot, c: Snapshot, el: NodeId, placed: seq<NodeId>, left: seq<NodeId>)
    requires WellFormed(a.dom) && el in a.dom.tree && a.dom.tree[el].kids == placed + left && left != []
    requires left[0] in a.dom.tree && Teardown.RemovedPlain(a, c, el, left[0])
    ensures KidStep(a.dom, c.dom, el, Some(left[0])) && c.dom.tree[el].kids == placed + left[1..]
    ensures KeepsParents(a.dom, c.dom)
    ensures c.dom.log == a.dom.log + [Removed(el, left[0])]
  {
    hide Disposed, Purged, RegionsIn, Muted, Without, KeepsParents, KidStep;
    var n := left[0];
    RestKids(a.dom, el, placed, left);
    assert placed + left == placed + [n] + left[1..];
    RemovedKidStep(a, c, el, n);
    RemovedKeeps(a, c, el, n);
    ReplaceParts(a.dom, el, n, placed, left[1..]);
  }

  lemma RemovedKeeps(a: Snapshot, c: Snapshot, el: NodeId, n: NodeId)
    requires WellFormed(a.dom) && n in a.dom.tree && Teardown.RemovedPlain(a, c, el, n)
    ensures KeepsParents(a.dom, c.dom)
  {
    hide Disposed, Purged, RegionsIn, Muted, Without, Detach, LinksOk;
    if IsChild(a.dom, el, n) {
      DetachKeeps(a.dom.tree, n);
    }
  }

  lemma DetachKeeps(t: Tree, n: NodeId)
    requires TreeOk(t) && n in t
    ensures forall x :: x in t ==> x in Detach(t, n) && Detach(t, n)[x].parent in {t[x].parent, None}
  {
    assert LinksOk(t, n);
  }

  lemma RemovedCount(d: Document, a: Document, c: Document, el: NodeId, n: NodeId, s: Stats, bound: NodeId)
    requires Counted(d, a, s, bound) && c.log == a.log + [Removed(el, n)] && el < bound && KeepsParents(a, c)
    ensures Counted(d, c, s.(removals := s.removals + 1), bound)
  {
    hide Count;
    assert Since(a, a) == [];
    OneMore(a, a, c, Removed(el, n), bound);
    CountedTrans(d, a, c, s, NO_STATS.(removals := 1), bound);
  }

  /**
   * Hydrates all children of `el`: afterwards they conform to `vs`, every repair is counted, and
   * a list that only needs moves is repaired by moves only.
   */
  method HydrateChildren(rt: Runtime, el: NodeId, vs: seq<VNode>, ghost base: Document) returns (stats: Stats)
    requires rt.Valid() && IsElement(rt.dom, el) && el in rt.dom.tree && PlainAll(vs)
    requires Setting(rt.dom, el, [], rt.dom.tree[el].kids, base)
    modifies rt
    ensures rt.Valid() && ListHydrated(old(rt.dom), rt.dom, el, Flatten(vs), stats, base)
    ensures stats.consumed == |Flatten(vs)|
    decreases WeightAll(vs), 4
  {
    hide WellFormed, EventsAgree, EffectsAgree, RegionsAgree, Issued, CellsExist, Numbered, Plain, Hydrated, Flatten,
         WeightAll, Weight, Trimmed, RemoveChild, Released, Setting, ListHydrated, Subtree;
    ghost var d, rest := rt.dom, rt.dom.tree[el].kids;
    ghost var placed, left;
    stats, placed, left := HydrateEach(rt, el, 0, vs, [], rest, base);
    var domIndex := stats.consumed;
    Consumes(d, rt.dom, el, [], rest, Flatten(vs), placed, left, stats, base);
    assert [] + placed == placed;
    ghost var e, first, extra := rt.dom, stats, left;
    StartTrimming(d, e, el, rest, Flatten(vs), placed, left, stats, base);
    SettingKids(e, el, placed, left, base);
    while |rt.dom.tree[el].kids| > domIndex
      invariant rt.Valid() && Setting(rt.dom, el, placed, left, base) && domIndex == |placed|
      invariant el in rt.dom.tree && rt.dom.tree[el].kids == placed + left
      invariant Trimmed(d, rt.dom, el, rest, Flatten(vs), placed, left, stats, base)
      invariant |left| <= |extra| && stats == first.(removals := first.removals + (|extra| - |left|))
      decreases |left|
    {
      ghost var a := Now(rt);
      var node := rt.dom.tree[el].kids[domIndex];
      assert node == left[0];
      HeadFacts(rt.dom, el, placed, left, base);
      ReleaseDomNodeResources(rt, node);
      ReleasedTree(a, Now(rt), Subtree(rt.dom.tree, node));
      TrimNext(d, a, Now(rt), el, rest, Flatten(vs), placed, left, stats, base);
      rt.dom := RemoveChild(rt.dom, el, node).0;
      stats := stats.(removals := stats.removals + 1);
      left := left[1..];
      SettingKids(rt.dom, el, placed, left, base);
    }
    TrimmedHydrated(d, e, rt.dom, el, rest, Flatten(vs), placed, extra, first, stats, base);
  }

  lemma StartTrimming(d: Document, e: Document, el: NodeId, rest: seq<NodeId>, vs: seq<VNode>, placed: seq<NodeId>,
                      left: seq<NodeId>, s: Stats, base: Document)
    requires Hydrated(d, e, el, [], rest, vs, placed, left, s, base)
    ensures Trimmed(d, e, el, rest, vs, placed, left, s, base)
  {
    hide Advance, Counted, Planned;
  }

  lemma TrimmedHydrated(d: Document, e: Document, f: Document, el: NodeId, rest: seq<NodeId>, vs: seq<VNode>,
                        placed: seq<NodeId>, extra: seq<NodeId>, first: Stats, s: Stats, base: Document)
    requires WellFormed(d) && el in d.tree && el in d.data && d.tree[el].kids == rest && WellFormed(f)
    requires Hydrated(d, e, el, [], rest, vs, placed, extra, first, base)
             && Trimmed(d, f, el, rest, vs, placed, [], s, base)
    requires s == first.(removals := first.removals + |extra|)
    ensures ListHydrated(d, f, el, vs, s, base) && s.consumed == |vs|
  {
    hide WellFormed, Conforms, Spared, Counted, Quiet, Order, PlanEach;
    RunBasics(d, f, el, rest);
    WholeRunConfined(d, f, el);
    assert f.tree[el].kids == placed;
  }

  // --- The whole of a boundary ---

  lemma BoundaryCounts(d: Document, e: Document, n: NodeId, vs: seq<VNode>, s: Stats, base: Document)
    requires ListHydrated(d, e, n, vs, s, base)
    ensures Count(Since(d, e), base.next) == ByKind(s) && s.Repairs() == OnAdopted(Since(d, e), base.next)
    ensures s == PlanList(d, d.tree[n].kids, vs)
    ensures s.MismatchCount() == 0 ==> e.tree == d.tree
    ensures AllReady(d, d.tree[n].kids, vs) ==> s.MismatchCount() == 0
    ensures Shuffled(d, d.tree[n].kids, vs) ==>
              && multiset(e.tree[n].kids) == multiset(d.tree[n].kids) && AllReady(d, e.tree[n].kids, vs)
              && s.MismatchCount() == s.reorders
  {
    hide Ready, Quiet, Order, Left, Moves, Confined, Shuffled, AllConform, KeepsParents, Count, Since, PlanList;
    TallySum(Since(d, e), base.next);
    if AllReady(d, d.tree[n].kids, vs) {
      ReadyQuiet(d, d.tree[n].kids, vs);
      QuietPlanList(d, d.tree[n].kids, vs);
    }
    hide AllReady;
    if Shuffled(d, d.tree[n].kids, vs) {
      ShuffledQuiet(d, d.tree[n].kids, vs);
      QuietPlanList(d, d.tree[n].kids, vs);
    }
  }

  lemma WholeSetting(d: Document, el: NodeId)
    requires WellFormed(d) && IsElement(d, el) && el in d.tree
    ensures Setting(d, el, [], d.tree[el].kids, d)
  {
    assert [] + d.tree[el].kids == d.tree[el].kids;
    KeysAgree(d);
  }

  /**
   * Hydrates the content of `root` against `v`. The children conform afterwards, and those that were
   * not there before show their vnodes; on the others an attribute that the view never makes reactive
   * keeps its value; the counts are those planned from the starting tree; the repair
   * counts are exactly the mutations of the adopted tree, kind by kind; no mismatch means the tree
   * was adopted node for node; content that is ready gives no mismatch, and is ready again unless a marker is
   * itself a reactive attribute that takes another value; and reordered marked content is
   * repaired by moves only, with the same nodes.
   */
  method HydrateNode(rt: Runtime, root: NodeId, v: VNode) returns (stats: Stats)
    requires rt.Valid() && IsElement(rt.dom, root) && root in rt.dom.tree && Plain(v)
    modifies rt
    ensures rt.Valid() && Confined(old(rt.dom), rt.dom, root) && root in rt.dom.tree
            && KeepsParents(old(rt.dom), rt.dom)
    ensures root in rt.dom.data && rt.dom.data[root] == old(rt.dom.data[root])
    ensures AllConform(rt.dom, rt.dom.tree[root].kids, Flatten([v]), old(rt.dom))
            && stats.consumed == |Flatten([v])|
    ensures stats == PlanList(old(rt.dom), old(rt.dom.tree[root].kids), Flatten([v]))
    ensures Count(Since(old(rt.dom), rt.dom), old(rt.dom.next)) == ByKind(stats)
    ensures stats.Repairs() == OnAdopted(Since(old(rt.dom), rt.dom), old(rt.dom.next))
    ensures stats.MismatchCount() == 0 ==> rt.dom.tree == old(rt.dom.tree)
    ensures NamesLeft(old(rt.dom), rt.dom, root, Flatten([v]))
    ensures AllReady(old(rt.dom), old(rt.dom.tree[root].kids), Flatten([v])) ==>
              && stats.MismatchCount() == 0
              && (AllReady(rt.dom, rt.dom.tree[root].kids, Flatten([v])) <==>
                  AllMarkersStay(Flatten([v]), rt.dom.rules.attrOk))
    ensures Shuffled(old(rt.dom), old(rt.dom.tree[root].kids), Flatten([v])) ==>
              && multiset(rt.dom.tree[root].kids) == multiset(old(rt.dom.tree[root].kids))
              && AllReady(old(rt.dom), rt.dom.tree[root].kids, Flatten([v]))
              && stats.MismatchCount() == stats.reorders
  {
    hide WellFormed, EventsAgree, EffectsAgree, RegionsAgree, Issued, CellsExist, Numbered, Plain, Flatten, Conforms,
         Confined, Setting, AllReady, Shuffled, NamesLeft, AllMarkersStay;
    ghost var d := rt.dom;
    WholeSetting(d, root);
    assert PlainAll([v]);
    stats := HydrateChildren(rt, root, [v], rt.dom);
    BoundaryCounts(d, rt.dom, root, Flatten([v]), stats, d);
    ContentLeft(d, rt.dom, root, Flatten([v]));
    if AllReady(d, d.tree[root].kids, Flatten([v])) {
      AllReadyAgain(d, rt.dom, root, Flatten([v]));
    }
  }
}
