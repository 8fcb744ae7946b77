/** Building DOM from a vnode: the `create_*` functions of the reconciler. */
module Building {
  import opened Prelude
  import opened VirtualDom
  import opened Dom
  import opened Resources
  import opened Rendering
  import opened Attributes

  /** What happened between two moments. */
  ghost function Since(d: Document, e: Document): seq<Mutation> {
    if d.log <= e.log then e.log[|d.log|..] else []
  }

  /** The node a mutation moves, removes or writes. */
  function Subject(m: Mutation): NodeId {
    if m.TextSet? then m.target else m.node
  }

  ghost predicate FreshMutation(m: Mutation, bound: NodeId) {
    m.target >= bound && Subject(m) >= bound
  }

  /** `e` adds nodes to `d`; every node of `d`, except perhaps `n`, is as it was. */
  ghost predicate ExtendsBut(d: Document, e: Document, n: NodeId) {
    && e.rules == d.rules && d.next <= e.next
    && (forall x :: x in d.tree ==> x in e.tree && (x != n ==> e.tree[x] == d.tree[x]))
    && (forall x :: x in d.data ==>
          x in e.data && (if x == n then e.data[x].regionId == d.data[x].regionId else e.data[x] == d.data[x]))
    && (forall x :: x in e.tree && x !in d.tree ==> x >= d.next)
    && (forall x :: x in e.data && x !in d.data ==> e.data[x].regionId == None)
  }

  ghost predicate OnlyFreshMutations(d: Document, e: Document, bound: NodeId) {
    d.log <= e.log && forall m :: m in Since(d, e) ==> FreshMutation(m, bound)
  }

  lemma ExtendsTrans(d: Document, e: Document, f: Document, n: NodeId)
    requires ExtendsBut(d, e, n) && ExtendsBut(e, f, n)
    ensures ExtendsBut(d, f, n)
  {
  }

  lemma FreshTrans(d: Document, e: Document, f: Document, bound: NodeId)
    requires OnlyFreshMutations(d, e, bound) && OnlyFreshMutations(e, f, bound)
    ensures OnlyFreshMutations(d, f, bound)
  {
    assert Since(d, f) == Since(d, e) + Since(e, f);
  }

  /** `n` is the root of a new detached tree that shows `v`; nothing else changed. */
  ghost predicate Built(d: Document, e: Document, n: NodeId, v: VNode) {
    && ExtendsBut(d, e, n) && n !in d.tree
    && n in e.tree && n in e.data && e.tree[n].parent == None && n >= d.next
    && OnlyFreshMutations(d, e, d.next)
    && (v.Fragment? <==> e.data[n].kind.FragmentNode?)
    && (v.Fragment? ==> AllShow(e, e.tree[n].kids, Flatten(v.nodes)))
    && (!v.Fragment? ==> Shows(e, n, v))
  }

  lemma {:induction false} WeightMember(vs: seq<VNode>, i: nat)
    requires i < |vs|
    ensures Weight(vs[i]) <= WeightAll(vs)
  {
    if i > 0 {
      WeightMember(vs[1..], i - 1);
    }
  }

  // --- Keeping the registries in agreement ---

  lemma CreatedKeepsValid(rt: Runtime, kind: Kind, text: string)
    requires rt.Valid()
    ensures var e := CreateNode(rt.dom, kind, text);
            && EventsAgree(e.data, rt.eventClosures, rt.eventOwner)
            && EffectsAgree(e.data, rt.attributeEffects, rt.attrOwner, rt.liveEffects, rt.home)
            && RegionsAgree(e.data, rt.dynamicRegions, rt.regionOwner)
  {
    hide EventsAgree, EffectsAgree, RegionsAgree;
    var e := CreateNode(rt.dom, kind, text);
    EventsKept(rt.dom.data, e.data, rt.eventClosures, rt.eventOwner);
    EffectsKept(rt.dom.data, e.data, rt.attributeEffects, rt.attrOwner, rt.liveEffects, rt.home);
    RegionsKept(rt.dom.data, e.data, rt.dynamicRegions, rt.regionOwner);
  }

  method NewNode(rt: Runtime, kind: Kind, text: string) returns (n: NodeId)
    requires rt.Valid()
    modifies rt`dom
    ensures rt.Valid() && n == old(rt.dom).next && rt.dom == CreateNode(old(rt.dom), kind, text)
  {
    hide EventsAgree, EffectsAgree, RegionsAgree, WellFormed, Issued, CellsExist, Numbered;
    CreatedKeepsValid(rt, kind, text);
    n := rt.dom.next;
    rt.dom := CreateNode(rt.dom, kind, text);
  }

  // --- Appending ---

  lemma ExtendsShows(d: Document, e: Document, n: NodeId, ns: seq<NodeId>, vs: seq<VNode>)
    requires WellFormed(d) && ExtendsBut(d, e, n) && AllShow(d, ns, vs)
    requires forall k :: k in ns ==> !Under(d.tree, k, n)
    ensures AllShow(e, ns, vs)
  {
    forall i | 0 <= i < |vs| ensures Matches(e, ns[i], vs[i], false) {
      assert Matches(d, ns[i], vs[i], false) && ns[i] in ns;
      assert SameBelow(d, e, ns[i]);
      MatchesFrame(d, e, ns[i], vs[i], false);
    }
  }

  /** The nodes that come to stand in the parent when `c` is appended. */
  ghost function Contribution(d: Document, c: NodeId): seq<NodeId>
    requires c in d.tree && c in d.data
  {
    if d.data[c].kind.FragmentNode? then d.tree[c].kids else [c]
  }

  lemma Appended(d: Document, n: NodeId, c: NodeId)
    requires WellFormed(d) && n in d.tree && c in d.tree && n < c && MayHaveKids(d, n) && d.tree[c].parent == None
    ensures var r := AppendChild(d, n, c);
            && r.1 && r.0.data == d.data && r.0.rules == d.rules && r.0.next == d.next
            && r.0.log == d.log + [Inserted(n, c)]
            && r.0.tree.Keys == d.tree.Keys
            && r.0.tree[n] == Link(d.tree[n].parent, d.tree[n].kids + Contribution(d, c))
            && (forall x :: x in d.tree && x < c && x != n ==> r.0.tree[x] == d.tree[x])
            && (forall x :: x in d.tree && x != n && x != c ==> r.0.tree[x].kids == d.tree[x].kids)
  {
    hide AppendChild, Moved, MoveKids, TreeOk, LinksOk;
    AppendGoes(d, n, c);
    if d.data[c].kind.FragmentNode? {
      KidsAppended(d.tree, n, c);
    } else {
      NodeAppended(d.tree, n, c);
    }
  }

  lemma KidsAppended(t: Tree, n: NodeId, c: NodeId)
    requires TreeOk(t) && n in t && c in t && n < c && t[c].parent == None
    ensures var r := MoveKids(t, c, n, None);
            && r.Keys == t.Keys && r[n] == Link(t[n].parent, t[n].kids + t[c].kids)
            && (forall x :: x in t && x < c && x != n ==> r[x] == t[x])
            && (forall x :: x in t && x != n && x != c ==> r[x].kids == t[x].kids)
  {
    assert LinksOk(t, n) && LinksOk(t, c);
    hide MoveKids, TreeOk;
    AtTheEnd(t[n].kids, t[c].kids);
  }

  lemma NodeAppended(t: Tree, n: NodeId, c: NodeId)
    requires TreeOk(t) && n in t && c in t && n < c && t[c].parent == None
    ensures var r := Moved(t, n, c, None);
            && r.Keys == t.Keys && r[n] == Link(t[n].parent, t[n].kids + [c])
            && (forall x :: x in t && x < c && x != n ==> r[x] == t[x])
            && (forall x :: x in t && x != n && x != c ==> r[x].kids == t[x].kids)
  {
    hide TreeOk, Attach;
    AtTheEnd(t[n].kids, [c]);
  }

  lemma AtTheEnd(s: seq<NodeId>, xs: seq<NodeId>)
    ensures Spliced(s, xs, None) == s + xs
  {
  }

  lemma AppendGoes(d: Document, n: NodeId, c: NodeId)
    requires WellFormed(d) && n in d.tree && c in d.tree && n < c && MayHaveKids(d, n) && d.tree[c].parent == None
    ensures var tree := if d.data[c].kind.FragmentNode? then MoveKids(d.tree, c, n, None)
                        else Moved(d.tree, n, c, None);
            AppendChild(d, n, c) == (d.(tree := tree, log := d.log + [Inserted(n, c)]), true)
  {
    hide WellFormed, Moved, MoveKids, LinksOk;
    NotAbove(d, n, c);
  }

  lemma NotAbove(d: Document, n: NodeId, c: NodeId)
    requires WellFormed(d) && n in d.tree && c in d.tree && n < c
    ensures !Under(d.tree, c, n)
  {
  }

  /** Appending a built child completes one more vnode of the parent's list. */
  lemma AppendShows(d: Document, n: NodeId, c: NodeId, done: seq<VNode>, v: VNode)
    requires WellFormed(d) && n in d.tree && c in d.tree && n < c && MayHaveKids(d, n) && d.tree[c].parent == None
    requires AllShow(d, d.tree[n].kids, done)
    requires v.Fragment? <==> d.data[c].kind.FragmentNode?
    requires if v.Fragment? then AllShow(d, d.tree[c].kids, Flatten(v.nodes)) else Shows(d, c, v)
    ensures var e := AppendChild(d, n, c).0; AllShow(e, e.tree[n].kids, done + Flatten([v]))
  {
    hide TreeOk, AppendChild, Contribution, Matches, Flatten, SameBelow;
    Appended(d, n, c);
    ContributionShows(d, n, c, done, v);
    var e := AppendChild(d, n, c).0;
    var ns, vs := d.tree[n].kids + Contribution(d, c), done + Flatten([v]);
    forall i | 0 <= i < |vs| ensures Matches(e, ns[i], vs[i], false) {
      ContributionBelow(d, n, c, ns[i]);
      StrictlyBelow(d, e, n, c, ns[i]);
      MatchesFrame(d, e, ns[i], vs[i], false);
    }
  }

  lemma ContributionShows(d: Document, n: NodeId, c: NodeId, done: seq<VNode>, v: VNode)
    requires n in d.tree && c in d.tree && c in d.data && AllShow(d, d.tree[n].kids, done)
    requires v.Fragment? <==> d.data[c].kind.FragmentNode?
    requires if v.Fragment? then AllShow(d, d.tree[c].kids, Flatten(v.nodes)) else Shows(d, c, v)
    ensures AllShow(d, d.tree[n].kids + Contribution(d, c), done + Flatten([v]))
  {
    hide Matches, Flatten;
    FlattenOne(v);
  }

  lemma ContributionBelow(d: Document, n: NodeId, c: NodeId, k: NodeId)
    requires WellFormed(d) && n in d.tree && c in d.tree && n < c && k in d.tree[n].kids + Contribution(d, c)
    requires d.tree[c].parent == None
    ensures k in d.tree && n < k && (d.data[c].kind.FragmentNode? ==> !Under(d.tree, k, c))
  {
    assert LinksOk(d.tree, n) && LinksOk(d.tree, c);
  }

  lemma StrictlyBelow(d: Document, e: Document, n: NodeId, c: NodeId, k: NodeId)
    requires WellFormed(d) && n in d.tree && c in d.tree && n < c && MayHaveKids(d, n) && d.tree[c].parent == None
    requires e == AppendChild(d, n, c).0
    requires n < k && (d.data[c].kind.FragmentNode? ==> d.tree[c].parent == None && !Under(d.tree, k, c))
    ensures SameBelow(d, e, k)
  {
    Appended(d, n, c);
    forall x | Under(d.tree, k, x) && x in d.tree
      ensures x in e.tree && x in e.data && x in d.data && e.tree[x].kids == d.tree[x].kids && e.data[x] == d.data[x]
    {
    }
  }

  /** `n` is a detached parent whose children show `done`; everything else of `d` is untouched. */
  ghost predicate Filling(d: Document, e: Document, n: NodeId, done: seq<VNode>) {
    && ExtendsBut(d, e, n) && OnlyFreshMutations(d, e, n)
    && n in d.data && n in e.tree && n in e.data && e.data[n] == d.data[n] && e.tree[n].parent == None
    && MayHaveKids(e, n)
    && AllShow(e, e.tree[n].kids, done)
  }

  lemma BuiltExtends(d: Document, e: Document, f: Document, n: NodeId, c: NodeId, v: VNode)
    requires WellFormed(d) && WellFormed(e) && ExtendsBut(d, e, n) && Built(e, f, c, v) && n in d.data && n in e.tree
    ensures ExtendsBut(d, f, n) && f.data[n] == e.data[n] && f.tree[n] == e.tree[n] && n < c
  {
    assert forall x :: x in e.data ==> x < c && f.data[x] == e.data[x];
    assert forall x :: x in e.tree ==> f.tree[x] == e.tree[x];
  }

  lemma FillStep(d: Document, e: Document, f: Document, n: NodeId, done: seq<VNode>, c: NodeId, v: VNode)
    requires WellFormed(d) && WellFormed(e) && WellFormed(f) && n in d.tree
    requires Filling(d, e, n, done) && Built(e, f, c, v)
    ensures n in f.tree && c in f.tree && n < c && Filling(d, AppendChild(f, n, c).0, n, done + Flatten([v]))
  {
    hide Matches, WellFormed, ExtendsBut, OnlyFreshMutations, AppendChild;
    NewRoot(d, e, f, n, done, c, v);
    BuiltExtends(d, e, f, n, c, v);
    KidsBelow(e, n);
    OutsideKids(e, n, c);
    ExtendsShows(e, f, c, e.tree[n].kids, done);
    FlattenOne(v);
    AppendShows(f, n, c, done, v);
    Appended(f, n, c);
    FreshWeaken(e, f, n);
    FreshTrans(d, e, f, n);
    AppendedExtends(d, f, n, c);
    AppendedFresh(d, f, n, c);
  }

  lemma NewRoot(d: Document, e: Document, f: Document, n: NodeId, done: seq<VNode>, c: NodeId, v: VNode)
    requires WellFormed(e) && Filling(d, e, n, done) && Built(e, f, c, v)
    ensures c !in e.tree && n < e.next && d.next <= e.next <= c
  {
  }

  lemma OutsideKids(e: Document, n: NodeId, c: NodeId)
    requires WellFormed(e) && n in e.tree && c !in e.tree
    ensures forall k :: k in e.tree[n].kids ==> !Under(e.tree, k, c)
  {
    assert LinksOk(e.tree, n);
  }

  lemma FreshWeaken(e: Document, f: Document, n: NodeId)
    requires OnlyFreshMutations(e, f, e.next) && n < e.next
    ensures OnlyFreshMutations(e, f, n)
  {
  }

  lemma AppendedExtends(d: Document, f: Document, n: NodeId, c: NodeId)
    requires WellFormed(d) && WellFormed(f) && n in d.tree && n in f.tree && n < c && ExtendsBut(d, f, n)
    requires c in f.tree && c >= d.next && MayHaveKids(f, n) && f.tree[c].parent == None
    ensures ExtendsBut(d, AppendChild(f, n, c).0, n)
  {
    hide AppendChild, MayHaveKids, WellFormed;
    Appended(f, n, c);
    AllBelow(d);
  }

  lemma AllBelow(d: Document)
    requires WellFormed(d)
    ensures forall x :: x in d.tree ==> x < d.next
  {
  }

  lemma AppendedFresh(d: Document, f: Document, n: NodeId, c: NodeId)
    requires WellFormed(f) && n in f.tree && n < c && OnlyFreshMutations(d, f, n)
    requires c in f.tree && MayHaveKids(f, n) && f.tree[c].parent == None
    ensures OnlyFreshMutations(d, AppendChild(f, n, c).0, n)
  {
    hide WellFormed, MayHaveKids, AppendChild;
    Appended(f, n, c);
    assert Since(d, AppendChild(f, n, c).0) == Since(d, f) + [Inserted(n, c)];
  }

  /** Builds `children` and appends them to the detached node `n`. */
  method BuildChildren(rt: Runtime, n: NodeId, children: seq<VNode>)
    requires rt.Valid() && n in rt.dom.tree && rt.dom.tree[n] == Link(None, []) && MayHaveKids(rt.dom, n)
    requires PlainAll(children)
    modifies rt`dom, rt`eventClosures, rt`attributeEffects, rt`liveEffects, rt`nextDomId, rt`nextSerial, rt`eventOwner,
             rt`attrOwner, rt`home
    ensures rt.Valid() && Filling(old(rt.dom), rt.dom, n, Flatten(children))
    decreases WeightAll(children), 1
  {
    hide WellFormed, EventsAgree, EffectsAgree, RegionsAgree, Issued, CellsExist, Numbered, Filling, Built, Flatten,
         WeightAll, Plain, Weight;
    ghost var before := rt.dom;
    FillingStart(before, n);
    for i := 0 to |children|
      invariant rt.Valid() && Filling(before, rt.dom, n, Flatten(children[..i]))
    {
      ghost var middle := rt.dom;
      WeightMember(children, i);
      assert children[i] in children;
      var c := CreateDomNode(rt, children[i]);
      FlattenSnoc(children, i);
      FillStep(before, middle, rt.dom, n, Flatten(children[..i]), c, children[i]);
      rt.dom := AppendChild(rt.dom, n, c).0;
    }
    assert children[..|children|] == children;
  }

  lemma FillingStart(d: Document, n: NodeId)
    requires WellFormed(d) && n in d.tree && d.tree[n] == Link(None, []) && MayHaveKids(d, n)
    ensures Filling(d, d, n, Flatten([]))
  {
  }

  method CreateDomNode(rt: Runtime, v: VNode) returns (n: NodeId)
    requires rt.Valid() && Plain(v)
    modifies rt`dom, rt`eventClosures, rt`attributeEffects, rt`liveEffects, rt`nextDomId, rt`nextSerial, rt`eventOwner,
             rt`attrOwner, rt`home
    ensures rt.Valid() && Built(old(rt.dom), rt.dom, n, v)
    decreases Weight(v), 0
  {
    hide WellFormed, EventsAgree, EffectsAgree, RegionsAgree, Issued, CellsExist, Numbered, Filling, Built, CreateNode;
    match v
    case Element(_, _, _, _) =>
      n := CreateElementNode(rt, v);
    case Text(text) =>
      LeafBuilt(rt.dom, TextNode, text, v);
      n := NewNode(rt, TextNode, text);
    case Comment(text) =>
      LeafBuilt(rt.dom, CommentNode, text, v);
      n := NewNode(rt, CommentNode, text);
    case Fragment(nodes) =>
      ghost var before := rt.dom;
      n := NewNode(rt, FragmentNode, "");
      ghost var made := rt.dom;
      BuildChildren(rt, n, nodes);
      FragmentBuilt(before, made, rt.dom, v);
  }

  lemma FragmentBuilt(d: Document, made: Document, e: Document, v: VNode)
    requires WellFormed(d) && v.Fragment? && made == CreateNode(d, FragmentNode, "")
    requires Filling(made, e, d.next, Flatten(v.nodes))
    ensures Built(d, e, d.next, v)
  {
    hide WellFormed, CreateNode, AllMatch, Flatten;
    MadeApart(d, made);
    MadeThenFilled(d, made, e);
  }

  lemma MadeApart(d: Document, made: Document)
    requires WellFormed(d) && made == CreateNode(d, FragmentNode, "")
    ensures made.rules == d.rules && made.next == d.next + 1 && made.log == d.log
    ensures d.next !in d.tree && made.tree == d.tree[d.next := Link(None, [])]
    ensures d.next !in d.data && d.next in made.data && made.data[d.next].regionId == None
    ensures made.data == d.data[d.next := made.data[d.next]]
  {
    hide TreeOk, CreateNode;
  }

  lemma MadeThenFilled(d: Document, made: Document, e: Document)
    requires made.rules == d.rules && made.next == d.next + 1 && made.log == d.log
    requires d.next !in d.tree && made.tree == d.tree[d.next := Link(None, [])]
    requires d.next !in d.data && d.next in made.data && made.data[d.next].regionId == None
    requires made.data == d.data[d.next := made.data[d.next]]
    requires ExtendsBut(made, e, d.next) && OnlyFreshMutations(made, e, d.next)
    ensures ExtendsBut(d, e, d.next) && OnlyFreshMutations(d, e, d.next)
  {
    assert Since(d, e) == Since(made, e);
  }

  method CreateElementNode(rt: Runtime, v: VNode) returns (n: NodeId)
    requires rt.Valid() && Plain(v) && v.Element?
    modifies rt`dom, rt`eventClosures, rt`attributeEffects, rt`liveEffects, rt`nextDomId, rt`nextSerial, rt`eventOwner,
             rt`attrOwner, rt`home
    ensures rt.Valid() && Built(old(rt.dom), rt.dom, n, v)
    decreases WeightAll(v.children), 2
  {
    hide WellFormed, EventsAgree, EffectsAgree, RegionsAgree, Issued, CellsExist, Numbered, Filling, Built, SetData,
         Written, StaticsSet, Plain, DistinctNames, CreateNode;
    ghost var before := rt.dom;
    if !rt.dom.rules.tagOk(v.tag) {
      n := NewNode(rt, CommentNode, ELEMENT_ERROR);
      LeafBuilt(before, CommentNode, ELEMENT_ERROR, v);
      return;
    }
    n := NewNode(rt, ElementNode(Lower(v.tag)), "");
    ghost var made := rt.dom;
    PlainElement(v);
    SetStatics(rt, n, [], v.attributes);
    ghost var first := rt.dom.data[n];
    AttachElementEvents(rt, n, v.events);
    ghost var second := rt.dom.data[n];
    SetDataTwice(made, n, first, second);
    BindDynamicAttributes(rt, n, v.attributes);
    SetDataTwice(made, n, second, rt.dom.data[n]);
    CreatedAttrs(v.attributes, made.rules.attrOk);
    ghost var ready := rt.dom;
    BuildChildren(rt, n, v.children);
    ElementBuilt(before, made, ready, rt.dom, v);
  }

  lemma CreatedAttrs(attributes: seq<Attribute>, ok: string -> bool)
    requires DistinctNames(attributes)
    ensures AttrsShown(Written(StaticsSet(map[], [], attributes, ok), attributes, ok), attributes, ok)
  {
    PatchedShows(map[], [], attributes, ok);
  }

  lemma PlainElement(v: VNode)
    requires Plain(v) && v.Element?
    ensures PlainAll(v.children) && DistinctNames(v.attributes)
  {
  }

  lemma LeafBuilt(d: Document, kind: Kind, text: string, v: VNode)
    requires WellFormed(d)
    requires match v
             case Text(t) => kind == TextNode && text == t
             case Comment(t) => kind == CommentNode && text == t
             case Element(tag, _, _, _) => !d.rules.tagOk(tag) && kind == CommentNode && text == ELEMENT_ERROR
             case Fragment(_) => false
    ensures Built(d, CreateNode(d, kind, text), d.next, v)
  {
    hide TreeOk, ExtendsBut;
    MadeExtends(d, kind, text);
    assert Since(d, CreateNode(d, kind, text)) == [];
  }

  /** An element node with its record complete, filled with its children, is built. */
  lemma ElementBuilt(d: Document, made: Document, ready: Document, e: Document, v: VNode)
    requires WellFormed(d) && v.Element? && d.rules.tagOk(v.tag)
    requires made == CreateNode(d, ElementNode(Lower(v.tag)), "")
    requires WellFormed(made) && d.next in ready.data && ready.data[d.next].kind == ElementNode(Lower(v.tag))
    requires ready == SetData(made, d.next, ready.data[d.next])
    requires AttrsShown(ready.data[d.next].attrs, v.attributes, d.rules.attrOk)
    requires HandlersOf(ready.data[d.next].listeners) == v.events && ready.data[d.next].regionId == None
    requires Filling(ready, e, d.next, Flatten(v.children))
    ensures Built(d, e, d.next, v)
  {
    hide WellFormed, Matches, SetData, CreateNode, AttrsShown, ExtendsBut, AllShow;
    MadeExtends(d, ElementNode(Lower(v.tag)), "");
    RecordExtends(made, d.next, ready.data[d.next]);
    ExtendsTrans(d, made, ready, d.next);
    FilledRecord(ready, e, d.next, Flatten(v.children));
    ExtendsTrans(d, ready, e, d.next);
    ElementShows(e, d.next, v);
  }

  lemma FilledRecord(d: Document, e: Document, n: NodeId, done: seq<VNode>)
    requires Filling(d, e, n, done)
    ensures ExtendsBut(d, e, n) && e.rules == d.rules
  {
  }

  lemma MadeExtends(d: Document, kind: Kind, text: string)
    requires WellFormed(d)
    ensures ExtendsBut(d, CreateNode(d, kind, text), d.next) && d.next !in d.tree
  {
    hide TreeOk;
  }

  lemma RecordExtends(d: Document, n: NodeId, data: NodeData)
    requires WellFormed(d) && n in d.data && data.kind == d.data[n].kind && data.regionId == d.data[n].regionId
    ensures ExtendsBut(d, SetData(d, n, data), n)
  {
    hide TreeOk;
  }

  lemma ElementShows(e: Document, n: NodeId, v: VNode)
    requires v.Element? && e.rules.tagOk(v.tag) && n in e.tree && n in e.data
    requires e.data[n].kind == ElementNode(Lower(v.tag)) && AttrsShown(e.data[n].attrs, v.attributes, e.rules.attrOk)
    requires HandlersOf(e.data[n].listeners) == v.events && AllShow(e, e.tree[n].kids, Flatten(v.children))
    ensures Shows(e, n, v)
  {
    hide AttrsShown;
  }
}
