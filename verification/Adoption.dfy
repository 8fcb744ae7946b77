/** What hydration makes of an adopted child list: conformance, exact repair counts, and order. */
module Adoption {
  import opened Prelude
  import opened VirtualDom
  import opened Dom
  import opened Resources
  import opened Rendering
  import opened Building
  import opened Confinement

  // --- Repair counts ---

  datatype Stats = Stats(
    consumed: nat,
    replacements: nat,
    appends: nat,
    removals: nat,
    reorders: nat,
    textPatches: nat,
    markerMismatches: nat)
  {
    function Merge(s: Stats): Stats {
      Stats(consumed + s.consumed, replacements + s.replacements, appends + s.appends, removals + s.removals,
            reorders + s.reorders, textPatches + s.textPatches, markerMismatches + s.markerMismatches)
    }

    function Repairs(): nat {
      replacements + appends + removals + reorders + textPatches
    }

    function MismatchCount(): nat {
      Repairs() + markerMismatches
    }
  }

  const NO_STATS := Stats(0, 0, 0, 0, 0, 0, 0)

  /** Mutations by kind. */
  datatype Tally = Tally(appended: nat, moved: nat, removed: nat, replaced: nat, texts: nat) {
    function Plus(t: Tally): Tally {
      Tally(appended + t.appended, moved + t.moved, removed + t.removed, replaced + t.replaced, texts + t.texts)
    }
  }

  const NO_TALLY := Tally(0, 0, 0, 0, 0)

  /** The mutations that the repair counts stand for. */
  function ByKind(s: Stats): Tally {
    Tally(s.appends, s.reorders, s.removals, s.replacements, s.textPatches)
  }

  /** A mutation of a node numbered below `bound`; what is inserted is new, or was there and moves. */
  ghost function One(m: Mutation, bound: NodeId): Tally {
    if m.target >= bound then NO_TALLY
    else
      match m
      case Inserted(_, n) => if n < bound then Tally(0, 1, 0, 0, 0) else Tally(1, 0, 0, 0, 0)
      case Removed(_, _) => Tally(0, 0, 1, 0, 0)
      case Replaced(_, _, _) => Tally(0, 0, 0, 1, 0)
      case TextSet(_) => Tally(0, 0, 0, 0, 1)
  }

  /** The mutations in `log` of nodes numbered below `bound`. */
  ghost function Count(log: seq<Mutation>, bound: NodeId): Tally {
    if log == [] then NO_TALLY else One(log[0], bound).Plus(Count(log[1..], bound))
  }

  lemma CountHead(m: Mutation, log: seq<Mutation>, bound: NodeId)
    ensures Count([], bound) == NO_TALLY
    ensures Count([m] + log, bound) == One(m, bound).Plus(Count(log, bound))
  {
    hide One;
    assert ([m] + log)[1..] == log;
  }

  lemma PlusLaws(s: Tally, t: Tally, u: Tally)
    ensures s.Plus(t).Plus(u) == s.Plus(t.Plus(u)) && NO_TALLY.Plus(s) == s
  {
  }

  lemma {:induction false} CountConcat(a: seq<Mutation>, b: seq<Mutation>, bound: NodeId)
    ensures Count(a + b, bound) == Count(a, bound).Plus(Count(b, bound))
  {
    hide One, Count, Tally.Plus;
    if a == [] {
      assert a + b == b;
      CountHead(TextSet(0), [], bound);
      PlusLaws(Count(b, bound), NO_TALLY, NO_TALLY);
    } else {
      var m, rest := a[0], a[1..];
      assert a == [m] + rest && a + b == [m] + (rest + b);
      CountHead(m, rest, bound);
      CountHead(m, rest + b, bound);
      CountConcat(rest, b, bound);
      PlusLaws(One(m, bound), Count(rest, bound), Count(b, bound));
    }
  }

  lemma {:induction false} CountFresh(log: seq<Mutation>, bound: NodeId)
    requires forall m :: m in log ==> m.target >= bound
    ensures Count(log, bound) == NO_TALLY
  {
    hide Count, Tally.Plus;
    if log == [] {
      CountHead(TextSet(0), [], bound);
    } else {
      var m, rest := log[0], log[1..];
      assert log == [m] + rest && m in log;
      CountHead(m, rest, bound);
      CountFresh(rest, bound);
      PlusLaws(NO_TALLY, NO_TALLY, NO_TALLY);
    }
  }

  /** No node was given another parent; some may have lost theirs. */
  ghost predicate KeepsParents(d: Document, e: Document) {
    forall x :: x in d.tree ==> x in e.tree && e.tree[x].parent in {d.tree[x].parent, None}
  }

  /**
   * The counts are those of the mutations of the nodes that were there before, kind by kind, and
   * none of those nodes was moved to another parent.
   */
  ghost predicate Counted(d: Document, e: Document, s: Stats, bound: NodeId) {
    && d.log <= e.log && KeepsParents(d, e)
    && Count(Since(d, e), bound) == ByKind(s)
  }

  lemma CountedTrans(d: Document, e: Document, f: Document, s: Stats, t: Stats, bound: NodeId)
    requires Counted(d, e, s, bound) && Counted(e, f, t, bound)
    ensures Counted(d, f, s.Merge(t), bound)
  {
    hide Since, Count, KeepsParents;
    LogsConcat(d, e, f, s, t, bound);
    CountsAdd(d, e, f, s, t, bound);
    KeepsTrans(d, e, f);
  }

  lemma CountsAdd(d: Document, e: Document, f: Document, s: Stats, t: Stats, bound: NodeId)
    requires Count(Since(d, e), bound) == ByKind(s)
    requires Count(Since(e, f), bound) == ByKind(t)
    requires Since(d, f) == Since(d, e) + Since(e, f)
    ensures var u := s.Merge(t);
            Count(Since(d, f), bound) == ByKind(u)
  {
    hide Since, Count;
    CountConcat(Since(d, e), Since(e, f), bound);
  }

  lemma LogsConcat(d: Document, e: Document, f: Document, s: Stats, t: Stats, bound: NodeId)
    requires Counted(d, e, s, bound) && Counted(e, f, t, bound)
    ensures d.log <= f.log && Since(d, f) == Since(d, e) + Since(e, f)
  {
    hide Count, KeepsParents;
  }

  lemma KeepsTrans(d: Document, e: Document, f: Document)
    requires KeepsParents(d, e) && KeepsParents(e, f)
    ensures KeepsParents(d, f)
  {
  }

  /** How many entries of `log` are mutations of nodes numbered below `bound`. */
  ghost function OnAdopted(log: seq<Mutation>, bound: NodeId): nat {
    if log == [] then 0 else (if log[0].target < bound then 1 else 0) + OnAdopted(log[1..], bound)
  }

  lemma {:induction false} TallySum(log: seq<Mutation>, bound: NodeId)
    ensures var t := Count(log, bound); OnAdopted(log, bound) == t.appended + t.moved + t.removed + t.replaced + t.texts
  {
    if log != [] {
      TallySum(log[1..], bound);
    }
  }

  // --- Conformance ---

  /** `<script>` and `<style>` are adopted with whatever text they hold. */
  predicate RawTag(tag: string) {
    Lower(tag) == "script" || Lower(tag) == "style"
  }

  ghost predicate DynamicsShown(attrs: map<string, string>, attributes: seq<Attribute>, ok: string -> bool) {
    forall name ::
      var a := Find(attributes, name);
      a.Some? && a.value.IsDynamic() && (ok(name) || a.value.CurrentValue().None?) ==>
        Lookup(attrs, name) == a.value.CurrentValue()
  }

  /** The first run of the vnode's reactive attributes leaves a value, or an absence, under `name`. */
  predicate Rewritten(attributes: seq<Attribute>, name: string, ok: string -> bool) {
    var a := Find(attributes, name);
    a.Some? && a.value.IsDynamic() && (ok(name) || a.value.CurrentValue().None?)
  }

  /** Every other attribute has the value it had. */
  ghost predicate OthersKept(was: map<string, string>, attrs: map<string, string>, attributes: seq<Attribute>,
                             ok: string -> bool) {
    forall name :: !Rewritten(attributes, name, ok) ==> Lookup(attrs, name) == Lookup(was, name)
  }

  /** What adopting a node for `v` may do to its record. */
  ghost predicate RecordKept(was: NodeData, data: NodeData, v: VNode, ok: string -> bool) {
    match v
    case Text(text) => data == was.(text := text)
    case Comment(_) => data == was
    case Element(_, attributes, _, _) =>
      && was.kind.ElementNode?
      && data == was.(attrs := data.attrs, listeners := data.listeners, eventId := data.eventId, attrId := data.attrId)
      && OthersKept(was.attrs, data.attrs, attributes, ok)
    case Fragment(_) => false
  }

  /** Node `y` has the record and the children it had in `base`. */
  ghost predicate AsBefore(base: Document, d: Document, y: NodeId) {
    && y in base.tree && y in base.data && y in d.tree && y in d.data
    && d.tree[y].kids == base.tree[y].kids && d.data[y] == base.data[y]
  }

  /** Everything properly below `n` is as it was. */
  ghost predicate ContentKept(base: Document, d: Document, n: NodeId) {
    && n in d.tree && n in base.tree && d.tree[n].kids == base.tree[n].kids
    && forall y :: y in d.tree && y != n && Under(d.tree, n, y) ==> AsBefore(base, d, y)
  }

  /** The node of `base` was adopted for `v`; what a text, a `<script>` or a `<style>` holds was left alone. */
  ghost predicate Adopted(base: Document, d: Document, n: NodeId, v: VNode) {
    && n in base.data && n in d.data && RecordKept(base.data[n], d.data[n], v, d.rules.attrOk)
    && ((v.Element? && !RawTag(v.tag)) || ContentKept(base, d, n))
  }

  /**
   * Node `n` conforms to `v` after hydration: in kind, tag, text and order, recursively, with
   * its listeners and reactive attributes. A node that was there before, in `base`, was adopted:
   * its other attributes, and comment texts, are not compared but left as they were. A node that
   * was not was built and shows `v`.
   */
  ghost predicate Conforms(d: Document, n: NodeId, v: VNode, base: Document)
    decreases Weight(v)
  {
    n in d.tree && n in d.data && (if n < base.next then Adopted(base, d, n, v) else Shows(d, n, v)) &&
    match v
    case Text(text) => d.data[n].kind.TextNode? && d.data[n].text == text
    case Comment(_) => d.data[n].kind.CommentNode?
    case Fragment(_) => false
    case Element(tag, attributes, children, events) =>
      if d.data[n].kind.CommentNode? then !d.rules.tagOk(tag) && d.data[n].text == ELEMENT_ERROR
      else
        && d.data[n].kind.ElementNode? && Lower(d.data[n].kind.tag) == Lower(tag)
        && HandlersOf(d.data[n].listeners) == events
        && DynamicsShown(d.data[n].attrs, attributes, d.rules.attrOk)
        && (RawTag(tag) ||
              var flat, kids := Flatten(children), d.tree[n].kids;
              && |kids| == |flat|
              && forall i :: 0 <= i < |flat| ==> flat[i] in flat && Conforms(d, kids[i], flat[i], base))
  }

  ghost predicate AllConform(d: Document, ns: seq<NodeId>, vs: seq<VNode>, base: Document) {
    |ns| == |vs| && forall i :: 0 <= i < |vs| ==> Conforms(d, ns[i], vs[i], base)
  }

  /** A built node conforms. */
  lemma {:induction false} ShowsConforms(d: Document, n: NodeId, v: VNode, base: Document)
    requires WellFormed(d) && Shows(d, n, v) && n >= base.next
    ensures Conforms(d, n, v, base)
    decreases Weight(v)
  {
    if v.Element? && d.rules.tagOk(v.tag) {
      LowerTwice(v.tag);
      forall name ensures Lookup(d.data[n].attrs, name) == Wanted(v.attributes, name, d.rules.attrOk) {
      }
      var flat, kids := Flatten(v.children), d.tree[n].kids;
      assert LinksOk(d.tree, n);
      forall i | 0 <= i < |flat| ensures Conforms(d, kids[i], flat[i], base) {
        assert flat[i] in flat && kids[i] in kids;
        ShowsConforms(d, kids[i], flat[i], base);
      }
    }
  }

  lemma ContentFrame(base: Document, d: Document, e: Document, n: NodeId)
    requires WellFormed(d) && WellFormed(e) && SameBelow(d, e, n) && n in d.tree && ContentKept(base, d, n)
    ensures ContentKept(base, e, n)
  {
    assert Under(d.tree, n, n);
    forall y | y in e.tree && y != n && Under(e.tree, n, y) ensures AsBefore(base, e, y) {
      SameSubtree(d, e, n, y);
      StaysIn(d, n, y);
      assert AsBefore(base, d, y);
    }
  }

  lemma StaysIn(d: Document, n: NodeId, y: NodeId)
    requires n in d.tree && Under(d.tree, n, y)
    ensures y in d.tree
  {
  }

  lemma AdoptionFrame(base: Document, d: Document, e: Document, n: NodeId, v: VNode)
    requires WellFormed(d) && WellFormed(e) && SameBelow(d, e, n) && n in d.tree && Adopted(base, d, n, v)
    ensures Adopted(base, e, n, v)
  {
    hide WellFormed, RecordKept, ContentKept, RawTag;
    assert Under(d.tree, n, n);
    if ContentKept(base, d, n) {
      ContentFrame(base, d, e, n);
    }
  }

  lemma {:induction false} ConformsFrame(d: Document, e: Document, n: NodeId, v: VNode, base: Document)
    requires WellFormed(d) && WellFormed(e) && SameBelow(d, e, n) && Conforms(d, n, v, base)
    ensures Conforms(e, n, v, base)
    decreases Weight(v)
  {
    hide Adopted, WellFormed;
    assert Under(d.tree, n, n);
    if n < base.next {
      AdoptionFrame(base, d, e, n, v);
    } else {
      MatchesFrame(d, e, n, v, false);
    }
    if v.Element? && !d.data[n].kind.CommentNode? && !RawTag(v.tag) {
      var flat, kids := Flatten(v.children), d.tree[n].kids;
      forall i | 0 <= i < |flat| ensures Conforms(e, kids[i], flat[i], base) {
        assert flat[i] in flat && kids[i] in kids;
        SameBelowKid(d, e, n, kids[i]);
        ConformsFrame(d, e, kids[i], flat[i], base);
      }
    }
  }

  // --- A list that needs no repair beyond moves ---

  /** The hydration marker a DOM node carries. */
  function MarkerOf(d: Document, n: NodeId): Option<string> {
    if n in d.data && d.data[n].kind.ElementNode? then Lookup(d.data[n].attrs, HYDRATION_NODE_ID_ATTR) else None
  }

  /** Node `n` already conforms, and it and the elements below it carry the expected markers. */
  ghost predicate Ready(d: Document, n: NodeId, v: VNode)
    decreases Weight(v)
  {
    n in d.tree && n in d.data &&
    match v
    case Text(text) => d.data[n].kind.TextNode? && d.data[n].text == text
    case Comment(_) => d.data[n].kind.CommentNode?
    case Fragment(_) => false
    case Element(tag, attributes, children, events) =>
      && d.data[n].kind.ElementNode? && Lower(d.data[n].kind.tag) == Lower(tag)
      && (KeyOf(v).Some? ==> MarkerOf(d, n) == KeyOf(v))
      && (RawTag(tag) ||
            var flat, kids := Flatten(children), d.tree[n].kids;
            |kids| == |flat| && forall i :: 0 <= i < |flat| ==> flat[i] in flat && Ready(d, kids[i], flat[i]))
  }

  ghost predicate AllReady(d: Document, ns: seq<NodeId>, vs: seq<VNode>) {
    |ns| == |vs| && forall i :: 0 <= i < |vs| ==> Ready(d, ns[i], vs[i])
  }

  lemma {:induction false} ReadyFrame(d: Document, e: Document, n: NodeId, v: VNode)
    requires WellFormed(d) && SameBelow(d, e, n) && Ready(d, n, v)
    ensures Ready(e, n, v)
    decreases Weight(v)
  {
    assert Under(d.tree, n, n);
    if v.Element? && !RawTag(v.tag) {
      var flat, kids := Flatten(v.children), d.tree[n].kids;
      forall i | 0 <= i < |flat| ensures Ready(e, kids[i], flat[i]) {
        assert flat[i] in flat && kids[i] in kids;
        SameBelowKid(d, e, n, kids[i]);
        ReadyFrame(d, e, kids[i], flat[i]);
      }
    }
  }

  /** The first of `rest` that carries marker `id`. */
  function FirstMarked(d: Document, rest: seq<NodeId>, id: string): (r: Option<nat>)
    ensures r.Some? ==> r.value < |rest| && MarkerOf(d, rest[r.value]) == Some(id)
    ensures r.Some? ==> forall i :: 0 <= i < r.value ==> MarkerOf(d, rest[i]) != Some(id)
    ensures r.None? ==> forall i :: 0 <= i < |rest| ==> MarkerOf(d, rest[i]) != Some(id)
  {
    if rest == [] then None
    else if MarkerOf(d, rest[0]) == Some(id) then Some(0)
    else
      var r := FirstMarked(d, rest[1..], id);
      if r.Some? then Some(r.value + 1) else None
  }

  /** Which of `rest` hydration turns to for `v`: the one with its marker, or else the first. */
  function Target(d: Document, rest: seq<NodeId>, v: VNode): (t: nat)
    ensures rest != [] ==> t < |rest|
  {
    match KeyOf(v)
    case None => 0
    case Some(id) =>
      var r := FirstMarked(d, rest, id);
      if r.Some? then r.value else 0
  }

  function DropAt<T>(s: seq<T>, i: nat): seq<T>
    requires i < |s|
  {
    s[..i] + s[i + 1..]
  }

  /** Every vnode in turn finds a node that is ready for it. */
  ghost predicate Quiet(d: Document, rest: seq<NodeId>, vs: seq<VNode>) {
    vs == [] ||
    (rest != [] &&
     var t := Target(d, rest, vs[0]);
     Ready(d, rest[t], vs[0]) && Quiet(d, DropAt(rest, t), vs[1..]))
  }

  /** The nodes so found, in the order of the vnodes. */
  ghost function Order(d: Document, rest: seq<NodeId>, vs: seq<VNode>): seq<NodeId>
    requires Quiet(d, rest, vs)
  {
    if vs == [] then []
    else
      var t := Target(d, rest, vs[0]);
      [rest[t]] + Order(d, DropAt(rest, t), vs[1..])
  }

  /** The nodes no vnode asked for. */
  ghost function Left(d: Document, rest: seq<NodeId>, vs: seq<VNode>): seq<NodeId>
    requires Quiet(d, rest, vs)
  {
    if vs == [] then rest else Left(d, DropAt(rest, Target(d, rest, vs[0])), vs[1..])
  }

  /** How many of them were not yet in place. */
  ghost function Moves(d: Document, rest: seq<NodeId>, vs: seq<VNode>): nat
    requires Quiet(d, rest, vs)
  {
    if vs == [] then 0
    else
      var t := Target(d, rest, vs[0]);
      (if t > 0 then 1 else 0) + Moves(d, DropAt(rest, t), vs[1..])
  }

  lemma {:induction false} QuietConcat(d: Document, rest: seq<NodeId>, a: seq<VNode>, b: seq<VNode>)
    ensures Quiet(d, rest, a + b) <==> Quiet(d, rest, a) && Quiet(d, Left(d, rest, a), b)
    ensures Quiet(d, rest, a + b) ==>
              && Order(d, rest, a + b) == Order(d, rest, a) + Order(d, Left(d, rest, a), b)
              && Left(d, rest, a + b) == Left(d, Left(d, rest, a), b)
              && Moves(d, rest, a + b) == Moves(d, rest, a) + Moves(d, Left(d, rest, a), b)
    decreases |a|
  {
    hide Ready, Target;
    if a == [] {
      assert a + b == b;
    } else {
      assert (a + b)[1..] == a[1..] + b && (a + b)[0] == a[0];
      if rest != [] {
        QuietConcat(d, DropAt(rest, Target(d, rest, a[0])), a[1..], b);
      }
    }
  }

  lemma SameMarker(d: Document, e: Document, x: NodeId)
    requires SameBelow(d, e, x) && x in d.tree
    ensures MarkerOf(e, x) == MarkerOf(d, x)
  {
    assert Under(d.tree, x, x);
  }

  lemma {:induction false} SameFirstMarked(d: Document, e: Document, rest: seq<NodeId>, id: string)
    requires forall i :: 0 <= i < |rest| ==> rest[i] in d.tree && SameBelow(d, e, rest[i])
    ensures FirstMarked(e, rest, id) == FirstMarked(d, rest, id)
  {
    hide SameBelow;
    if rest != [] {
      SameMarker(d, e, rest[0]);
      SameFirstMarked(d, e, rest[1..], id);
    }
  }

  /** What is found does not change while the nodes and what hangs below them do not. */
  lemma {:induction false} QuietFrame(d: Document, e: Document, rest: seq<NodeId>, vs: seq<VNode>)
    requires WellFormed(d) && Quiet(d, rest, vs)
    requires forall i :: 0 <= i < |rest| ==> rest[i] in d.tree && SameBelow(d, e, rest[i])
    ensures Quiet(e, rest, vs) && Order(e, rest, vs) == Order(d, rest, vs) && Left(e, rest, vs) == Left(d, rest, vs)
    ensures Moves(e, rest, vs) == Moves(d, rest, vs)
    decreases |vs|
  {
    hide SameBelow, Ready, FirstMarked, WellFormed;
    if vs != [] {
      if KeyOf(vs[0]).Some? {
        SameFirstMarked(d, e, rest, KeyOf(vs[0]).value);
      }
      var t := Target(d, rest, vs[0]);
      ReadyFrame(d, e, rest[t], vs[0]);
      QuietFrame(d, e, DropAt(rest, t), vs[1..]);
    }
  }

  /** A list that is ready node for node is adopted as it stands. */
  lemma {:induction false} ReadyQuiet(d: Document, rest: seq<NodeId>, vs: seq<VNode>)
    requires AllReady(d, rest, vs) && |rest| == |vs|
    ensures Quiet(d, rest, vs) && Order(d, rest, vs) == rest && Left(d, rest, vs) == [] && Moves(d, rest, vs) == 0
    decreases |vs|
  {
    hide Ready, AllReady, Target, DropAt;
    if vs != [] {
      ReadyParts(d, rest, vs);
      ReadyQuiet(d, rest[1..], vs[1..]);
    }
  }

  lemma ReadyParts(d: Document, rest: seq<NodeId>, vs: seq<VNode>)
    requires AllReady(d, rest, vs) && vs != []
    ensures rest != [] && Ready(d, rest[0], vs[0]) && Target(d, rest, vs[0]) == 0
    ensures AllReady(d, rest[1..], vs[1..]) && DropAt(rest, 0) == rest[1..] && rest == [rest[0]] + rest[1..]
  {
    hide Ready;
    ReadyMarked(d, rest[0], vs[0]);
    forall i | 0 <= i < |vs[1..]| ensures Ready(d, rest[1..][i], vs[1..][i]) {
      assert Ready(d, rest[i + 1], vs[i + 1]);
    }
  }

  lemma ReadyMarked(d: Document, n: NodeId, v: VNode)
    requires Ready(d, n, v)
    ensures KeyOf(v).Some? ==> MarkerOf(d, n) == KeyOf(v)
  {
  }

  /** `rest` is some reordering of nodes ready for the distinctly marked `vs`. */
  ghost predicate Shuffled(d: Document, rest: seq<NodeId>, vs: seq<VNode>) {
    && |rest| == |vs| && DistinctlyMarked(vs)
    && (forall i :: 0 <= i < |vs| ==> SomeReady(d, rest, vs[i]))
  }

  ghost predicate DistinctlyMarked(vs: seq<VNode>) {
    && (forall i :: 0 <= i < |vs| ==> KeyOf(vs[i]).Some?)
    && (forall i, j :: 0 <= i < j < |vs| ==> KeyOf(vs[i]) != KeyOf(vs[j]))
  }

  ghost predicate SomeReady(d: Document, rest: seq<NodeId>, v: VNode) {
    exists j :: 0 <= j < |rest| && Ready(d, rest[j], v)
  }

  lemma DropMultiset(rest: seq<NodeId>, t: nat)
    requires t < |rest|
    ensures multiset(rest) == multiset([rest[t]]) + multiset(DropAt(rest, t))
  {
    assert rest == rest[..t] + [rest[t]] + rest[t + 1..];
  }

  /** Finding the first, and then the others. */
  lemma QuietCons(d: Document, rest: seq<NodeId>, vs: seq<VNode>)
    requires vs != [] && rest != [] && Ready(d, rest[Target(d, rest, vs[0])], vs[0])
    requires Quiet(d, DropAt(rest, Target(d, rest, vs[0])), vs[1..])
    ensures var t := Target(d, rest, vs[0]);
            && Quiet(d, rest, vs) && Left(d, rest, vs) == Left(d, DropAt(rest, t), vs[1..])
            && Order(d, rest, vs) == [rest[t]] + Order(d, DropAt(rest, t), vs[1..])
  {
    hide Ready, Target, DropAt;
  }

  lemma AllReadyCons(d: Document, n: NodeId, ns: seq<NodeId>, vs: seq<VNode>)
    requires vs != [] && Ready(d, n, vs[0]) && AllReady(d, ns, vs[1..])
    ensures AllReady(d, [n] + ns, vs)
  {
    hide Ready;
    forall i | 0 <= i < |vs| ensures Ready(d, ([n] + ns)[i], vs[i]) {
      if i > 0 {
        assert Ready(d, ns[i - 1], vs[1..][i - 1]);
      }
    }
  }

  /** A reordering is undone by moves alone: the same nodes, each at the place of its vnode. */
  lemma {:induction false} ShuffledQuiet(d: Document, rest: seq<NodeId>, vs: seq<VNode>)
    requires Shuffled(d, rest, vs)
    ensures Quiet(d, rest, vs) && Left(d, rest, vs) == []
    ensures multiset(Order(d, rest, vs)) == multiset(rest) && AllReady(d, Order(d, rest, vs), vs)
    decreases |vs|
  {
    ShuffledLength(d, rest, vs);
    hide Ready, Shuffled, Target;
    if vs != [] {
      hide Quiet, Order, Left, DropAt, AllReady;
      var t := Target(d, rest, vs[0]);
      ShuffledTarget(d, rest, vs);
      ShuffledRest(d, rest, vs);
      ShuffledQuiet(d, DropAt(rest, t), vs[1..]);
      DropMultiset(rest, t);
      QuietCons(d, rest, vs);
      AllReadyCons(d, rest[t], Order(d, DropAt(rest, t), vs[1..]), vs);
    }
  }

  lemma ShuffledLength(d: Document, rest: seq<NodeId>, vs: seq<VNode>)
    requires Shuffled(d, rest, vs)
    ensures |rest| == |vs|
  {
    hide SomeReady;
  }

  /** The node with the marker is the one that is ready. */
  lemma ShuffledTarget(d: Document, rest: seq<NodeId>, vs: seq<VNode>)
    requires Shuffled(d, rest, vs) && vs != []
    ensures Ready(d, rest[Target(d, rest, vs[0])], vs[0])
  {
    hide Ready;
    Pigeons(d, rest, vs);
    assert SomeReady(d, rest, vs[0]);
    var j :| 0 <= j < |rest| && Ready(d, rest[j], vs[0]);
    ReadyMarked(d, rest[j], vs[0]);
    var t := Target(d, rest, vs[0]);
    assert MarkerOf(d, rest[t]) == KeyOf(vs[0]);
    assert t == j;
  }

  lemma ShuffledRest(d: Document, rest: seq<NodeId>, vs: seq<VNode>)
    requires Shuffled(d, rest, vs) && vs != []
    ensures Shuffled(d, DropAt(rest, Target(d, rest, vs[0])), vs[1..])
  {
    hide Ready;
    var t := Target(d, rest, vs[0]);
    ShuffledTarget(d, rest, vs);
    ReadyMarked(d, rest[t], vs[0]);
    var left := DropAt(rest, t);
    forall i, j | 0 <= i < j < |vs[1..]| ensures KeyOf(vs[1..][i]) != KeyOf(vs[1..][j]) {
      assert KeyOf(vs[i + 1]) != KeyOf(vs[j + 1]);
    }
    forall i | 0 <= i < |vs[1..]| ensures SomeReady(d, left, vs[1..][i]) {
      assert SomeReady(d, rest, vs[i + 1]);
      var j :| 0 <= j < |rest| && Ready(d, rest[j], vs[i + 1]);
      ReadyMarked(d, rest[j], vs[i + 1]);
      assert KeyOf(vs[0]) != KeyOf(vs[i + 1]);
      assert j != t;
      var k := if j < t then j else j - 1;
      assert left[k] == rest[j] && vs[1..][i] == vs[i + 1];
      assert Ready(d, left[k], vs[1..][i]);
    }
    forall i | 0 <= i < |vs[1..]| ensures KeyOf(vs[1..][i]).Some? {
      assert KeyOf(vs[i + 1]).Some?;
    }
    var later := vs[1..];
    assert |left| == |later|;
    assert (forall i :: 0 <= i < |later| ==> KeyOf(later[i]).Some?);
    assert (forall i, j :: 0 <= i < j < |later| ==> KeyOf(later[i]) != KeyOf(later[j]));
    assert (forall i :: 0 <= i < |later| ==> SomeReady(d, left, later[i]));
  }

  /** As many nodes as distinct markers, and every marker is carried: no two nodes carry the same. */
  lemma Pigeons(d: Document, rest: seq<NodeId>, vs: seq<VNode>)
    requires Shuffled(d, rest, vs)
    ensures forall i, j :: 0 <= i < j < |rest| ==> MarkerOf(d, rest[i]) != MarkerOf(d, rest[j])
  {
    hide Ready;
    var marks := seq(|rest|, i requires 0 <= i < |rest| => MarkerOf(d, rest[i]));
    forall k | k in Keys(vs) ensures k in marks {
      var i :| 0 <= i < |vs| && Keys(vs)[i] == k;
      var j :| 0 <= j < |rest| && Ready(d, rest[j], vs[i]);
      ReadyMarked(d, rest[j], vs[i]);
      assert marks[j] == k;
    }
    CoveringDistinct(Keys(vs), marks);
    forall i, j | 0 <= i < j < |rest| ensures MarkerOf(d, rest[i]) != MarkerOf(d, rest[j]) {
      assert marks[i] != marks[j];
    }
  }

  /** A list no longer than the distinct list it covers is distinct. */
  lemma {:induction false} CoveringDistinct<T>(a: seq<T>, b: seq<T>)
    requires Distinct(a) && |a| == |b| && forall x :: x in a ==> x in b
    ensures Distinct(b)
    decreases |a|
  {
    if a != [] {
      var t := IndexOf(b, a[0]);
      var b' := DropAt(b, t);
      forall x | x in a[1..] ensures x in b' {
        var i :| 0 <= i < |a[1..]| && a[1..][i] == x;
        assert a[i + 1] == x && x != a[0] && x in b;
        var j := IndexOf(b, x);
        assert b'[if j < t then j else j - 1] == x;
      }
      CoveringDistinct(a[1..], b');
      CoveredBack(a[1..], b');
      forall i, j | 0 <= i < j < |b| ensures b[i] != b[j] {
        if i == t {
          assert b'[j - 1] == b[j] && b'[j - 1] in b';
          assert b[j] in a[1..];
          FirstNotLater(a, b[j]);
        } else if j == t {
          assert b'[i] == b[i] && b'[i] in b';
          FirstNotLater(a, b[i]);
        } else {
          assert b[i] == b'[if i < t then i else i - 1] && b[j] == b'[if j < t then j else j - 1];
        }
      }
    }
  }

  lemma FirstNotLater<T>(a: seq<T>, x: T)
    requires Distinct(a) && a != [] && x in a[1..]
    ensures x != a[0]
  {
    var i :| 0 <= i < |a[1..]| && a[1..][i] == x;
    assert a[i + 1] == x;
  }

  /** Equally long distinct lists, one covering the other, have the same members. */
  lemma CoveredBack<T>(a: seq<T>, b: seq<T>)
    requires Distinct(a) && Distinct(b) && |a| == |b| && forall x :: x in a ==> x in b
    ensures forall x :: x in b ==> x in a
  {
    DistinctSize(a);
    DistinctSize(b);
    var s, t := set x | x in a, set x | x in b;
    SubsetSize(s, t);
    assert forall x :: x in b ==> x in t;
  }

  lemma {:induction false} DistinctSize<T>(a: seq<T>)
    requires Distinct(a)
    ensures |set x | x in a| == |a|
  {
    if a != [] {
      DistinctSize(a[1..]);
      assert a == [a[0]] + a[1..];
      assert (set x | x in a) == {a[0]} + set x | x in a[1..];
      assert a[0] !in a[1..];
    }
  }

  lemma SubsetSize<T>(s: set<T>, t: set<T>)
    requires s <= t && |s| == |t|
    ensures s == t
  {
    assert t == s + (t - s);
    assert |t| == |s| + |t - s|;
  }
}
