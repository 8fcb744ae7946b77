/** The single repairs of hydration, and how they compose along a child list. */
module HydrationSteps {
  import opened Prelude
  import opened VirtualDom
  import opened Dom
  import opened Resources
  import opened Rendering
  import opened Attributes
  import opened Building
  import opened Confinement
  import opened Placement
  import opened PatchSteps
  import opened Runs
  import opened Reconcile
  import opened Adoption
  import opened HydrationPlan

  // --- One advance over a child list ---

  /** `left` is what is left of `rest`, untouched. */
  ghost predicate Spared(d: Document, e: Document, rest: seq<NodeId>, left: seq<NodeId>) {
    forall x :: x in left ==>
      && x in rest && x in d.tree && x in e.tree && SameBelow(d, e, x)
      && forall y :: y in d.tree && Under(d.tree, x, y) ==> SameNode(d, e, y)
  }

  /** `placed` was put after `done` and conforms to `vs`; of `rest`, `left` is still there. */
  ghost predicate Advance(d: Document, e: Document, el: NodeId, done: seq<NodeId>, rest: seq<NodeId>, vs: seq<VNode>,
                          placed: seq<NodeId>, left: seq<NodeId>, base: Document)
  {
    && RunFrame(d, e, el, rest) && e.tree[el].kids == done + placed + left
    && AllConform(e, placed, vs, base) && Spared(d, e, rest, left)
  }

  /** Everything below `rest` is as it was in `base`. */
  ghost predicate AllOld(d: Document, rest: seq<NodeId>, base: Document) {
    forall y :: y in d.tree && UnderAny(d.tree, rest, y) ==> y < base.next && AsBefore(base, d, y)
  }

  /** One advance, with its counts. */
  ghost predicate Repaired(d: Document, e: Document, el: NodeId, done: seq<NodeId>, rest: seq<NodeId>, vs: seq<VNode>,
                           placed: seq<NodeId>, left: seq<NodeId>, s: Stats, base: Document)
  {
    && Advance(d, e, el, done, rest, vs, placed, left, base)
    && Counted(d, e, s, base.next) && s.consumed == |placed|
    && (s.Repairs() == 0 ==> e.tree == d.tree)
  }

  /** The counts are those the starting tree calls for; if every vnode found a node ready for it, those were adopted. */
  ghost predicate Planned(d: Document, rest: seq<NodeId>, vs: seq<VNode>, placed: seq<NodeId>, left: seq<NodeId>,
                          s: Stats) {
    PlanEach(d, rest, vs) == Plan(s, left) && (Quiet(d, rest, vs) ==> placed == Order(d, rest, vs))
  }

  /** The same for one vnode, when the head of `rest` is the node to turn to. */
  ghost predicate OnePlanned(d: Document, rest: seq<NodeId>, v: VNode, placed: seq<NodeId>, left: seq<NodeId>,
                             s: Stats) {
    PlanOne(d, rest, v) == Plan(s, left) && (rest != [] && Ready(d, rest[0], v) ==> placed == [rest[0]])
  }

  /** One advance, as planned. */
  ghost predicate Hydrated(d: Document, e: Document, el: NodeId, done: seq<NodeId>, rest: seq<NodeId>, vs: seq<VNode>,
                           placed: seq<NodeId>, left: seq<NodeId>, s: Stats, base: Document)
  {
    Repaired(d, e, el, done, rest, vs, placed, left, s, base) && Planned(d, rest, vs, placed, left, s)
  }

  /** The list being hydrated. */
  ghost predicate Setting(d: Document, el: NodeId, done: seq<NodeId>, rest: seq<NodeId>, base: Document) {
    && IsElement(d, el) && el in d.tree && d.tree[el].kids == done + rest
    && el < base.next <= d.next && AllOld(d, rest, base)
  }

  // --- Composing advances ---

  lemma RestKids(d: Document, el: NodeId, done: seq<NodeId>, rest: seq<NodeId>)
    requires WellFormed(d) && el in d.tree && d.tree[el].kids == done + rest
    ensures forall x :: x in done || x in rest ==> x in d.tree && IsChild(d, el, x) && el < x
    ensures forall x :: x in done ==> x !in rest
    ensures Distinct(rest)
  {
    assert LinksOk(d.tree, el);
    DistinctParts(done, rest);
    forall x | x in done || x in rest ensures x in d.tree && IsChild(d, el, x) && el < x {
      assert x in d.tree[el].kids;
    }
  }

  lemma SparedUnder(d: Document, e: Document, rest: seq<NodeId>, left: seq<NodeId>, x: NodeId)
    requires WellFormed(d) && WellFormed(e) && Spared(d, e, rest, left)
    ensures UnderAny(e.tree, left, x) ==> UnderAny(d.tree, rest, x)
    ensures forall i :: 0 <= i < |left| ==> (Under(e.tree, left[i], x) <==> Under(d.tree, left[i], x))
  {
    forall i | 0 <= i < |left| ensures Under(e.tree, left[i], x) <==> Under(d.tree, left[i], x) {
      assert left[i] in left;
      SameSubtree(d, e, left[i], x);
    }
    if UnderAny(e.tree, left, x) {
      var i :| 0 <= i < |left| && Under(e.tree, left[i], x);
      assert left[i] in left && left[i] in rest;
      var j := IndexOf(rest, left[i]);
      assert Under(d.tree, rest[j], x);
    }
  }

  lemma OldLeft(d: Document, e: Document, rest: seq<NodeId>, left: seq<NodeId>, base: Document)
    requires WellFormed(d) && WellFormed(e) && Spared(d, e, rest, left) && AllOld(d, rest, base)
    ensures AllOld(e, left, base)
  {
    forall y | y in e.tree && UnderAny(e.tree, left, y) ensures y < base.next && AsBefore(base, e, y) {
      SparedUnder(d, e, rest, left, y);
      var i :| 0 <= i < |left| && Under(e.tree, left[i], y);
      assert left[i] in left;
      StaysIn(d, left[i], y);
    }
  }

  lemma FrameTrans(d: Document, e: Document, f: Document, el: NodeId, rest: seq<NodeId>, left: seq<NodeId>)
    requires WellFormed(d) && WellFormed(e) && RunFrame(d, e, el, rest) && RunFrame(e, f, el, left)
    requires Spared(d, e, rest, left)
    ensures RunFrame(d, f, el, rest)
  {
    hide WellFormed;
    GrowsTrans(d, e, f);
    forall x | x in d.tree && x != el && !UnderAny(d.tree, rest, x) ensures SameNode(d, f, x) {
      SparedUnder(d, e, rest, left, x);
      assert SameNode(d, e, x);
      assert SameNode(e, f, x);
    }
  }

  /** An advance over what is left does not touch what was placed. */
  lemma PlacedKept(e: Document, f: Document, el: NodeId, done: seq<NodeId>, left: seq<NodeId>, placed: seq<NodeId>,
                   vs: seq<VNode>, base: Document)
    requires WellFormed(e) && WellFormed(f) && el in e.tree && e.tree[el].kids == done + placed + left
             && RunFrame(e, f, el, left)
    requires AllConform(e, placed, vs, base)
    ensures AllConform(f, placed, vs, base)
  {
    hide Conforms, WellFormed, RunFrame;
    assert done + placed + left == (done + placed) + left;
    RestKids(e, el, done + placed, left);
    forall i | 0 <= i < |vs| ensures Conforms(f, placed[i], vs[i], base) {
      assert placed[i] in done + placed;
      ApartFromRun(e, f, el, left, placed[i]);
      ConformsFrame(e, f, placed[i], vs[i], base);
    }
  }

  lemma ApartFromRun(e: Document, f: Document, el: NodeId, left: seq<NodeId>, k: NodeId)
    requires WellFormed(e) && RunFrame(e, f, el, left) && k in e.tree && IsChild(e, el, k) && k !in left
    requires forall x :: x in left ==> x in e.tree && IsChild(e, el, x)
    ensures SameBelow(e, f, k)
  {
    assert LinksOk(e.tree, k);
    assert LinksOk(e.tree, el);
    forall x | Under(e.tree, k, x) && x in e.tree ensures SameNode(e, f, x) && x in e.data {
      forall i | 0 <= i < |left| ensures !Under(e.tree, left[i], x) {
        assert left[i] in left;
        SiblingsDisjoint(e, k, left[i], x);
      }
    }
  }

  lemma SparedTrans(d: Document, e: Document, f: Document, rest: seq<NodeId>, mid: seq<NodeId>, left: seq<NodeId>)
    requires WellFormed(d) && WellFormed(e) && Spared(d, e, rest, mid) && Spared(e, f, mid, left)
    ensures Spared(d, f, rest, left)
  {
    forall x | x in left
      ensures x in rest && x in d.tree && x in f.tree && SameBelow(d, f, x)
      ensures forall y :: y in d.tree && Under(d.tree, x, y) ==> SameNode(d, f, y)
    {
      forall y | y in d.tree && Under(d.tree, x, y) ensures SameNode(d, f, y) && y in e.tree && Under(e.tree, x, y) {
        SameSubtree(d, e, x, y);
        assert SameNode(d, e, y);
        assert SameNode(e, f, y);
      }
    }
  }

  lemma AdvanceTrans(d: Document, e: Document, f: Document, el: NodeId, done: seq<NodeId>, rest: seq<NodeId>,
                     vs: seq<VNode>, p: seq<NodeId>, mid: seq<NodeId>, ws: seq<VNode>, q: seq<NodeId>,
                         left: seq<NodeId>, base: Document)
    requires WellFormed(d) && WellFormed(e) && WellFormed(f) && Advance(d, e, el, done, rest, vs, p, mid, base)
    requires Advance(e, f, el, done + p, mid, ws, q, left, base)
    ensures Advance(d, f, el, done, rest, vs + ws, p + q, left, base)
  {
    hide Conforms, WellFormed, RunFrame, Spared;
    FrameTrans(d, e, f, el, rest, mid);
    SparedTrans(d, e, f, rest, mid, left);
    RunBasics(d, e, el, rest);
    PlacedKept(e, f, el, done, mid, p, vs, base);
    assert done + p + q + left == done + (p + q) + left;
  }

  lemma PlannedTrans(d: Document, e: Document, rest: seq<NodeId>, vs: seq<VNode>, p: seq<NodeId>, mid: seq<NodeId>,
                     s: Stats, ws: seq<VNode>, q: seq<NodeId>, left: seq<NodeId>, t: Stats)
    requires WellFormed(d) && WellFormed(e) && Planned(d, rest, vs, p, mid, s) && Planned(e, mid, ws, q, left, t)
             && Spared(d, e, rest, mid)
    ensures Planned(d, rest, vs + ws, p + q, left, s.Merge(t))
  {
    hide Quiet, Order, Left, Moves, WellFormed, PlanEach, SameBelow, Stats.Merge;
    PlanConcat(d, rest, vs, ws);
    assert Undisturbed(d, e, mid);
    PlanEachFrame(d, e, mid, ws);
    QuietConcat(d, rest, vs, ws);
    if Quiet(d, rest, vs + ws) {
      QuietPlan(d, rest, vs);
      assert forall i :: 0 <= i < |mid| ==> mid[i] in mid;
      QuietFrame(d, e, mid, ws);
    }
  }

  lemma HydratedTrans(d: Document, e: Document, f: Document, el: NodeId, done: seq<NodeId>, rest: seq<NodeId>,
                      vs: seq<VNode>, p: seq<NodeId>, mid: seq<NodeId>, s: Stats, ws: seq<VNode>, q: seq<NodeId>,
                      left: seq<NodeId>, t: Stats, base: Document)
    requires WellFormed(d) && WellFormed(e) && WellFormed(f) && Hydrated(d, e, el, done, rest, vs, p, mid, s, base)
    requires Hydrated(e, f, el, done + p, mid, ws, q, left, t, base)
    ensures Hydrated(d, f, el, done, rest, vs + ws, p + q, left, s.Merge(t), base)
  {
    hide WellFormed, Counted, Advance, Planned;
    AdvanceTrans(d, e, f, el, done, rest, vs, p, mid, ws, q, left, base);
    CountedTrans(d, e, f, s, t, base.next);
    AdvanceSpares(d, e, el, done, rest, vs, p, mid, base);
    PlannedTrans(d, e, rest, vs, p, mid, s, ws, q, left, t);
  }

  lemma AdvanceSpares(d: Document, e: Document, el: NodeId, done: seq<NodeId>, rest: seq<NodeId>, vs: seq<VNode>,
                      p: seq<NodeId>, left: seq<NodeId>, base: Document)
    requires Advance(d, e, el, done, rest, vs, p, left, base)
    ensures Spared(d, e, rest, left)
  {
    hide Spared;
  }

  lemma SettingNext(d: Document, e: Document, el: NodeId, done: seq<NodeId>, rest: seq<NodeId>, vs: seq<VNode>,
                    p: seq<NodeId>, left: seq<NodeId>, base: Document)
    requires WellFormed(d) && WellFormed(e) && Setting(d, el, done, rest, base)
    requires Advance(d, e, el, done, rest, vs, p, left, base)
    ensures Setting(e, el, done + p, left, base)
  {
    hide WellFormed, Conforms;
    OldLeft(d, e, rest, left, base);
  }

  lemma NothingHydrated(d: Document, el: NodeId, done: seq<NodeId>, rest: seq<NodeId>, base: Document)
    requires WellFormed(d) && Setting(d, el, done, rest, base)
    ensures Hydrated(d, d, el, done, rest, [], [], rest, NO_STATS, base)
  {
    RestKids(d, el, done, rest);
    KeysAgree(d);
    assert Since(d, d) == [];
    assert done + [] + rest == done + rest;
    forall x | x in rest ensures x in d.tree && SameBelow(d, d, x) {
    }
  }

  // --- Single steps ---

  /** A step of the parent that leaves the other children alone is an advance. */
  lemma StepAdvances(d: Document, e: Document, el: NodeId, n: Option<NodeId>, done: seq<NodeId>, rest: seq<NodeId>,
                     vs: seq<VNode>, placed: seq<NodeId>, left: seq<NodeId>, base: Document)
    requires WellFormed(d) && WellFormed(e) && KidStep(d, e, el, n) && d.tree[el].kids == done + rest
    requires n.Some? ==> n.value in rest
    requires e.tree[el].kids == done + placed + left && AllConform(e, placed, vs, base)
    requires forall x :: x in left ==> x in rest && n != Some(x)
    ensures Advance(d, e, el, done, rest, vs, placed, left, base)
  {
    hide Conforms;
    RestKids(d, el, done, rest);
    assert RunFrame(d, e, el, rest) by {
      if n.Some? {
        var i := IndexOf(rest, n.value);
        assert forall x :: Under(d.tree, n.value, x) ==> Under(d.tree, rest[i], x);
      }
    }
    forall x | x in left
      ensures x in d.tree && x in e.tree && SameBelow(d, e, x)
      ensures forall y :: y in d.tree && Under(d.tree, x, y) ==> SameNode(d, e, y)
    {
      OtherKidSame(d, e, el, n, x);
      assert Under(d.tree, x, x) && SameNode(d, e, x);
    }
  }

  /** An effect confined to the child `n` is a step of the parent that keeps its child list. */
  lemma ConfinedStep(d: Document, e: Document, el: NodeId, n: NodeId)
    requires WellFormed(d) && Confined(d, e, n) && n in d.tree && el in d.tree && IsChild(d, el, n)
    ensures KidStep(d, e, el, Some(n)) && e.tree[el] == d.tree[el] && n in e.tree
  {
    ParentOutside(d, e, el, n);
  }

  lemma QuietOne(d: Document, rest: seq<NodeId>, v: VNode)
    ensures Quiet(d, rest, [v]) <==> rest != [] && Ready(d, rest[Target(d, rest, v)], v)
    ensures Quiet(d, rest, [v]) ==>
              var t := Target(d, rest, v);
              && Order(d, rest, [v]) == [rest[t]] && Left(d, rest, [v]) == DropAt(rest, t)
              && Moves(d, rest, [v]) == if t > 0 then 1 else 0
  {
    hide Ready, Target;
    assert [v][1..] == [];
  }

  lemma StepParent(d: Document, e: Document, el: NodeId, n: Option<NodeId>)
    requires KidStep(d, e, el, n)
    ensures el in d.tree && el in e.tree
  {
  }

  /** An advance by one vnode that uses up the head of `rest`, or nothing of it. */
  lemma OneRepaired(d: Document, e: Document, el: NodeId, n: Option<NodeId>, done: seq<NodeId>, rest: seq<NodeId>,
                    v: VNode, r: NodeId, left: seq<NodeId>, s: Stats, base: Document)
    requires WellFormed(d) && WellFormed(e) && KidStep(d, e, el, n) && d.tree[el].kids == done + rest
    requires (rest != [] && left == rest[1..] && n == Some(rest[0])) || (left == rest && n == None)
    requires e.tree[el].kids == done + [r] + left && Conforms(e, r, v, base)
    requires Counted(d, e, s, base.next) && s.consumed == 1 && (s.Repairs() == 0 ==> e.tree == d.tree)
    ensures Repaired(d, e, el, done, rest, [v], [r], left, s, base)
  {
    StepParent(d, e, el, n);
    hide Conforms, WellFormed, KidStep, Counted, Advance, AllConform, IsChild, Distinct;
    RestKids(d, el, done, rest);
    if n.Some? {
      HeadAndTail(rest);
    }
    OneConforms(e, r, v, base);
    StepAdvances(d, e, el, n, done, rest, [v], [r], left, base);
  }

  lemma HeadAndTail(rest: seq<NodeId>)
    requires rest != [] && Distinct(rest)
    ensures rest[0] in rest && forall x :: x in rest[1..] ==> x in rest && x != rest[0]
  {
    assert rest == [rest[0]] + rest[1..];
    DistinctParts([rest[0]], rest[1..]);
  }

  lemma OneConforms(d: Document, r: NodeId, v: VNode, base: Document)
    requires Conforms(d, r, v, base)
    ensures AllConform(d, [r], [v], base)
  {
    hide Conforms;
  }

  /** A vnode without a marker turns to the head. */
  lemma UnmarkedPlanned(d: Document, rest: seq<NodeId>, v: VNode, placed: seq<NodeId>, left: seq<NodeId>, s: Stats)
    requires KeyOf(v) == None && OnePlanned(d, rest, v, placed, left, s)
    ensures Planned(d, rest, [v], placed, left, s)
  {
    hide Ready, PlanOne, PlanEach, Quiet, Order;
    QuietOne(d, rest, v);
    PlanSingle(d, rest, v);
    assert InFront(d, rest, v) == rest;
  }

  // --- Adopting, appending, replacing, inserting ---

  /** The node at `index` of the child list. */
  function Item(kids: seq<NodeId>, index: nat): Option<NodeId> {
    if index < |kids| then Some(kids[index]) else None
  }

  lemma ItemHead(done: seq<NodeId>, rest: seq<NodeId>)
    ensures Item(done + rest, |done|) == if rest == [] then None else Some(rest[0])
  {
  }

  /** The node is the text or comment the vnode asks for. */
  ghost predicate AsAsked(d: Document, n: NodeId, v: VNode) {
    n in d.data &&
    match v
    case Text(text) => d.data[n].kind.TextNode? && d.data[n].text == text
    case Comment(_) => d.data[n].kind.CommentNode?
    case _ => false
  }

  /** A text or comment that is as expected is kept. */
  lemma Kept(d: Document, el: NodeId, done: seq<NodeId>, rest: seq<NodeId>, v: VNode, base: Document)
    requires WellFormed(d) && Setting(d, el, done, rest, base) && rest != [] && AsAsked(d, rest[0], v)
    ensures Hydrated(d, d, el, done, rest, [v], [rest[0]], rest[1..], KEEP, base)
  {
    hide Confined, WellFormed, KidStep, AllOld, Counted, Conforms, Planned;
    HeadFacts(d, el, done, rest, base);
    HeadContent(d, d, el, done, rest, base);
    AskedAdopted(d, rest[0], v, base);
    KeepPlanned(d, rest, v);
    KeepCounted(d, base.next);
    NothingConfined(d, rest[0]);
    ConfinedStep(d, d, el, rest[0]);
    hide Setting;
    OneRepaired(d, d, el, Some(rest[0]), done, rest, v, rest[0], rest[1..], KEEP, base);
  }

  lemma KeepCounted(d: Document, bound: NodeId)
    ensures Counted(d, d, KEEP, bound)
  {
    assert Since(d, d) == [];
  }

  lemma KeepPlanned(d: Document, rest: seq<NodeId>, v: VNode)
    requires rest != [] && AsAsked(d, rest[0], v)
    ensures Planned(d, rest, [v], [rest[0]], rest[1..], KEEP)
  {
    UnmarkedPlanned(d, rest, v, [rest[0]], rest[1..], KEEP);
  }

  lemma Patched(d: Document, e: Document, el: NodeId, done: seq<NodeId>, rest: seq<NodeId>, v: VNode, base: Document)
    requires WellFormed(d) && WellFormed(e) && Setting(d, el, done, rest, base) && rest != [] && v.Text?
    requires rest[0] in d.data && d.data[rest[0]].kind.TextNode? && d.data[rest[0]].text != v.text
    requires Confined(d, e, rest[0]) && rest[0] in e.data && rest[0] in e.tree && e.tree == d.tree
    requires e.data[rest[0]] == d.data[rest[0]].(text := v.text) && e.data == d.data[rest[0] := e.data[rest[0]]]
    requires e.log == d.log + [TextSet(rest[0])]
    ensures Hydrated(d, e, el, done, rest, [v], [rest[0]], rest[1..], PATCH, base)
  {
    hide Confined, WellFormed, KidStep, AllOld, Count, Conforms;
    HeadFacts(d, el, done, rest, base);
    HeadContent(d, e, el, done, rest, base);
    TextAdopted(d, e, rest[0], v, base);
    assert Since(d, d) == [];
    OneMore(d, d, e, TextSet(rest[0]), base.next);
    UnmarkedPlanned(d, rest, v, [rest[0]], rest[1..], PATCH);
    ConfinedStep(d, e, el, rest[0]);
    hide Planned, Setting;
    OneRepaired(d, e, el, Some(rest[0]), done, rest, v, rest[0], rest[1..], PATCH, base);
  }

  /** An adopted text that holds, or is given, the text of the vnode. */
  lemma TextAdopted(d: Document, e: Document, n: NodeId, v: VNode, base: Document)
    requires v.Text? && AsBefore(base, d, n) && n < base.next && d.data[n].kind.TextNode?
    requires n in e.tree && n in e.data && e.data[n] == d.data[n].(text := v.text) && ContentKept(base, e, n)
    ensures Conforms(e, n, v, base)
  {
  }

  /** A step that writes the record of the head alone leaves its content as it was. */
  lemma HeadContent(d: Document, e: Document, el: NodeId, done: seq<NodeId>, rest: seq<NodeId>, base: Document)
    requires WellFormed(d) && Setting(d, el, done, rest, base) && rest != [] && e.tree == d.tree
    requires rest[0] in d.data && rest[0] in e.data && e.data == d.data[rest[0] := e.data[rest[0]]]
    ensures ContentKept(base, e, rest[0])
  {
    HeadFacts(d, el, done, rest, base);
    forall y | y in e.tree && y != rest[0] && Under(e.tree, rest[0], y) ensures AsBefore(base, e, y) {
      assert Under(d.tree, rest[0], y);
    }
  }

  lemma AskedAdopted(d: Document, n: NodeId, v: VNode, base: Document)
    requires AsAsked(d, n, v) && AsBefore(base, d, n) && n < base.next && ContentKept(base, d, n)
    ensures Conforms(d, n, v, base)
  {
  }

  lemma OldMember(d: Document, rest: seq<NodeId>, i: nat, base: Document)
    requires i < |rest| && rest[i] in d.tree && AllOld(d, rest, base)
    ensures rest[i] < base.next
  {
    assert Under(d.tree, rest[i], rest[i]);
  }

  lemma HeadFacts(d: Document, el: NodeId, done: seq<NodeId>, rest: seq<NodeId>, base: Document)
    requires WellFormed(d) && Setting(d, el, done, rest, base) && rest != []
    ensures rest[0] in d.tree && rest[0] in d.data && IsChild(d, el, rest[0]) && el < rest[0] < base.next
    ensures rest == [rest[0]] + rest[1..] && done + rest == done + [rest[0]] + rest[1..]
    ensures el in d.tree && AsBefore(base, d, rest[0])
  {
    RestKids(d, el, done, rest);
    KeysAgree(d);
    assert Under(d.tree, rest[0], rest[0]);
  }

  /** A step on the child list alone keeps every node where it hangs. */
  lemma StepKeeps(d: Document, e: Document, el: NodeId)
    requires KidStep(d, e, el, None)
    ensures KeepsParents(d, e)
  {
    forall x | x in d.tree ensures x in e.tree && e.tree[x].parent == d.tree[x].parent {
      assert x != el ==> SameNode(d, e, x);
    }
  }

  /** Replacing detaches the replaced node and moves no other. */
  lemma ReplaceKeeps(d: Document, b: Document, e: Document, f: Document, el: NodeId, n: NodeId, r: NodeId, v: VNode)
    requires Built(d, b, r, v) && e.tree == b.tree && el in e.tree && el in f.tree && n in f.tree
    requires f.tree[el].parent == e.tree[el].parent && f.tree[n].parent == None && f.tree.Keys == e.tree.Keys
    requires forall x :: x in e.tree && x != el && x != n && x != r ==> f.tree[x] == e.tree[x]
    ensures KeepsParents(d, f)
  {
    hide Matches;
  }

  /** Inserting a built node between `p` and `q`. */
  lemma BuiltInserted(d: Document, e: Document, el: NodeId, r: NodeId, v: VNode, p: seq<NodeId>, q: seq<NodeId>,
                      base: Document)
    requires WellFormed(d) && WellFormed(e) && Built(d, e, r, v) && !v.Fragment? && IsElement(d, el) && el in d.tree
    requires d.tree[el].kids == p + q && el < base.next <= d.next
    ensures el in e.tree && r in e.tree && el < r
    ensures var f := InsertBefore(e, el, r, Before(q)).0;
            && WellFormed(f) && KidStep(d, f, el, None) && f.tree[el].kids == p + [r] + q && Conforms(f, r, v, base)
            && Shows(f, r, v) && d.log <= f.log && Count(Since(d, f), base.next) == Tally(1, 0, 0, 0, 0)
            && KeepsParents(d, f)
  {
    hide Matches, WellFormed, InsertBefore, Conforms, Built, KidStep, Count;
    InsertedReady(d, e, el, r, v, p, q);
    PlacedKids(e, el, r, p, q);
    WithoutAbsent(q, r);
    var f := InsertBefore(e, el, r, Before(q)).0;
    CreatedKidStep(d, e, f, el, r, v);
    StepKeeps(d, f, el);
    PlacedSame(e, f, el, r);
    MatchesFrame(e, f, r, v, false);
    ShowsConforms(f, r, v, base);
    InsertedCount(d, e, f, el, r, v, base.next);
  }

  lemma InsertedReady(d: Document, e: Document, el: NodeId, r: NodeId, v: VNode, p: seq<NodeId>, q: seq<NodeId>)
    requires WellFormed(d) && WellFormed(e) && Built(d, e, r, v) && !v.Fragment? && IsElement(d, el) && el in d.tree
    requires d.tree[el].kids == p + q
    ensures el in e.tree && IsElement(e, el) && r in e.tree && el < r && r !in q && e.tree[el].kids == p + q
    ensures e.tree[r].parent == None && !e.data[r].kind.FragmentNode? && r >= d.next && Shows(e, r, v)
  {
    hide Matches;
    assert forall x :: x in q ==> x in d.tree[el].kids;
    CreatedReady(d, e, el, r, v, q);
  }

  lemma BuiltLog(d: Document, e: Document, r: NodeId, v: VNode, bound: NodeId)
    requires Built(d, e, r, v) && bound <= d.next
    ensures d.log <= e.log && r >= bound && forall m :: m in Since(d, e) ==> m.target >= bound
  {
    hide Matches;
  }

  /** One mutation after some of new nodes only. */
  lemma OneMore(d: Document, e: Document, f: Document, m: Mutation, bound: NodeId)
    requires d.log <= e.log && f.log == e.log + [m] && forall k :: k in Since(d, e) ==> k.target >= bound
    ensures d.log <= f.log && Count(Since(d, f), bound) == One(m, bound)
  {
    hide One;
    assert Since(d, f) == Since(d, e) + [m];
    CountFresh(Since(d, e), bound);
    CountConcat(Since(d, e), [m], bound);
    assert [m][1..] == [];
    assert Count([m], bound) == One(m, bound).Plus(Count([], bound));
  }

  lemma InsertedCount(d: Document, e: Document, f: Document, el: NodeId, r: NodeId, v: VNode, bound: NodeId)
    requires Built(d, e, r, v) && el < bound <= d.next && f.log == e.log + [Inserted(el, r)]
    ensures d.log <= f.log && Count(Since(d, f), bound) == Tally(1, 0, 0, 0, 0)
  {
    hide Built, Count;
    BuiltLog(d, e, r, v, bound);
    OneMore(d, e, f, Inserted(el, r), bound);
  }

  /** Appends a node built for `v`. */
  method AppendDomNode(rt: Runtime, el: NodeId, v: VNode, ghost done: seq<NodeId>,
                       ghost base: Document) returns (r: NodeId)
    requires rt.Valid() && Setting(rt.dom, el, done, [], base) && Plain(v) && !v.Fragment?
    modifies rt
    ensures rt.Valid()
    ensures Repaired(old(rt.dom), rt.dom, el, done, [], [v], [r], [], APPEND, base)
  {
    hide WellFormed, EventsAgree, EffectsAgree, RegionsAgree, Issued, CellsExist, Numbered, Matches, Conforms, Plain,
         Built, InsertBefore, Repaired, KidStep, Count;
    ghost var d := rt.dom;
    r := CreateDomNode(rt, v);
    BuiltInserted(d, rt.dom, el, r, v, done, [], base);
    rt.dom := AppendChild(rt.dom, el, r).0;
    OneRepaired(d, rt.dom, el, None, done, [], v, r, [], APPEND, base);
  }

  /** A missing comment marker is inserted; whatever stands in its slot is left for the next vnode. */
  method InsertComment(rt: Runtime, el: NodeId, at: Option<NodeId>, v: VNode, ghost done: seq<NodeId>,
                       ghost rest: seq<NodeId>, ghost base: Document) returns (r: NodeId)
    requires rt.Valid() && Setting(rt.dom, el, done, rest, base) && v.Comment? && at == Before(rest)
    modifies rt
    ensures rt.Valid()
    ensures Repaired(old(rt.dom), rt.dom, el, done, rest, [v], [r], rest, APPEND, base)
  {
    hide WellFormed, EventsAgree, EffectsAgree, RegionsAgree, Issued, CellsExist, Numbered, Matches, Conforms, Built,
         InsertBefore, Repaired, KidStep, Count;
    ghost var d := rt.dom;
    LeafBuilt(d, CommentNode, v.text, v);
    r := NewNode(rt, CommentNode, v.text);
    BuiltInserted(d, rt.dom, el, r, v, done, rest, base);
    rt.dom := InsertBefore(rt.dom, el, r, at).0;
    OneRepaired(d, rt.dom, el, None, done, rest, v, r, rest, APPEND, base);
  }

  lemma ReleasedFrame(a: Snapshot, b: Snapshot, n: NodeId)
    requires WellFormed(a.dom) && n in a.dom.tree && Released(a, b, Subtree(a.dom.tree, n))
    ensures Confined(a.dom, b.dom, n) && LocalLog(a.dom, b.dom, n) && b.dom.tree == a.dom.tree && b.dom.log == a.dom.log
  {
    hide TreeOk;
    assert Since(a.dom, b.dom) == [];
  }

  lemma ReplacedCount(d: Document, e: Document, f: Document, el: NodeId, n: NodeId, r: NodeId, v: VNode, bound: NodeId)
    requires Built(d, e, r, v) && el < bound <= d.next && f.log == e.log + [Replaced(el, n, r)]
    ensures d.log <= f.log && Count(Since(d, f), bound) == Tally(0, 0, 0, 1, 0)
  {
    hide Built, Count;
    BuiltLog(d, e, r, v, bound);
    OneMore(d, e, f, Replaced(el, n, r), bound);
  }

  /** After the release the built node is detached and shows `v`, and everything else hangs as it did. */
  lemma ReleasedForSwap(d: Document, a: Snapshot, b: Snapshot, el: NodeId, n: NodeId, r: NodeId, v: VNode)
    requires WellFormed(d) && WellFormed(a.dom) && WellFormed(b.dom) && Built(d, a.dom, r, v) && !v.Fragment?
    requires n in d.tree && el in d.tree && el in d.data && IsChild(d, el, n)
    requires Released(a, b, Subtree(a.dom.tree, n))
    ensures Confined(d, b.dom, n) && LocalLog(d, b.dom, n) && SameNode(d, b.dom, el) && n in b.dom.tree
            && r in b.dom.tree
    ensures r in b.dom.data && r >= d.next && r !in d.tree && el < r && b.dom.tree[r].parent == None
    ensures !b.dom.data[r].kind.FragmentNode? && Shows(b.dom, r, v) && b.dom.tree == a.dom.tree
            && b.dom.log == a.dom.log
  {
    hide WellFormed, Matches, Built, Confined, LocalLog, Released, NoAnchors;
    BuiltConfined(d, a.dom, n, r, v);
    SwapReady(d, a.dom, el, n);
    ReleasedFrame(a, b, n);
    ConfinedTrans(d, a.dom, b.dom, n);
    ConfinedGrows(a.dom, b.dom, n);
    LocalTrans(d, a.dom, b.dom, n);
    BuiltSurvivesRelease(d, d, a, b, n, r, v);
    ParentOutside(d, b.dom, el, n);
  }

  /** Swapping it in replaces the head of the list. */
  lemma HeadReplaced(d: Document, a: Snapshot, b: Snapshot, el: NodeId, n: NodeId, r: NodeId, v: VNode,
                     done: seq<NodeId>, rest: seq<NodeId>, base: Document)
    requires WellFormed(d) && WellFormed(a.dom) && WellFormed(b.dom) && Built(d, a.dom, r, v) && !v.Fragment?
    requires Setting(d, el, done, rest, base) && rest != [] && rest[0] == n
    requires Released(a, b, Subtree(a.dom.tree, n))
    ensures el in b.dom.tree && n in b.dom.tree && r in b.dom.tree && el < r && b.dom.tree[r].parent == None
    ensures !b.dom.data[r].kind.FragmentNode?
    ensures Repaired(d, ReplaceChild(b.dom, el, r, n).0, el, done, rest, [v], [r], rest[1..], REPLACE, base)
  {
    hide WellFormed, Matches, Conforms, Built, ReplaceChild, Repaired, KidStep, Count, Confined, LocalLog, Released,
         StepMutation, AllOld;
    HeadFacts(d, el, done, rest, base);
    ReleasedForSwap(d, a, b, el, n, r, v);
    ReplaceStep(d, b.dom, el, r, n, done, rest[1..]);
    var f := ReplaceChild(b.dom, el, r, n).0;
    MatchesFrame(b.dom, f, r, v, false);
    ShowsConforms(f, r, v, base);
    Replacing(b.dom, el, r, n, done, rest[1..]);
    ReplacedCount(d, a.dom, f, el, n, r, v, base.next);
    ReplaceKeeps(d, a.dom, b.dom, f, el, n, r, v);
    OneRepaired(d, f, el, Some(n), done, rest, v, r, rest[1..], REPLACE, base);
  }

  /** Replaces the head of `rest` by a node built for `v`, releasing its resources first. */
  method ReplaceDomNode(rt: Runtime, el: NodeId, n: NodeId, v: VNode, ghost done: seq<NodeId>, ghost rest: seq<NodeId>,
                        ghost base: Document) returns (r: NodeId)
    requires rt.Valid() && Setting(rt.dom, el, done, rest, base) && Plain(v) && !v.Fragment?
    requires rest != [] && rest[0] == n
    modifies rt
    ensures rt.Valid()
    ensures Repaired(old(rt.dom), rt.dom, el, done, rest, [v], [r], rest[1..], REPLACE, base)
  {
    hide WellFormed, EventsAgree, EffectsAgree, RegionsAgree, Issued, CellsExist, Numbered, Plain, Built, ReplaceChild,
         Repaired, Confined, LocalLog, Released, Setting;
    ghost var d := rt.dom;
    HeadFacts(d, el, done, rest, base);
    r := CreateDomNode(rt, v);
    ghost var built := Now(rt);
    BuiltConfined(d, built.dom, n, r, v);
    SwapReady(d, built.dom, el, n);
    ReleaseDomNodeResources(rt, n);
    ReleasedTree(built, Now(rt), Subtree(rt.dom.tree, n));
    HeadReplaced(d, built, Now(rt), el, n, r, v, done, rest, base);
    rt.dom := ReplaceChild(rt.dom, el, r, n).0;
  }
}
