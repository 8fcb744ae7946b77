/**
 * What hydration will do to a child list, read off the starting tree: a reference for the walk,
 * which moves through a live list that it repairs as it goes.
 */
module HydrationPlan {
  import opened Prelude
  import opened VirtualDom
  import opened Dom
  import opened Rendering
  import opened Adoption

  /** The exact counts, and the nodes no vnode turned to. */
  datatype Plan = Plan(stats: Stats, left: seq<NodeId>)

  const KEEP := Stats(1, 0, 0, 0, 0, 0, 0)
  const REPLACE := Stats(1, 1, 0, 0, 0, 0, 0)
  const APPEND := Stats(1, 0, 1, 0, 0, 0, 0)
  const PATCH := Stats(1, 0, 0, 0, 0, 1, 0)

  lemma {:induction false} WeightConcat(a: seq<VNode>, b: seq<VNode>)
    ensures WeightAll(a + b) == WeightAll(a) + WeightAll(b)
  {
    hide Weight;
    if a == [] {
      assert a + b == b;
    } else {
      assert (a + b)[1..] == a[1..] + b && (a + b)[0] == a[0];
      WeightConcat(a[1..], b);
    }
  }

  lemma {:induction false} FlattenWeight(vs: seq<VNode>)
    ensures WeightAll(Flatten(vs)) <= WeightAll(vs)
    decreases WeightAll(vs)
  {
    if vs != [] {
      FlattenWeight(vs[1..]);
      if vs[0].Fragment? {
        assert Weight(vs[0]) == 1 + WeightAll(vs[0].nodes);
        FlattenWeight(vs[0].nodes);
        WeightConcat(Flatten(vs[0].nodes), Flatten(vs[1..]));
      } else {
        WeightConcat([vs[0]], Flatten(vs[1..]));
        assert [vs[0]][1..] == [];
      }
    }
  }

  /** `rest` with the node hydration turns to for `v` in front. */
  ghost function InFront(d: Document, rest: seq<NodeId>, v: VNode): seq<NodeId> {
    if rest == [] then []
    else
      var t := Target(d, rest, v);
      [rest[t]] + DropAt(rest, t)
  }

  /** A node without the marker is taken instead: one that carries another is counted. */
  function OddMarker(marker: Option<string>): Stats {
    if marker.Some? then Stats(0, 0, 0, 0, 0, 0, 1) else NO_STATS
  }

  /** Getting it there: a move, or a marker on the node taken instead that disagrees. */
  ghost function AlignCount(d: Document, rest: seq<NodeId>, v: VNode): Stats {
    if rest == [] || KeyOf(v) == None then NO_STATS
    else if Target(d, rest, v) > 0 then Stats(0, 0, 0, 0, 1, 0, 0)
    else if MarkerOf(d, rest[0]) != KeyOf(v) then OddMarker(MarkerOf(d, rest[0]))
    else NO_STATS
  }

  /** What becomes of `v` when the head of `rest` is the node to turn to. */
  ghost function PlanOne(d: Document, rest: seq<NodeId>, v: VNode): Plan
    decreases Weight(v), 0
  {
    match v
    case Text(text) =>
      if rest == [] then Plan(APPEND, [])
      else if rest[0] !in d.data || !d.data[rest[0]].kind.TextNode? then Plan(REPLACE, rest[1..])
      else Plan(if d.data[rest[0]].text == text then KEEP else PATCH, rest[1..])
    case Comment(_) =>
      if rest != [] && rest[0] in d.data && d.data[rest[0]].kind.CommentNode? then Plan(KEEP, rest[1..])
      else Plan(APPEND, rest)
    case Element(tag, _, children, _) =>
      if rest == [] then Plan(APPEND, [])
      else if IsElement(d, rest[0]) && Lower(d.data[rest[0]].kind.tag) == Lower(tag) && rest[0] in d.tree then
        if RawTag(tag) then Plan(KEEP, rest[1..])
        else
          FlattenWeight(children);
          Plan(PlanList(d, d.tree[rest[0]].kids, Flatten(children)).(consumed := 1), rest[1..])
      else Plan(REPLACE, rest[1..])
    case Fragment(_) => Plan(NO_STATS, rest)
  }

  /** What becomes of `vs`, one after the other. */
  ghost function PlanEach(d: Document, rest: seq<NodeId>, vs: seq<VNode>): Plan
    decreases WeightAll(vs), 1
  {
    if vs == [] then Plan(NO_STATS, rest)
    else
      var one := PlanOne(d, InFront(d, rest, vs[0]), vs[0]);
      var more := PlanEach(d, one.left, vs[1..]);
      Plan(one.stats.Merge(AlignCount(d, rest, vs[0])).Merge(more.stats), more.left)
  }

  /** The counts of hydrating a whole child list, extras removed. */
  ghost function PlanList(d: Document, kids: seq<NodeId>, vs: seq<VNode>): Stats
    decreases WeightAll(vs), 2
  {
    var p := PlanEach(d, kids, vs);
    p.stats.(removals := p.stats.removals + |p.left|)
  }

  // --- Composition and framing ---

  lemma PlanSingle(d: Document, rest: seq<NodeId>, v: VNode)
    ensures var one := PlanOne(d, InFront(d, rest, v), v);
            PlanEach(d, rest, [v]) == Plan(one.stats.Merge(AlignCount(d, rest, v)), one.left)
  {
    hide PlanOne, InFront, AlignCount;
    assert [v][1..] == [];
  }

  lemma PlanStep(d: Document, rest: seq<NodeId>, v: VNode, vs: seq<VNode>)
    ensures var one := PlanOne(d, InFront(d, rest, v), v);
            var more := PlanEach(d, one.left, vs);
            PlanEach(d, rest, [v] + vs) == Plan(one.stats.Merge(AlignCount(d, rest, v)).Merge(more.stats), more.left)
  {
    hide PlanOne, InFront, AlignCount;
    assert ([v] + vs)[1..] == vs;
  }

  lemma MergeAssociates(s: Stats, t: Stats, u: Stats)
    ensures s.Merge(t).Merge(u) == s.Merge(t.Merge(u)) && NO_STATS.Merge(s) == s
  {
  }

  lemma {:induction false} PlanConcat(d: Document, rest: seq<NodeId>, a: seq<VNode>, b: seq<VNode>)
    ensures var p := PlanEach(d, rest, a);
            var q := PlanEach(d, p.left, b);
            PlanEach(d, rest, a + b) == Plan(p.stats.Merge(q.stats), q.left)
    decreases |a|
  {
    if a == [] {
      assert a + b == b;
      MergeAssociates(PlanEach(d, rest, b).stats, NO_STATS, NO_STATS);
    } else {
      hide PlanOne, InFront, AlignCount, PlanEach;
      var v, vs := a[0], a[1..];
      assert a == [v] + vs && a + b == [v] + (vs + b);
      var one := PlanOne(d, InFront(d, rest, v), v);
      PlanStep(d, rest, v, vs);
      PlanStep(d, rest, v, vs + b);
      PlanConcat(d, one.left, vs, b);
      var p := PlanEach(d, one.left, vs);
      MergeAssociates(one.stats.Merge(AlignCount(d, rest, v)), p.stats, PlanEach(d, p.left, b).stats);
    }
  }

  ghost predicate Undisturbed(d: Document, e: Document, rest: seq<NodeId>) {
    forall x :: x in rest ==> x in d.tree && SameBelow(d, e, x)
  }

  lemma FrontAndLeft(d: Document, e: Document, rest: seq<NodeId>, v: VNode)
    requires Undisturbed(d, e, rest)
    ensures Undisturbed(d, e, InFront(d, rest, v)) && Undisturbed(d, e, PlanOne(d, InFront(d, rest, v), v).left)
  {
    hide SameBelow, Target, PlanList;
    var front := InFront(d, rest, v);
    if rest != [] {
      var t := Target(d, rest, v);
      forall x | x in front ensures x in rest {
        assert x == rest[t] || x in rest[..t] || x in rest[t + 1..];
      }
    }
    assert PlanOne(d, front, v).left in {[], front} || (front != [] && PlanOne(d, front, v).left == front[1..]);
  }

  lemma SameTarget(d: Document, e: Document, rest: seq<NodeId>, v: VNode)
    requires Undisturbed(d, e, rest)
    ensures Target(e, rest, v) == Target(d, rest, v) && InFront(e, rest, v) == InFront(d, rest, v)
    ensures AlignCount(e, rest, v) == AlignCount(d, rest, v)
  {
    hide SameBelow, MarkerOf, FirstMarked;
    forall i | 0 <= i < |rest| ensures rest[i] in d.tree && SameBelow(d, e, rest[i]) {
      assert rest[i] in rest;
    }
    if KeyOf(v).Some? {
      SameFirstMarked(d, e, rest, KeyOf(v).value);
    }
    if rest != [] {
      SameMarker(d, e, rest[0]);
    }
  }

  lemma {:induction false} PlanOneFrame(d: Document, e: Document, rest: seq<NodeId>, v: VNode)
    requires WellFormed(d) && WellFormed(e) && Undisturbed(d, e, rest)
    ensures PlanOne(e, rest, v) == PlanOne(d, rest, v)
    decreases Weight(v), 0
  {
    hide PlanEach, SameBelow, WellFormed, RawTag, PlanList;
    if rest != [] {
      assert rest[0] in rest;
      SameRecord(d, e, rest[0]);
      if v.Element? && IsElement(d, rest[0]) && !RawTag(v.tag) {
        FlattenWeight(v.children);
        PlanListFrame(d, e, d.tree[rest[0]].kids, Flatten(v.children));
      }
    }
  }

  lemma SameRecord(d: Document, e: Document, x: NodeId)
    requires WellFormed(d) && WellFormed(e) && x in d.tree && SameBelow(d, e, x)
    ensures x in d.data && x in e.data && e.data[x] == d.data[x] && x in e.tree && e.tree[x].kids == d.tree[x].kids
    ensures Undisturbed(d, e, d.tree[x].kids)
  {
    assert Under(d.tree, x, x);
    forall k | k in d.tree[x].kids ensures k in d.tree && SameBelow(d, e, k) {
      assert LinksOk(d.tree, x);
      SameBelowKid(d, e, x, k);
    }
  }

  lemma {:induction false} PlanEachFrame(d: Document, e: Document, rest: seq<NodeId>, vs: seq<VNode>)
    requires WellFormed(d) && WellFormed(e) && Undisturbed(d, e, rest)
    ensures PlanEach(e, rest, vs) == PlanEach(d, rest, vs)
    decreases WeightAll(vs), 1
  {
    hide PlanOne, SameBelow, WellFormed, InFront, AlignCount, Undisturbed;
    if vs != [] {
      SameTarget(d, e, rest, vs[0]);
      FrontAndLeft(d, e, rest, vs[0]);
      PlanOneFrame(d, e, InFront(d, rest, vs[0]), vs[0]);
      PlanEachFrame(d, e, PlanOne(d, InFront(d, rest, vs[0]), vs[0]).left, vs[1..]);
    }
  }

  lemma PlanListFrame(d: Document, e: Document, kids: seq<NodeId>, vs: seq<VNode>)
    requires WellFormed(d) && WellFormed(e) && Undisturbed(d, e, kids)
    ensures PlanList(e, kids, vs) == PlanList(d, kids, vs)
    decreases WeightAll(vs), 2
  {
    hide PlanEach, SameBelow, WellFormed;
    PlanEachFrame(d, e, kids, vs);
  }

  // --- Moves and disagreeing markers ---

  predicate Carries(d: Document, n: NodeId, id: string) {
    MarkerOf(d, n) == Some(id)
  }

  /** Some node of `rest` carries marker `id`. */
  ghost predicate Carried(d: Document, rest: seq<NodeId>, id: string) {
    exists i :: 0 <= i < |rest| && Carries(d, rest[i], id)
  }

  lemma MarkedFirst(d: Document, rest: seq<NodeId>, id: string)
    requires rest != []
    ensures FirstMarked(d, rest, id).Some? <==> Carried(d, rest, id)
    ensures FirstMarked(d, rest, id).Some? ==> (FirstMarked(d, rest, id).value == 0 <==> Carries(d, rest[0], id))
  {
    hide MarkerOf;
    var r := FirstMarked(d, rest, id);
    if r.Some? {
      assert Carries(d, rest[r.value], id);
    }
  }

  /**
   * Getting the node for `v` to the front counts a move exactly when another than the head carries
   * the marker, and a disagreement exactly when none does and the head carries some other.
   */
  lemma AlignmentCounted(d: Document, rest: seq<NodeId>, v: VNode)
    ensures AlignCount(d, rest, v) ==
            match KeyOf(v)
            case None => NO_STATS
            case Some(id) =>
              if rest == [] then NO_STATS
              else if Carried(d, rest, id) then
                if Carries(d, rest[0], id) then NO_STATS else Stats(0, 0, 0, 0, 1, 0, 0)
              else if MarkerOf(d, rest[0]).Some? then Stats(0, 0, 0, 0, 0, 0, 1)
              else NO_STATS
  {
    hide MarkerOf, KeyOf, FirstMarked, Carried, Carries;
    if rest != [] && KeyOf(v).Some? {
      var id := KeyOf(v).value;
      MarkedFirst(d, rest, id);
      if FirstMarked(d, rest, id).None? {
        HeadOdd(d, rest, v);
      } else if Target(d, rest, v) == 0 {
        HeadCarries(d, rest, v);
      }
    }
  }

  lemma HeadOdd(d: Document, rest: seq<NodeId>, v: VNode)
    requires rest != [] && KeyOf(v).Some? && FirstMarked(d, rest, KeyOf(v).value).None?
    ensures AlignCount(d, rest, v) == OddMarker(MarkerOf(d, rest[0]))
  {
    hide MarkerOf, KeyOf, FirstMarked, OddMarker;
  }

  lemma HeadCarries(d: Document, rest: seq<NodeId>, v: VNode)
    requires rest != [] && KeyOf(v).Some? && FirstMarked(d, rest, KeyOf(v).value) == Some(0)
    ensures AlignCount(d, rest, v) == NO_STATS
  {
    hide MarkerOf, KeyOf, FirstMarked, OddMarker;
  }

  /** Nothing at or below the nodes of `rest` carries a marker. */
  ghost predicate MarkerFree(d: Document, rest: seq<NodeId>) {
    forall x :: x in rest ==> x in d.tree && forall y :: y in d.tree && Under(d.tree, x, y) ==> MarkerOf(d, y) == None
  }

  /** Markup without markers is taken in the order it stands: no move, and no disagreement. */
  lemma {:induction false} UnmarkedInOrder(d: Document, rest: seq<NodeId>, vs: seq<VNode>)
    requires WellFormed(d) && MarkerFree(d, rest)
    ensures var s := PlanEach(d, rest, vs).stats; s.reorders == 0 && s.markerMismatches == 0
    decreases WeightAll(vs), 1
  {
    hide PlanOne, WellFormed, InFront, AlignCount, MarkerFree, MarkerOf;
    if vs != [] {
      HeadUnmarked(d, rest, vs[0]);
      var one := PlanOne(d, InFront(d, rest, vs[0]), vs[0]);
      UnmarkedOne(d, InFront(d, rest, vs[0]), vs[0]);
      UnmarkedInOrder(d, one.left, vs[1..]);
    }
  }

  lemma HeadUnmarked(d: Document, rest: seq<NodeId>, v: VNode)
    requires MarkerFree(d, rest)
    ensures AlignCount(d, rest, v) == NO_STATS && InFront(d, rest, v) == rest
    ensures MarkerFree(d, PlanOne(d, rest, v).left)
  {
    NoneCarried(d, rest);
    hide MarkerFree, MarkerOf, KeyOf;
    InPlaceUnmarked(d, rest, v);
    OneLeft(d, rest, v);
    TailUnmarked(d, rest);
  }

  lemma NoneCarried(d: Document, rest: seq<NodeId>)
    requires MarkerFree(d, rest)
    ensures forall i :: 0 <= i < |rest| ==> MarkerOf(d, rest[i]) == None
  {
    hide MarkerOf;
    forall i | 0 <= i < |rest| ensures MarkerOf(d, rest[i]) == None {
      assert rest[i] in rest && Under(d.tree, rest[i], rest[i]);
    }
  }

  lemma InPlaceUnmarked(d: Document, rest: seq<NodeId>, v: VNode)
    requires forall i :: 0 <= i < |rest| ==> MarkerOf(d, rest[i]) == None
    ensures AlignCount(d, rest, v) == NO_STATS && InFront(d, rest, v) == rest
  {
    hide MarkerOf, KeyOf;
    if rest != [] {
      assert DropAt(rest, 0) == rest[1..];
    }
  }

  lemma OneLeft(d: Document, rest: seq<NodeId>, v: VNode)
    ensures var left := PlanOne(d, rest, v).left; left == [] || left == rest || (rest != [] && left == rest[1..])
  {
    hide PlanList;
  }

  lemma TailUnmarked(d: Document, rest: seq<NodeId>)
    requires MarkerFree(d, rest)
    ensures MarkerFree(d, []) && (rest != [] ==> MarkerFree(d, rest[1..]))
  {
    hide MarkerOf;
  }

  lemma {:induction false} UnmarkedOne(d: Document, rest: seq<NodeId>, v: VNode)
    requires WellFormed(d) && MarkerFree(d, rest)
    ensures var s := PlanOne(d, rest, v).stats; s.reorders == 0 && s.markerMismatches == 0
    decreases Weight(v), 0
  {
    hide PlanEach, WellFormed, RawTag, MarkerOf, Flatten;
    if v.Element? && rest != [] && IsElement(d, rest[0]) && rest[0] in d.tree {
      FlattenWeight(v.children);
      KidsUnmarked(d, rest, rest[0]);
      UnmarkedInOrder(d, d.tree[rest[0]].kids, Flatten(v.children));
    }
  }

  lemma KidsUnmarked(d: Document, rest: seq<NodeId>, n: NodeId)
    requires WellFormed(d) && MarkerFree(d, rest) && n in rest && n in d.tree
    ensures MarkerFree(d, d.tree[n].kids)
  {
    hide MarkerOf;
    assert LinksOk(d.tree, n);
    forall k, y | k in d.tree[n].kids && y in d.tree && Under(d.tree, k, y) ensures MarkerOf(d, y) == None {
      UnderKid(d, n, k, y);
    }
  }

  // --- Lists that need no repair beyond moves ---

  lemma {:induction false} ReadyPlan(d: Document, rest: seq<NodeId>, v: VNode)
    requires rest != [] && Ready(d, rest[0], v)
    ensures PlanOne(d, rest, v) == Plan(KEEP, rest[1..])
    decreases Weight(v), 0
  {
    hide PlanEach, Quiet, Order, Left, Moves, PlanList;
    if v.Element? && !RawTag(v.tag) {
      var flat, kids := Flatten(v.children), d.tree[rest[0]].kids;
      FlattenWeight(v.children);
      forall i | 0 <= i < |flat| ensures Ready(d, kids[i], flat[i]) {
      }
      ReadyQuiet(d, kids, flat);
      QuietPlanList(d, kids, flat);
    }
  }

  /** If every vnode finds a node that is ready for it, the plan is to move them and nothing else. */
  lemma {:induction false} QuietPlan(d: Document, rest: seq<NodeId>, vs: seq<VNode>)
    requires Quiet(d, rest, vs)
    ensures PlanEach(d, rest, vs) == Plan(Stats(|vs|, 0, 0, 0, Moves(d, rest, vs), 0, 0), Left(d, rest, vs))
    decreases WeightAll(vs), 1
  {
    WeightSplit(vs);
    hide PlanOne, Ready, Target, PlanEach, Quiet, Moves, Left, InFront, AlignCount, DropAt, Weight, WeightAll,
        KeyOf, Stats.Merge;
    QuietUnfolded(d, rest, vs);
    if vs == [] {
      NothingPlanned(d, rest);
    } else {
      var v, later := vs[0], vs[1..];
      ReadyInFront(d, rest, v);
      ReadyPlan(d, InFront(d, rest, v), v);
      QuietPlan(d, DropAt(rest, Target(d, rest, v)), later);
      assert vs == [v] + later;
      PlanStep(d, rest, v, later);
      MergeMoves(|later|, if Target(d, rest, v) > 0 then 1 else 0, Moves(d, DropAt(rest, Target(d, rest, v)), later));
    }
  }

  lemma MergeMoves(n: nat, a: nat, m: nat)
    ensures KEEP.Merge(Stats(0, 0, 0, 0, a, 0, 0)).Merge(Stats(n, 0, 0, 0, m, 0, 0))
         == Stats(n + 1, 0, 0, 0, a + m, 0, 0)
  {
  }

  lemma ReadyInFront(d: Document, rest: seq<NodeId>, v: VNode)
    requires rest != [] && Ready(d, rest[Target(d, rest, v)], v)
    ensures var t, front := Target(d, rest, v), InFront(d, rest, v);
            && front != [] && front[0] == rest[t] && front[1..] == DropAt(rest, t)
            && AlignCount(d, rest, v) == Stats(0, 0, 0, 0, if t > 0 then 1 else 0, 0, 0)
  {
    hide Ready, MarkerOf, FirstMarked;
    ReadyMarked(d, rest[Target(d, rest, v)], v);
  }

  lemma WeightSplit(vs: seq<VNode>)
    ensures vs != [] ==> WeightAll(vs) == Weight(vs[0]) + WeightAll(vs[1..]) && Weight(vs[0]) > 0
  {
  }

  lemma NothingPlanned(d: Document, rest: seq<NodeId>)
    ensures PlanEach(d, rest, []) == Plan(NO_STATS, rest)
  {
  }

  lemma QuietUnfolded(d: Document, rest: seq<NodeId>, vs: seq<VNode>)
    requires Quiet(d, rest, vs)
    ensures vs == [] ==> Moves(d, rest, vs) == 0 && Left(d, rest, vs) == rest
    ensures vs != [] ==>
              && rest != []
              && var t := Target(d, rest, vs[0]);
              && Ready(d, rest[t], vs[0]) && Quiet(d, DropAt(rest, t), vs[1..])
              && Moves(d, rest, vs) == (if t > 0 then 1 else 0) + Moves(d, DropAt(rest, t), vs[1..])
              && Left(d, rest, vs) == Left(d, DropAt(rest, t), vs[1..])
  {
    hide Ready, Target;
  }

  lemma QuietPlanList(d: Document, kids: seq<NodeId>, vs: seq<VNode>)
    requires Quiet(d, kids, vs)
    ensures PlanList(d, kids, vs) == Stats(|vs|, 0, 0, |Left(d, kids, vs)|, Moves(d, kids, vs), 0, 0)
    decreases WeightAll(vs), 2
  {
    hide PlanEach;
    QuietPlan(d, kids, vs);
  }
}
