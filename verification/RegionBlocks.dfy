/** The blocks regions occupy among their siblings, and what a change to one block leaves alone. */
module RegionBlocks {
  import opened Prelude
  import opened VirtualDom
  import opened Dom
  import opened Resources
  import opened Rendering
  import opened Confinement
  import opened PatchSteps
  import opened RegionRuns

  // --- Blocks ---

  /** The nodes a region occupies in its parent: its run and, once it has one, its anchor. */
  function Block(c: RegionCells): seq<NodeId> {
    c.rendered + (if c.anchor.Some? then [c.anchor.value] else [])
  }

  /** A run without an anchor, seen as one anchored by its own last node. */
  function Braced(c: RegionCells): RegionCells {
    if c.anchor.Some? || c.rendered == [] then c
    else c.(rendered := c.rendered[..|c.rendered| - 1], anchor := Some(c.rendered[|c.rendered| - 1]))
  }

  /** The region's nodes are contiguous in an element, the anchor, if any, last. */
  ghost predicate Standing(d: Document, c: RegionCells) {
    Anchored(d, Braced(c))
  }

  ghost function Host(d: Document, c: RegionCells): NodeId
    requires Standing(d, c)
  {
    ParentOf(d, Braced(c))
  }

  lemma StandingSplit(d: Document, c: RegionCells) returns (p: seq<NodeId>, q: seq<NodeId>)
    requires WellFormed(d) && Standing(d, c)
    ensures Block(c) != [] && Host(d, c) in d.tree && IsElement(d, Host(d, c))
    ensures d.tree[Host(d, c)].kids == p + Block(c) + q
    ensures forall x :: x in Block(c) ==> x in d.tree && IsChild(d, Host(d, c), x)
  {
    var b := Braced(c);
    RegionParent(d, b);
    hide Anchored, ParentOf, BeforeRun, AfterRun;
    AnchoredSplit(d, b);
    p, q := BeforeRun(d, b), AfterRun(d, b);
    assert Block(c) == b.rendered + [b.anchor.value];
    Reassociated(p, b.rendered, b.anchor.value, q);
    AllKids(d, Host(d, c), p, Block(c), q);
  }

  lemma Reassociated(p: seq<NodeId>, ns: seq<NodeId>, a: NodeId, q: seq<NodeId>)
    ensures p + ns + ([a] + q) == p + (ns + [a]) + q
  {
  }

  lemma AllKids(d: Document, el: NodeId, p: seq<NodeId>, b: seq<NodeId>, q: seq<NodeId>)
    requires WellFormed(d) && el in d.tree && d.tree[el].kids == p + b + q
    ensures forall x :: x in b ==> x in d.tree && IsChild(d, el, x)
  {
    assert LinksOk(d.tree, el);
    assert forall x :: x in b ==> x in p + b + q;
  }

  lemma SplitStanding(d: Document, c: RegionCells, el: NodeId, p: seq<NodeId>, q: seq<NodeId>)
    requires WellFormed(d) && IsElement(d, el) && el in d.tree
    requires Block(c) != [] && d.tree[el].kids == p + Block(c) + q
    ensures Standing(d, c) && Host(d, c) == el
  {
    var b := Braced(c);
    assert Block(c) == b.rendered + [b.anchor.value];
    assert p + Block(c) + q == p + b.rendered + ([b.anchor.value] + q);
    SplitAnchored(d, b, el, b.anchor.value, p, q);
  }

  /** No node of either region is, or is below, a run node of the other. */
  ghost predicate Separate(d: Document, c1: RegionCells, c2: RegionCells) {
    && Outside(d, c1, c2) && Outside(d, c2, c1)
    && (c1.anchor.Some? ==> c1.anchor != c2.anchor)
  }

  ghost predicate Outside(d: Document, c1: RegionCells, c2: RegionCells) {
    forall x, y :: x in c1.rendered && y in Block(c2) ==> !Under(d.tree, x, y)
  }

  // --- Registered regions ---

  /** A region that waits for its first update with a run to be anchored after. */
  ghost predicate WaitingOk(d: Document, regions: map<nat, RegionId>, c: RegionCells) {
    && c.anchor == None && Standing(d, c) && TracksCurrent(d, c)
    && forall n :: n in c.rendered ==> NoAnchors(d, regions, n)
  }

  /** Two different regions in order are separate. */
  lemma RegisteredSeparate(d: Document, regions: map<nat, RegionId>, id1: nat, c1: RegionCells, id2: nat,
                           c2: RegionCells)
    requires WellFormed(d) && RegionOk(d, regions, id1, c1) && RegionOk(d, regions, id2, c2)
    requires id1 in regions && id2 in regions && id1 != id2
    ensures Separate(d, c1, c2)
  {
    hide NoAnchors, TracksCurrent, RegionOk, WellFormed;
    forall x, y | x in c1.rendered && y in Block(c2) ensures !Under(d.tree, x, y) {
      RegisteredOutside(d, regions, id1, c1, id2, c2, x, y);
    }
    forall x, y | x in c2.rendered && y in Block(c1) ensures !Under(d.tree, x, y) {
      RegisteredOutside(d, regions, id2, c2, id1, c1, x, y);
    }
    AnchorsDiffer(d, regions, id1, c1, id2, c2);
  }

  lemma AnchorsDiffer(d: Document, regions: map<nat, RegionId>, id1: nat, c1: RegionCells, id2: nat, c2: RegionCells)
    requires RegionOk(d, regions, id1, c1) && RegionOk(d, regions, id2, c2) && id1 != id2
    ensures c1.anchor.Some? && c2.anchor.Some? && c1.anchor != c2.anchor
  {
  }

  lemma AnchorNotInside(d: Document, regions: map<nat, RegionId>, id: nat, c: RegionCells, c1: RegionCells)
    requires RegionOk(d, regions, id, c) && id in regions
    requires forall n :: n in c1.rendered ==> NoAnchors(d, regions, n)
    ensures c.anchor.Some? && forall n :: n in c1.rendered ==> !Under(d.tree, n, c.anchor.value)
  {
    hide TracksCurrent;
  }

  lemma RegionStands(d: Document, regions: map<nat, RegionId>, id: nat, c: RegionCells)
    requires RegionOk(d, regions, id, c)
    ensures Anchored(d, c) && Standing(d, c) && c.anchor.Some? && c.anchor.value in d.data
    ensures d.data[c.anchor.value].kind.CommentNode?
  {
    hide NoAnchors, TracksCurrent;
  }

  lemma RegisteredOutside(d: Document, regions: map<nat, RegionId>, id1: nat, c1: RegionCells, id2: nat,
                          c2: RegionCells, x: NodeId, y: NodeId)
    requires WellFormed(d) && RegionOk(d, regions, id1, c1) && RegionOk(d, regions, id2, c2)
    requires id1 in regions && id2 in regions && id1 != id2 && x in c1.rendered && y in Block(c2)
    ensures !Under(d.tree, x, y)
  {
    hide NoAnchors, TracksCurrent, WellFormed, Anchored, ParentOf, BeforeRun, AfterRun;
    AnchorNotInside(d, regions, id2, c2, c1);
    if y in c2.rendered {
      AnchorNotInside(d, regions, id1, c1, c2);
      AnchorsDiffer(d, regions, id1, c1, id2, c2);
      RunsApart(d, c1, c2, x, y);
    }
  }

  lemma RunsApart(d: Document, c1: RegionCells, c2: RegionCells, x: NodeId, y: NodeId)
    requires WellFormed(d) && Anchored(d, c1) && Anchored(d, c2) && x in c1.rendered && y in c2.rendered
    requires c1.anchor != c2.anchor
    requires forall n :: n in c1.rendered ==> !Under(d.tree, n, c2.anchor.value)
    requires forall n :: n in c2.rendered ==> !Under(d.tree, n, c1.anchor.value)
    ensures !Under(d.tree, x, y)
  {
    var p1, q1 := StandingSplit(d, c1);
    var p2, q2 := StandingSplit(d, c2);
    var el := Host(d, c2);
    assert y in Block(c2) && x in Block(c1) && c2.anchor.value in Block(c2);
    if Under(d.tree, x, y) {
      if x != y {
        UnderTransitive(d.tree, x, el, c2.anchor.value);
      } else {
        RunsShareNothing(d.tree[el].kids, p1, c1.rendered, c1.anchor.value, q1, p2, c2.rendered, c2.anchor.value,
                         q2, x);
      }
      assert false;
    }
  }

  /** Two runs in one list, neither holding the end mark of the other, share nothing. */
  lemma RunsShareNothing(kids: seq<NodeId>, p1: seq<NodeId>, r1: seq<NodeId>, a1: NodeId, q1: seq<NodeId>,
                         p2: seq<NodeId>, r2: seq<NodeId>, a2: NodeId, q2: seq<NodeId>, x: NodeId)
    requires kids == p1 + (r1 + [a1]) + q1 && kids == p2 + (r2 + [a2]) + q2 && Distinct(kids)
    requires a1 !in r2 && a2 !in r1 && a1 != a2
    ensures x in r1 ==> x !in r2
  {
    var i1, i2 := |p1| + |r1|, |p2| + |r2|;
    assert kids[i1] == a1 && kids[i2] == a2;
    assert forall k {:trigger kids[k]} :: |p1| <= k < i1 ==> kids[k] == r1[k - |p1|];
    assert forall k {:trigger kids[k]} :: |p2| <= k < i2 ==> kids[k] == r2[k - |p2|];
    forall j1, j2 | 0 <= j1 < |r1| && 0 <= j2 < |r2| ensures r1[j1] != r2[j2] {
      assert kids[|p1| + j1] == r1[j1] && kids[|p2| + j2] == r2[j2];
    }
  }

  // --- A change to one block ---

  /**
   * The block of one region became that of `own'`, made of its own nodes and new ones. Nothing
   * else changed, except below its run.
   */
  ghost predicate BlockStep(d: Document, e: Document, el: NodeId, p: seq<NodeId>, q: seq<NodeId>, own: RegionCells,
                            own': RegionCells)
  {
    && e.rules == d.rules && Block(own) != []
    && el in d.tree && el in d.data && IsElement(d, el) && el in e.tree && el in e.data
    && e.data[el] == d.data[el] && e.tree[el].parent == d.tree[el].parent
    && d.tree[el].kids == p + Block(own) + q && e.tree[el].kids == p + Block(own') + q
    && (forall n :: n in own'.rendered ==> n in own.rendered || n !in d.tree)
    && own'.anchor.Some? && (own'.anchor == own.anchor || own'.anchor.value !in d.tree)
    && forall x :: x in d.tree && x != el && !UnderAny(d.tree, own.rendered, x) ==> SameNode(d, e, x)
  }

  lemma {:induction false} AboveKnown(d: Document, x: NodeId, y: NodeId)
    requires WellFormed(d) && y in d.tree && Under(d.tree, x, y)
    ensures x in d.tree
    decreases y
  {
    if x != y {
      assert LinksOk(d.tree, y);
      AboveKnown(d, x, d.tree[y].parent.value);
    }
  }

  /** What is outside the changed run keeps its ancestors. */
  lemma {:induction false} SameAncestors(d: Document, e: Document, el: NodeId, p: seq<NodeId>, q: seq<NodeId>,
                                         own: RegionCells, own': RegionCells, x: NodeId, y: NodeId)
    requires WellFormed(d) && WellFormed(e) && BlockStep(d, e, el, p, q, own, own')
    requires y in d.tree && !UnderAny(d.tree, own.rendered, y)
    ensures Under(e.tree, x, y) == Under(d.tree, x, y)
    decreases y
  {
    assert y != el ==> SameNode(d, e, y);
    if x != y && d.tree[y].parent.Some? {
      var z := d.tree[y].parent.value;
      assert LinksOk(d.tree, y) && LinksOk(d.tree, z) && y in e.tree && LinksOk(e.tree, y);
      assert LinksOk(e.tree, z);
      SameAncestors(d, e, el, p, q, own, own', x, z);
    }
  }

  /** The nodes of a separate region are outside the changed run and do not hold it. */
  lemma Bystander(d: Document, e: Document, el: NodeId, p: seq<NodeId>, q: seq<NodeId>, own: RegionCells,
                  own': RegionCells, c: RegionCells, y: NodeId)
    requires WellFormed(d) && BlockStep(d, e, el, p, q, own, own') && Standing(d, c) && Separate(d, own, c)
             && y in Block(c)
    ensures y in d.tree && !UnderAny(d.tree, own.rendered, y) && y !in Block(own)
    ensures y in c.rendered ==>
              && !Under(d.tree, y, el) && y != el
              && forall i :: 0 <= i < |own.rendered| ==> !Under(d.tree, y, own.rendered[i])
  {
    hide Standing, BlockStep, WellFormed;
    var p2, q2 := StandingSplit(d, c);
    StepKids(d, e, el, p, q, own, own');
    assert forall i :: 0 <= i < |own.rendered| ==> own.rendered[i] in own.rendered && own.rendered[i] in Block(own);
    if y in c.rendered && Under(d.tree, y, el) {
      var k := Block(own)[0];
      FirstUnder(d, el, p, Block(own), q);
      UnderTransitive(d.tree, y, el, k);
      assert false;
    }
  }

  lemma FirstUnder(d: Document, el: NodeId, p: seq<NodeId>, b: seq<NodeId>, q: seq<NodeId>)
    requires WellFormed(d) && el in d.tree && d.tree[el].kids == p + b + q && b != []
    ensures Under(d.tree, el, b[0])
  {
    assert LinksOk(d.tree, el);
    assert b[0] in b && b[0] in p + b + q;
  }

  /** A block that shares nothing with a segment lies wholly before or wholly after it. */
  lemma BlockAside(p: seq<NodeId>, ns: seq<NodeId>, q: seq<NodeId>, before: seq<NodeId>, b: seq<NodeId>,
                   after: seq<NodeId>)
    returns (m: seq<NodeId>, early: bool)
    requires p + ns + q == before + b + after && ns != [] && b != [] && forall x :: x in b ==> x !in ns
    ensures early ==> p == before + b + m
    ensures !early ==> q == m + b + after
  {
    var kids, i := p + ns + q, |before| + |b|;
    assert forall k {:trigger kids[k]} :: |p| <= k < |p| + |ns| ==> kids[k] in ns;
    assert forall k {:trigger kids[k]} :: |before| <= k < i ==> kids[k] in b;
    if i <= |p| {
      early, m := true, p[i..];
      assert p == kids[..|p|];
    } else {
      assert kids[if |before| <= |p| then |p| else |before|] in b;
      early, m := false, kids[|p| + |ns|..|before|];
      assert q == kids[|p| + |ns|..];
    }
  }

  lemma OtherStands(d: Document, e: Document, el: NodeId, p: seq<NodeId>, q: seq<NodeId>, own: RegionCells,
                    own': RegionCells, c: RegionCells)
    requires WellFormed(d) && WellFormed(e) && BlockStep(d, e, el, p, q, own, own') && Standing(d, c)
             && Separate(d, own, c)
    ensures Standing(e, c)
  {
    hide Anchored, SameNode, WellFormed, Block;
    var before, after := StandingSplit(d, c);
    forall x | x in Block(c) ensures x !in Block(own) {
      Bystander(d, e, el, p, q, own, own', c, x);
    }
    var el2 := Host(d, c);
    if el2 == el {
      hide BlockStep, Standing, Separate, Host;
      StepKids(d, e, el, p, q, own, own');
      var m, early := BlockAside(p, Block(own), q, before, Block(c), after);
      if early {
        assert p + Block(own') + q == before + Block(c) + (m + Block(own') + q);
        SplitStanding(e, c, el, before, m + Block(own') + q);
      } else {
        assert p + Block(own') + q == (p + Block(own') + m) + Block(c) + after;
        SplitStanding(e, c, el, p + Block(own') + m, after);
      }
    } else {
      HostKept(d, e, el, p, q, own, own', c, el2, Block(c)[0]);
      SplitStanding(e, c, el2, before, after);
    }
  }

  lemma StepKids(d: Document, e: Document, el: NodeId, p: seq<NodeId>, q: seq<NodeId>, own: RegionCells,
                 own': RegionCells)
    requires BlockStep(d, e, el, p, q, own, own')
    ensures Block(own) != [] && el in d.tree && el in e.tree && IsElement(e, el)
    ensures d.tree[el].kids == p + Block(own) + q && e.tree[el].kids == p + Block(own') + q
  {
  }

  lemma HostKept(d: Document, e: Document, el: NodeId, p: seq<NodeId>, q: seq<NodeId>, own: RegionCells,
                 own': RegionCells, c: RegionCells, el2: NodeId, y: NodeId)
    requires WellFormed(d) && BlockStep(d, e, el, p, q, own, own') && Standing(d, c) && Separate(d, own, c)
    requires y in Block(c) && IsChild(d, el2, y) && el2 != el && IsElement(d, el2)
    ensures el2 in d.tree && SameNode(d, e, el2) && el2 in e.tree && e.tree[el2] == d.tree[el2] && IsElement(e, el2)
  {
    hide Standing;
    Bystander(d, e, el, p, q, own, own', c, y);
    assert LinksOk(d.tree, y);
    assert LinksOk(d.tree, el2);
    forall i | 0 <= i < |own.rendered| ensures !Under(d.tree, own.rendered[i], el2) {
      assert !Under(d.tree, own.rendered[i], y);
    }
  }

  /** The run nodes of a separate region keep their subtrees. */
  lemma OtherSubtree(d: Document, e: Document, el: NodeId, p: seq<NodeId>, q: seq<NodeId>, own: RegionCells,
                     own': RegionCells, c: RegionCells, x: NodeId)
    requires WellFormed(d) && BlockStep(d, e, el, p, q, own, own') && Standing(d, c) && Separate(d, own, c)
             && x in c.rendered
    ensures x in d.tree && SameBelow(d, e, x)
    ensures forall y :: y in d.tree && Under(d.tree, x, y) ==> SameNode(d, e, y)
  {
    hide Standing, Separate;
    Bystander(d, e, el, p, q, own, own', c, x);
    forall y | y in d.tree && Under(d.tree, x, y) ensures SameNode(d, e, y) {
      forall i | 0 <= i < |own.rendered| ensures !Under(d.tree, own.rendered[i], y) {
        SubtreesApart(d.tree, x, own.rendered[i], y);
      }
    }
    KeysAgree(d);
  }

  /** Registering the region of a new node leaves the known ids unclaimed. */
  ghost predicate ClaimsNone(d: Document, regions: map<nat, RegionId>, regions': map<nat, RegionId>) {
    forall x :: x in d.data && d.data[x].regionId.Some? && d.data[x].regionId.value !in regions ==>
      d.data[x].regionId.value !in regions'
  }

  lemma SubtreeStaysPlain(d: Document, e: Document, regions: map<nat, RegionId>, regions': map<nat, RegionId>,
                          x: NodeId)
    requires WellFormed(d) && WellFormed(e) && x in d.tree && NoAnchors(d, regions, x)
             && ClaimsNone(d, regions, regions')
    requires forall y :: y in d.tree && Under(d.tree, x, y) ==> SameNode(d, e, y)
    ensures NoAnchors(e, regions', x)
  {
    KeysAgree(d);
    forall y | y in e.data && Under(e.tree, x, y) && e.data[y].regionId.Some?
      ensures e.data[y].regionId.value !in regions'
    {
      SameSubtree(d, e, x, y);
      assert SameNode(d, e, y);
    }
  }

  /** A separate run keeps what it shows, and stays free of regions. */
  lemma OtherRun(d: Document, e: Document, el: NodeId, p: seq<NodeId>, q: seq<NodeId>, own: RegionCells,
                 own': RegionCells,
                 regions: map<nat, RegionId>, regions': map<nat, RegionId>, c: RegionCells)
    requires WellFormed(d) && WellFormed(e) && BlockStep(d, e, el, p, q, own, own') && Standing(d, c)
             && Separate(d, own, c)
    requires ClaimsNone(d, regions, regions')
    requires TracksCurrent(d, c) && forall n :: n in c.rendered ==> NoAnchors(d, regions, n)
    ensures TracksCurrent(e, c) && forall n :: n in c.rendered ==> NoAnchors(e, regions', n)
    ensures ShowsCurrent(d, c) ==> ShowsCurrent(e, c)
  {
    hide Standing, Separate, BlockStep, WellFormed, NoAnchors, TracksCurrent, ShowsCurrent, SameBelow, SameNode,
         ClaimsNone;
    forall x | x in c.rendered ensures SameBelow(d, e, x) && NoAnchors(e, regions', x) {
      OtherSubtree(d, e, el, p, q, own, own', c, x);
      SubtreeStaysPlain(d, e, regions, regions', x);
    }
    OtherContent(d, e, c);
  }

  /** A separate waiting region goes on waiting. */
  lemma OtherWaits(d: Document, e: Document, el: NodeId, p: seq<NodeId>, q: seq<NodeId>, own: RegionCells,
                   own': RegionCells,
                   regions: map<nat, RegionId>, regions': map<nat, RegionId>, c: RegionCells)
    requires WellFormed(d) && WellFormed(e) && BlockStep(d, e, el, p, q, own, own') && Separate(d, own, c)
    requires ClaimsNone(d, regions, regions') && WaitingOk(d, regions, c)
    ensures WaitingOk(e, regions', c) && (ShowsCurrent(d, c) ==> ShowsCurrent(e, c))
  {
    hide Standing, Separate, BlockStep, WellFormed, NoAnchors, TracksCurrent, ShowsCurrent, ClaimsNone;
    OtherStands(d, e, el, p, q, own, own', c);
    OtherRun(d, e, el, p, q, own, own', regions, regions', c);
  }

  /** A separate region in order stays in order. */
  lemma OtherStaysOk(d: Document, e: Document, el: NodeId, p: seq<NodeId>, q: seq<NodeId>, own: RegionCells,
                     own': RegionCells, regions: map<nat, RegionId>, regions': map<nat, RegionId>, id: nat,
                         c: RegionCells)
    requires WellFormed(d) && WellFormed(e) && BlockStep(d, e, el, p, q, own, own') && Separate(d, own, c)
    requires ClaimsNone(d, regions, regions') && RegionOk(d, regions, id, c)
    ensures RegionOk(e, regions', id, c) && (ShowsCurrent(d, c) ==> ShowsCurrent(e, c))
  {
    hide Separate, BlockStep, WellFormed, NoAnchors, TracksCurrent, ShowsCurrent, ClaimsNone, Anchored, SameNode,
         Standing;
    RegionStands(d, regions, id, c);
    OtherStands(d, e, el, p, q, own, own', c);
    OtherRun(d, e, el, p, q, own, own', regions, regions', c);
    OtherAnchorSame(d, e, el, p, q, own, own', c);
    StandsAnchored(e, c);
  }

  lemma StandsAnchored(d: Document, c: RegionCells)
    requires Standing(d, c) && c.anchor.Some?
    ensures Anchored(d, c)
  {
  }

  lemma OtherAnchorSame(d: Document, e: Document, el: NodeId, p: seq<NodeId>, q: seq<NodeId>, own: RegionCells,
                        own': RegionCells, c: RegionCells)
    requires WellFormed(d) && BlockStep(d, e, el, p, q, own, own') && Standing(d, c) && Separate(d, own, c)
    requires c.anchor.Some? && c.anchor.value in d.data && d.data[c.anchor.value].kind.CommentNode?
    ensures c.anchor.value in e.data && e.data[c.anchor.value] == d.data[c.anchor.value]
  {
    hide Standing, Separate;
    assert c.anchor.value in Block(c);
    Bystander(d, e, el, p, q, own, own', c, c.anchor.value);
    assert SameNode(d, e, c.anchor.value);
  }

  /** Regions that are separate from the changed one and from each other stay so. */
  lemma StaySeparate(d: Document, e: Document, el: NodeId, p: seq<NodeId>, q: seq<NodeId>, own: RegionCells,
                     own': RegionCells, c1: RegionCells, c2: RegionCells)
    requires WellFormed(d) && WellFormed(e) && BlockStep(d, e, el, p, q, own, own')
    requires Standing(d, c1) && Separate(d, own, c1) && Standing(d, c2) && Separate(d, own, c2)
    requires Separate(d, c1, c2)
    ensures Separate(e, c1, c2)
  {
    StayOutside(d, e, el, p, q, own, own', c1, c2);
    StayOutside(d, e, el, p, q, own, own', c2, c1);
  }

  lemma StayOutside(d: Document, e: Document, el: NodeId, p: seq<NodeId>, q: seq<NodeId>, own: RegionCells,
                    own': RegionCells, c1: RegionCells, c2: RegionCells)
    requires WellFormed(d) && WellFormed(e) && BlockStep(d, e, el, p, q, own, own')
    requires Standing(d, c2) && Separate(d, own, c2) && Outside(d, c1, c2)
    ensures Outside(e, c1, c2)
  {
    hide Standing, Separate, BlockStep, WellFormed;
    forall x, y | x in c1.rendered && y in Block(c2) ensures !Under(e.tree, x, y) {
      Bystander(d, e, el, p, q, own, own', c2, y);
      SameAncestors(d, e, el, p, q, own, own', x, y);
    }
  }

  /** A region separate from the changed one stays separate from it. */
  lemma StaysSeparateFromOwn(d: Document, e: Document, el: NodeId, p: seq<NodeId>, q: seq<NodeId>, own: RegionCells,
                             own': RegionCells, c: RegionCells)
    requires WellFormed(d) && WellFormed(e) && BlockStep(d, e, el, p, q, own, own') && Standing(d, c)
             && Separate(d, own, c)
    ensures Separate(e, own', c)
  {
    hide Standing;
    forall x, y | x in own'.rendered && y in Block(c) ensures !Under(e.tree, x, y) {
      OutsideOwn(d, e, el, p, q, own, own', c, x, y);
    }
    forall x, y | x in c.rendered && y in Block(own') ensures !Under(e.tree, x, y) {
      OwnOutside(d, e, el, p, q, own, own', c, x, y);
    }
    if c.anchor.Some? {
      assert c.anchor.value in Block(c);
      Bystander(d, e, el, p, q, own, own', c, c.anchor.value);
    }
  }

  lemma OutsideOwn(d: Document, e: Document, el: NodeId, p: seq<NodeId>, q: seq<NodeId>, own: RegionCells,
                   own': RegionCells, c: RegionCells, x: NodeId, y: NodeId)
    requires WellFormed(d) && WellFormed(e) && BlockStep(d, e, el, p, q, own, own') && Standing(d, c)
             && Separate(d, own, c)
    requires x in own'.rendered && y in Block(c)
    ensures !Under(e.tree, x, y)
  {
    hide Standing, WellFormed;
    Bystander(d, e, el, p, q, own, own', c, y);
    SameAncestors(d, e, el, p, q, own, own', x, y);
    if Under(d.tree, x, y) {
      AboveKnown(d, x, y);
      assert false;
    }
  }

  lemma OwnOutside(d: Document, e: Document, el: NodeId, p: seq<NodeId>, q: seq<NodeId>, own: RegionCells,
                   own': RegionCells, c: RegionCells, x: NodeId, y: NodeId)
    requires WellFormed(d) && WellFormed(e) && BlockStep(d, e, el, p, q, own, own') && Standing(d, c)
             && Separate(d, own, c)
    requires x in c.rendered && y in Block(own')
    ensures !Under(e.tree, x, y)
  {
    hide Standing, Anchored;
    assert x in Block(c);
    Bystander(d, e, el, p, q, own, own', c, x);
    assert LinksOk(e.tree, el);
    assert y in e.tree[el].kids;
    assert x != y;
    OwnAbove(d, el, p, q, own);
    SameAncestors(d, e, el, p, q, own, own', x, el);
  }

  lemma OwnAbove(d: Document, el: NodeId, p: seq<NodeId>, q: seq<NodeId>, own: RegionCells)
    requires WellFormed(d) && el in d.tree && d.tree[el].kids == p + Block(own) + q
    ensures !UnderAny(d.tree, own.rendered, el)
  {
    assert LinksOk(d.tree, el);
    forall i | 0 <= i < |own.rendered| ensures !Under(d.tree, own.rendered[i], el) {
      assert own.rendered[i] in Block(own);
      assert own.rendered[i] in p + Block(own) + q;
    }
  }

  // --- All regions ---

  /**
   * Every registered region is in order, and the regions in `waiting`, which are not registered
   * yet, stand clear of them and of each other.
   */
  ghost predicate InOrder(d: Document, cells: map<RegionId, RegionCells>, regions: map<nat, RegionId>,
                          waiting: set<RegionId>)
  {
    && (forall i :: i in regions ==> regions[i] in cells && RegionOk(d, regions, i, cells[regions[i]]))
    && (forall r :: r in waiting ==> r in cells && r !in regions.Values && WaitingOk(d, regions, cells[r]))
    && forall r, s :: r in waiting && s in waiting + regions.Values && r != s ==>
         r in cells && s in cells && Separate(d, cells[r], cells[s])
  }

  /** Every tracked region other than `region` keeps its cells, and goes on showing its vnode if it did. */
  ghost predicate OthersKeepShowing(d: Document, cells: map<RegionId, RegionCells>, e: Document,
                                    cells': map<RegionId, RegionCells>, tracked: set<RegionId>, region: RegionId)
  {
    forall r :: r in tracked && r != region && r in cells ==>
      && r in cells' && cells'[r] == cells[r] && (ShowsCurrent(d, cells[r]) ==> ShowsCurrent(e, cells[r]))
  }

  /** The changed region is registered, as it was or anew, and in order. */
  ghost predicate Advanced(d: Document, cells: map<RegionId, RegionCells>, regions: map<nat, RegionId>, e: Document,
                           cells': map<RegionId, RegionCells>, regions': map<nat, RegionId>, region: RegionId, id: nat)
  {
    && region in cells && region in cells' && cells' == cells[region := cells'[region]]
    && regions' == regions[id := region] && (id in regions ==> regions[id] == region)
    && (id in regions || region !in regions.Values)
    && RegionOk(e, regions', id, cells'[region]) && ClaimsNone(d, regions, regions')
  }

  lemma TrackedStands(d: Document, cells: map<RegionId, RegionCells>, regions: map<nat, RegionId>,
                      waiting: set<RegionId>, r: RegionId)
    requires InOrder(d, cells, regions, waiting) && r in waiting + regions.Values
    ensures r in cells && Standing(d, cells[r])
  {
    hide Separate, Standing, TracksCurrent, RegionOk;
    if r in regions.Values {
      var i :| i in regions && regions[i] == r;
      RegionStands(d, regions, i, cells[r]);
    }
  }

  lemma TrackedSeparate(d: Document, cells: map<RegionId, RegionCells>, regions: map<nat, RegionId>,
                        waiting: set<RegionId>, r: RegionId, s: RegionId)
    requires WellFormed(d) && InOrder(d, cells, regions, waiting)
    requires r in waiting + regions.Values && s in waiting + regions.Values && r != s
    ensures r in cells && s in cells && Separate(d, cells[r], cells[s])
  {
    hide RegionOk, WaitingOk, WellFormed, Outside;
    if r in waiting {
      assert Separate(d, cells[r], cells[s]);
    } else if s in waiting {
      assert Separate(d, cells[s], cells[r]);
    } else {
      var i :| i in regions && regions[i] == r;
      var j :| j in regions && regions[j] == s;
      RegisteredSeparate(d, regions, i, cells[r], j, cells[s]);
    }
  }

  lemma OneIdEach(d: Document, cells: map<RegionId, RegionCells>, regions: map<nat, RegionId>, waiting: set<RegionId>,
                  i: nat, j: nat)
    requires InOrder(d, cells, regions, waiting) && i in regions && j in regions && regions[i] == regions[j]
    ensures i == j
  {
    hide Separate, WaitingOk, Anchored, TracksCurrent;
    assert RegionOk(d, regions, i, cells[regions[i]]) && RegionOk(d, regions, j, cells[regions[j]]);
  }

  /** A tracked region other than the changed one, before and after. */
  ghost predicate Kept(d: Document, e: Document, regions': map<nat, RegionId>, own: RegionCells, own': RegionCells,
                       c: RegionCells, r: RegionId, waiting: set<RegionId>)
  {
    && Standing(d, c) && Separate(d, own, c) && Separate(e, own', c) && (ShowsCurrent(d, c) ==> ShowsCurrent(e, c))
    && (r in waiting ==> WaitingOk(e, regions', c))
  }

  lemma OtherKept(d: Document, cells: map<RegionId, RegionCells>, regions: map<nat, RegionId>, waiting: set<RegionId>,
                  e: Document, regions': map<nat, RegionId>, region: RegionId, own': RegionCells, el: NodeId,
                  p: seq<NodeId>, q: seq<NodeId>, r: RegionId)
    requires WellFormed(d) && WellFormed(e) && InOrder(d, cells, regions, waiting) && region in waiting + regions.Values
    requires region in cells && BlockStep(d, e, el, p, q, cells[region], own') && ClaimsNone(d, regions, regions')
    requires r in waiting + regions.Values && r != region
    ensures r in cells && Kept(d, e, regions', cells[region], own', cells[r], r, waiting)
    ensures forall i :: i in regions && regions[i] == r ==> RegionOk(e, regions', i, cells[r])
  {
    hide WellFormed, BlockStep, Standing, Separate, RegionOk, WaitingOk, ClaimsNone, ShowsCurrent;
    TrackedStands(d, cells, regions, waiting, r);
    TrackedSeparate(d, cells, regions, waiting, region, r);
    var own, c := cells[region], cells[r];
    StaysSeparateFromOwn(d, e, el, p, q, own, own', c);
    if r in waiting {
      OtherWaits(d, e, el, p, q, own, own', regions, regions', c);
    }
    forall i | i in regions && regions[i] == r
      ensures RegionOk(e, regions', i, c) && (ShowsCurrent(d, c) ==> ShowsCurrent(e, c))
    {
      OtherStaysOk(d, e, el, p, q, own, own', regions, regions', i, c);
    }
  }

  /** After a change to one tracked region all are in order: it is registered, and the others are intact. */
  lemma OthersIntact(d: Document, cells: map<RegionId, RegionCells>, regions: map<nat, RegionId>,
                     waiting: set<RegionId>,
                     e: Document, cells': map<RegionId, RegionCells>, regions': map<nat, RegionId>, region: RegionId,
                     id: nat, el: NodeId, p: seq<NodeId>, q: seq<NodeId>)
    requires WellFormed(d) && WellFormed(e) && InOrder(d, cells, regions, waiting) && region in waiting + regions.Values
    requires Advanced(d, cells, regions, e, cells', regions', region, id)
    requires BlockStep(d, e, el, p, q, cells[region], cells'[region])
    ensures InOrder(e, cells', regions', waiting - {region})
    ensures OthersKeepShowing(d, cells, e, cells', waiting + regions.Values, region)
    ensures regions'.Values == regions.Values + {region}
  {
    hide WellFormed, BlockStep, Standing, RegionOk, WaitingOk, ClaimsNone, ShowsCurrent, InOrder, Outside;
    var own, own' := cells[region], cells'[region];
    forall r | r in waiting + regions.Values && r != region
      ensures r in cells && r in cells' && cells'[r] == cells[r]
              && Kept(d, e, regions', own, own', cells[r], r, waiting)
      ensures forall i :: i in regions && regions[i] == r ==> RegionOk(e, regions', i, cells[r])
    {
      OtherKept(d, cells, regions, waiting, e, regions', region, own', el, p, q, r);
    }
    forall r, s | r in waiting && s in waiting + regions.Values && r != s && r != region && s != region
      ensures Separate(e, cells[r], cells[s])
    {
      TrackedSeparate(d, cells, regions, waiting, r, s);
      StaySeparate(d, e, el, p, q, own, own', cells[r], cells[s]);
    }
    forall i | i in regions && i != id ensures regions[i] != region {
      if regions[i] == region && id in regions {
        OneIdEach(d, cells, regions, waiting, i, id);
      }
    }
    AllInOrder(d, cells, regions, waiting, e, cells', regions', region, id);
  }

  lemma AllInOrder(d: Document, cells: map<RegionId, RegionCells>, regions: map<nat, RegionId>, waiting: set<RegionId>,
                   e: Document, cells': map<RegionId, RegionCells>, regions': map<nat, RegionId>, region: RegionId,
                       id: nat)
    requires InOrder(d, cells, regions, waiting)
    requires Advanced(d, cells, regions, e, cells', regions', region, id)
    requires forall r :: r in waiting + regions.Values && r != region ==>
               && r in cells && r in cells' && cells'[r] == cells[r]
               && Kept(d, e, regions', cells[region], cells'[region], cells[r], r, waiting)
               && forall i :: i in regions && regions[i] == r ==> RegionOk(e, regions', i, cells[r])
    requires forall r, s :: r in waiting && s in waiting + regions.Values && r != s && r != region && s != region ==>
               Separate(e, cells[r], cells[s])
    requires forall i :: i in regions && i != id ==> regions[i] != region
    ensures InOrder(e, cells', regions', waiting - {region}) && regions'.Values == regions.Values + {region}
  {
    hide Standing, RegionOk, WaitingOk, ClaimsNone, ShowsCurrent, Outside;
    NewValues(regions, regions', region, id);
    forall i | i in regions' ensures regions'[i] in cells' && RegionOk(e, regions', i, cells'[regions'[i]]) {
    }
    forall r, s | r in waiting - {region} && s in waiting - {region} + regions'.Values && r != s
      ensures r in cells' && s in cells' && Separate(e, cells'[r], cells'[s])
    {
      if s == region {
        assert Separate(e, cells'[region], cells[r]);
      }
    }
  }

  lemma NewValues(regions: map<nat, RegionId>, regions': map<nat, RegionId>, region: RegionId, id: nat)
    requires regions' == regions[id := region] && (id in regions ==> regions[id] == region)
    ensures regions'.Values == regions.Values + {region}
  {
    assert regions'[id] == region;
    forall r | r in regions.Values ensures r in regions'.Values {
      var i :| i in regions && regions[i] == r;
      assert i in regions' && regions'[i] == r;
    }
  }
}
