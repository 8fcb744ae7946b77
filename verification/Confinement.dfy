/** How far the effect of a patch reaches: the frames of the reconciler's functions. */
module Confinement {
  import opened Prelude
  import opened VirtualDom
  import opened Dom
  import opened Resources
  import opened Rendering
  import opened Building

  /** No node in the subtree of `n` anchors a registered region. */
  ghost predicate NoAnchors(d: Document, regions: map<nat, RegionId>, n: NodeId) {
    forall x :: x in d.data && Under(d.tree, n, x) && d.data[x].regionId.Some? ==> d.data[x].regionId.value !in regions
  }

  /** `e` keeps every node of `d`, in number order, with its region expando. */
  ghost predicate Grows(d: Document, e: Document) {
    && e.rules == d.rules && d.next <= e.next && d.log <= e.log
    && (forall x :: x in d.tree ==> x in e.tree)
    && (forall x :: x in d.data ==> x in e.data && e.data[x].regionId == d.data[x].regionId)
    && (forall x :: x in e.tree && x !in d.tree ==> x >= d.next)
    && (forall x :: x in e.data && x !in d.data ==> e.data[x].regionId == None)
  }

  lemma GrowsTrans(d: Document, e: Document, f: Document)
    requires Grows(d, e) && Grows(e, f)
    ensures Grows(d, f)
    ensures Since(d, f) == Since(d, e) + Since(e, f)
  {
  }

  ghost predicate SameNode(d: Document, e: Document, x: NodeId) {
    && (x in d.tree ==> x in e.tree && e.tree[x] == d.tree[x])
    && (x in d.data ==> x in e.data && e.data[x] == d.data[x])
  }

  /** Outside the subtree of `n` nothing changed, and `n` hangs where it hung. */
  ghost predicate Confined(d: Document, e: Document, n: NodeId) {
    && Grows(d, e)
    && (forall x :: x in d.tree && !Under(d.tree, n, x) ==> SameNode(d, e, x))
    && (n in d.tree ==> e.tree[n].parent == d.tree[n].parent)
  }

  /** A mutation in the proper subtree of `n`, or one of a new node, or of the text of `n`. */
  ghost predicate LocalMutation(d: Document, n: NodeId, m: Mutation) {
    Subject(m) >= d.next || (Under(d.tree, n, Subject(m)) && (Subject(m) == n ==> m.TextSet?))
  }

  ghost predicate LocalLog(d: Document, e: Document, n: NodeId) {
    forall m :: m in Since(d, e) ==> LocalMutation(d, n, m)
  }

  /** What is outside the subtree of `n` does not get into it. */
  lemma {:induction false} StaysOutside(d: Document, e: Document, n: NodeId, x: NodeId)
    requires WellFormed(d) && WellFormed(e) && Confined(d, e, n) && x in d.tree && !Under(d.tree, n, x)
    ensures !Under(e.tree, n, x)
    decreases x
  {
    assert SameNode(d, e, x);
    if d.tree[x].parent.Some? {
      assert LinksOk(d.tree, x);
      assert LinksOk(d.tree, d.tree[x].parent.value);
      StaysOutside(d, e, n, d.tree[x].parent.value);
    }
  }

  lemma ConfinedTrans(d: Document, e: Document, f: Document, n: NodeId)
    requires WellFormed(d) && WellFormed(e) && n in d.tree && Confined(d, e, n) && Confined(e, f, n)
    ensures Confined(d, f, n)
  {
    GrowsTrans(d, e, f);
    forall x | x in d.tree && !Under(d.tree, n, x) ensures SameNode(d, f, x) {
      assert SameNode(d, e, x);
      StaysOutside(d, e, n, x);
      assert SameNode(e, f, x);
    }
  }

  lemma LocalTrans(d: Document, e: Document, f: Document, n: NodeId)
    requires WellFormed(d) && WellFormed(e) && n in d.tree && Confined(d, e, n) && Grows(e, f)
    requires LocalLog(d, e, n) && LocalLog(e, f, n)
    ensures LocalLog(d, f, n)
  {
    GrowsTrans(d, e, f);
    forall m | m in Since(e, f) ensures LocalMutation(d, n, m) {
      LocalBefore(d, e, n, m);
    }
  }

  lemma LocalBefore(d: Document, e: Document, n: NodeId, m: Mutation)
    requires WellFormed(d) && WellFormed(e) && n in d.tree && Confined(d, e, n) && LocalMutation(e, n, m)
    ensures LocalMutation(d, n, m)
  {
    hide TreeOk;
    var x := Subject(m);
    if x < d.next && Under(e.tree, n, x) && x != n {
      UnderKnown(e, n, x);
      if !Under(d.tree, n, x) {
        StaysOutside(d, e, n, x);
      }
    }
  }

  lemma UnderKnown(d: Document, n: NodeId, x: NodeId)
    requires Under(d.tree, n, x) && x != n
    ensures x in d.tree
  {
  }

  lemma NoAnchorsKept(d: Document, e: Document, regions: map<nat, RegionId>, n: NodeId)
    requires WellFormed(d) && WellFormed(e) && n in d.tree && Confined(d, e, n) && NoAnchors(d, regions, n)
    ensures NoAnchors(e, regions, n)
  {
    forall x | x in e.data && Under(e.tree, n, x) && e.data[x].regionId.Some?
      ensures e.data[x].regionId.value !in regions
    {
      assert x in d.data;
      if !Under(d.tree, n, x) {
        StaysOutside(d, e, n, x);
      }
    }
  }

  lemma NoAnchorsBelow(d: Document, regions: map<nat, RegionId>, n: NodeId, k: NodeId)
    requires WellFormed(d) && n in d.tree && k in d.tree[n].kids && NoAnchors(d, regions, n)
    ensures NoAnchors(d, regions, k)
  {
    forall x | x in d.data && Under(d.tree, k, x) && d.data[x].regionId.Some?
      ensures d.data[x].regionId.value !in regions
    {
      UnderKid(d, n, k, x);
    }
  }

  /** Subtrees neither of whose roots is below the other share no node. */
  lemma {:induction false} SubtreesApart(t: Tree, a: NodeId, b: NodeId, x: NodeId)
    requires !Under(t, a, b) && !Under(t, b, a) && Under(t, a, x)
    ensures !Under(t, b, x)
    decreases x
  {
    if x != a && x != b {
      SubtreesApart(t, a, b, t[x].parent.value);
    }
  }

  // --- One step among the children of an element ---

  /** Nothing changed but the child list of `el` and, if given, the subtree of the child `n`. */
  ghost predicate KidStep(d: Document, e: Document, el: NodeId, n: Option<NodeId>) {
    && Grows(d, e)
    && el in d.tree && el in d.data
    && e.data[el] == d.data[el] && e.tree[el].parent == d.tree[el].parent
    && forall x :: x in d.tree && x != el && (n.Some? ==> !Under(d.tree, n.value, x)) ==> SameNode(d, e, x)
  }

  /** Other children's subtrees are not touched by a step. */
  lemma OtherKidSame(d: Document, e: Document, el: NodeId, n: Option<NodeId>, k: NodeId)
    requires WellFormed(d) && KidStep(d, e, el, n) && IsChild(d, el, k)
    requires n.Some? ==> n.value in d.tree && d.tree[n.value].parent == Some(el) && n.value != k
    ensures SameBelow(d, e, k)
    ensures forall x :: x in d.tree && Under(d.tree, k, x) ==> SameNode(d, e, x)
  {
    assert LinksOk(d.tree, k);
    forall x | Under(d.tree, k, x) && x in d.tree ensures SameNode(d, e, x) {
      if n.Some? {
        SiblingsDisjoint(d, k, n.value, x);
      }
    }
  }

  /** A subtree whose nodes all kept their links has gained and lost nothing. */
  lemma {:induction false} SameSubtree(d: Document, e: Document, k: NodeId, x: NodeId)
    requires WellFormed(d) && WellFormed(e) && k in d.tree
    requires forall y :: y in d.tree && Under(d.tree, k, y) ==> y in e.tree && e.tree[y].kids == d.tree[y].kids
    ensures Under(e.tree, k, x) <==> Under(d.tree, k, x)
    decreases x
  {
    if Under(d.tree, k, x) && x != k {
      assert x in d.tree && LinksOk(d.tree, x);
      var p := d.tree[x].parent.value;
      SameSubtree(d, e, k, p);
      assert LinksOk(e.tree, p);
      assert x in e.tree[p].kids;
    }
    if Under(e.tree, k, x) && x != k {
      assert LinksOk(e.tree, x);
      var p := e.tree[x].parent.value;
      SameSubtree(d, e, k, p);
      assert LinksOk(d.tree, p);
      assert x in d.tree[p].kids;
    }
  }

  // --- A run of children ---

  ghost predicate UnderAny(t: Tree, ns: seq<NodeId>, x: NodeId) {
    exists i :: 0 <= i < |ns| && Under(t, ns[i], x)
  }

  /** Nothing changed but the child list of `el` and the subtrees of `ns`. */
  ghost predicate RunFrame(d: Document, e: Document, el: NodeId, ns: seq<NodeId>) {
    && Grows(d, e)
    && el in d.tree && el in d.data
    && e.data[el] == d.data[el] && e.tree[el].parent == d.tree[el].parent
    && forall x :: x in d.tree && x != el && !UnderAny(d.tree, ns, x) ==> SameNode(d, e, x)
  }

  /** A run made of all children confines its effect to the element. */
  lemma WholeRunConfined(d: Document, e: Document, el: NodeId)
    requires WellFormed(d) && el in d.tree && RunFrame(d, e, el, d.tree[el].kids)
    ensures Confined(d, e, el)
  {
    forall x | x in d.tree && !Under(d.tree, el, x) ensures SameNode(d, e, x) {
      if i :| 0 <= i < |d.tree[el].kids| && Under(d.tree, d.tree[el].kids[i], x) {
        UnderKid(d, el, d.tree[el].kids[i], x);
      }
    }
  }
}
