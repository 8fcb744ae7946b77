/** Putting one node of a run where it belongs. */
module Placement {
  import opened Prelude
  import opened VirtualDom
  import opened Dom
  import opened Resources

  /** The reference node that puts something between `p` and `q`. */
  ghost function Before(q: seq<NodeId>): Option<NodeId> {
    if q == [] then None else Some(q[0])
  }

  lemma SplicedBetween(p: seq<NodeId>, n: NodeId, q: seq<NodeId>)
    requires Distinct(p + q)
    ensures Spliced(p + q, [n], Before(q)) == p + [n] + q
  {
    DistinctParts(p, q);
    if q != [] {
      assert p + q == p + [q[0]] + q[1..];
      assert q[0] in q;
      IndexOfAfter(p, q[0], q[1..]);
      assert (p + q)[|p|..] == q;
    }
  }

  lemma WithoutLater(p: seq<NodeId>, n: NodeId, q: seq<NodeId>)
    requires Distinct(p + q) && n in q
    ensures Without(p + q, n) == p + Without(q, n)
    ensures q[0] != n ==> Without(q, n) != [] && Without(q, n)[0] == q[0]
    ensures Distinct(p + Without(q, n))
  {
    DistinctParts(p, q);
    WithoutConcat(p, q, n);
    WithoutAbsent(p, n);
    WithoutDistinct(p + q, n);
  }

  /** Inserting `n` before the first of `q` puts it between `p` and the rest of `q`. */
  lemma PlacedKids(d: Document, el: NodeId, n: NodeId, p: seq<NodeId>, q: seq<NodeId>)
    requires WellFormed(d) && IsElement(d, el) && el in d.tree && n in d.tree && el < n
    requires d.tree[el].kids == p + q
    requires n in q || (d.tree[n].parent == None && !d.data[n].kind.FragmentNode?)
    requires q != [] ==> q[0] != n
    ensures var r := InsertBefore(d, el, n, Before(q));
            && r.1 && r.0.tree[el] == Link(d.tree[el].parent, p + [n] + Without(q, n))
            && r.0.tree[n] == Link(Some(el), d.tree[n].kids)
            && forall x :: x in d.tree && x != el && x != n ==> r.0.tree[x] == d.tree[x]
  {
    var at := Before(q);
    Insertable(d, el, n, p, q);
    InsertMoves(d, el, n, at);
    MovedInto(d.tree, el, n, at);
    if n in q {
      ChildOf(d, el, n);
    }
    hide LinksOk, Spliced, Without, InsertBefore, Moved, TreeOk;
  }

  /** A node of `el`, or a parentless one, is spliced into the other children of `el`. */
  lemma MovedInto(t: Tree, el: NodeId, n: NodeId, at: Option<NodeId>)
    requires TreeOk(t) && el in t && n in t && el < n && t[n].parent in {None, Some(el)}
    requires (at.Some? ==> at.value in t[el].kids) && at != Some(n)
    ensures var r := Moved(t, el, n, at);
            && r[el] == Link(t[el].parent,
                             Spliced(if t[n].parent == None then t[el].kids else Without(t[el].kids, n), [n], at))
            && r[n] == Link(Some(el), t[n].kids)
            && forall x :: x in t && x != el && x != n ==> r[x] == t[x]
  {
    hide TreeOk, Spliced, Without, Attach, Detach;
    WhereFound(t, el, n, at);
  }

  lemma ChildOf(d: Document, el: NodeId, n: NodeId)
    requires WellFormed(d) && el in d.tree && n in d.tree[el].kids
    ensures n in d.tree && d.tree[n].parent == Some(el)
  {
    assert LinksOk(d.tree, el);
  }

  lemma InsertMoves(d: Document, el: NodeId, n: NodeId, at: Option<NodeId>)
    requires WellFormed(d) && IsElement(d, el) && el in d.tree && n in d.tree && el < n
    requires !Under(d.tree, n, el) && !d.data[n].kind.FragmentNode?
    requires at.Some? ==> at.value in d.tree[el].kids && IsChild(d, el, at.value)
    ensures InsertBefore(d, el, n, at).1 && InsertBefore(d, el, n, at).0.tree == Moved(d.tree, el, n, at)
  {
    hide LinksOk, Spliced, Without, Moved;
  }

  lemma Insertable(d: Document, el: NodeId, n: NodeId, p: seq<NodeId>, q: seq<NodeId>)
    requires WellFormed(d) && IsElement(d, el) && el in d.tree && n in d.tree && el < n
    requires d.tree[el].kids == p + q && (q != [] ==> q[0] != n)
    requires n in q || (d.tree[n].parent == None && !d.data[n].kind.FragmentNode?)
    ensures q != [] ==> q[0] in d.tree[el].kids && IsChild(d, el, q[0])
    ensures !Under(d.tree, n, el) && !d.data[n].kind.FragmentNode?
    ensures d.tree[n].parent == None || d.tree[n].parent == Some(el)
    ensures Before(q).Some? ==> Before(q).value in Without(p + q, n)
    ensures Spliced(if n in q then Without(p + q, n) else p + q, [n], Before(q)) == p + [n] + Without(q, n)
  {
    assert LinksOk(d.tree, el) && LinksOk(d.tree, n);
    assert q != [] ==> q[0] in d.tree[el].kids;
    if n in q {
      assert n in d.tree[el].kids;
      WithoutLater(p, n, q);
      SplicedBetween(p, n, Without(q, n));
    } else {
      WithoutAbsent(q, n);
      SplicedBetween(p, n, q);
    }
  }

  lemma SiblingAfter(d: Document, el: NodeId, p: seq<NodeId>, q: seq<NodeId>)
    requires WellFormed(d) && el in d.tree && d.tree[el].kids == p + q && p != []
    ensures NextSibling(d.tree, p[|p| - 1]) == Before(q)
  {
    var last := p[|p| - 1];
    assert LinksOk(d.tree, el);
    assert (p + q)[|p| - 1] == last && last in p + q;
    DistinctParts(p, q);
    assert p + q == p[..|p| - 1] + [last] + q;
    assert Distinct(p[..|p| - 1] + [last]) by {
      assert p[..|p| - 1] + [last] == p;
    }
    DistinctParts(p[..|p| - 1], [last]);
    IndexOfAfter(p[..|p| - 1], last, q);
  }

  /** The reference node is where the run goes on, or it is stale and `n` is already in place. */
  ghost predicate TargetOk(d: Document, el: NodeId, n: NodeId, previous: Option<NodeId>, runStart: Option<NodeId>,
                           p: seq<NodeId>, q: seq<NodeId>)
  {
    match previous
    case Some(last) => p != [] && p[|p| - 1] == last
    case None =>
      (match runStart
       case None => p == []
       case Some(start) => q != [] && (start == q[0] || (q[0] == n && !IsChild(d, el, start))))
  }

  /**
   * Puts `n` directly after `previous`, or at `runStart` when it is the first of the run. A node
   * already in place is not touched, and neither is one whose reference node is stale.
   */
  method PlaceBefore(rt: Runtime, el: NodeId, n: NodeId, previous: Option<NodeId>, runStart: Option<NodeId>,
                     ghost p: seq<NodeId>, ghost q: seq<NodeId>)
    requires rt.Valid() && IsElement(rt.dom, el) && el in rt.dom.tree && n in rt.dom.tree && el < n
    requires rt.dom.tree[el].kids == p + q
    requires n in q || (rt.dom.tree[n].parent == None && !rt.dom.data[n].kind.FragmentNode?)
    requires TargetOk(rt.dom, el, n, previous, runStart, p, q)
    modifies rt`dom
    ensures rt.Valid() && SameNodes(old(rt.dom), rt.dom)
    ensures rt.dom.tree[el] == Link(old(rt.dom).tree[el].parent, p + [n] + Without(q, n))
    ensures rt.dom.tree[n] == Link(Some(el), old(rt.dom).tree[n].kids)
    ensures forall x :: x in old(rt.dom).tree && x != el && x != n ==> rt.dom.tree[x] == old(rt.dom).tree[x]
    ensures rt.dom.log == old(rt.dom).log + (if q != [] && q[0] == n then [] else [Inserted(el, n)])
  {
    hide EventsAgree, EffectsAgree, RegionsAgree, Issued, CellsExist, Numbered, TreeOk, LinksOk, Without, Spliced;
    var target;
    match previous {
      case Some(last) =>
        SiblingAfter(rt.dom, el, p, q);
        target := NextSibling(rt.dom.tree, last);
      case None =>
        target := if runStart.Some? then runStart else FirstChild(rt.dom.tree, el);
    }
    InPlace(rt.dom, el, n, p, q);
    if target == Some(n) {
      return;
    }
    if q == [] || q[0] != n {
      PlacedKids(rt.dom, el, n, p, q);
    }
    rt.dom := InsertBefore(rt.dom, el, n, target).0;
  }

  lemma InPlace(d: Document, el: NodeId, n: NodeId, p: seq<NodeId>, q: seq<NodeId>)
    requires WellFormed(d) && el in d.tree && n in d.tree && d.tree[el].kids == p + q
    ensures q != [] && q[0] == n ==> p + [n] + Without(q, n) == p + q && d.tree[n].parent == Some(el)
  {
    if q != [] && q[0] == n {
      DistinctKids(d, el);
      assert n in d.tree[el].kids;
      ChildOf(d, el, n);
      hide WellFormed, Distinct, Without;
      HeadBack(p, n, q);
    }
  }

  lemma DistinctKids(d: Document, el: NodeId)
    requires WellFormed(d) && el in d.tree
    ensures Distinct(d.tree[el].kids)
  {
    assert LinksOk(d.tree, el);
  }

  lemma HeadBack(p: seq<NodeId>, n: NodeId, q: seq<NodeId>)
    requires Distinct(p + q) && q != [] && q[0] == n
    ensures p + [n] + Without(q, n) == p + q
  {
    hide Distinct, Without;
    DistinctParts(p, q);
    assert q == [] + [n] + q[1..];
    DistinctParts([n], q[1..]);
    WithoutMiddle([], n, q[1..]);
  }
}
