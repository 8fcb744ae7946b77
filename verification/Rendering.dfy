/**
 * When a DOM node shows a vnode, and what is left of that when the DOM was changed from outside.
 */
module Rendering {
  import opened Prelude
  import opened VirtualDom
  import opened Dom
  import opened Resources

  /** The placeholder text of an element whose tag `createElement` rejects. */
  const ELEMENT_ERROR := "krab-create-element-error"

  // --- Attributes ---

  /** The value attribute `name` should have. */
  ghost function Wanted(attributes: seq<Attribute>, name: string, ok: string -> bool): Option<string> {
    match Find(attributes, name)
    case None => None
    case Some(a) => if ok(name) then a.CurrentValue() else None
  }

  ghost predicate AttrsShown(attrs: map<string, string>, attributes: seq<Attribute>, ok: string -> bool) {
    forall name :: Lookup(attrs, name) == Wanted(attributes, name, ok)
  }

  /** As `AttrsShown`, but a reactive attribute may since have taken any value. */
  ghost predicate AttrsTracked(attrs: map<string, string>, attributes: seq<Attribute>, ok: string -> bool) {
    && (forall name :: name in attrs ==> ok(name) && Find(attributes, name).Some?)
    && (forall name ::
          var a := Find(attributes, name);
          a.Some? && !a.value.IsDynamic() && ok(name) ==> Lookup(attrs, name) == Some(a.value.value))
  }

  lemma ShownTracked(attrs: map<string, string>, attributes: seq<Attribute>, ok: string -> bool)
    requires AttrsShown(attrs, attributes, ok)
    ensures AttrsTracked(attrs, attributes, ok)
  {
    forall name | name in attrs ensures ok(name) && Find(attributes, name).Some? {
      assert Lookup(attrs, name) == Wanted(attributes, name, ok);
    }
  }

  // --- Nodes ---

  /**
   * Node `n` shows vnode `v`. With `drift` this is weakened to what patching relies on: an
   * element may have become another kind of node, or have lost or gained children, and then
   * nothing below it is constrained; reactive attributes may have changed value.
   */
  ghost predicate Matches(d: Document, n: NodeId, v: VNode, drift: bool)
    decreases Weight(v)
  {
    n in d.tree && n in d.data &&
    match v
    case Text(text) => d.data[n].kind.TextNode? && d.data[n].text == text
    case Comment(text) => d.data[n].kind.CommentNode? && d.data[n].text == text
    case Fragment(_) => false
    case Element(tag, attributes, children, events) =>
      var flat, kids := Flatten(children), d.tree[n].kids;
      if drift then
        d.data[n].kind.ElementNode? ==>
          && d.rules.tagOk(tag) && d.data[n].kind == ElementNode(Lower(tag))
          && (|kids| == |flat| ==>
                && AttrsTracked(d.data[n].attrs, attributes, d.rules.attrOk)
                && HandlersOf(d.data[n].listeners) == events
                && forall i :: 0 <= i < |flat| ==> flat[i] in flat && Matches(d, kids[i], flat[i], true))
      else if !d.rules.tagOk(tag) then d.data[n].kind.CommentNode? && d.data[n].text == ELEMENT_ERROR
      else
        && d.data[n].kind == ElementNode(Lower(tag))
        && AttrsShown(d.data[n].attrs, attributes, d.rules.attrOk)
        && HandlersOf(d.data[n].listeners) == events
        && |kids| == |flat|
        && forall i :: 0 <= i < |flat| ==> flat[i] in flat && Matches(d, kids[i], flat[i], false)
  }

  ghost predicate Shows(d: Document, n: NodeId, v: VNode) {
    Matches(d, n, v, false)
  }

  ghost predicate Tracks(d: Document, n: NodeId, v: VNode) {
    Matches(d, n, v, true)
  }

  ghost predicate AllMatch(d: Document, ns: seq<NodeId>, vs: seq<VNode>, drift: bool) {
    |ns| == |vs| && forall i :: 0 <= i < |vs| ==> Matches(d, ns[i], vs[i], drift)
  }

  ghost predicate AllShow(d: Document, ns: seq<NodeId>, vs: seq<VNode>) {
    AllMatch(d, ns, vs, false)
  }

  lemma {:induction false} ShowsTracks(d: Document, n: NodeId, v: VNode)
    requires Shows(d, n, v)
    ensures Tracks(d, n, v)
    decreases Weight(v)
  {
    if v.Element? {
      if d.rules.tagOk(v.tag) {
        var flat, kids := Flatten(v.children), d.tree[n].kids;
        ShownTracked(d.data[n].attrs, v.attributes, d.rules.attrOk);
        forall i | 0 <= i < |flat| ensures Matches(d, kids[i], flat[i], true) {
          assert flat[i] in flat;
          ShowsTracks(d, kids[i], flat[i]);
        }
      }
    }
  }

  lemma ShownIsTracked(d: Document, ns: seq<NodeId>, vs: seq<VNode>)
    requires AllShow(d, ns, vs)
    ensures AllMatch(d, ns, vs, true)
  {
    forall i | 0 <= i < |vs| ensures Matches(d, ns[i], vs[i], true) {
      ShowsTracks(d, ns[i], vs[i]);
    }
  }

  // --- Framing ---

  /** The subtree of `n` is the same in `e`, except perhaps for where it hangs. */
  ghost predicate SameBelow(d: Document, e: Document, n: NodeId) {
    && e.rules == d.rules
    && forall x :: Under(d.tree, n, x) && x in d.tree ==>
         x in e.tree && x in e.data && x in d.data && e.tree[x].kids == d.tree[x].kids && e.data[x] == d.data[x]
  }

  lemma SameBelowKid(d: Document, e: Document, n: NodeId, k: NodeId)
    requires WellFormed(d) && SameBelow(d, e, n) && n in d.tree && k in d.tree[n].kids
    ensures SameBelow(d, e, k)
  {
    forall x | Under(d.tree, k, x) && x in d.tree
      ensures x in e.tree && x in e.data && x in d.data && e.tree[x].kids == d.tree[x].kids && e.data[x] == d.data[x]
    {
      UnderKid(d, n, k, x);
    }
  }

  lemma {:induction false} MatchesFrame(d: Document, e: Document, n: NodeId, v: VNode, drift: bool)
    requires WellFormed(d) && SameBelow(d, e, n) && Matches(d, n, v, drift)
    ensures Matches(e, n, v, drift)
    decreases Weight(v)
  {
    assert Under(d.tree, n, n);
    if v.Element? {
      var flat, kids := Flatten(v.children), d.tree[n].kids;
      forall i | 0 <= i < |flat| && |kids| == |flat| && Matches(d, kids[i], flat[i], drift)
        ensures Matches(e, kids[i], flat[i], drift)
      {
        assert flat[i] in flat && kids[i] in kids;
        SameBelowKid(d, e, n, kids[i]);
        MatchesFrame(d, e, kids[i], flat[i], drift);
      }
    }
  }
}
