/** What hydration leaves of the server's markup: every attribute but those the view makes reactive. */
module KeptContent {
  import opened Prelude
  import opened VirtualDom
  import opened Dom
  import opened Resources
  import opened Rendering
  import opened Building
  import opened Confinement
  import opened Adoption

  // --- Attributes ---

  /** No element of `v` has a reactive attribute called `name`. */
  ghost predicate Leaves(v: VNode, name: string)
    decreases Weight(v)
  {
    v.Element? ==>
      && (forall a :: a in v.attributes && a.name == name ==> !a.IsDynamic())
      && forall i :: 0 <= i < |Flatten(v.children)| ==>
           Flatten(v.children)[i] in Flatten(v.children) && Leaves(Flatten(v.children)[i], name)
  }

  ghost predicate AllLeave(vs: seq<VNode>, name: string) {
    forall i :: 0 <= i < |vs| ==> Leaves(vs[i], name)
  }

  /** Below a node that conforms, each node that was there before has its old value under such a name. */
  lemma {:induction false} LeftAlone(base: Document, e: Document, n: NodeId, v: VNode, x: NodeId, name: string)
    requires WellFormed(e) && Conforms(e, n, v, base) && Leaves(v, name)
    requires x in e.tree && Under(e.tree, n, x) && x < base.next
    ensures x in base.data && x in e.data && Lookup(e.data[x].attrs, name) == Lookup(base.data[x].attrs, name)
    decreases Weight(v)
  {
    hide WellFormed, HandlersOf, DynamicsShown;
    if x != n && v.Element? && !RawTag(v.tag) {
      var k := UnderSomeKid(e, n, x);
      var i := IndexOf(e.tree[n].kids, k);
      assert !e.data[n].kind.CommentNode?;
      LeftAlone(base, e, k, Flatten(v.children)[i], x, name);
    }
  }

  lemma {:induction false} LookupsDetermine(a: map<string, string>, b: map<string, string>)
    requires forall name :: Lookup(a, name) == Lookup(b, name)
    ensures a == b
  {
    forall name ensures name in a <==> name in b {
      assert Lookup(a, name) == Lookup(b, name);
    }
    forall name | name in a ensures a[name] == b[name] {
      assert Lookup(a, name) == Lookup(b, name);
    }
  }

  /** Names the view never makes reactive have their old values all over the adopted content. */
  ghost predicate NamesLeft(base: Document, e: Document, root: NodeId, vs: seq<VNode>) {
    forall x, name :: x in e.tree && x != root && Under(e.tree, root, x) && x < base.next && AllLeave(vs, name) ==>
      x in base.data && x in e.data && Lookup(e.data[x].attrs, name) == Lookup(base.data[x].attrs, name)
  }

  lemma ContentLeft(base: Document, e: Document, root: NodeId, vs: seq<VNode>)
    requires WellFormed(e) && root in e.tree && AllConform(e, e.tree[root].kids, vs, base)
    ensures NamesLeft(base, e, root, vs)
  {
    hide WellFormed, Conforms, Leaves;
    forall x, name | x in e.tree && x != root && Under(e.tree, root, x) && x < base.next && AllLeave(vs, name)
      ensures x in base.data && x in e.data && Lookup(e.data[x].attrs, name) == Lookup(base.data[x].attrs, name)
    {
      var k := UnderSomeKid(e, root, x);
      var i := IndexOf(e.tree[root].kids, k);
      LeftAlone(base, e, k, vs[i], x, name);
    }
  }

  /** A view without reactive attributes. */
  ghost predicate Static(vs: seq<VNode>) {
    forall name: string :: AllLeave(vs, name)
  }

  /** If the view has no reactive attributes, adopted nodes keep all of theirs. */
  lemma StaticKeepsAttributes(base: Document, e: Document, root: NodeId, vs: seq<VNode>, x: NodeId)
    requires NamesLeft(base, e, root, vs) && Static(vs)
    requires x in e.tree && x != root && Under(e.tree, root, x) && x < base.next
    ensures x in base.data && x in e.data && e.data[x].attrs == base.data[x].attrs
  {
    hide AllLeave;
    assert AllLeave(vs, "");
    forall name: string ensures Lookup(e.data[x].attrs, name) == Lookup(base.data[x].attrs, name) {
      assert AllLeave(vs, name);
    }
    LookupsDetermine(e.data[x].attrs, base.data[x].attrs);
  }

  // --- Readiness ---

  /** Where an element's marker is itself a reactive attribute, its source has the marker as its value. */
  ghost predicate MarkersStay(v: VNode, ok: string -> bool)
    decreases Weight(v)
  {
    v.Element? ==>
      && (KeyOf(v).Some? && Rewritten(v.attributes, HYDRATION_NODE_ID_ATTR, ok) ==>
            Find(v.attributes, HYDRATION_NODE_ID_ATTR).value.CurrentValue() == KeyOf(v))
      && (RawTag(v.tag) ||
            forall i :: 0 <= i < |Flatten(v.children)| ==>
              Flatten(v.children)[i] in Flatten(v.children) && MarkersStay(Flatten(v.children)[i], ok))
  }

  ghost predicate AllMarkersStay(vs: seq<VNode>, ok: string -> bool) {
    forall i :: 0 <= i < |vs| ==> MarkersStay(vs[i], ok)
  }

  /** A ready node that was adopted in place is ready again if and only if the markers of its vnode stay. */
  lemma {:induction false} ReadyAgain(base: Document, e: Document, n: NodeId, v: VNode)
    requires WellFormed(base) && e.tree == base.tree && Ready(base, n, v) && Conforms(e, n, v, base)
    ensures Ready(e, n, v) <==> MarkersStay(v, e.rules.attrOk)
    decreases Weight(v)
  {
    assert n < base.next;
    if v.Element? {
      MarkerAgain(base, e, n, v);
      if !RawTag(v.tag) {
        var flat, kids := Flatten(v.children), e.tree[n].kids;
        forall i | 0 <= i < |flat| ensures Ready(e, kids[i], flat[i]) <==> MarkersStay(flat[i], e.rules.attrOk) {
          assert flat[i] in flat;
          ReadyAgain(base, e, kids[i], flat[i]);
        }
      }
    }
  }

  lemma MarkerAgain(base: Document, e: Document, n: NodeId, v: VNode)
    requires v.Element? && n < base.next && Ready(base, n, v) && Conforms(e, n, v, base)
    ensures MarkerOf(base, n) == Lookup(base.data[n].attrs, HYDRATION_NODE_ID_ATTR)
    ensures KeyOf(v).Some? ==>
              (MarkerOf(e, n) == KeyOf(v) <==>
               (Rewritten(v.attributes, HYDRATION_NODE_ID_ATTR, e.rules.attrOk) ==>
                  Find(v.attributes, HYDRATION_NODE_ID_ATTR).value.CurrentValue() == KeyOf(v)))
  {
  }

  lemma AllReadyAgain(base: Document, e: Document, root: NodeId, vs: seq<VNode>)
    requires WellFormed(base) && e.tree == base.tree && root in e.tree && AllReady(base, base.tree[root].kids, vs)
    requires AllConform(e, e.tree[root].kids, vs, base)
    ensures AllReady(e, e.tree[root].kids, vs) <==> AllMarkersStay(vs, e.rules.attrOk)
  {
    hide Ready, Conforms, MarkersStay, WellFormed;
    forall i | 0 <= i < |vs| ensures Ready(e, e.tree[root].kids[i], vs[i]) <==> MarkersStay(vs[i], e.rules.attrOk) {
      ReadyAgain(base, e, e.tree[root].kids[i], vs[i]);
    }
  }
}
