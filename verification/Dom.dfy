/**
 * The part of the browser's DOM the runtime relies on, as a value: a heap of numbered nodes
 * with parent and child links. Mutations follow sections 4.2.3 and 4.4 of the WHATWG DOM
 * Standard: an insertion whose reference node is not a child of the parent fails and changes
 * nothing, and so does a removal or replacement of a node that is not a child.
 *
 * Nodes are numbered in creation order, so a parent's number is below its children's.
 */
module Dom {
  import opened Prelude
  import opened VirtualDom

  type NodeId = nat

  datatype Kind = ElementNode(tag: string) | TextNode | CommentNode | FragmentNode

  /** A JavaScript-callable closure wrapping a vnode's handler. */
  datatype Closure = Closure(serial: nat, callback: nat)

  datatype Listener = Listener(name: string, closure: Closure)

  datatype Link = Link(parent: Option<NodeId>, kids: seq<NodeId>)

  type Tree = map<NodeId, Link>

  /** `eventId`, `attrId` and `regionId` are the `__krab_*` expandos. */
  datatype NodeData = NodeData(
    kind: Kind,
    text: string,
    attrs: map<string, string>,
    listeners: seq<Listener>,
    eventId: Option<nat>,
    attrId: Option<nat>,
    regionId: Option<nat>)

  /** The child-list and text mutations, in order. `target` is the node whose record it is. */
  datatype Mutation =
    | Inserted(target: NodeId, node: NodeId)
    | Removed(target: NodeId, node: NodeId)
    | Replaced(target: NodeId, node: NodeId, replacement: NodeId)
    | TextSet(target: NodeId)

  /** Which tag and attribute names `createElement` and `setAttribute` accept. */
  datatype Rules = Rules(tagOk: string -> bool, attrOk: string -> bool)

  datatype Document = Document(
    rules: Rules,
    tree: Tree,
    data: map<NodeId, NodeData>,
    next: NodeId,
    log: seq<Mutation>)

  // --- Well-formedness ---

  ghost predicate LinksOk(t: Tree, n: NodeId)
    requires n in t
  {
    && Distinct(t[n].kids)
    && (forall k :: k in t[n].kids ==> n < k && k in t && t[k].parent == Some(n))
    && (t[n].parent.Some? ==> t[n].parent.value in t && n in t[t[n].parent.value].kids)
  }

  ghost predicate TreeOk(t: Tree) {
    forall n :: n in t ==> LinksOk(t, n)
  }

  ghost predicate WellFormed(d: Document) {
    && d.tree.Keys == d.data.Keys
    && TreeOk(d.tree)
    && (forall n :: n in d.tree ==> n < d.next)
    && (forall n :: n in d.tree && d.data[n].kind.FragmentNode? ==> d.tree[n].parent == None)
  }

  // --- Subtrees ---

  /** `x` is in the subtree rooted at `r`. */
  predicate Under(t: Tree, r: NodeId, x: NodeId)
    ensures Under(t, r, x) ==> r <= x
    decreases x
  {
    || x == r
    || (x in t && t[x].parent.Some? && t[x].parent.value < x && Under(t, r, t[x].parent.value))
  }

  lemma {:induction false} UnderTransitive(t: Tree, a: NodeId, b: NodeId, x: NodeId)
    requires Under(t, a, b) && Under(t, b, x)
    ensures Under(t, a, x)
    decreases x
  {
    if x != b {
      UnderTransitive(t, a, b, t[x].parent.value);
    }
  }

  lemma UnderKid(d: Document, n: NodeId, k: NodeId, x: NodeId)
    requires WellFormed(d) && n in d.tree && k in d.tree[n].kids && Under(d.tree, k, x)
    ensures Under(d.tree, n, x) && x != n
  {
    assert LinksOk(d.tree, n);
    assert Under(d.tree, n, k);
    UnderTransitive(d.tree, n, k, x);
  }

  /** A proper descendant lies below exactly one child. */
  lemma {:induction false} UnderSomeKid(d: Document, n: NodeId, x: NodeId) returns (k: NodeId)
    requires WellFormed(d) && n in d.tree && Under(d.tree, n, x) && x != n
    ensures k in d.tree[n].kids && Under(d.tree, k, x)
    decreases x
  {
    assert LinksOk(d.tree, x);
    var p := d.tree[x].parent.value;
    if p == n {
      k := x;
    } else {
      k := UnderSomeKid(d, n, p);
    }
  }

  /** Subtrees of two siblings share no node. */
  lemma {:induction false} SiblingsDisjoint(d: Document, a: NodeId, b: NodeId, x: NodeId)
    requires WellFormed(d) && a in d.tree && b in d.tree && a != b
    requires d.tree[a].parent == d.tree[b].parent
    requires Under(d.tree, a, x)
    ensures !Under(d.tree, b, x)
    decreases x
  {
    assert LinksOk(d.tree, a) && LinksOk(d.tree, b);
    if x == a {
      if d.tree[a].parent.Some? {
        assert LinksOk(d.tree, d.tree[b].parent.value);
      }
    } else {
      SiblingsDisjoint(d, a, b, d.tree[x].parent.value);
    }
  }

  // --- Tree surgery ---

  function NextSibling(t: Tree, n: NodeId): (r: Option<NodeId>) {
    if n in t && t[n].parent.Some? && t[n].parent.value in t && n in t[t[n].parent.value].kids then
      var kids := t[t[n].parent.value].kids;
      var i := IndexOf(kids, n);
      if i + 1 < |kids| then Some(kids[i + 1]) else None
    else None
  }

  function FirstChild(t: Tree, n: NodeId): Option<NodeId> {
    if n in t && t[n].kids != [] then Some(t[n].kids[0]) else None
  }

  /** Unlinks `n` from its parent. */
  function Detach(t: Tree, n: NodeId): (r: Tree)
    requires TreeOk(t) && n in t
    ensures TreeOk(r) && r.Keys == t.Keys && r[n] == Link(None, t[n].kids)
    ensures forall x :: x in t && x != n && t[n].parent != Some(x) ==> r[x] == t[x]
    ensures t[n].parent.Some? ==>
              r[t[n].parent.value] == Link(t[t[n].parent.value].parent, Without(t[t[n].parent.value].kids, n))
  {
    match t[n].parent
    case None => t
    case Some(p) =>
      DetachOk(t, p, n);
      hide TreeOk;
      t[p := Link(t[p].parent, Without(t[p].kids, n))][n := Link(None, t[n].kids)]
  }

  lemma DetachOk(t: Tree, p: NodeId, n: NodeId)
    requires TreeOk(t) && n in t && t[n].parent == Some(p)
    ensures p in t && p != n && TreeOk(t[p := Link(t[p].parent, Without(t[p].kids, n))][n := Link(None, t[n].kids)])
  {
    hide Distinct, Without;
    assert LinksOk(t, n) && LinksOk(t, p);
    var r := t[p := Link(t[p].parent, Without(t[p].kids, n))][n := Link(None, t[n].kids)];
    WithoutDistinct(t[p].kids, n);
    forall x | x in r ensures LinksOk(r, x) {
      assert LinksOk(t, x);
    }
  }

  /** Links the parentless `n` under `p`, before `at`. */
  function Attach(t: Tree, p: NodeId, n: NodeId, at: Option<NodeId>): (r: Tree)
    requires TreeOk(t) && p in t && n in t && p < n && t[n].parent == None
    requires at.Some? ==> at.value in t[p].kids
    ensures TreeOk(r) && r.Keys == t.Keys
    ensures r[p] == Link(t[p].parent, Spliced(t[p].kids, [n], at))
    ensures r[n] == Link(Some(p), t[n].kids)
    ensures forall x :: x in t && x != n && x != p ==> r[x] == t[x]
  {
    AttachOk(t, p, n, at);
    t[p := Link(t[p].parent, Spliced(t[p].kids, [n], at))][n := Link(Some(p), t[n].kids)]
  }

  lemma AttachOk(t: Tree, p: NodeId, n: NodeId, at: Option<NodeId>)
    requires TreeOk(t) && p in t && n in t && p < n && t[n].parent == None
    requires at.Some? ==> at.value in t[p].kids
    ensures TreeOk(t[p := Link(t[p].parent, Spliced(t[p].kids, [n], at))][n := Link(Some(p), t[n].kids)])
  {
    hide Spliced, Distinct;
    var r := t[p := Link(t[p].parent, Spliced(t[p].kids, [n], at))][n := Link(Some(p), t[n].kids)];
    assert LinksOk(t, p) && n !in t[p].kids;
    OneDistinct(n);
    SplicedDistinct(t[p].kids, [n], at);
    forall x | x in r ensures LinksOk(r, x) {
      assert LinksOk(t, x);
    }
  }

  lemma OneDistinct(n: NodeId)
    ensures Distinct([n])
  {
  }

  /** Once `n` is unlinked, the node to insert before is still among the children. */
  lemma WhereFound(t: Tree, p: NodeId, n: NodeId, at: Option<NodeId>)
    requires TreeOk(t) && p in t && n in t && p < n
    requires at.Some? ==> at.value in t[p].kids
    ensures var where := if at == Some(n) then NextSibling(t, n) else at;
            where.Some? ==> where.value in Detach(t, n)[p].kids && where.value != n
  {
    assert LinksOk(t, p) && LinksOk(t, n);
    var where := if at == Some(n) then NextSibling(t, n) else at;
    assert at == Some(n) && where.Some? ==> where.value in t[p].kids && where.value != n by {
      assert Distinct(t[p].kids);
    }
  }

  /** Moves `n` under `p`, before `at`; a node moved before itself keeps its place. */
  function Moved(t: Tree, p: NodeId, n: NodeId, at: Option<NodeId>): (r: Tree)
    requires TreeOk(t) && p in t && n in t && p < n
    requires at.Some? ==> at.value in t[p].kids
    ensures TreeOk(r) && r.Keys == t.Keys
    ensures r[n] == Link(Some(p), t[n].kids)
    ensures forall x :: x in t && x != n && x != p && t[n].parent != Some(x) ==> r[x] == t[x]
    ensures r[p].parent == t[p].parent
  {
    WhereFound(t, p, n, at);
    Attach(Detach(t, n), p, n, if at == Some(n) then NextSibling(t, n) else at)
  }

  /** Empties document fragment `f` into `p`, before `at`. */
  function MoveKids(t: Tree, f: NodeId, p: NodeId, at: Option<NodeId>): (r: Tree)
    requires TreeOk(t) && p in t && f in t && p < f && t[f].parent == None
    requires at.Some? ==> at.value in t[p].kids
    ensures TreeOk(r) && r.Keys == t.Keys
    ensures r[p] == Link(t[p].parent, Spliced(t[p].kids, t[f].kids, at))
    ensures r[f] == Link(None, [])
    ensures forall x :: x in t[f].kids ==> r[x] == Link(Some(p), t[x].kids)
    ensures forall x :: x in t && x != f && x != p && x !in t[f].kids ==> r[x] == t[x]
  {
    assert LinksOk(t, p) && LinksOk(t, f);
    var r := map x | x in t ::
        if x == p then Link(t[p].parent, Spliced(t[p].kids, t[f].kids, at))
        else if x == f then Link(None, [])
        else if x in t[f].kids then Link(Some(p), t[x].kids)
        else t[x];
    assert TreeOk(r) by {
      MoveKidsOk(t, f, p, at, r);
    }
    r
  }

  lemma MoveKidsOk(t: Tree, f: NodeId, p: NodeId, at: Option<NodeId>, r: Tree)
    requires TreeOk(t) && p in t && f in t && p < f && t[f].parent == None && r.Keys == t.Keys
    requires at.Some? ==> at.value in t[p].kids
    requires r[p] == Link(t[p].parent, Spliced(t[p].kids, t[f].kids, at)) && r[f] == Link(None, [])
    requires forall x :: x in t && x != p && x != f ==>
               r[x] == if x in t[f].kids then Link(Some(p), t[x].kids) else t[x]
    ensures TreeOk(r)
  {
    hide Spliced, Distinct;
    assert LinksOk(t, p) && LinksOk(t, f);
    SplicedDistinct(t[p].kids, t[f].kids, at);
    NoKidsDistinct();
    forall x | x in r ensures LinksOk(r, x) {
      assert LinksOk(t, x);
    }
  }

  lemma NoKidsDistinct()
    ensures Distinct<NodeId>([])
  {
  }

  /** Orphans every child of `n`. */
  function Emptied(t: Tree, n: NodeId): (r: Tree)
    requires TreeOk(t) && n in t
    ensures TreeOk(r) && r.Keys == t.Keys
    ensures r[n] == Link(t[n].parent, [])
    ensures forall x :: x in t[n].kids ==> r[x] == Link(None, t[x].kids)
    ensures forall x :: x in t && x != n && x !in t[n].kids ==> r[x] == t[x]
  {
    assert LinksOk(t, n);
    var r := map x | x in t ::
        if x == n then Link(t[n].parent, [])
        else if x in t[n].kids then Link(None, t[x].kids)
        else t[x];
    assert TreeOk(r) by {
      forall x | x in r ensures LinksOk(r, x) {
        assert LinksOk(t, x);
      }
    }
    r
  }

  // --- The DOM operations ---

  predicate IsChild(d: Document, p: NodeId, n: NodeId) {
    n in d.tree && d.tree[n].parent == Some(p)
  }

  predicate IsElement(d: Document, n: NodeId) {
    n in d.data && d.data[n].kind.ElementNode?
  }

  predicate MayHaveKids(d: Document, p: NodeId) {
    p in d.data && (d.data[p].kind.ElementNode? || d.data[p].kind.FragmentNode?)
  }

  /** Only the links and the log differ. */
  ghost predicate SameNodes(d: Document, e: Document) {
    e == d.(tree := e.tree, log := e.log) && e.tree.Keys == d.tree.Keys
  }

  /** Links that are in order and leave the fragments parentless can be put in place. */
  lemma RelinkedOk(d: Document, tree: Tree, log: seq<Mutation>)
    requires WellFormed(d) && TreeOk(tree) && tree.Keys == d.tree.Keys
    requires forall x :: x in tree && d.data[x].kind.FragmentNode? ==> tree[x].parent == None
    ensures WellFormed(d.(tree := tree, log := log))
  {
    hide LinksOk;
  }

  lemma AttachedParents(t: Tree, p: NodeId, n: NodeId, at: Option<NodeId>, x: NodeId)
    requires TreeOk(t) && p in t && n in t && p < n && t[n].parent == None && x in t && x != n
    requires at.Some? ==> at.value in t[p].kids
    ensures Attach(t, p, n, at)[x].parent == t[x].parent
  {
    hide TreeOk, Spliced;
  }

  lemma DetachedParents(t: Tree, n: NodeId, x: NodeId)
    requires TreeOk(t) && n in t && x in t && x != n
    ensures Detach(t, n)[x].parent == t[x].parent
  {
    hide TreeOk, Without;
  }

  lemma MovedParents(t: Tree, p: NodeId, n: NodeId, at: Option<NodeId>, x: NodeId)
    requires TreeOk(t) && p in t && n in t && p < n && x in t && x != n
    requires at.Some? ==> at.value in t[p].kids
    ensures Moved(t, p, n, at)[x].parent == t[x].parent
  {
    hide TreeOk, Spliced, Without, Attach, Detach;
    WhereFound(t, p, n, at);
    DetachedParents(t, n, x);
    AttachedParents(Detach(t, n), p, n, if at == Some(n) then NextSibling(t, n) else at, x);
  }

  lemma InsertedOk(d: Document, p: NodeId, n: NodeId, at: Option<NodeId>, tree: Tree, log: seq<Mutation>)
    requires WellFormed(d) && p in d.tree && n in d.tree && p < n
    requires at.Some? ==> at.value in d.tree[p].kids
    requires d.data[n].kind.FragmentNode? ==> tree == MoveKids(d.tree, n, p, at)
    requires !d.data[n].kind.FragmentNode? ==> tree == Moved(d.tree, p, n, at)
    ensures WellFormed(d.(tree := tree, log := log))
  {
    hide Moved, MoveKids, LinksOk, Spliced;
    forall x | x in tree && d.data[x].kind.FragmentNode? ensures tree[x].parent == None {
      if !d.data[n].kind.FragmentNode? {
        MovedParents(d.tree, p, n, at, x);
      } else if x in d.tree[n].kids {
        assert LinksOk(d.tree, n);
        HangsUnder(d.tree, n, x);
      }
    }
    RelinkedOk(d, tree, log);
  }

  lemma HangsUnder(t: Tree, n: NodeId, k: NodeId)
    requires TreeOk(t) && n in t && k in t[n].kids
    ensures k in t && t[k].parent == Some(n)
  {
    assert LinksOk(t, n);
  }

  function InsertBefore(d: Document, p: NodeId, n: NodeId, at: Option<NodeId>): (r: (Document, bool))
    requires WellFormed(d) && p in d.tree && n in d.tree && p < n
    ensures r.1 <==> MayHaveKids(d, p) && !Under(d.tree, n, p) && (at.Some? ==> IsChild(d, p, at.value))
    ensures WellFormed(r.0) && SameNodes(d, r.0)
    ensures r.0.log == if r.1 then d.log + [Inserted(p, n)] else d.log
    ensures !r.1 ==> r.0 == d
  {
    if !MayHaveKids(d, p) || Under(d.tree, n, p) || (at.Some? && !IsChild(d, p, at.value)) then (d, false)
    else
      assert at.Some? ==> LinksOk(d.tree, at.value);
      var tree := if d.data[n].kind.FragmentNode? then MoveKids(d.tree, n, p, at) else Moved(d.tree, p, n, at);
      InsertedOk(d, p, n, at, tree, d.log + [Inserted(p, n)]);
      (d.(tree := tree, log := d.log + [Inserted(p, n)]), true)
  }

  function AppendChild(d: Document, p: NodeId, n: NodeId): (r: (Document, bool))
    requires WellFormed(d) && p in d.tree && n in d.tree && p < n
    ensures r == InsertBefore(d, p, n, None)
  {
    InsertBefore(d, p, n, None)
  }

  lemma ChildListed(d: Document, p: NodeId, n: NodeId)
    requires WellFormed(d) && IsChild(d, p, n)
    ensures p in d.tree && n in d.tree[p].kids && p < n
  {
    assert LinksOk(d.tree, n) && LinksOk(d.tree, d.tree[n].parent.value);
  }

  lemma ReplacedOk(d: Document, p: NodeId, replacement: NodeId, n: NodeId, log: seq<Mutation>)
    requires WellFormed(d) && p in d.tree && n in d.tree && replacement in d.tree && p < replacement
    requires d.tree[replacement].parent == None && !d.data[replacement].kind.FragmentNode? && IsChild(d, p, n)
    ensures var t, where := Detach(d.tree, n), NextSibling(d.tree, n);
            && t[replacement].parent == None && (where.Some? ==> where.value in t[p].kids)
            && WellFormed(d.(tree := Attach(t, p, replacement, where), log := log))
  {
    hide LinksOk, Spliced, Attach, Detach, NextSibling;
    ChildListed(d, p, n);
    WhereFound(d.tree, p, n, Some(n));
    DetachedParents(d.tree, n, replacement);
    var t, where := Detach(d.tree, n), NextSibling(d.tree, n);
    forall x | x in t && d.data[x].kind.FragmentNode? ensures Attach(t, p, replacement, where)[x].parent == None {
      AttachedParents(t, p, replacement, where, x);
      if x != n {
        DetachedParents(d.tree, n, x);
      }
    }
    RelinkedOk(d, Attach(t, p, replacement, where), log);
  }

  /** `replacement` is a newly built node, so it has no parent. */
  function ReplaceChild(d: Document, p: NodeId, replacement: NodeId, n: NodeId): (r: (Document, bool))
    requires WellFormed(d) && p in d.tree && n in d.tree && replacement in d.tree && p < replacement
    requires d.tree[replacement].parent == None && !d.data[replacement].kind.FragmentNode?
    ensures r.1 <==> IsChild(d, p, n) && !Under(d.tree, replacement, p)
    ensures WellFormed(r.0) && SameNodes(d, r.0)
    ensures r.0.log == if r.1 then d.log + [Replaced(p, n, replacement)] else d.log
    ensures !r.1 ==> r.0 == d
  {
    if !IsChild(d, p, n) || Under(d.tree, replacement, p) then (d, false)
    else
      var where := NextSibling(d.tree, n);
      var t := Detach(d.tree, n);
      ReplacedOk(d, p, replacement, n, d.log + [Replaced(p, n, replacement)]);
      (d.(tree := Attach(t, p, replacement, where), log := d.log + [Replaced(p, n, replacement)]), true)
  }

  function RemoveChild(d: Document, p: NodeId, n: NodeId): (r: (Document, bool))
    requires WellFormed(d)
    ensures r.1 <==> IsChild(d, p, n)
    ensures WellFormed(r.0) && SameNodes(d, r.0)
    ensures r.0.log == if r.1 then d.log + [Removed(p, n)] else d.log
    ensures r.0.tree == if r.1 then Detach(d.tree, n) else d.tree
    ensures !r.1 ==> r.0 == d
  {
    if !IsChild(d, p, n) then (d, false)
    else (d.(tree := Detach(d.tree, n), log := d.log + [Removed(p, n)]), true)
  }

  function NewData(kind: Kind, text: string): NodeData {
    NodeData(kind, text, map[], [], None, None, None)
  }

  /** A new parentless node. */
  function CreateNode(d: Document, kind: Kind, text: string): (r: Document)
    requires WellFormed(d)
    ensures WellFormed(r) && d.next !in d.tree && r.next == d.next + 1
    ensures r.tree == d.tree[d.next := Link(None, [])]
    ensures r.data == d.data[d.next := NewData(kind, text)]
    ensures r.rules == d.rules && r.log == d.log
  {
    var r := d.(tree := d.tree[d.next := Link(None, [])],
                data := d.data[d.next := NewData(kind, text)],
                next := d.next + 1);
    assert TreeOk(r.tree) by {
      forall n | n in r.tree ensures LinksOk(r.tree, n) {
        assert n in d.tree ==> LinksOk(d.tree, n);
      }
    }
    r
  }

  /** Replaces one node's own record; its kind stays. */
  function SetData(d: Document, n: NodeId, data: NodeData): (r: Document)
    requires WellFormed(d) && n in d.data && data.kind == d.data[n].kind
    ensures WellFormed(r)
    ensures r.tree == d.tree && r.rules == d.rules && r.next == d.next && r.log == d.log
    ensures r.data.Keys == d.data.Keys && r.data[n] == data
    ensures forall m :: m in d.data && m != n ==> r.data[m] == d.data[m]
  {
    d.(data := d.data[n := data])
  }

  lemma SetDataTwice(d: Document, n: NodeId, a: NodeData, b: NodeData)
    requires WellFormed(d) && n in d.data && a.kind == d.data[n].kind && b.kind == a.kind
    ensures SetData(SetData(d, n, a), n, b) == SetData(d, n, b)
  {
    hide WellFormed;
    WrittenTwice(d.data, n, a, b);
  }

  lemma WrittenTwice(data: map<NodeId, NodeData>, n: NodeId, a: NodeData, b: NodeData)
    ensures data[n := a][n := b] == data[n := b]
  {
  }

  lemma SetDataSame(d: Document, n: NodeId)
    requires WellFormed(d) && n in d.data
    ensures SetData(d, n, d.data[n]) == d
  {
    assert d.data[n := d.data[n]] == d.data;
  }

  function SetAttribute(d: Document, n: NodeId, name: string, value: string): (r: Document)
    requires WellFormed(d) && n in d.data
    ensures WellFormed(r)
  {
    if d.rules.attrOk(name) then SetData(d, n, d.data[n].(attrs := d.data[n].attrs[name := value])) else d
  }

  function RemoveAttribute(d: Document, n: NodeId, name: string): (r: Document)
    requires WellFormed(d) && n in d.data
    ensures WellFormed(r)
  {
    SetData(d, n, d.data[n].(attrs := d.data[n].attrs - {name}))
  }

  /** A new text node at the end of `n`. */
  function WithText(d: Document, n: NodeId, text: string): (r: Document)
    requires WellFormed(d) && n in d.tree
    ensures WellFormed(r) && r.rules == d.rules && r.log == d.log && r.next >= d.next
    ensures n in r.tree && r.tree[n].parent == d.tree[n].parent
    ensures forall x :: x in d.tree ==> x in r.tree && (x != n ==> r.tree[x] == d.tree[x])
    ensures forall x :: x in d.data ==> x in r.data && r.data[x] == d.data[x]
    ensures forall x :: x in r.data && x !in d.data ==> x >= d.next && r.data[x] == NewData(TextNode, text)
  {
    hide TreeOk, Spliced, NewData;
    var made := CreateNode(d, TextNode, text);
    LinkedTextOk(made, n, d.next);
    TextRecords(d, made, text);
    TextLinks(d, made, n, text);
    made.(tree := Attach(made.tree, n, d.next, None))
  }

  lemma TextRecords(d: Document, made: Document, text: string)
    requires WellFormed(d) && made == CreateNode(d, TextNode, text)
    ensures forall x :: x in d.data ==> x in made.data && made.data[x] == d.data[x]
    ensures forall x :: x in made.data && x !in d.data ==> x >= d.next && made.data[x] == NewData(TextNode, text)
  {
    hide TreeOk, CreateNode;
  }

  lemma TextLinks(d: Document, made: Document, n: NodeId, text: string)
    requires WellFormed(d) && n in d.tree && made == CreateNode(d, TextNode, text)
    ensures var t := Attach(made.tree, n, d.next, None);
            t[n].parent == d.tree[n].parent && forall x :: x in d.tree ==> x in t && (x != n ==> t[x] == d.tree[x])
  {
    hide TreeOk, CreateNode, Attach, Spliced;
  }

  lemma LinkedTextOk(d: Document, p: NodeId, n: NodeId)
    requires WellFormed(d) && p in d.tree && n in d.tree && p < n && d.tree[n].parent == None
             && d.data[n].kind.TextNode?
    ensures WellFormed(d.(tree := Attach(d.tree, p, n, None)))
  {
    hide LinksOk, Spliced, Attach;
    forall x | x in d.tree && d.data[x].kind.FragmentNode? ensures Attach(d.tree, p, n, None)[x].parent == None {
      AttachedParents(d.tree, p, n, None, x);
    }
    RelinkedOk(d, Attach(d.tree, p, n, None), d.log);
  }

  /** Replaces all children of `n` by one text node, or by nothing. */
  function ReplaceAll(d: Document, n: NodeId, text: string): (r: Document)
    requires WellFormed(d) && n in d.tree
    ensures WellFormed(r) && r.rules == d.rules && r.log == d.log && r.next >= d.next
    ensures n in r.tree && r.tree[n].parent == d.tree[n].parent
    ensures forall x :: x in d.tree ==> x in r.tree && (x != n && x !in d.tree[n].kids ==> r.tree[x] == d.tree[x])
    ensures forall x :: x in d.data ==> x in r.data && r.data[x] == d.data[x]
    ensures forall x :: x in r.data && x !in d.data ==> x >= d.next && r.data[x] == NewData(TextNode, text)
  {
    var bare := d.(tree := Emptied(d.tree, n));
    if text == "" then bare else WithText(bare, n, text)
  }

  /** On text and comments this writes the data; on elements it replaces all children. */
  function SetTextContent(d: Document, n: NodeId, text: string): (r: Document)
    requires WellFormed(d) && n in d.tree
    ensures WellFormed(r)
  {
    var e := if MayHaveKids(d, n) then ReplaceAll(d, n, text) else SetData(d, n, d.data[n].(text := text));
    e.(log := d.log + [TextSet(n)])
  }
}
