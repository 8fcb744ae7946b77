/** The view tree of `krab_core` that the client renders, hydrates and patches. */
module VirtualDom {
  import opened Prelude

  const HYDRATION_NODE_ID_ATTR := "data-krab-node-id"

  /** What a reactive attribute's source evaluates to in the current render (`None`: absent). */
  datatype Source = Source(now: Option<string>)

  datatype Attribute = Attribute(name: string, value: string, dynamic: Option<Source>) {
    predicate IsDynamic() { dynamic.Some? }

    function CurrentValue(): Option<string> {
      if dynamic.Some? then dynamic.value.now else Some(value)
    }
  }

  /** `callback` stands for the handler closure. */
  datatype EventListener = EventListener(name: string, callback: nat)

  datatype VNode =
    | Element(tag: string, attributes: seq<Attribute>, children: seq<VNode>, events: seq<EventListener>)
    | Text(text: string)
    | Comment(text: string)
    | Fragment(nodes: seq<VNode>)

  /** The first attribute called `name`. */
  function Find(attributes: seq<Attribute>, name: string): (r: Option<Attribute>)
    ensures r.Some? ==> r.value in attributes && r.value.name == name
    ensures r.None? ==> forall a :: a in attributes ==> a.name != name
  {
    if attributes == [] then None
    else if attributes[0].name == name then Some(attributes[0])
    else Find(attributes[1..], name)
  }

  /** The reconciliation key of a vnode: its hydration marker. */
  function KeyOf(v: VNode): Option<string> {
    match v
    case Element(_, attributes, _, _) =>
      (match Find(attributes, HYDRATION_NODE_ID_ATTR)
       case Some(a) => Some(a.value)
       case None => None)
    case _ => None
  }

  function Keys(vs: seq<VNode>): (r: seq<Option<string>>)
    ensures |r| == |vs| && forall i :: 0 <= i < |vs| ==> r[i] == KeyOf(vs[i])
  {
    seq(|vs|, i requires 0 <= i < |vs| => KeyOf(vs[i]))
  }

  // --- Size, for recursion through child lists ---

  function Weight(v: VNode): (w: nat)
    ensures w > 0
  {
    match v
    case Element(_, _, children, _) => 1 + WeightAll(children)
    case Fragment(nodes) => 1 + WeightAll(nodes)
    case _ => 1
  }

  function WeightAll(vs: seq<VNode>): nat {
    if vs == [] then 0 else Weight(vs[0]) + WeightAll(vs[1..])
  }

  // --- Fragments ---

  /**
   * The sequence of nodes a child list actually produces: a fragment has no node
   * of its own, its children stand in its place.
   */
  function Flatten(vs: seq<VNode>): (r: seq<VNode>)
    ensures forall v :: v in r ==> !v.Fragment?
    ensures forall v :: v in r ==> Weight(v) <= WeightAll(vs)
    decreases WeightAll(vs)
  {
    if vs == [] then []
    else if vs[0].Fragment? then
      assert Weight(vs[0]) == 1 + WeightAll(vs[0].nodes);
      Flatten(vs[0].nodes) + Flatten(vs[1..])
    else [vs[0]] + Flatten(vs[1..])
  }

  lemma {:induction false} FlattenConcat(a: seq<VNode>, b: seq<VNode>)
    ensures Flatten(a + b) == Flatten(a) + Flatten(b)
  {
    if a == [] {
      assert a + b == b;
    } else {
      assert (a + b)[1..] == a[1..] + b;
      FlattenConcat(a[1..], b);
    }
  }

  lemma FlattenOne(v: VNode)
    ensures Flatten([v]) == if v.Fragment? then Flatten(v.nodes) else [v]
  {
    assert [v][1..] == [];
  }

  lemma FlattenSnoc(vs: seq<VNode>, i: nat)
    requires i < |vs|
    ensures Flatten(vs[..i + 1]) == Flatten(vs[..i]) + Flatten([vs[i]])
  {
    assert vs[..i + 1] == vs[..i] + [vs[i]];
    FlattenConcat(vs[..i], [vs[i]]);
  }

  // --- Well-formed trees ---

  ghost predicate DistinctNames(attributes: seq<Attribute>) {
    forall i, j :: 0 <= i < j < |attributes| ==> attributes[i].name != attributes[j].name
  }

  /** Attribute names are distinct within every element of the tree. */
  ghost predicate Plain(v: VNode) {
    match v
    case Element(_, attributes, children, _) => DistinctNames(attributes) && PlainAll(children)
    case Fragment(nodes) => PlainAll(nodes)
    case _ => true
  }

  ghost predicate PlainAll(vs: seq<VNode>) {
    forall v :: v in vs ==> Plain(v)
  }

  lemma {:induction false} FlattenPlain(vs: seq<VNode>)
    requires PlainAll(vs)
    ensures PlainAll(Flatten(vs))
    decreases WeightAll(vs)
  {
    if vs != [] {
      assert vs[0] in vs;
      assert PlainAll(vs[1..]);
      FlattenPlain(vs[1..]);
      if vs[0].Fragment? {
        assert Weight(vs[0]) == 1 + WeightAll(vs[0].nodes);
        FlattenPlain(vs[0].nodes);
      }
    }
  }

  lemma {:induction false} FindDistinct(attributes: seq<Attribute>, i: nat)
    requires DistinctNames(attributes) && i < |attributes|
    ensures Find(attributes, attributes[i].name) == Some(attributes[i])
  {
    if i > 0 {
      FindDistinct(attributes[1..], i - 1);
    }
  }
}
