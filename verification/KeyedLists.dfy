/** `<For>` rows and their keys, and what reconciliation does to the nodes behind them. */
module KeyedLists {
  import opened Prelude
  import opened VirtualDom
  import opened Dom
  import opened Resources
  import opened Rendering
  import opened Building
  import opened Confinement
  import opened KeyedMatching
  import opened PatchSteps
  import opened Runs
  import opened Reconcile

  function ChildPath(parent: string, index: nat): string {
    if parent == "" then Decimal(index) else parent + "." + Decimal(index)
  }

  /** Stamps the marker unless the element already carries one. */
  function Stamped(attributes: seq<Attribute>, value: string): seq<Attribute> {
    if Find(attributes, HYDRATION_NODE_ID_ATTR).Some? then attributes
    else attributes + [Attribute(HYDRATION_NODE_ID_ATTR, value, None)]
  }

  /** Stamps `key` on a row; a fragment passes derived keys on to its children. */
  function WithKey(v: VNode, key: string): VNode
    decreases v, 1
  {
    match v
    case Element(tag, attributes, children, events) => Element(tag, Stamped(attributes, key), children, events)
    case Fragment(nodes) => Fragment(WithKeys(nodes, key, 0))
    case _ => v
  }

  function WithKeys(vs: seq<VNode>, key: string, from: nat): seq<VNode>
    decreases vs, 0
  {
    if vs == [] then [] else [WithKey(vs[0], ChildPath(key, from))] + WithKeys(vs[1..], key, from + 1)
  }

  /** One item of a list: its key and the view of it. */
  datatype Item = Item(key: string, view: VNode)

  /** What `<For>` renders. */
  function ForEach(items: seq<Item>): VNode {
    Fragment(Rows(items))
  }

  function Rows(items: seq<Item>): (r: seq<VNode>)
    ensures |r| == |items| && forall i :: 0 <= i < |items| ==> r[i] == WithKey(items[i].view, items[i].key)
  {
    seq(|items|, i requires 0 <= i < |items| => WithKey(items[i].view, items[i].key))
  }

  /** Keys are unique and every view is an element that carries no marker of its own. */
  ghost predicate KeyedItems(items: seq<Item>) {
    && (forall i, k :: 0 <= i < k < |items| ==> items[i].key != items[k].key)
    && (forall i :: 0 <= i < |items| ==>
          items[i].view.Element? && Find(items[i].view.attributes, HYDRATION_NODE_ID_ATTR).None?)
  }

  lemma {:induction false} StampedKey(attributes: seq<Attribute>, value: string)
    requires Find(attributes, HYDRATION_NODE_ID_ATTR).None?
    ensures Find(Stamped(attributes, value), HYDRATION_NODE_ID_ATTR)
         == Some(Attribute(HYDRATION_NODE_ID_ATTR, value, None))
  {
    FindConcat(attributes, Attribute(HYDRATION_NODE_ID_ATTR, value, None), HYDRATION_NODE_ID_ATTR);
  }

  lemma {:induction false} PassedOn(vs: seq<VNode>, key: string, from: nat, i: nat)
    requires i < |vs|
    ensures |WithKeys(vs, key, from)| == |vs| && WithKeys(vs, key, from)[i] == WithKey(vs[i], ChildPath(key, from + i))
    decreases |vs|
  {
    hide WithKey, ChildPath;
    if i > 0 {
      PassedOn(vs[1..], key, from + 1, i - 1);
    } else if |vs| > 1 {
      PassedOn(vs[1..], key, from + 1, 0);
    }
  }

  /** A row that is a fragment passes on derived keys: its children get different ones. */
  lemma DerivedKeys(vs: seq<VNode>, key: string, i: nat, k: nat)
    requires i < |vs| && k < |vs| && i != k
    requires vs[i].Element? && Find(vs[i].attributes, HYDRATION_NODE_ID_ATTR).None?
    requires vs[k].Element? && Find(vs[k].attributes, HYDRATION_NODE_ID_ATTR).None?
    ensures var row := WithKey(Fragment(vs), key);
            && row.Fragment? && |row.nodes| == |vs|
            && KeyOf(row.nodes[i]).Some? && KeyOf(row.nodes[k]).Some? && KeyOf(row.nodes[i]) != KeyOf(row.nodes[k])
  {
    hide WithKeys, WithKey, KeyOf, ChildPath, Find;
    RowIs(vs, key);
    ChildKey(vs, key, i);
    ChildKey(vs, key, k);
    if ChildPath(key, i) == ChildPath(key, k) {
      PathIndex(key, i, k);
    }
  }

  lemma RowIs(vs: seq<VNode>, key: string)
    ensures WithKey(Fragment(vs), key) == Fragment(WithKeys(vs, key, 0))
  {
  }

  lemma ChildKey(vs: seq<VNode>, key: string, i: nat)
    requires i < |vs| && vs[i].Element? && Find(vs[i].attributes, HYDRATION_NODE_ID_ATTR).None?
    ensures |WithKeys(vs, key, 0)| == |vs| && KeyOf(WithKeys(vs, key, 0)[i]) == Some(ChildPath(key, i))
  {
    hide WithKeys, ChildPath;
    PassedOn(vs, key, 0, i);
    RowKey(Item(ChildPath(key, i), vs[i]));
  }

  lemma PathIndex(key: string, i: nat, k: nat)
    requires ChildPath(key, i) == ChildPath(key, k)
    ensures i == k
  {
    hide Decimal;
    if key != "" {
      assert (key + "." + Decimal(i))[|key| + 1..] == Decimal(i);
      assert (key + "." + Decimal(k))[|key| + 1..] == Decimal(k);
    }
    DecimalInjective(i, k);
  }

  lemma {:induction false} FlattenElements(vs: seq<VNode>)
    requires forall v :: v in vs ==> v.Element?
    ensures Flatten(vs) == vs
  {
    if vs != [] {
      assert vs[0] in vs;
      FlattenElements(vs[1..]);
    }
  }

  /** A keyed list flattens to its rows, one per item, keyed by the items' keys. */
  lemma RowKeys(items: seq<Item>)
    requires KeyedItems(items)
    ensures Flatten([ForEach(items)]) == Rows(items)
    ensures forall i :: 0 <= i < |items| ==> KeyOf(Rows(items)[i]) == Some(items[i].key)
    ensures UniqueKeys(Keys(Rows(items)))
  {
    hide WithKey, KeyOf, Flatten;
    var rows := Rows(items);
    FlattenOne(ForEach(items));
    forall i | 0 <= i < |items| ensures rows[i].Element? && KeyOf(rows[i]) == Some(items[i].key) {
      RowKey(items[i]);
    }
    FlattenElements(rows);
  }

  lemma RowKey(item: Item)
    requires item.view.Element? && Find(item.view.attributes, HYDRATION_NODE_ID_ATTR).None?
    ensures WithKey(item.view, item.key).Element? && KeyOf(WithKey(item.view, item.key)) == Some(item.key)
  {
    StampedKey(item.view.attributes, item.key);
  }

  /** The row's node is an element whose children line up with the row's view. */
  ghost predicate LinesUp(d: Document, n: NodeId, v: VNode) {
    v.Element? && IsElement(d, n) && n in d.tree && |d.tree[n].kids| == |Flatten(v.children)|
  }

  /** Keeping the row's node is possible: it lines up, and the tag stayed. */
  ghost predicate Keepable(d: Document, n: NodeId, before: Item, after: Item) {
    LinesUp(d, n, before.view) && after.view.Element? && after.view.tag == before.view.tag
  }

  lemma RowPatchable(d: Document, n: NodeId, before: Item, after: Item)
    requires before.view.Element? && after.view.Element?
    ensures Patchable(d, n, WithKey(before.view, before.key), WithKey(after.view, after.key))
        <==> Keepable(d, n, before, after)
  {
  }

  /**
   * Keyed identity: a surviving key keeps its DOM node exactly when that can be kept, and every
   * other row is a node that did not exist before.
   */
  ghost predicate IdentityKept(d: Document, ns: seq<NodeId>, before: seq<Item>, after: seq<Item>, placed: seq<NodeId>)
    requires |ns| == |before| && |placed| == |after|
  {
    && (forall j, s :: 0 <= j < |after| && 0 <= s < |before| && after[j].key == before[s].key ==>
          if Keepable(d, ns[s], before[s], after[j]) then placed[j] == ns[s] else placed[j] >= d.next)
    && (forall j :: 0 <= j < |after| && (forall s :: 0 <= s < |before| ==> after[j].key != before[s].key) ==>
          placed[j] >= d.next)
  }

  lemma SurvivorsKeepTheirNodes(d: Document, ns: seq<NodeId>, before: seq<Item>, after: seq<Item>, placed: seq<NodeId>)
    requires KeyedItems(before) && KeyedItems(after) && |ns| == |before| && |placed| == |after|
    requires PlacedOrigins(d, ns, Rows(before), Rows(after), placed)
    ensures IdentityKept(d, ns, before, after, placed)
  {
    hide Claim, WithKey, Keepable, Patchable;
    var prior, wanted := Rows(before), Rows(after);
    RowKeys(before);
    RowKeys(after);
    forall j, s | 0 <= j < |after| && 0 <= s < |before| && after[j].key == before[s].key
      ensures if Keepable(d, ns[s], before[s], after[j]) then placed[j] == ns[s] else placed[j] >= d.next
    {
      UniqueClaims(Keys(prior), Keys(wanted), j, s);
      assert PlacedFrom(d, ns, prior, wanted, j, placed[j]);
      RowPatchable(d, ns[s], before[s], after[j]);
    }
    forall j | 0 <= j < |after| && (forall s :: 0 <= s < |before| ==> after[j].key != before[s].key)
      ensures placed[j] >= d.next
    {
      var c := Claim(Keys(prior), Keys(wanted), j);
      if c.Some? {
        UniqueClaims(Keys(prior), Keys(wanted), j, c.value);
      }
      assert PlacedFrom(d, ns, prior, wanted, j, placed[j]);
    }
  }

  /**
   * Re-renders a `<For>` in place: the rows end up in item order between the same neighbours, and
   * identity follows the keys, whatever reactive attributes have done to the rows since.
   */
  method RerenderFor(rt: Runtime, el: NodeId, existing: seq<NodeId>, before: seq<Item>, after: seq<Item>,
                     anchor: Option<NodeId>, ghost pre: seq<NodeId>, ghost suf: seq<NodeId>)
    returns (rows: seq<NodeId>)
    requires rt.Valid() && IsElement(rt.dom, el) && el in rt.dom.tree
    requires rt.dom.tree[el].kids == pre + existing + suf && AnchorOk(anchor, pre, suf) && |existing| == |before|
    requires forall i :: 0 <= i < |existing| ==> NoAnchors(rt.dom, rt.dynamicRegions, existing[i])
    requires KeyedItems(before) && KeyedItems(after) && Plain(ForEach(before)) && Plain(ForEach(after))
    modifies rt
    ensures rt.Valid() && el in rt.dom.tree && |rows| == |after| && rt.dom.tree[el].kids == pre + rows + suf
    ensures AllMatch(old(rt.dom), existing, Rows(before), true) ==> AllShow(rt.dom, rows, Rows(after))
    ensures IdentityKept(old(rt.dom), existing, before, after, rows)
  {
    hide WellFormed, EventsAgree, EffectsAgree, RegionsAgree, NoAnchors, Matches, RunLog, RunFrame, PlacedOrigins,
         PlacedShow, Plain, KeyedItems, AnchorOk, IdentityKept;
    ghost var d := rt.dom;
    RowKeys(before);
    RowKeys(after);
    var r := ReconcileRange(rt, el, existing, [ForEach(before)], [ForEach(after)], anchor, pre, suf);
    rows := r.value;
    RunBasics(d, rt.dom, el, existing);
    AllPlacedShow(d, rt.dom, existing, Rows(before), Rows(after), rows);
    SurvivorsKeepTheirNodes(d, existing, before, after, rows);
  }

  // --- Rows between two renders ---

  /** A row that was just rendered lines up. */
  lemma ShownLinesUp(d: Document, n: NodeId, v: VNode)
    requires v.Element? && Shows(d, n, v) && d.rules.tagOk(v.tag)
    ensures LinesUp(d, n, v)
  {
  }

  /** From `d` to `e` only reactive attributes below `n` took other values. */
  ghost predicate ReactiveOnly(d: Document, e: Document, n: NodeId, v: VNode)
    decreases Weight(v)
  {
    && e.rules == d.rules && n in d.tree && n in d.data && n in e.tree && n in e.data
      && e.tree[n].kids == d.tree[n].kids
    && match v
       case Element(_, attributes, children, _) =>
         var flat, kids := Flatten(children), d.tree[n].kids;
         && e.data[n] == d.data[n].(attrs := e.data[n].attrs)
         && OnlyReactive(d.data[n].attrs, e.data[n].attrs, attributes, d.rules.attrOk)
         && (|kids| == |flat| ==>
               forall i :: 0 <= i < |flat| ==> flat[i] in flat && ReactiveOnly(d, e, kids[i], flat[i]))
       case _ => e.data[n] == d.data[n]
  }

  ghost predicate OnlyReactive(attrs: map<string, string>, attrs': map<string, string>, attributes: seq<Attribute>,
                               ok: string -> bool) {
    forall name :: Lookup(attrs', name) != Lookup(attrs, name) ==>
      Find(attributes, name).Some? && Find(attributes, name).value.IsDynamic() && (name in attrs' ==> ok(name))
  }

  lemma ReactiveTracked(attrs: map<string, string>, attrs': map<string, string>, attributes: seq<Attribute>,
                        ok: string -> bool)
    requires AttrsTracked(attrs, attributes, ok) && OnlyReactive(attrs, attrs', attributes, ok)
    ensures AttrsTracked(attrs', attributes, ok)
  {
    forall name | name in attrs' ensures ok(name) && Find(attributes, name).Some? {
      assert Lookup(attrs', name) != Lookup(attrs, name) || name in attrs;
    }
    forall name | Find(attributes, name).Some? && !Find(attributes, name).value.IsDynamic() && ok(name)
      ensures Lookup(attrs', name) == Some(Find(attributes, name).value.value)
    {
      assert Lookup(attrs', name) == Lookup(attrs, name);
    }
  }

  /** Attribute effects running anywhere in a row leave it tracked and lined up. */
  lemma {:induction false} EffectsKeepRows(d: Document, e: Document, n: NodeId, v: VNode)
    requires ReactiveOnly(d, e, n, v) && Tracks(d, n, v)
    ensures Tracks(e, n, v) && (LinesUp(d, n, v) ==> LinesUp(e, n, v))
    decreases Weight(v)
  {
    if v.Element? {
      var flat, kids := Flatten(v.children), d.tree[n].kids;
      if d.data[n].kind.ElementNode? && |kids| == |flat| {
        ReactiveTracked(d.data[n].attrs, e.data[n].attrs, v.attributes, d.rules.attrOk);
        forall i | 0 <= i < |flat| ensures Matches(e, kids[i], flat[i], true) {
          assert flat[i] in flat;
          EffectsKeepRows(d, e, kids[i], flat[i]);
        }
      }
    }
  }

  // --- Insert-only updates ---

  /**
   * When a fully keyed run is only inserted into, no surviving node is ever the subject of an
   * insertion: it is neither detached nor moved.
   */
  lemma InsertOnlyNeverMoves(d: Document, e: Document, ns: seq<NodeId>, prior: seq<VNode>, wanted: seq<VNode>,
                             at: seq<nat>)
    requires |ns| == |prior| && RunLog(d, e, ns, Keys(prior), Keys(wanted))
    requires forall x :: x in ns ==> x < d.next
    requires forall i :: 0 <= i < |prior| ==> KeyOf(prior[i]).Some?
    requires Embeds(Keys(prior), Keys(wanted), at) && NoDuplicates(Keys(wanted))
    ensures forall m :: m in Since(d, e) && m.Inserted? ==> m.node !in ns
  {
    hide KeyOf, Embeds, NoDuplicates, MustMove;
    NothingMoves(ns, Keys(prior), Keys(wanted), at);
    forall m | m in Since(d, e) && m.Inserted? ensures m.node !in ns {
      assert RunMutation(d, ns, Keys(prior), Keys(wanted), m);
    }
  }

  lemma NothingMoves(ns: seq<NodeId>, prior: seq<Key>, wanted: seq<Key>, at: seq<nat>)
    requires |ns| == |prior| && (forall i :: 0 <= i < |prior| ==> prior[i].Some?)
    requires Embeds(prior, wanted, at) && NoDuplicates(wanted)
    ensures forall x :: !MustMove(ns, prior, wanted, x)
  {
    hide Claim, ConsumedAfter, Embeds, NoDuplicates;
    forall x ensures !MustMove(ns, prior, wanted, x) {
      if MustMove(ns, prior, wanted, x) {
        var i :| 0 <= i < |wanted| && Claim(prior, wanted, i).Some? && ns[Claim(prior, wanted, i).value] == x
          && OutOfPlace(prior, wanted, i);
        InsertOnlyClaims(prior, wanted, at, i);
      }
    }
  }

  /** Under the same condition the old nodes stay at the places of their keys: exactly those that can be kept. */
  lemma InsertOnlyKeepsAll(d: Document, ns: seq<NodeId>, prior: seq<VNode>, wanted: seq<VNode>, at: seq<nat>,
                           placed: seq<NodeId>)
    requires |ns| == |prior| && |placed| == |wanted| && PlacedOrigins(d, ns, prior, wanted, placed)
    requires forall x :: x in ns ==> x < d.next
    requires forall i :: 0 <= i < |prior| ==> KeyOf(prior[i]).Some?
    requires Embeds(Keys(prior), Keys(wanted), at) && NoDuplicates(Keys(wanted))
    ensures forall i :: 0 <= i < |prior| ==>
              (placed[at[i]] == ns[i] <==> Patchable(d, ns[i], prior[i], wanted[at[i]]))
    ensures forall j :: 0 <= j < |wanted| && j !in at ==> placed[j] >= d.next
  {
    hide Patchable;
    forall i | 0 <= i < |prior|
      ensures placed[at[i]] == ns[i] <==> Patchable(d, ns[i], prior[i], wanted[at[i]])
    {
      InsertOnlyClaims(Keys(prior), Keys(wanted), at, at[i]);
      assert Claim(Keys(prior), Keys(wanted), at[i]) == Some(i);
      assert PlacedFrom(d, ns, prior, wanted, at[i], placed[at[i]]);
      assert ns[i] in ns;
    }
    forall j | 0 <= j < |wanted| && j !in at ensures placed[j] >= d.next {
      InsertOnlyClaims(Keys(prior), Keys(wanted), at, j);
      assert PlacedFrom(d, ns, prior, wanted, j, placed[j]);
    }
  }
}
