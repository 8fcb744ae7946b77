/**
 * The registries hydration and reconciliation write to, and their release: listener closures,
 * reactive-attribute effects and dynamic regions, each found from a node through an expando.
 */
module Resources {
  import opened Prelude
  import opened VirtualDom
  import opened Dom

  type RegionId = nat

  type EffectHandle = nat

  /** The state one dynamic region shares between its effect runs; its effect is live while the slot is full. */
  datatype RegionCells = RegionCells(
    rendered: seq<NodeId>,
    current: Option<VNode>,
    anchor: Option<NodeId>,
    emptyPosition: Option<(NodeId, Option<NodeId>)>,
    effect: Option<EffectHandle>)

  /** The listeners the closure map holds for an expando. */
  ghost function Held(events: map<nat, seq<Listener>>, id: Option<nat>): seq<Listener> {
    if id.Some? && id.value in events then events[id.value] else []
  }

  ghost predicate IssuedTo(owner: map<nat, NodeId>, id: Option<nat>, n: NodeId) {
    id.Some? ==> id.value in owner && owner[id.value] == n
  }

  ghost predicate Issued(owner: map<nat, NodeId>, next: nat) {
    forall id :: id in owner ==> id < next
  }

  ghost predicate Numbered(home: map<EffectHandle, nat>, nextSerial: nat) {
    forall h :: h in home ==> h < nextSerial
  }

  ghost predicate CellsExist(regions: map<nat, RegionId>, cells: map<RegionId, RegionCells>) {
    forall id :: id in regions ==> regions[id] in cells
  }

  /**
   * Every live closure entry belongs to exactly one element, through its current id, and the
   * listeners bound to an element are exactly that entry's. `owner` records the element each
   * id was handed to.
   */
  ghost predicate EventsAgree(data: map<NodeId, NodeData>, events: map<nat, seq<Listener>>, owner: map<nat, NodeId>) {
    && (forall n :: n in data ==>
          && data[n].listeners == Held(events, data[n].eventId)
          && IssuedTo(owner, data[n].eventId, n)
          && (data[n].eventId.Some? ==> data[n].kind.ElementNode?))
    && (forall id :: id in events ==>
          events[id] != [] && id in owner && owner[id] in data && data[owner[id]].eventId == Some(id))
  }

  /**
   * Every live attribute effect sits in exactly one entry (`home`), and every entry belongs to
   * exactly one element through its current id.
   */
  ghost predicate EffectsAgree(
    data: map<NodeId, NodeData>, effects: map<nat, seq<EffectHandle>>, owner: map<nat, NodeId>,
    live: set<EffectHandle>, home: map<EffectHandle, nat>)
  {
    && (forall n :: n in data ==>
          IssuedTo(owner, data[n].attrId, n) && (data[n].attrId.Some? ==> data[n].kind.ElementNode?))
    && (forall id :: id in effects ==>
          effects[id] != [] && id in owner && owner[id] in data && data[owner[id]].attrId == Some(id))
    && Housed(effects, live, home)
  }

  /** Each live effect sits in exactly the entry its home names. */
  ghost predicate Housed(effects: map<nat, seq<EffectHandle>>, live: set<EffectHandle>, home: map<EffectHandle, nat>) {
    && (forall id, h :: id in effects && h in effects[id] ==> h in live && h in home && home[h] == id)
    && (forall h :: h in live ==> h in home && home[h] in effects && h in effects[home[h]])
  }

  /** Every registered region belongs to exactly one anchor, through its current id. */
  ghost predicate RegionsAgree(data: map<NodeId, NodeData>, regions: map<nat, RegionId>, owner: map<nat, NodeId>) {
    && (forall n :: n in data ==> IssuedTo(owner, data[n].regionId, n))
    && (forall id :: id in regions ==> id in owner && owner[id] in data && data[owner[id]].regionId == Some(id))
  }

  class Runtime {
    var dom: Document
    var eventClosures: map<nat, seq<Listener>>
    var attributeEffects: map<nat, seq<EffectHandle>>
    var dynamicRegions: map<nat, RegionId>
    var nextDomId: nat
    var liveEffects: set<EffectHandle>
    var nextSerial: nat
    var cells: map<RegionId, RegionCells>
    ghost var eventOwner: map<nat, NodeId>
    ghost var attrOwner: map<nat, NodeId>
    ghost var regionOwner: map<nat, NodeId>
    ghost var home: map<EffectHandle, nat>

    constructor (rules: Rules)
      ensures Valid() && dom == Document(rules, map[], map[], 0, [])
      ensures eventClosures == map[] && attributeEffects == map[] && dynamicRegions == map[]
    {
      dom := Document(rules, map[], map[], 0, []);
      eventClosures, attributeEffects, dynamicRegions := map[], map[], map[];
      nextDomId, liveEffects, nextSerial, cells := 1, {}, 0, map[];
      eventOwner, attrOwner, regionOwner, home := map[], map[], map[], map[];
    }

    ghost predicate Agrees()
      reads this
    {
      && EventsAgree(dom.data, eventClosures, eventOwner)
      && EffectsAgree(dom.data, attributeEffects, attrOwner, liveEffects, home)
      && RegionsAgree(dom.data, dynamicRegions, regionOwner)
      && Issued(eventOwner, nextDomId) && Issued(attrOwner, nextDomId) && Issued(regionOwner, nextDomId)
      && Numbered(home, nextSerial)
      && CellsExist(dynamicRegions, cells)
    }

    ghost predicate Valid()
      reads this
    {
      WellFormed(dom) && Agrees()
    }
  }

  // --- What each registry depends on ---

  ghost predicate EventPartsKept(d: map<NodeId, NodeData>, e: map<NodeId, NodeData>) {
    && (forall n :: n in d ==>
          n in e && e[n].kind == d[n].kind && e[n].listeners == d[n].listeners && e[n].eventId == d[n].eventId)
    && (forall n :: n in e && n !in d ==> e[n].listeners == [] && e[n].eventId == None)
  }

  ghost predicate AttrPartsKept(d: map<NodeId, NodeData>, e: map<NodeId, NodeData>) {
    && (forall n :: n in d ==> n in e && e[n].kind == d[n].kind && e[n].attrId == d[n].attrId)
    && (forall n :: n in e && n !in d ==> e[n].attrId == None)
  }

  ghost predicate RegionPartsKept(d: map<NodeId, NodeData>, e: map<NodeId, NodeData>) {
    && (forall n :: n in d ==> n in e && e[n].regionId == d[n].regionId)
    && (forall n :: n in e && n !in d ==> e[n].regionId == None)
  }

  lemma EventsKept(d: map<NodeId, NodeData>, e: map<NodeId, NodeData>, events: map<nat, seq<Listener>>,
                   owner: map<nat, NodeId>)
    requires EventsAgree(d, events, owner) && EventPartsKept(d, e)
    ensures EventsAgree(e, events, owner)
  {
  }

  lemma EffectsKept(d: map<NodeId, NodeData>, e: map<NodeId, NodeData>, effects: map<nat, seq<EffectHandle>>,
                    owner: map<nat, NodeId>, live: set<EffectHandle>, home: map<EffectHandle, nat>)
    requires EffectsAgree(d, effects, owner, live, home) && AttrPartsKept(d, e)
    ensures EffectsAgree(e, effects, owner, live, home)
  {
  }

  lemma RegionsKept(d: map<NodeId, NodeData>, e: map<NodeId, NodeData>, regions: map<nat, RegionId>,
                    owner: map<nat, NodeId>)
    requires RegionsAgree(d, regions, owner) && RegionPartsKept(d, e)
    ensures RegionsAgree(e, regions, owner)
  {
  }

  ghost function Last<T>(s: seq<T>): (r: T)
    requires s != []
    ensures r in s
  {
    s[|s| - 1]
  }

  lemma EmptySeq<T>(s: seq<T>)
    requires forall x :: x !in s
    ensures s == []
  {
    assert s != [] ==> Last(s) in s;
  }

  lemma IssuedNext(owner: map<nat, NodeId>, next: nat, n: NodeId)
    requires Issued(owner, next)
    ensures Issued(owner, next + 1) && Issued(owner[next := n], next + 1) && next !in owner
  {
  }

  // --- Event listeners ---

  lemma AgreedListeners(data: map<NodeId, NodeData>, events: map<nat, seq<Listener>>, owner: map<nat, NodeId>,
                        n: NodeId)
    requires EventsAgree(data, events, owner) && n in data
    ensures data[n].listeners == Held(events, data[n].eventId)
  {
  }

  lemma DetachedEvents(d: Document, n: NodeId, events: map<nat, seq<Listener>>, owner: map<nat, NodeId>)
    requires WellFormed(d) && n in d.data && EventsAgree(d.data, events, owner)
    ensures EventsAgree(SetData(d, n, d.data[n].(listeners := [])).data, Dropped(events, d.data[n].eventId), owner)
  {
    hide WellFormed, SetData;
    var e := SetData(d, n, d.data[n].(listeners := []));
    var left := Dropped(events, d.data[n].eventId);
    forall m | m in e.data
      ensures e.data[m].listeners == Held(left, e.data[m].eventId) && IssuedTo(owner, e.data[m].eventId, m)
      ensures e.data[m].eventId.Some? ==> e.data[m].kind.ElementNode?
    {
      assert m != n ==> e.data[m] == d.data[m];
    }
  }

  /** Rewriting a node's listeners leaves the other two registries in agreement. */
  lemma OthersAgree(d: Document, n: NodeId, data: NodeData, effects: map<nat, seq<EffectHandle>>,
                    attrOwner: map<nat, NodeId>, live: set<EffectHandle>, home: map<EffectHandle, nat>,
                    regions: map<nat, RegionId>, regionOwner: map<nat, NodeId>)
    requires WellFormed(d) && n in d.data && EffectsAgree(d.data, effects, attrOwner, live, home)
    requires RegionsAgree(d.data, regions, regionOwner)
    requires data.kind == d.data[n].kind && data.attrId == d.data[n].attrId && data.regionId == d.data[n].regionId
    ensures EffectsAgree(SetData(d, n, data).data, effects, attrOwner, live, home)
    ensures RegionsAgree(SetData(d, n, data).data, regions, regionOwner)
  {
    hide WellFormed, EffectsAgree, RegionsAgree;
    EffectsKept(d.data, SetData(d, n, data).data, effects, attrOwner, live, home);
    RegionsKept(d.data, SetData(d, n, data).data, regions, regionOwner);
  }

  function Dropped<T>(m: map<nat, T>, id: Option<nat>): map<nat, T> {
    if id.Some? then m - {id.value} else m
  }

  /**
   * A re-binding: the entry under the old id is gone and, if anything is bound, one new entry of
   * `count` items stands under the new id. All other entries stay.
   */
  ghost predicate Rebound<T>(m: map<nat, seq<T>>, m': map<nat, seq<T>>, id: Option<nat>, id': Option<nat>, count: nat) {
    var bare := Dropped(m, id);
    if count == 0 then id' == id && m' == bare
    else
      && id'.Some? && id'.value !in m && id'.value in m' && |m'[id'.value]| == count
      && m' == bare[id'.value := m'[id'.value]]
  }

  /**
   * Detaches every listener `AttachElementEvents` bound: each JS listener goes before its
   * closure is dropped, so none outlives it.
   */
  method DetachElementEvents(rt: Runtime, n: NodeId)
    requires rt.Valid() && n in rt.dom.data
    modifies rt`dom, rt`eventClosures
    ensures rt.Valid()
    ensures rt.dom == SetData(old(rt.dom), n, old(rt.dom).data[n].(listeners := []))
    ensures rt.eventClosures == Dropped(old(rt.eventClosures), old(rt.dom).data[n].eventId)
  {
    hide EventsAgree, EffectsAgree, RegionsAgree, WellFormed, SetData;
    var before := rt.dom.data[n];
    AgreedListeners(rt.dom.data, rt.eventClosures, rt.eventOwner, n);
    if before.eventId == None || before.eventId.value !in rt.eventClosures {
      SetDataSame(rt.dom, n);
      assert before.eventId.Some? ==> rt.eventClosures - {before.eventId.value} == rt.eventClosures;
      return;
    }
    var id := before.eventId.value;
    var pairs := rt.eventClosures[id];
    var listeners := before.listeners;
    for i := 0 to |pairs|
      invariant forall l :: l in listeners ==> l in pairs[i..]
    {
      listeners := Without(listeners, pairs[i]);
    }
    EmptySeq(listeners);
    DetachedEvents(rt.dom, n, rt.eventClosures, rt.eventOwner);
    rt.eventClosures := rt.eventClosures - {id};
    OthersAgree(rt.dom, n, before.(listeners := listeners), rt.attributeEffects, rt.attrOwner, rt.liveEffects, rt.home,
                rt.dynamicRegions, rt.regionOwner);
    rt.dom := SetData(rt.dom, n, before.(listeners := listeners));
  }

  /** The handlers a listener list fires. */
  ghost function HandlersOf(ls: seq<Listener>): (r: seq<EventListener>)
    ensures |r| == |ls|
  {
    seq(|ls|, i requires 0 <= i < |ls| => EventListener(ls[i].name, ls[i].closure.callback))
  }

  lemma AttachedEvents(d: Document, n: NodeId, events: map<nat, seq<Listener>>, owner: map<nat, NodeId>, id: nat,
                       listeners: seq<Listener>)
    requires WellFormed(d) && IsElement(d, n) && EventsAgree(d.data, events, owner) && id !in owner
    requires d.data[n].listeners == [] && listeners != []
    ensures EventsAgree(SetData(d, n, d.data[n].(listeners := listeners, eventId := Some(id))).data,
                        events[id := listeners], owner[id := n])
  {
    hide WellFormed;
    var e := SetData(d, n, d.data[n].(listeners := listeners, eventId := Some(id)));
    assert id !in events;
    forall i | i in events ensures owner[i] != n {
      assert d.data[n].listeners == Held(events, d.data[n].eventId);
    }
    hide SetData;
    forall m | m in e.data
      ensures e.data[m].listeners == Held(events[id := listeners], e.data[m].eventId)
      ensures IssuedTo(owner[id := n], e.data[m].eventId, m)
      ensures e.data[m].eventId.Some? ==> e.data[m].kind.ElementNode?
    {
      assert m != n ==> e.data[m] == d.data[m];
    }
  }

  /** Binds one new closure per event to the bare element `n`. */
  method BindListeners(rt: Runtime, n: NodeId, events: seq<EventListener>) returns (closures: seq<Listener>)
    requires WellFormed(rt.dom) && n in rt.dom.data && rt.dom.data[n].listeners == []
    modifies rt`dom, rt`nextSerial
    ensures WellFormed(rt.dom) && rt.nextSerial >= old(rt.nextSerial)
    ensures rt.dom == SetData(old(rt.dom), n, old(rt.dom).data[n].(listeners := closures))
    ensures HandlersOf(closures) == events
    ensures forall l :: l in closures ==> l.closure.serial >= old(rt.nextSerial)
  {
    hide WellFormed, SetData;
    closures := [];
    SetDataSame(rt.dom, n);
    for i := 0 to |events|
      invariant rt.nextSerial >= old(rt.nextSerial) && WellFormed(rt.dom)
      invariant rt.dom == SetData(old(rt.dom), n, old(rt.dom).data[n].(listeners := closures))
      invariant HandlersOf(closures) == events[..i]
      invariant forall l :: l in closures ==> l.closure.serial >= old(rt.nextSerial)
    {
      var listener := Listener(events[i].name, Closure(rt.nextSerial, events[i].callback));
      rt.nextSerial := rt.nextSerial + 1;
      var bound := rt.dom.data[n].(listeners := rt.dom.data[n].listeners + [listener]);
      SetDataTwice(old(rt.dom), n, rt.dom.data[n], bound);
      rt.dom := SetData(rt.dom, n, bound);
      closures := closures + [listener];
      assert HandlersOf(closures) == events[..i + 1];
    }
  }

  /**
   * Makes `events` the element's listeners. Whatever was bound before is detached first, so a
   * second binding swaps the generation instead of stacking on it.
   */
  method AttachElementEvents(rt: Runtime, n: NodeId, events: seq<EventListener>)
    requires rt.Valid() && IsElement(rt.dom, n)
    modifies rt`dom, rt`eventClosures, rt`nextDomId, rt`nextSerial, rt`eventOwner
    ensures rt.Valid() && n in rt.dom.data
    ensures rt.dom == SetData(old(rt.dom), n, old(rt.dom).data[n].(
              listeners := rt.dom.data[n].listeners, eventId := rt.dom.data[n].eventId))
    ensures HandlersOf(rt.dom.data[n].listeners) == events
    ensures forall l :: l in rt.dom.data[n].listeners ==> l.closure.serial >= old(rt.nextSerial)
    ensures Rebound(old(rt.eventClosures), rt.eventClosures, old(rt.dom).data[n].eventId, rt.dom.data[n].eventId,
                    |events|)
  {
    hide EventsAgree, EffectsAgree, RegionsAgree, WellFormed, SetData, Issued, CellsExist;
    UnissuedEntry(rt.dom.data, rt.eventClosures, rt.eventOwner, rt.nextDomId);
    DetachElementEvents(rt, n);
    ghost var bare := rt.dom;
    SetDataSame(bare, n);
    SetDataTwice(old(rt.dom), n, bare.data[n], old(rt.dom).data[n].(listeners := []));
    var closures := BindListeners(rt, n, events);
    if closures == [] {
      return;
    }
    ghost var after := rt.dom.data[n].(eventId := Some(rt.nextDomId));
    SetDataTwice(old(rt.dom), n, bare.data[n], after);
    FileListeners(rt, n, closures, bare);
  }

  /** Files just bound listeners under a new id. */
  method FileListeners(rt: Runtime, n: NodeId, closures: seq<Listener>, ghost bare: Document)
    requires WellFormed(bare) && IsElement(bare, n) && bare.data[n].listeners == [] && closures != []
    requires rt.dom == SetData(bare, n, bare.data[n].(listeners := closures))
    requires EventsAgree(bare.data, rt.eventClosures, rt.eventOwner)
    requires EffectsAgree(bare.data, rt.attributeEffects, rt.attrOwner, rt.liveEffects, rt.home)
    requires RegionsAgree(bare.data, rt.dynamicRegions, rt.regionOwner)
    requires Issued(rt.eventOwner, rt.nextDomId) && Issued(rt.attrOwner, rt.nextDomId)
    requires Issued(rt.regionOwner, rt.nextDomId) && CellsExist(rt.dynamicRegions, rt.cells)
             && Numbered(rt.home, rt.nextSerial)
    modifies rt`dom, rt`eventClosures, rt`nextDomId, rt`eventOwner
    ensures rt.Valid()
    ensures rt.dom == SetData(bare, n, bare.data[n].(listeners := closures, eventId := Some(old(rt.nextDomId))))
    ensures rt.eventClosures == old(rt.eventClosures)[old(rt.nextDomId) := closures]
  {
    hide EventsAgree, EffectsAgree, RegionsAgree, WellFormed, SetData, Issued, CellsExist, Numbered;
    var id := rt.nextDomId;
    var after := rt.dom.data[n].(eventId := Some(id));
    IssuedNext(rt.eventOwner, id, n);
    IssuedNext(rt.attrOwner, id, n);
    IssuedNext(rt.regionOwner, id, n);
    AttachedEvents(bare, n, rt.eventClosures, rt.eventOwner, id, closures);
    SetDataTwice(bare, n, rt.dom.data[n], after);
    OthersAgree(bare, n, after, rt.attributeEffects, rt.attrOwner, rt.liveEffects, rt.home, rt.dynamicRegions,
                rt.regionOwner);
    rt.dom := SetData(rt.dom, n, after);
    rt.nextDomId := id + 1;
    rt.eventClosures := rt.eventClosures[id := closures];
    rt.eventOwner := rt.eventOwner[id := n];
  }

  lemma UnissuedEntry(data: map<NodeId, NodeData>, events: map<nat, seq<Listener>>, owner: map<nat, NodeId>, id: nat)
    requires EventsAgree(data, events, owner) && Issued(owner, id)
    ensures id !in events
  {
  }

  // --- Reactive attributes ---

  function Lookup(attrs: map<string, string>, name: string): Option<string> {
    if name in attrs then Some(attrs[name]) else None
  }

  /** One run of an attribute effect: compare, then write only a difference. */
  function Applied(attrs: map<string, string>, name: string, value: Option<string>, ok: string -> bool)
    : map<string, string>
  {
    if Lookup(attrs, name) == value then attrs
    else
      match value
      case Some(v) => if ok(name) then attrs[name := v] else attrs
      case None => attrs - {name}
  }

  /** The attributes after the first run of every dynamic attribute's effect, in order. */
  function Written(attrs: map<string, string>, attributes: seq<Attribute>, ok: string -> bool): map<string, string> {
    if attributes == [] then attrs
    else
      var a := attributes[|attributes| - 1];
      var before := Written(attrs, attributes[..|attributes| - 1], ok);
      if a.IsDynamic() then Applied(before, a.name, a.CurrentValue(), ok) else before
  }

  lemma {:induction false} WrittenAt(attrs: map<string, string>, attributes: seq<Attribute>, ok: string -> bool,
                                     name: string)
    requires DistinctNames(attributes)
    ensures var w, f := Lookup(Written(attrs, attributes, ok), name), Find(attributes, name);
            if f.Some? && f.value.IsDynamic() && (ok(name) || f.value.CurrentValue().None?)
            then w == f.value.CurrentValue() else w == Lookup(attrs, name)
  {
    hide Applied;
    if attributes != [] {
      var n := |attributes| - 1;
      WrittenAt(attrs, attributes[..n], ok, name);
      assert attributes == attributes[..n] + [attributes[n]];
      FindConcat(attributes[..n], attributes[n], name);
      AppliedAt(Written(attrs, attributes[..n], ok), attributes[n].name, attributes[n].CurrentValue(), ok, name);
    }
  }

  lemma AppliedAt(attrs: map<string, string>, written: string, value: Option<string>, ok: string -> bool, name: string)
    ensures Lookup(Applied(attrs, written, value, ok), name) ==
            if name == written && (ok(name) || value.None?) then value else Lookup(attrs, name)
  {
  }

  lemma {:induction false} FindConcat(attributes: seq<Attribute>, last: Attribute, name: string)
    ensures Find(attributes + [last], name) ==
            if Find(attributes, name).Some? then Find(attributes, name)
            else if last.name == name then Some(last) else None
  {
    if attributes != [] {
      assert (attributes + [last])[1..] == attributes[1..] + [last];
      FindConcat(attributes[1..], last, name);
    }
  }

  ghost function SetOf(handles: seq<EffectHandle>): set<EffectHandle> {
    set h | h in handles
  }

  /** The handles filed under an id, if any. */
  ghost function EntryOf(effects: map<nat, seq<EffectHandle>>, id: Option<nat>): set<EffectHandle> {
    if id.Some? && id.value in effects then SetOf(effects[id.value]) else {}
  }

  /** How many attributes are reactive. */
  function DynamicCount(attributes: seq<Attribute>): nat {
    if attributes == [] then 0
    else DynamicCount(attributes[..|attributes| - 1]) + (if attributes[|attributes| - 1].IsDynamic() then 1 else 0)
  }

  /** `home` with every handle filed under `id`. */
  ghost function Homed(home: map<EffectHandle, nat>, handles: seq<EffectHandle>, id: nat): map<EffectHandle, nat> {
    home + map h | h in handles :: id
  }

  lemma DetachedEffects(data: map<NodeId, NodeData>, effects: map<nat, seq<EffectHandle>>, owner: map<nat, NodeId>,
                        live: set<EffectHandle>, home: map<EffectHandle, nat>, id: nat)
    requires EffectsAgree(data, effects, owner, live, home) && id in effects
    ensures EffectsAgree(data, effects - {id}, owner, live - SetOf(effects[id]), home)
  {
    var left := live - SetOf(effects[id]);
    assert forall h :: h in effects[id] ==> h in home && home[h] == id;
    forall i, h | i in effects - {id} && h in (effects - {id})[i] ensures h in left && h in home && home[h] == i {
      assert h in effects[i] && home[h] == i;
    }
  }

  /** Disposes the attribute effects bound to `n`, if any. */
  method DetachDynamicAttributes(rt: Runtime, n: NodeId)
    requires rt.Valid() && n in rt.dom.data
    modifies rt`attributeEffects, rt`liveEffects
    ensures rt.Valid()
    ensures rt.attributeEffects == Dropped(old(rt.attributeEffects), rt.dom.data[n].attrId)
    ensures rt.liveEffects == old(rt.liveEffects) - EntryOf(old(rt.attributeEffects), rt.dom.data[n].attrId)
  {
    hide EventsAgree, EffectsAgree, RegionsAgree, WellFormed;
    var id := rt.dom.data[n].attrId;
    if id == None || id.value !in rt.attributeEffects {
      assert id.Some? ==> rt.attributeEffects - {id.value} == rt.attributeEffects;
      return;
    }
    DetachedEffects(rt.dom.data, rt.attributeEffects, rt.attrOwner, rt.liveEffects, rt.home, id.value);
    var handles := rt.attributeEffects[id.value];
    rt.attributeEffects := rt.attributeEffects - {id.value};
    for i := 0 to |handles|
      invariant rt.liveEffects == old(rt.liveEffects) - SetOf(handles[..i])
      modifies rt`liveEffects
    {
      rt.liveEffects := rt.liveEffects - {handles[i]};
    }
    assert handles[..|handles|] == handles;
  }

  lemma BoundEffects(d: Document, n: NodeId, data: NodeData, effects: map<nat, seq<EffectHandle>>,
                     owner: map<nat, NodeId>, live: set<EffectHandle>, home: map<EffectHandle, nat>, id: nat,
                     handles: seq<EffectHandle>)
    requires WellFormed(d) && IsElement(d, n) && EffectsAgree(d.data, effects, owner, live, home) && id !in owner
    requires Lapsed(effects, d.data[n].attrId)
    requires data.kind == d.data[n].kind && data.attrId == Some(id) && handles != []
    requires forall h :: h in handles ==> h !in home
    ensures EffectsAgree(SetData(d, n, data).data, effects[id := handles], owner[id := n],
                         live + SetOf(handles), Homed(home, handles, id))
  {
    hide WellFormed, SetData, Housed, Homed, SetOf;
    var e := SetData(d, n, data);
    var effects', home' := effects[id := handles], Homed(home, handles, id);
    forall m | m in e.data
      ensures IssuedTo(owner[id := n], e.data[m].attrId, m) && (e.data[m].attrId.Some? ==> e.data[m].kind.ElementNode?)
    {
      assert m != n ==> e.data[m] == d.data[m];
    }
    forall i | i in effects'
      ensures effects'[i] != [] && i in owner[id := n] && owner[id := n][i] in e.data
      ensures e.data[owner[id := n][i]].attrId == Some(i)
    {
      assert i != id ==> owner[i] != n;
    }
    HomesAgree(effects, live, home, id, handles);
  }

  lemma HomesAgree(effects: map<nat, seq<EffectHandle>>, live: set<EffectHandle>, home: map<EffectHandle, nat>, id: nat,
                   handles: seq<EffectHandle>)
    requires Housed(effects, live, home) && id !in effects && forall h :: h in handles ==> h !in home
    ensures Housed(effects[id := handles], live + SetOf(handles), Homed(home, handles, id))
  {
  }

  lemma HomeExtended(home: map<EffectHandle, nat>, handles: seq<EffectHandle>, id: nat, low: nat, high: nat)
    requires Numbered(home, low) && low <= high
    requires forall h :: h in handles ==> low <= h < high
    ensures forall h :: h in handles ==> h !in home
    ensures Numbered(home, high) && Numbered(Homed(home, handles, id), high)
  {
  }

  /** No entry is filed under this id. */
  ghost predicate Lapsed<T>(m: map<nat, T>, id: Option<nat>) {
    id.Some? ==> id.value !in m
  }

  /** Rewriting attributes leaves the other two registries in agreement. */
  lemma EventsAndRegionsAgree(d: Document, n: NodeId, data: NodeData, events: map<nat, seq<Listener>>,
                              eventOwner: map<nat, NodeId>, regions: map<nat, RegionId>, regionOwner: map<nat, NodeId>)
    requires WellFormed(d) && n in d.data && EventsAgree(d.data, events, eventOwner)
    requires RegionsAgree(d.data, regions, regionOwner)
    requires data.kind == d.data[n].kind && data.listeners == d.data[n].listeners
    requires data.eventId == d.data[n].eventId && data.regionId == d.data[n].regionId
    ensures EventsAgree(SetData(d, n, data).data, events, eventOwner)
    ensures RegionsAgree(SetData(d, n, data).data, regions, regionOwner)
  {
    hide WellFormed, EventsAgree, RegionsAgree;
    EventsKept(d.data, SetData(d, n, data).data, events, eventOwner);
    RegionsKept(d.data, SetData(d, n, data).data, regions, regionOwner);
  }

  /** Creates one effect per dynamic attribute; each writes its attribute on this first run. */
  method RunAttributeEffects(rt: Runtime, n: NodeId, attributes: seq<Attribute>) returns (handles: seq<EffectHandle>)
    requires WellFormed(rt.dom) && n in rt.dom.data
    modifies rt`dom, rt`liveEffects, rt`nextSerial
    ensures WellFormed(rt.dom) && rt.nextSerial >= old(rt.nextSerial)
    ensures rt.dom == SetData(old(rt.dom), n, old(rt.dom).data[n].(
              attrs := Written(old(rt.dom).data[n].attrs, attributes, rt.dom.rules.attrOk)))
    ensures forall h :: h in handles ==> old(rt.nextSerial) <= h < rt.nextSerial
    ensures rt.liveEffects == old(rt.liveEffects) + SetOf(handles) && |handles| == DynamicCount(attributes)
  {
    hide WellFormed, SetData;
    handles := [];
    SetDataSame(rt.dom, n);
    for i := 0 to |attributes|
      invariant WellFormed(rt.dom) && rt.nextSerial >= old(rt.nextSerial)
      invariant rt.dom == SetData(old(rt.dom), n, old(rt.dom).data[n].(
                  attrs := Written(old(rt.dom).data[n].attrs, attributes[..i], rt.dom.rules.attrOk)))
      invariant forall h :: h in handles ==> old(rt.nextSerial) <= h < rt.nextSerial
      invariant rt.liveEffects == old(rt.liveEffects) + SetOf(handles) && |handles| == DynamicCount(attributes[..i])
    {
      assert attributes[..i + 1][..i] == attributes[..i];
      if attributes[i].IsDynamic() {
        var handle := rt.nextSerial;
        rt.nextSerial := handle + 1;
        rt.liveEffects := rt.liveEffects + {handle};
        handles := handles + [handle];
        var before := rt.dom.data[n];
        var written := Applied(before.attrs, attributes[i].name, attributes[i].CurrentValue(), rt.dom.rules.attrOk);
        SetDataTwice(old(rt.dom), n, before, before.(attrs := written));
        rt.dom := SetData(rt.dom, n, before.(attrs := written));
      }
    }
    assert attributes[..|attributes|] == attributes;
  }

  /** Files just created effects under a new id. */
  method FileAttributeEffects(rt: Runtime, n: NodeId, handles: seq<EffectHandle>, ghost live: set<EffectHandle>)
    requires WellFormed(rt.dom) && IsElement(rt.dom, n) && EventsAgree(rt.dom.data, rt.eventClosures, rt.eventOwner)
    requires RegionsAgree(rt.dom.data, rt.dynamicRegions, rt.regionOwner)
    requires EffectsAgree(rt.dom.data, rt.attributeEffects, rt.attrOwner, live, rt.home)
    requires Issued(rt.eventOwner, rt.nextDomId) && Issued(rt.attrOwner, rt.nextDomId)
    requires Issued(rt.regionOwner, rt.nextDomId) && CellsExist(rt.dynamicRegions, rt.cells)
    requires Lapsed(rt.attributeEffects, rt.dom.data[n].attrId) && handles != []
    requires forall h :: h in handles ==> h !in rt.home
    requires rt.liveEffects == live + SetOf(handles)
    requires Numbered(Homed(rt.home, handles, rt.nextDomId), rt.nextSerial)
    modifies rt`dom, rt`attributeEffects, rt`nextDomId, rt`attrOwner, rt`home
    ensures rt.Valid()
    ensures rt.dom == SetData(old(rt.dom), n, old(rt.dom).data[n].(attrId := Some(old(rt.nextDomId))))
    ensures rt.attributeEffects == old(rt.attributeEffects)[old(rt.nextDomId) := handles]
  {
    hide EventsAgree, EffectsAgree, RegionsAgree, WellFormed, SetData, Issued, CellsExist, Numbered, SetOf, Homed;
    var id := rt.nextDomId;
    var after := rt.dom.data[n].(attrId := Some(id));
    IssuedNext(rt.eventOwner, id, n);
    IssuedNext(rt.attrOwner, id, n);
    IssuedNext(rt.regionOwner, id, n);
    EventsAndRegionsAgree(rt.dom, n, after, rt.eventClosures, rt.eventOwner, rt.dynamicRegions, rt.regionOwner);
    BoundEffects(rt.dom, n, after, rt.attributeEffects, rt.attrOwner, live, rt.home, id, handles);
    rt.dom := SetData(rt.dom, n, after);
    rt.nextDomId := id + 1;
    rt.attributeEffects := rt.attributeEffects[id := handles];
    rt.attrOwner := rt.attrOwner[id := n];
    rt.home := Homed(rt.home, handles, id);
  }

  lemma UnissuedEffect(rt: Runtime)
    requires rt.Valid()
    ensures rt.nextDomId !in rt.attributeEffects
  {
    hide EventsAgree, RegionsAgree, WellFormed;
  }

  lemma FreshEntry(effects: map<nat, seq<EffectHandle>>, id: Option<nat>, id': nat, handles: seq<EffectHandle>)
    ensures Lapsed(effects, id) ==> EntryOf(effects, id) == {}
    ensures EntryOf(effects[id' := handles], Some(id')) == SetOf(handles)
    ensures SetOf([]) == {}
  {
  }

  /**
   * Runs and files one effect per dynamic attribute, after disposing the ones already there, so
   * re-binding a reused element swaps the generation.
   */
  method BindDynamicAttributes(rt: Runtime, n: NodeId, attributes: seq<Attribute>)
    requires rt.Valid() && IsElement(rt.dom, n)
    modifies rt`dom, rt`attributeEffects, rt`liveEffects, rt`nextDomId, rt`nextSerial, rt`attrOwner, rt`home
    ensures rt.Valid() && n in rt.dom.data
    ensures rt.dom == SetData(old(rt.dom), n, old(rt.dom).data[n].(
              attrs := Written(old(rt.dom).data[n].attrs, attributes, rt.dom.rules.attrOk),
              attrId := rt.dom.data[n].attrId))
    ensures Rebound(old(rt.attributeEffects), rt.attributeEffects, old(rt.dom).data[n].attrId, rt.dom.data[n].attrId,
                    DynamicCount(attributes))
    ensures rt.liveEffects == old(rt.liveEffects) - EntryOf(old(rt.attributeEffects), old(rt.dom).data[n].attrId)
                              + EntryOf(rt.attributeEffects, rt.dom.data[n].attrId)
  {
    hide EventsAgree, EffectsAgree, RegionsAgree, WellFormed, SetData, Issued, CellsExist, Numbered, Written, EntryOf,
         DynamicCount, SetOf;
    UnissuedEffect(rt);
    ghost var id := rt.dom.data[n].attrId;
    DetachDynamicAttributes(rt, n);
    ghost var bare, live, serial := rt.dom, rt.liveEffects, rt.nextSerial;
    var handles := RunAttributeEffects(rt, n, attributes);
    HomeExtended(rt.home, handles, rt.nextDomId, serial, rt.nextSerial);
    var after := rt.dom.data[n];
    EventsAndRegionsAgree(bare, n, after, rt.eventClosures, rt.eventOwner, rt.dynamicRegions, rt.regionOwner);
    FreshEntry(rt.attributeEffects, id, rt.nextDomId, handles);
    if handles == [] {
      assert rt.liveEffects == live;
      OthersAgree(bare, n, after, rt.attributeEffects, rt.attrOwner, live, rt.home, rt.dynamicRegions, rt.regionOwner);
      return;
    }
    SetDataTwice(bare, n, after, after.(attrId := Some(rt.nextDomId)));
    OthersAgree(bare, n, after, rt.attributeEffects, rt.attrOwner, live, rt.home, rt.dynamicRegions, rt.regionOwner);
    FileAttributeEffects(rt, n, handles, live);
  }

  // --- Dynamic regions ---

  lemma RegisteredRegions(d: Document, n: NodeId, regions: map<nat, RegionId>, owner: map<nat, NodeId>, id: nat,
                          region: RegionId)
    requires WellFormed(d) && n in d.data && RegionsAgree(d.data, regions, owner) && id !in owner
    requires Lapsed(regions, d.data[n].regionId)
    ensures RegionsAgree(SetData(d, n, d.data[n].(regionId := Some(id))).data, regions[id := region], owner[id := n])
  {
    hide WellFormed, SetData;
    var e := SetData(d, n, d.data[n].(regionId := Some(id)));
    assert forall m :: m in d.data && m != n ==> e.data[m] == d.data[m];
    assert forall i :: i in regions ==> owner[i] != n;
  }

  lemma EventsAndEffectsAgree(d: Document, n: NodeId, data: NodeData, events: map<nat, seq<Listener>>,
                              eventOwner: map<nat, NodeId>, effects: map<nat, seq<EffectHandle>>,
                              attrOwner: map<nat, NodeId>, live: set<EffectHandle>, home: map<EffectHandle, nat>)
    requires WellFormed(d) && n in d.data && EventsAgree(d.data, events, eventOwner)
    requires EffectsAgree(d.data, effects, attrOwner, live, home)
    requires data.kind == d.data[n].kind && data.listeners == d.data[n].listeners
    requires data.eventId == d.data[n].eventId && data.attrId == d.data[n].attrId
    ensures EventsAgree(SetData(d, n, data).data, events, eventOwner)
    ensures EffectsAgree(SetData(d, n, data).data, effects, attrOwner, live, home)
  {
    hide WellFormed, EventsAgree, EffectsAgree;
    EventsKept(d.data, SetData(d, n, data).data, events, eventOwner);
    EffectsKept(d.data, SetData(d, n, data).data, effects, attrOwner, live, home);
  }

  /** Registers a region under its anchor, which holds no registration yet. */
  method RegisterDynamicRegion(rt: Runtime, anchor: NodeId, region: RegionId)
    requires rt.Valid() && anchor in rt.dom.data && region in rt.cells
    requires Lapsed(rt.dynamicRegions, rt.dom.data[anchor].regionId)
    modifies rt`dom, rt`dynamicRegions, rt`nextDomId, rt`regionOwner
    ensures rt.Valid()
    ensures rt.dom == SetData(old(rt.dom), anchor, old(rt.dom).data[anchor].(regionId := Some(old(rt.nextDomId))))
    ensures old(rt.nextDomId) !in old(rt.dynamicRegions)
    ensures rt.dynamicRegions == old(rt.dynamicRegions)[old(rt.nextDomId) := region]
  {
    hide EventsAgree, EffectsAgree, RegionsAgree, WellFormed, SetData, Issued;
    var id := rt.nextDomId;
    var after := rt.dom.data[anchor].(regionId := Some(id));
    IssuedNext(rt.eventOwner, id, anchor);
    IssuedNext(rt.attrOwner, id, anchor);
    IssuedNext(rt.regionOwner, id, anchor);
    UnissuedRegion(rt.dom.data, rt.dynamicRegions, rt.regionOwner, id);
    RegisteredRegions(rt.dom, anchor, rt.dynamicRegions, rt.regionOwner, id, region);
    EventsAndEffectsAgree(rt.dom, anchor, after, rt.eventClosures, rt.eventOwner, rt.attributeEffects, rt.attrOwner,
                          rt.liveEffects, rt.home);
    rt.dom := SetData(rt.dom, anchor, after);
    rt.nextDomId := id + 1;
    rt.dynamicRegions := rt.dynamicRegions[id := region];
    rt.regionOwner := rt.regionOwner[id := anchor];
  }

  lemma UnissuedRegion(data: map<NodeId, NodeData>, regions: map<nat, RegionId>, owner: map<nat, NodeId>, id: nat)
    requires RegionsAgree(data, regions, owner) && id !in owner
    ensures id !in regions
  {
  }

  lemma TakenRegions(data: map<NodeId, NodeData>, regions: map<nat, RegionId>, owner: map<nat, NodeId>, id: nat)
    requires RegionsAgree(data, regions, owner)
    ensures RegionsAgree(data, regions - {id}, owner)
  {
  }

  /** The region registered under `n`, if it is a live anchor. */
  ghost function RegionAt(rt: Runtime, n: NodeId): Option<RegionId>
    reads rt
  {
    if n in rt.dom.data && rt.dom.data[n].regionId.Some? && rt.dom.data[n].regionId.value in rt.dynamicRegions
    then Some(rt.dynamicRegions[rt.dom.data[n].regionId.value]) else None
  }

  /** Unregisters the region anchored at `n`. */
  method TakeDynamicRegion(rt: Runtime, n: NodeId) returns (region: Option<RegionId>)
    requires rt.Valid() && n in rt.dom.data
    modifies rt`dynamicRegions
    ensures rt.Valid()
    ensures region == old(RegionAt(rt, n))
    ensures region.Some? ==> region.value in rt.cells
    ensures rt.dynamicRegions == Dropped(old(rt.dynamicRegions), rt.dom.data[n].regionId)
  {
    hide EventsAgree, EffectsAgree, RegionsAgree, WellFormed;
    var id := rt.dom.data[n].regionId;
    if id == None || id.value !in rt.dynamicRegions {
      assert id.Some? ==> rt.dynamicRegions - {id.value} == rt.dynamicRegions;
      return None;
    }
    TakenRegions(rt.dom.data, rt.dynamicRegions, rt.regionOwner, id.value);
    region := Some(rt.dynamicRegions[id.value]);
    rt.dynamicRegions := rt.dynamicRegions - {id.value};
  }

  /** Disposes a region's effect by emptying its slot, so a second call does nothing. */
  method DisposeRegionEffect(rt: Runtime, region: RegionId)
    requires rt.Valid() && region in rt.cells
    modifies rt`cells
    ensures rt.Valid()
    ensures rt.cells == old(rt.cells)[region := old(rt.cells)[region].(effect := None)]
  {
    rt.cells := rt.cells[region := rt.cells[region].(effect := None)];
  }

  // --- Release of a subtree ---

  /** What the registries and the document hold at one moment. */
  datatype Snapshot = Snapshot(
    dom: Document,
    events: map<nat, seq<Listener>>,
    effects: map<nat, seq<EffectHandle>>,
    regions: map<nat, RegionId>,
    cells: map<RegionId, RegionCells>,
    eventOwner: map<nat, NodeId>,
    attrOwner: map<nat, NodeId>,
    regionOwner: map<nat, NodeId>)

  ghost function Now(rt: Runtime): Snapshot
    reads rt
  {
    Snapshot(rt.dom, rt.eventClosures, rt.attributeEffects, rt.dynamicRegions, rt.cells, rt.eventOwner, rt.attrOwner,
             rt.regionOwner)
  }

  /** `data` with the listeners of every node in `s` gone. */
  ghost function Muted(data: map<NodeId, NodeData>, s: set<NodeId>): map<NodeId, NodeData> {
    map x | x in data :: if x in s then data[x].(listeners := []) else data[x]
  }

  /** The entries whose owner is outside `s`. */
  ghost function Purged<T>(m: map<nat, T>, owner: map<nat, NodeId>, s: set<NodeId>): map<nat, T> {
    map id | id in m && !(id in owner && owner[id] in s) :: m[id]
  }

  ghost function RegionsIn(regions: map<nat, RegionId>, owner: map<nat, NodeId>, s: set<NodeId>): set<RegionId> {
    set id | id in regions && id in owner && owner[id] in s :: regions[id]
  }

  /** `cells` with the effects of the regions in `gone` disposed. */
  ghost function Disposed(cells: map<RegionId, RegionCells>, gone: set<RegionId>): map<RegionId, RegionCells> {
    map r | r in cells :: if r in gone then cells[r].(effect := None) else cells[r]
  }

  /** From `a` to `b` exactly the resources of the nodes in `s` were released. */
  ghost predicate Released(a: Snapshot, b: Snapshot, s: set<NodeId>) {
    && b.dom == a.dom.(data := Muted(a.dom.data, s))
    && b.events == Purged(a.events, a.eventOwner, s)
    && b.effects == Purged(a.effects, a.attrOwner, s)
    && b.regions == Purged(a.regions, a.regionOwner, s)
    && b.cells == Disposed(a.cells, RegionsIn(a.regions, a.regionOwner, s))
    && b.eventOwner == a.eventOwner && b.attrOwner == a.attrOwner && b.regionOwner == a.regionOwner
  }

  lemma MutedTwice(data: map<NodeId, NodeData>, s: set<NodeId>, t: set<NodeId>)
    ensures Muted(Muted(data, s), t) == Muted(data, s + t)
  {
  }

  lemma PurgedTwice<T>(m: map<nat, T>, owner: map<nat, NodeId>, s: set<NodeId>, t: set<NodeId>)
    ensures Purged(Purged(m, owner, s), owner, t) == Purged(m, owner, s + t)
  {
  }

  lemma DisposedTwice(cells: map<RegionId, RegionCells>, regions: map<nat, RegionId>, owner: map<nat, NodeId>,
                      s: set<NodeId>, t: set<NodeId>)
    ensures Disposed(Disposed(cells, RegionsIn(regions, owner, s)), RegionsIn(Purged(regions, owner, s), owner, t))
         == Disposed(cells, RegionsIn(regions, owner, s + t))
  {
    var r, u := RegionsIn(regions, owner, s), RegionsIn(Purged(regions, owner, s), owner, t);
    assert r + u == RegionsIn(regions, owner, s + t) by {
      forall x | x in RegionsIn(regions, owner, s + t) ensures x in r + u {
        var id :| id in regions && id in owner && owner[id] in s + t && regions[id] == x;
        if owner[id] !in s {
          assert id in Purged(regions, owner, s);
        }
      }
    }
  }

  lemma ReleasedTrans(a: Snapshot, b: Snapshot, c: Snapshot, s: set<NodeId>, t: set<NodeId>)
    requires Released(a, b, s) && Released(b, c, t)
    ensures Released(a, c, s + t)
  {
    MutedTwice(a.dom.data, s, t);
    PurgedTwice(a.events, a.eventOwner, s, t);
    PurgedTwice(a.effects, a.attrOwner, s, t);
    PurgedTwice(a.regions, a.regionOwner, s, t);
    DisposedTwice(a.cells, a.regions, a.regionOwner, s, t);
  }

  ghost function Subtree(t: Tree, n: NodeId): set<NodeId> {
    set x | x in t && Under(t, n, x)
  }

  /** The nodes below the first `i` children of `n`, and `n` itself. */
  ghost function SubtreePart(t: Tree, n: NodeId, i: nat): set<NodeId>
    requires n in t && i <= |t[n].kids|
  {
    if i == 0 then {n} else SubtreePart(t, n, i - 1) + Subtree(t, t[n].kids[i - 1])
  }

  lemma {:induction false} SubtreePartMember(t: Tree, n: NodeId, i: nat, x: NodeId)
    requires n in t && i <= |t[n].kids|
    ensures x in SubtreePart(t, n, i) <==> x == n || exists j :: 0 <= j < i && x in Subtree(t, t[n].kids[j])
  {
    if i > 0 {
      SubtreePartMember(t, n, i - 1, x);
    }
  }

  lemma SubtreeParts(d: Document, n: NodeId)
    requires WellFormed(d) && n in d.tree
    ensures SubtreePart(d.tree, n, |d.tree[n].kids|) == Subtree(d.tree, n)
  {
    var t, kids := d.tree, d.tree[n].kids;
    forall x ensures x in SubtreePart(t, n, |kids|) <==> x in Subtree(t, n) {
      SubtreePartMember(t, n, |kids|, x);
      if x in Subtree(t, n) && x != n {
        var k := UnderSomeKid(d, n, x);
        var j := IndexOf(kids, k);
        assert x in Subtree(t, kids[j]);
      }
      if j :| 0 <= j < |kids| && x in Subtree(t, kids[j]) {
        UnderKid(d, n, kids[j], x);
      }
    }
  }

  lemma PurgedOne<T>(data: map<NodeId, NodeData>, m: map<nat, T>, owner: map<nat, NodeId>, n: NodeId, id: Option<nat>)
    requires forall i :: i in m && i in owner && owner[i] == n ==> id == Some(i)
    requires IssuedTo(owner, id, n)
    ensures Purged(m, owner, {n}) == Dropped(m, id)
  {
  }

  /** The part of a release step that concerns the closures and attribute effects of one node. */
  lemma ReleasedElement(d: Document, n: NodeId, events: map<nat, seq<Listener>>, eventOwner: map<nat, NodeId>,
                        effects: map<nat, seq<EffectHandle>>, attrOwner: map<nat, NodeId>, live: set<EffectHandle>,
                        home: map<EffectHandle, nat>)
    requires WellFormed(d) && n in d.data && EventsAgree(d.data, events, eventOwner)
    requires EffectsAgree(d.data, effects, attrOwner, live, home)
    ensures Dropped(events, d.data[n].eventId) == Purged(events, eventOwner, {n})
    ensures Dropped(effects, d.data[n].attrId) == Purged(effects, attrOwner, {n})
    ensures SetData(d, n, d.data[n].(listeners := [])) == d.(data := Muted(d.data, {n}))
    ensures !d.data[n].kind.ElementNode? ==> d.data[n].eventId == None && d.data[n].attrId == None
    ensures !d.data[n].kind.ElementNode? ==> d.data[n].listeners == []
  {
    hide WellFormed;
    PurgedOne(d.data, events, eventOwner, n, d.data[n].eventId);
    PurgedOne(d.data, effects, attrOwner, n, d.data[n].attrId);
    assert SetData(d, n, d.data[n].(listeners := [])).data == Muted(d.data, {n});
  }

  lemma ReleasedAnchor(data: map<NodeId, NodeData>, n: NodeId, regions: map<nat, RegionId>, owner: map<nat, NodeId>)
    requires n in data && RegionsAgree(data, regions, owner)
    ensures Dropped(regions, data[n].regionId) == Purged(regions, owner, {n})
    ensures RegionsIn(regions, owner, {n}) ==
            if data[n].regionId.Some? && data[n].regionId.value in regions then {regions[data[n].regionId.value]}
            else {}
  {
    PurgedOne(data, regions, owner, n, data[n].regionId);
  }

  method ReleaseElement(rt: Runtime, n: NodeId)
    requires rt.Valid() && n in rt.dom.data
    modifies rt`dom, rt`eventClosures, rt`attributeEffects, rt`liveEffects
    ensures rt.Valid()
    ensures rt.dom == old(rt.dom).(data := Muted(old(rt.dom).data, {n}))
    ensures rt.eventClosures == Purged(old(rt.eventClosures), rt.eventOwner, {n})
    ensures rt.attributeEffects == Purged(old(rt.attributeEffects), rt.attrOwner, {n})
  {
    hide EventsAgree, EffectsAgree, RegionsAgree, WellFormed, SetData, Issued, CellsExist, Numbered, Muted, Purged;
    ReleasedElement(rt.dom, n, rt.eventClosures, rt.eventOwner, rt.attributeEffects, rt.attrOwner, rt.liveEffects,
                    rt.home);
    SetDataSame(rt.dom, n);
    if rt.dom.data[n].kind.ElementNode? {
      DetachElementEvents(rt, n);
      DetachDynamicAttributes(rt, n);
    }
  }

  method ReleaseAnchor(rt: Runtime, n: NodeId)
    requires rt.Valid() && n in rt.dom.data
    modifies rt`dynamicRegions, rt`cells
    ensures rt.Valid()
    ensures rt.dynamicRegions == Purged(old(rt.dynamicRegions), rt.regionOwner, {n})
    ensures rt.cells == Disposed(old(rt.cells), RegionsIn(old(rt.dynamicRegions), rt.regionOwner, {n}))
  {
    hide EventsAgree, EffectsAgree, RegionsAgree, WellFormed, Issued, CellsExist, Numbered, Purged, RegionsIn;
    ReleasedAnchor(rt.dom.data, n, rt.dynamicRegions, rt.regionOwner);
    var region := TakeDynamicRegion(rt, n);
    if region.Some? {
      DisposeRegionEffect(rt, region.value);
    }
  }

  method ReleaseOwn(rt: Runtime, n: NodeId)
    requires rt.Valid() && n in rt.dom.data
    modifies rt`dom, rt`eventClosures, rt`attributeEffects, rt`liveEffects, rt`dynamicRegions, rt`cells
    ensures rt.Valid() && rt.dom.tree == old(rt.dom).tree && rt.dom.next == old(rt.dom).next
    ensures Released(old(Now(rt)), Now(rt), {n})
  {
    hide EventsAgree, EffectsAgree, RegionsAgree, WellFormed, Issued, CellsExist, Numbered, Muted, Purged, Disposed,
         RegionsIn;
    ReleaseElement(rt, n);
    MutedKeys(old(rt.dom).data, {n});
    ReleaseAnchor(rt, n);
  }

  lemma MutedKeys(data: map<NodeId, NodeData>, s: set<NodeId>)
    ensures Muted(data, s).Keys == data.Keys
  {
  }

  lemma ReleasedTree(a: Snapshot, b: Snapshot, s: set<NodeId>)
    requires Released(a, b, s)
    ensures b.dom.tree == a.dom.tree && b.dom.next == a.dom.next
  {
  }

  lemma KidsBelow(d: Document, n: NodeId)
    requires WellFormed(d) && n in d.tree
    ensures n in d.data
    ensures forall i :: 0 <= i < |d.tree[n].kids| ==> d.tree[n].kids[i] in d.tree && n < d.tree[n].kids[i] < d.next
  {
    assert LinksOk(d.tree, n);
    forall i | 0 <= i < |d.tree[n].kids| ensures d.tree[n].kids[i] in d.tree && n < d.tree[n].kids[i] < d.next {
      assert d.tree[n].kids[i] in d.tree[n].kids;
    }
  }

  /**
   * Releases every resource the subtree of `n` holds, without removing any of it: its listeners
   * and closures, its attribute effects, and the regions anchored in it with their effects.
   */
  method ReleaseDomNodeResources(rt: Runtime, n: NodeId)
    requires rt.Valid() && n in rt.dom.tree
    modifies rt`dom, rt`eventClosures, rt`attributeEffects, rt`liveEffects, rt`dynamicRegions, rt`cells
    ensures rt.Valid()
    ensures Released(old(Now(rt)), Now(rt), Subtree(rt.dom.tree, n))
    decreases rt.dom.next - n
  {
    hide WellFormed, EventsAgree, EffectsAgree, RegionsAgree, Issued, CellsExist, Numbered, Released, Under, Subtree;
    ghost var before, tree := Now(rt), rt.dom.tree;
    KidsBelow(rt.dom, n);
    ReleaseOwn(rt, n);
    var kids := rt.dom.tree[n].kids;
    for i := 0 to |kids|
      invariant rt.Valid() && rt.dom.tree == tree && rt.dom.next == before.dom.next
      invariant Released(before, Now(rt), SubtreePart(tree, n, i))
    {
      ghost var middle := Now(rt);
      ReleaseDomNodeResources(rt, kids[i]);
      ghost var below := Subtree(rt.dom.tree, kids[i]);
      ReleasedTree(middle, Now(rt), below);
      ReleasedTrans(before, middle, Now(rt), SubtreePart(tree, n, i), below);
    }
    SubtreeParts(rt.dom, n);
  }
}
