/** How an element's attributes are written when it is built and when it is patched. */
module Attributes {
  import opened Prelude
  import opened VirtualDom
  import opened Dom
  import opened Resources
  import opened Rendering

  /** The first static attribute called `name`. */
  function FindStatic(attributes: seq<Attribute>, name: string): Option<Attribute> {
    if attributes == [] then None
    else if attributes[0].name == name && !attributes[0].IsDynamic() then Some(attributes[0])
    else FindStatic(attributes[1..], name)
  }

  lemma {:induction false} FindStaticDistinct(attributes: seq<Attribute>, name: string)
    requires DistinctNames(attributes)
    ensures FindStatic(attributes, name) ==
            if Find(attributes, name).Some?
              && !Find(attributes, name).value.IsDynamic() then Find(attributes, name) else None
  {
    if attributes != [] {
      FindStaticDistinct(attributes[1..], name);
      if attributes[0].name == name {
        var rest := Find(attributes[1..], name);
        assert forall a :: a in attributes[1..] ==> a.name != name;
      }
    }
  }

  /** `attrs` after dropping each old attribute that has no successor. */
  function Stripped(attrs: map<string, string>, prior: seq<Attribute>, wanted: seq<Attribute>): map<string, string> {
    if prior == [] then attrs
    else
      var a := prior[|prior| - 1];
      var before := Stripped(attrs, prior[..|prior| - 1], wanted);
      if Find(wanted, a.name).None? then before - {a.name} else before
  }

  lemma {:induction false} StrippedAt(attrs: map<string, string>, prior: seq<Attribute>, wanted: seq<Attribute>,
                                      name: string)
    ensures Lookup(Stripped(attrs, prior, wanted), name) ==
            if Find(prior, name).Some? && Find(wanted, name).None? then None else Lookup(attrs, name)
  {
    if prior != [] {
      var n := |prior| - 1;
      StrippedAt(attrs, prior[..n], wanted, name);
      assert prior == prior[..n] + [prior[n]];
      FindConcat(prior[..n], prior[n], name);
    }
  }

  /** `attrs` after writing each new static attribute whose old static value differs. */
  function StaticsSet(attrs: map<string, string>, prior: seq<Attribute>, wanted: seq<Attribute>,
                      ok: string -> bool): map<string, string> {
    if wanted == [] then attrs
    else
      var a := wanted[|wanted| - 1];
      var before := StaticsSet(attrs, prior, wanted[..|wanted| - 1], ok);
      if a.IsDynamic() || Unchanged(prior, a) || !ok(a.name) then before else before[a.name := a.value]
  }

  /** The old render had the same static attribute with the same value. */
  predicate Unchanged(prior: seq<Attribute>, a: Attribute) {
    var previous := FindStatic(prior, a.name);
    previous.Some? && previous.value.value == a.value
  }

  lemma {:induction false} StaticsSetAt(attrs: map<string, string>, prior: seq<Attribute>, wanted: seq<Attribute>,
                                        ok: string -> bool, name: string)
    requires DistinctNames(wanted)
    ensures var a := Find(wanted, name);
            Lookup(StaticsSet(attrs, prior, wanted, ok), name) ==
            if a.None? || a.value.IsDynamic() || Unchanged(prior, a.value) || !ok(name)
            then Lookup(attrs, name) else Some(a.value.value)
  {
    if wanted != [] {
      var n := |wanted| - 1;
      StaticsSetAt(attrs, prior, wanted[..n], ok, name);
      assert wanted == wanted[..n] + [wanted[n]];
      FindConcat(wanted[..n], wanted[n], name);
    }
  }

  /** The attributes an element ends up with when it is patched from `prior` to `wanted`. */
  function Patched(attrs: map<string, string>, prior: seq<Attribute>, wanted: seq<Attribute>,
                   ok: string -> bool): map<string, string> {
    Written(StaticsSet(Stripped(attrs, prior, wanted), prior, wanted, ok), wanted, ok)
  }

  /** Patching attributes that track the old render leaves attributes that show the new one. */
  lemma PatchedShows(attrs: map<string, string>, prior: seq<Attribute>, wanted: seq<Attribute>, ok: string -> bool)
    requires AttrsTracked(attrs, prior, ok) && DistinctNames(prior) && DistinctNames(wanted)
    ensures AttrsShown(Patched(attrs, prior, wanted, ok), wanted, ok)
  {
    var s := Stripped(attrs, prior, wanted);
    var t := StaticsSet(s, prior, wanted, ok);
    forall name ensures Lookup(Written(t, wanted, ok), name) == Wanted(wanted, name, ok) {
      StrippedAt(attrs, prior, wanted, name);
      StaticsSetAt(s, prior, wanted, ok, name);
      WrittenAt(t, wanted, ok, name);
      FindStaticDistinct(prior, name);
      assert Lookup(attrs, name).Some? ==> name in attrs;
    }
  }

  lemma {:induction false} WrittenStatic(attrs: map<string, string>, attributes: seq<Attribute>, ok: string -> bool)
    requires forall a :: a in attributes ==> !a.IsDynamic()
    ensures Written(attrs, attributes, ok) == attrs
  {
    if attributes != [] {
      WrittenStatic(attrs, attributes[..|attributes| - 1], ok);
    }
  }

  /** Rewriting a node's attributes or text keeps the registries in agreement. */
  lemma ContentKeepsValid(rt: Runtime, n: NodeId, data: NodeData)
    requires rt.Valid() && n in rt.dom.data
    requires data.kind == rt.dom.data[n].kind && data.listeners == rt.dom.data[n].listeners
    requires data.eventId == rt.dom.data[n].eventId && data.attrId == rt.dom.data[n].attrId
    requires data.regionId == rt.dom.data[n].regionId
    ensures EventsAgree(SetData(rt.dom, n, data).data, rt.eventClosures, rt.eventOwner)
    ensures EffectsAgree(SetData(rt.dom, n, data).data, rt.attributeEffects, rt.attrOwner, rt.liveEffects, rt.home)
    ensures RegionsAgree(SetData(rt.dom, n, data).data, rt.dynamicRegions, rt.regionOwner)
  {
    hide WellFormed, EventsAgree, EffectsAgree, RegionsAgree;
    EventsAndEffectsAgree(rt.dom, n, data, rt.eventClosures, rt.eventOwner, rt.attributeEffects, rt.attrOwner,
                          rt.liveEffects, rt.home);
    RegionsKept(rt.dom.data, SetData(rt.dom, n, data).data, rt.dynamicRegions, rt.regionOwner);
  }

  /** Drops the attributes that the new render no longer has. */
  method StripAttributes(rt: Runtime, n: NodeId, prior: seq<Attribute>, wanted: seq<Attribute>)
    requires rt.Valid() && n in rt.dom.data
    modifies rt`dom
    ensures rt.Valid()
    ensures rt.dom == SetData(old(rt.dom), n, old(rt.dom).data[n].(
              attrs := Stripped(old(rt.dom).data[n].attrs, prior, wanted)))
  {
    hide WellFormed, EventsAgree, EffectsAgree, RegionsAgree, SetData, Issued, CellsExist, Numbered;
    ghost var before := rt.dom;
    SetDataSame(rt.dom, n);
    for i := 0 to |prior|
      invariant rt.Valid()
      invariant rt.dom == SetData(before, n, before.data[n].(
                  attrs := Stripped(before.data[n].attrs, prior[..i], wanted)))
    {
      assert prior[..i + 1][..i] == prior[..i];
      if Find(wanted, prior[i].name).None? {
        var after := rt.dom.data[n].(attrs := rt.dom.data[n].attrs - {prior[i].name});
        SetDataTwice(before, n, rt.dom.data[n], after);
        ContentKeepsValid(rt, n, after);
        rt.dom := RemoveAttribute(rt.dom, n, prior[i].name);
      }
    }
    assert prior[..|prior|] == prior;
  }

  /** Writes the static attributes whose value changed (all of them when `prior` is empty). */
  method SetStatics(rt: Runtime, n: NodeId, prior: seq<Attribute>, wanted: seq<Attribute>)
    requires rt.Valid() && n in rt.dom.data
    modifies rt`dom
    ensures rt.Valid()
    ensures rt.dom == SetData(old(rt.dom), n, old(rt.dom).data[n].(
              attrs := StaticsSet(old(rt.dom).data[n].attrs, prior, wanted, rt.dom.rules.attrOk)))
  {
    hide WellFormed, EventsAgree, EffectsAgree, RegionsAgree, SetData, Issued, CellsExist, Numbered, Unchanged;
    ghost var before := rt.dom;
    SetDataSame(rt.dom, n);
    for i := 0 to |wanted|
      invariant rt.Valid()
      invariant rt.dom == SetData(before, n, before.data[n].(
                  attrs := StaticsSet(before.data[n].attrs, prior, wanted[..i], before.rules.attrOk)))
    {
      assert wanted[..i + 1][..i] == wanted[..i];
      if !wanted[i].IsDynamic() && !Unchanged(prior, wanted[i]) {
        if rt.dom.rules.attrOk(wanted[i].name) {
          var after := rt.dom.data[n].(attrs := rt.dom.data[n].attrs[wanted[i].name := wanted[i].value]);
          SetDataTwice(before, n, rt.dom.data[n], after);
          ContentKeepsValid(rt, n, after);
        }
        rt.dom := SetAttribute(rt.dom, n, wanted[i].name, wanted[i].value);
      }
    }
    assert wanted[..|wanted|] == wanted;
  }
}
