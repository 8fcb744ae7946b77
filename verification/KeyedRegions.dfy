/** A `<For>` inside a dynamic region: the path its rows take through an update. */
module KeyedRegions {
  import opened Prelude
  import opened VirtualDom
  import opened Dom
  import opened Resources
  import opened KeyedLists
  import opened RegionRuns
  import opened Regions

  /**
   * A region that last rendered one keyed list renders another: the rows show the new items, and
   * every surviving key keeps its node exactly when that can be kept.
   */
  method UpdateFor(rt: Runtime, region: RegionId, before: seq<Item>, after: seq<Item>, ghost waiting: set<RegionId>)
    requires rt.Valid() && Renderable(rt.dom, rt.cells, rt.dynamicRegions, region)
    requires Reachable(rt.dom, rt.cells[region]) && rt.cells[region].current == Some(ForEach(before))
    requires |rt.cells[region].rendered| == |before| && KeyedItems(before) && KeyedItems(after) && Plain(ForEach(after))
    modifies rt
    ensures rt.Valid() && region in rt.cells && rt.cells[region].current == Some(ForEach(after))
    ensures ShowsCurrent(rt.dom, rt.cells[region]) && |rt.cells[region].rendered| == |after|
    ensures IdentityKept(old(rt.dom), old(rt.cells[region].rendered), before, after, rt.cells[region].rendered)
  {
    hide WellFormed, EventsAgree, EffectsAgree, RegionsAgree, Issued, Numbered, CellsExist, Reachable, Plain,
        LazyHandles,
         ShowsCurrent, IdentityKept, KeyedItems;
    ghost var d, c := rt.dom, rt.cells[region];
    UpdateDynamicRegion(rt, region, ForEach(after), waiting);
    RowKeys(before);
    RowKeys(after);
    SurvivorsKeepTheirNodes(d, c.rendered, before, after, rt.cells[region].rendered);
  }
}
