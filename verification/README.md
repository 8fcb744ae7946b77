# Krab client runtime: a verified model

A Dafny model of the parts of the Krab framework that are algorithms: the browser runtime that
reconciles, hydrates and tears down DOM trees, the router's HTML scanner, the two protocols that
guard asynchronous work by a generation counter, and the codec for cache keys. `dafny verify
dfyconfig.toml` checks all of it.

## What is modelled

**The DOM** (`Dom.dfy`) is a value: numbered nodes with parent and child links, records with
kind, attributes, listeners and the `__krab_*` expandos, and a log of child-list and text
mutations. Insertion, replacement and removal follow sections 4.2.3 and 4.4 of the WHATWG DOM
Standard: an operation whose reference node is not a child fails and changes nothing. Nodes are
numbered so that a parent's number is below its children's; the runtime only ever inserts a node
under an older one. Which names `createElement` and `setAttribute` accept is a parameter.

**The runtime** (`Resources.dfy`) is a class whose methods change that document and the three
registries step by step. `Valid()` says that tree and registries agree: each closure, attribute
effect and region entry belongs to exactly one node through its current id, the listeners bound
to an element are exactly those of its entry, and each live effect sits in exactly one entry. Every
method keeps it, so it holds over every sequence of calls.

**Views** (`VirtualDom.dfy`) are elements, texts, comments and fragments. `Rendering.dfy` defines
when a node *shows* a view and when it merely *tracks* it: reactive attributes may have changed
since, and a node whose shape has changed no longer promises anything, which is what patching relies on.

**Reconciling**: `KeyedMatching.dfy` (which old child each new child takes over), `Placement.dfy`
(moving nodes into place), `Building.dfy`, `Attributes.dfy`, `PatchSteps.dfy`, `Confinement.dfy`,
`Runs.dfy` and `Reconcile.dfy` (the mutual recursion), `KeyedLists.dfy` (`<For>` end to end),
`Teardown.dfy` (removal with nested regions), `RegionRuns.dfy`, `RegionBlocks.dfy` and
`Regions.dfy` (dynamic regions over any number of updates), `KeyedRegions.dfy` (a `<For>` in one).

**Hydration**: `Adoption.dfy` (what conforming, ready and counted mean), `HydrationPlan.dfy` (the
counts, read off the starting tree), `HydrationSteps.dfy` and `Hydration.dfy` (the walk over the
live child list, which does what was planned), `KeptContent.dfy` (what stays of the server's markup),
`Islands.dfy` and `Passes.dfy` (boundaries, their
states, passes and unmounting). A factory is a parameter: it panics, or returns a view whose
hydration may trap half-way.

**Router text**: `Html.dfy` (the scanning loops against functions of the text), `Printing.dfy` (a
printer of well-formed documents over a grammar of its own: blanks, letter case, value quoting, stray
marks, comments, declarations), `RawOutlets.dfy`, `Escaping.dfy`, `Entities.dfy` (what references stand
for) and `Extraction.dfy` (scanner and title reader invert the printer).

**Protocols and keys**: `Action.dfy`, `Navigation.dfy`, `CacheKey.dfy`, `CacheRequests.dfy` (keys
against queries as written). Completions come in any order; generations are unbounded. The query allowlist and what `pushState` accepts are parameters.

## Where code and documentation differ

- `control_flow.rs:42-43` says that of two rows with the same key the second is rebuilt. The code
  gives a row the old row with the same occurrence number of that key
  (`KeyedMatching.DuplicatesPairUp`), and rebuilds it exactly when the old list has no more rows of
  that key (`KeyedMatching.DuplicateRebuilt`).
- The router takes a raw-text outlet's text for markup when it measures it, so such an outlet can be
  lost; `Extraction.OutletOfPrinted` states exactly when, and `Extraction.RawOutletLost` gives a case.
- A second hydration pass is not always idle (`hydration.rs:480-483`): it is if and only if
  every island that appeared after the first pass took its snapshot is claimed
  (`Passes.HydrateTwice`). One appears when a repair builds it, and when an adopted element becomes
  one through a reactive `data-island`; `Passes.NestedTwice` runs both.
- Before the first client navigation, with the address bar away from the page shown, a click or a Back
  within the address bar's document is taken for a fragment change. That is the only way for the
  rendered URL to go wrong (`Navigation.RenderedUrlMatches`); `Navigation.BackToFragmentMisread` and
  `Navigation.ClickAfterBackMisread` reach it.
- A future factory that panics while a run is pending leaves `pending` set with nothing in flight, and
  only that does (`Action.FaithfulExactly`, `Action.PanicLatchesPending`).

## Model

| member | source | states |
|---|---|---|
| KeyedMatching.IndexKeys | crates/framework/krab_client/src/reconcile.rs:365-370 | One pass builds, for every key, the queue of its unconsumed old positions, first to last. |
| KeyedMatching.ClaimSource | crates/framework/krab_client/src/reconcile.rs:380-397 | For every old and new list, duplicate keys included, the map of deques claims the index that the naive scan "first unconsumed old child with this key, else the unkeyed one in its position" claims, and stays an exact index of what is still free. |
| KeyedMatching.QueueFront | crates/framework/krab_client/src/reconcile.rs:356-397 | The head of a key's queue is the first unconsumed old child with that key; consuming it leaves exactly the tail. |
| KeyedMatching.ClaimsDisjoint | crates/framework/krab_client/src/reconcile.rs:365-397 | Keyed or positional, no old child is claimed by two new ones. |
| KeyedMatching.UniqueClaims | crates/framework/krab_client/src/reconcile.rs:365-397 | With unique keys on both sides a new child claims an old one if and only if their keys are equal. |
| KeyedMatching.DuplicatesPairUp | crates/framework/krab_client/src/reconcile.rs:365-397 | For all old and new lists: a keyed new child claims an old one of its key if and only if as many of that key precede it in the new list as precede the old one in the old list. |
| KeyedMatching.DuplicateRebuilt | crates/framework/krab_client/src/reconcile.rs:380-397 | A keyed new child finds an old one of its key if and only if the old list has more of that key than precede it; otherwise it takes the unkeyed child in its position if that is still free, and is built if not. |
| KeyedMatching.UnkeyedByPosition | crates/framework/krab_client/src/reconcile.rs:380-397 | An unkeyed new child takes the old one in its own position if that one is unkeyed too, and nothing otherwise: nobody else can have taken it. |
| KeyedMatching.TakenByCount | crates/framework/krab_client/src/reconcile.rs:380-397 | However keys repeat, the consumed old children of a key are always the first ones, as many as new children of that key have come. |
| KeyedMatching.RepeatedKeysPairUp | crates/framework/krab_core/src/control_flow.rs:36-44 | In particular a list re-rendered with the same keys is claimed position by position even when keys repeat (see "Where code and documentation differ"). |
| KeyedMatching.InsertOnlyClaims | crates/framework/krab_client/src/reconcile.rs:380-397 | If the old keyed run is a subsequence of the new one, every claim takes the first old child not yet taken. |
| Reconcile.PatchDom | crates/framework/krab_client/src/reconcile.rs:212-277 | For all Dynamic-free trees: the patch succeeds if and only if text meets text, comment meets comment, or an element meets one of the same tag on an element node whose children line up with the old render; a node that tracks its old vnode then shows the new one; the effect stays in its subtree. |
| Reconcile.PatchChildren | crates/framework/krab_client/src/reconcile.rs:311-319 | Succeeds exactly when the children line up with the old render, and then they show the new render. |
| Reconcile.ReconcileRange | crates/framework/krab_client/src/reconcile.rs:332-439 | Declines, changing nothing, exactly when nodes and old render differ in number; otherwise the parent's children are the old prefix, the returned nodes in new-list order, the old suffix; each shows its vnode if it tracked its old one, a claimed node is kept if and only if it can be patched, everything else is new, and only a node claimed out of place is ever the subject of an insertion. |
| Reconcile.ReuseSource | crates/framework/krab_client/src/reconcile.rs:404-413 | The claimed node is patched in place or swapped, kept exactly when it can be patched; either way one node stands in its slot and shows the new vnode. |
| Reconcile.Swap | crates/framework/krab_client/src/reconcile.rs:406-412 | When the patch gives up, the slot holds a new node that shows the vnode, and the old one is out of the tree. |
| Reconcile.PlaceClaimed | crates/framework/krab_client/src/reconcile.rs:399-418 | A claimed node ends at the end of the placed part, also when it was the run start and the captured reference is stale. |
| Reconcile.PlaceCreated | crates/framework/krab_client/src/reconcile.rs:419-423 | An unclaimed vnode gets a new node, placed after what is placed already. |
| Reconcile.RemoveUnclaimed | crates/framework/krab_client/src/reconcile.rs:427-436 | Exactly the unclaimed old nodes leave the run. |
| Placement.PlaceBefore | crates/framework/krab_client/src/reconcile.rs:454-470 | After the call the node heads what follows the placed part, whatever the captured references say: a node already in place is not touched, and an insertion that fails on a stale reference leaves the order right. |
| VirtualDom.FlattenConcat | crates/framework/krab_client/src/reconcile.rs:285-292 | Flattening a list flattens its parts in order, so keys match across fragment boundaries. |
| Attributes.PatchedShows | crates/framework/krab_client/src/reconcile.rs:234-259 | Dropping, rewriting and re-running attributes turns attributes that track the old render into attributes that show the new one. |
| PatchSteps.PatchRecord | crates/framework/krab_client/src/reconcile.rs:234-270 | A reused element whose attributes and listeners track the old vnode shows those of the new one. |
| Rendering.ShowsTracks | crates/framework/krab_client/src/reconcile.rs:212-277 | A node that shows a vnode also tracks it, so patching may start from any earlier result. |
| Building.CreateDomNode | crates/framework/krab_client/src/reconcile.rs:540-630 | A new detached tree shows the vnode; no existing node changes and only new nodes are mutated. |
| Building.CreateElementNode | crates/framework/krab_client/src/reconcile.rs:490-538 | The same for an element with its attributes, listeners and children; a name the browser refuses gives an error comment. |
| Building.BuildChildren | crates/framework/krab_client/src/reconcile.rs:490-538 | The children appended show the flattened child list. |
| KeyedLists.RowKeys | crates/framework/krab_core/src/control_flow.rs:44-92 | `<For>` renders one row per item, keyed by the item keys, and unique item keys give unique reconciliation keys. |
| KeyedLists.DerivedKeys | crates/framework/krab_core/src/control_flow.rs:44-92 | A row that is a fragment passes on keys derived from its own: its children get different ones. |
| KeyedLists.SurvivorsKeepTheirNodes | crates/framework/krab_core/src/control_flow.rs:44-92 | A surviving key keeps its DOM node if and only if the node still is an element of the same tag whose children line up with the old row, whatever its reactive attributes hold by now; every other row is new. |
| KeyedLists.RerenderFor | crates/framework/krab_client/src/reconcile.rs:332-439 | End to end, for arbitrary insertions, deletions and permutations of uniquely keyed rows: the rows end in item order between the same neighbours, identity follows the keys exactly as above, and rows that tracked the old items show the new ones. |
| KeyedLists.EffectsKeepRows | crates/framework/krab_client/src/resources.rs:78-114 | Attribute effects running anywhere in a row after it was rendered leave it tracked and lined up, so the above applies however often they ran. |
| KeyedLists.ShownLinesUp | crates/framework/krab_client/src/reconcile.rs:490-538 | A row that was just rendered lines up. |
| KeyedLists.InsertOnlyNeverMoves | crates/framework/krab_client/src/reconcile.rs:372-470 | If the old run is fully keyed and a subsequence of the new one, and no key occurs twice in the new one, no surviving node is ever the subject of an insertion. |
| KeyedLists.InsertOnlyKeepsAll | crates/framework/krab_client/src/reconcile.rs:372-470 | Under the same condition an old node is at the place of its key if and only if it can be patched, and every other place holds a new node. |
| KeyedRegions.UpdateFor | crates/framework/krab_client/src/reconcile.rs:99-210 | A `<For>` inside a dynamic region: an update shows the new items, and identity follows the keys in the region's run. |
| RegionRuns.CreateRunNodes | crates/framework/krab_client/src/reconcile.rs:655-661 | New nodes, one per flattened child, that show it. |
| RegionRuns.RebuildRun | crates/framework/krab_client/src/reconcile.rs:189-207 | The wholesale branch: the stale run is out, and a new run that shows the vnode stands in its place before the anchor. |
| RegionRuns.RenderRun | crates/framework/krab_client/src/reconcile.rs:179-207 | Through either branch the run shows the new vnode between the same neighbours; when the run lines up with the old render each claimed node is kept exactly if it can be patched; the effect stays in the run. |
| RegionBlocks.RegisteredSeparate | crates/framework/krab_client/src/reconcile.rs:99-210 | Two registered regions in order never overlap and neither lies inside the other's run. |
| RegionBlocks.OtherStands | crates/framework/krab_client/src/reconcile.rs:99-210 | A change to one region's block leaves every separate region contiguous in its parent. |
| RegionBlocks.OtherRun | crates/framework/krab_client/src/reconcile.rs:99-210 | The run of a separate region keeps what it shows. |
| RegionBlocks.OthersIntact | crates/framework/krab_client/src/reconcile.rs:99-210 | After a change to one tracked region all regions are in order again, and all others are as they were. |
| Regions.EnsureAnchor | crates/framework/krab_client/src/reconcile.rs:106-167 | The anchor of a region hydrated without one is put directly after its run, or where the empty run was captured, and the region is registered; without a place nothing changes. |
| Regions.RenderAnchored | crates/framework/krab_client/src/reconcile.rs:169-209 | The region stays directly before its anchor, between the same siblings, and shows the new vnode. |
| Regions.UpdateDynamicRegion | crates/framework/krab_client/src/reconcile.rs:99-210 | One update: shown if the region has a place in the document, with the nodes that can be patched kept, and recorded otherwise; every other tracked region is left as it was, and a waiting region is registered by its first update. |
| Regions.RunUpdates | crates/framework/krab_client/src/reconcile.rs:99-210 | Over every sequence of updates of registered regions and of regions that wait with a non-empty run: all stay in order, each shows the last view it was given, the others keep theirs, and exactly the waiting regions no update named still wait. |
| Teardown.RemoveRegionContent | crates/framework/krab_client/src/reconcile.rs:670-682 | Tears down exactly the region's run and every run nested in it (the least closed set), unregistering and disposing each; terminates because every step takes a region from the registry. |
| Teardown.RemoveRun | crates/framework/krab_client/src/reconcile.rs:670-690 | The same for a list of run entries. |
| Teardown.RemoveTrackedNode | crates/framework/krab_client/src/reconcile.rs:686-690 | The entry, its region if it anchors one, and everything their subtrees hold are gone. |
| Teardown.TeardownExact | crates/framework/krab_client/src/reconcile.rs:670-690 | Every run reached is out of the element, every region reached is unregistered and disposed; no other sibling is removed and no region anchored elsewhere changes. |
| Resources.DetachElementEvents | crates/framework/krab_client/src/resources.rs:184-194 | Every listener goes with its closure entry; nothing else changes. |
| Resources.AttachElementEvents | crates/framework/krab_client/src/resources.rs:209-249 | The element's listeners become exactly the given ones, freshly made; the entry under the old id is gone and one entry under a new id holds them. |
| Resources.BindDynamicAttributes | crates/framework/krab_client/src/resources.rs:78-114 | Each reactive attribute is applied and gets one effect in one new entry; the effects of the previous binding are disposed. |
| Resources.DetachDynamicAttributes | crates/framework/krab_client/src/resources.rs:49-59 | Disposes exactly the effects of the element's entry and drops the entry. |
| Resources.WrittenAt | crates/framework/krab_client/src/resources.rs:78-165 | What a run of the attribute effects leaves under each name. |
| Resources.RegisterDynamicRegion | crates/framework/krab_client/src/resources.rs:303-315 | The anchor gets a new id, under which exactly this region is registered. |
| Resources.TakeDynamicRegion | crates/framework/krab_client/src/resources.rs:318-321 | Returns and unregisters the region of a live anchor, and no other. |
| Resources.DisposeRegionEffect | crates/framework/krab_client/src/resources.rs:331-336 | The effect slot is emptied, so a second call does nothing. |
| Resources.ReleaseDomNodeResources | crates/framework/krab_client/src/resources.rs:281-296 | Exactly the subtree's entries leave the three registries, its listeners are gone and its regions' effects are disposed; the tree stays. Every method of the runtime keeps the agreement of registries and nodes, so it holds over every sequence of calls. |
| Hydration.FindMarked | crates/framework/krab_client/src/hydration.rs:229-241 | The first later sibling that carries the marker, if any. |
| Hydration.RealignNode | crates/framework/krab_client/src/hydration.rs:244-319 | The node with the expected marker is brought to its index by one counted move; if there is none the head is taken, and a marker on it that disagrees is counted; nothing else moves. |
| HydrationSteps.ReplaceDomNode | crates/framework/krab_client/src/reconcile.rs:25-39 | The old node is released and one new node stands in its place; one replacement counted. |
| HydrationSteps.AppendDomNode | crates/framework/krab_client/src/reconcile.rs:42-55 | One new node at the end; one append counted. |
| HydrationSteps.InsertComment | crates/framework/krab_client/src/hydration.rs:1195-1244 | A missing comment is inserted before what stands in its slot; one append counted. |
| Hydration.HydrateText | crates/framework/krab_client/src/hydration.rs:1110-1184 | The text conforms afterwards, and the repair is counted exactly. |
| Hydration.HydrateComment | crates/framework/krab_client/src/hydration.rs:1195-1244 | The comment conforms afterwards, and the repair is counted exactly. |
| Hydration.AdoptElement | crates/framework/krab_client/src/hydration.rs:1013-1103 | A reused element conforms, recursively, with its repairs counted; of its record only the listeners and the attributes that its vnode makes reactive change, so every other attribute, the marker included, keeps its old value. |
| Hydration.HydrateElement | crates/framework/krab_client/src/hydration.rs:1013-1103 | Reuse, replacement or append: the element conforms, and one node is consumed. |
| Hydration.HydrateRecursive | crates/framework/krab_client/src/hydration.rs:1247-1369 | Any vnode: what it owns conforms, and `consumed` is the number of nodes it owns, so following siblings stay aligned. |
| Hydration.HydrateEach | crates/framework/krab_client/src/hydration.rs:961-1006 | A list of vnodes advances through the live child list without losing its place. |
| Hydration.HydrateChildren | crates/framework/krab_client/src/hydration.rs:961-1006 | From any starting DOM the children match the flattened vnodes exactly in kind, tag, text and order, recursively; extras are removed. |
| Hydration.HydrateNode | crates/framework/krab_client/src/hydration.rs:955-1006 | Main result: conformance, with every node that was not there before showing its vnode; on the adopted nodes every attribute the view does not make reactive keeps its value; all seven counts are those planned from the starting tree alone, and each kind of repair is counted exactly as often as it was made to an adopted node; zero mismatches mean the tree is the same node for node; ready content gives zero and is ready again if and only if no reactive attribute overwrites a marker; a permutation of marked ready content is repaired by moves only, with the same nodes. |
| Hydration.BoundaryCounts | crates/framework/krab_client/src/hydration.rs:113-152 | The counts kind by kind, and their sum, from the invariant of the walk. |
| HydrationPlan.PlanConcat | crates/framework/krab_client/src/hydration.rs:961-1006 | The planned counts of a list are those of its parts, each against what the earlier ones left. |
| HydrationPlan.PlanEachFrame | crates/framework/krab_client/src/hydration.rs:961-1006 | What is planned for a list depends on its nodes and what hangs below them alone, so repairs of earlier siblings do not change it. |
| HydrationPlan.QuietPlan | crates/framework/krab_client/src/hydration.rs:229-319 | If every vnode finds a node that is ready for it, the plan is to adopt them all, with a move for each that is not at its place and no other repair. |
| HydrationPlan.AlignmentCounted | crates/framework/krab_client/src/hydration.rs:244-319 | Getting a node for a keyed vnode counts one move exactly when a later sibling carries the marker and the head does not, and one marker mismatch exactly when no sibling carries it and the head carries another. |
| HydrationPlan.UnmarkedInOrder | crates/framework/krab_client/src/hydration.rs:244-319 | Markup without markers is taken in the order it stands: no move and no marker mismatch, however deep. |
| HydrationSteps.PlannedTrans | crates/framework/krab_client/src/hydration.rs:961-1006 | An advance as planned, followed by one as planned, is as planned from the start. |
| Adoption.TallySum | crates/framework/krab_client/src/hydration.rs:113-152 | The five counted kinds of mutation add up to all mutations of adopted nodes. |
| Adoption.ReadyQuiet | crates/framework/krab_client/src/hydration.rs:1013-1103 | Content that conforms with its markers is adopted as it stands. |
| Adoption.ShuffledQuiet | crates/framework/krab_client/src/hydration.rs:229-319 | Any reordering of distinctly marked ready nodes is undone by moves alone. |
| Adoption.QuietConcat | crates/framework/krab_client/src/hydration.rs:961-1006 | Adopting a list is adopting its parts one after the other, moves included. |
| Adoption.ShowsConforms | crates/framework/krab_client/src/hydration.rs:1013-1103 | A built node conforms. |
| KeptContent.LeftAlone | crates/framework/krab_client/src/hydration.rs:1013-1103 | Below a node that conforms, every node that was there before has its old value under every name that its view makes reactive nowhere. |
| KeptContent.StaticKeepsAttributes | crates/framework/krab_client/src/hydration.rs:1013-1103 | Under a view without reactive attributes every adopted node keeps all of its attributes. |
| KeptContent.AllReadyAgain | crates/framework/krab_client/src/hydration.rs:1013-1103 | Ready content that was adopted in place is ready for a second hydration if and only if every marker that is itself a reactive attribute has the marker as its value. |
| Islands.HydrateBoundary | crates/framework/krab_client/src/hydration.rs:349-472 | A claimed boundary is left alone; any other leaves `ssr`, is labelled with its island name and its own or a numbered id, and ends in exactly the state its factory calls for: missing, with nothing else in the document changed; failed, by a panic or by a trap half-way, with the fallback shown and nothing bound to the old content; or the state told by the view's root and the repairs, with the exact mismatch count of that hydration on the element. |
| Islands.Fail | crates/framework/krab_client/src/hydration.rs:709-754 | The boundary reads `error` and keeps its other attributes, shows the fallback, and every node that hung below it has no listener, effect or region left. |
| Islands.SetFallback | crates/framework/krab_client/src/hydration.rs:709-754 | The fallback is the only content, and the old content is cut off intact. |
| Islands.ReleaseStale | crates/framework/krab_client/src/hydration.rs:709-754 | Exactly the resources of the old content are released. |
| Islands.Render | crates/framework/krab_client/src/hydration.rs:446-452 | The content conforms to the view, and the stamped count is the number of repairs made to adopted nodes plus marker disagreements, as planned from the content before: zero for ready content, the moves for a permutation of it. The state is `error` or `decode-error` if the view's root says so; otherwise `patched` if and only if an adopted node was mutated or a marker disagreed, and `ok` if not; `ok` means the tree is unchanged. |
| Islands.Classified | crates/framework/krab_client/src/hydration.rs:95-102 | The three-way classification, in those terms: an overriding state wins, repairs decide the rest. |
| Islands.StampsApart | crates/framework/krab_client/src/hydration.rs:349-472 | What hydration says of the content holds from before the boundary was claimed to after it was stamped. |
| Islands.Claim | crates/framework/krab_client/src/hydration.rs:349-374 | Claiming a boundary writes its four bookkeeping attributes, the island name and the given id among them, and nothing else. |
| Islands.FactoryArguments | crates/framework/krab_client/src/hydration.rs:362-420 | The factory gets the written props or `{}`, and the written id or the name with the number of the turn. |
| Prelude.DecimalReads | crates/framework/krab_client/src/hydration.rs:371-374 | The decimal numeral of a count or an ordinal consists of digits whose positional value is that number. |
| Prelude.DecimalInjective | crates/framework/krab_client/src/hydration.rs:371-374 | So different ordinals give different ids. |
| Islands.Interrupt | crates/framework/krab_client/src/hydration.rs:702-754 | A trap in the walk after any number of nodes leaves the damage contained in the boundary, whose own attributes stay. |
| Passes.PreorderInOrder | crates/framework/krab_client/src/hydration.rs:582-618 | The elements below a root come in document order: a node before what it contains, and earlier branches before later ones, so a repair can only concern later boundaries. |
| Passes.QueryFacts | crates/framework/krab_client/src/hydration.rs:582-618 | The snapshot holds exactly the marked descendants of the root, each once, in document order. |
| Passes.HydrateOne | crates/framework/krab_client/src/hydration.rs:669-700 | One boundary takes its turn: an unclaimed island comes to its outcome, anything else is left alone; `failed` grows by one exactly when it newly ends in `error`, and the ordinal advances. |
| Passes.HydrateBelow | crates/framework/krab_client/src/hydration.rs:582-618 | A failing island does not stop later ones: every snapshotted island takes its turn once, in document order, if it is still below the root, and is passed over otherwise. |
| Passes.HydrateSubtree | crates/framework/krab_client/src/hydration.rs:582-618 | A pass is a run over exactly the root, if it is an island, and the islands below it: each takes its turn once with the next ordinal. Each that is still an island below the root is claimed and in the state its turn gave it; `failed` grows by the number of boundaries that were unclaimed when their turn came and are in `error`; the pass changes nothing if and only if all were claimed before. |
| Passes.IdleRun | crates/framework/krab_client/src/hydration.rs:65-69 | A run over claimed boundaries changes nothing. |
| Passes.SecondPassIdle | crates/framework/krab_client/src/hydration.rs:474-495 | After a pass everything is claimed if and only if every island below the root that was not an island when the pass took its snapshot is; those that were are exactly the ones it turned to. |
| Passes.HydrateTwice | crates/framework/krab_client/src/hydration.rs:474-495 | Two passes: the second changes nothing if and only if every island below the root that appeared after the first one's snapshot is claimed. |
| Passes.NestedLeft | crates/framework/krab_client/src/hydration.rs:582-618 | Both ways for such an island to appear, on a concrete page: a nested island that a repair builds, and an adopted element that a reactive `data-island` turns into one, with no mismatch. |
| Passes.NestedTwice | crates/framework/krab_client/src/hydration.rs:582-618 | On both pages the second pass still finds work. |
| Passes.Unmount | crates/framework/krab_client/src/hydration.rs:808-824 | Releases exactly the subtree's resources and makes every boundary in it eligible again, leaving the tree alone. |
| Html.NextTag | crates/framework/krab_client/src/router.rs:255-281 | Total on arbitrary text; finds what the tag grammar of the text from that position on says. |
| Html.ParseTag | crates/framework/krab_client/src/router.rs:284-315 | The tag at a `<`, or none. |
| Html.ScanAttributes | crates/framework/krab_client/src/router.rs:322-365 | The end, the self-closing mark and the outlet marker of a tag. |
| Html.SkipAttributeValue | crates/framework/krab_client/src/router.rs:369-405 | Exactly the `=` and the value. |
| Html.SkipRawText | crates/framework/krab_client/src/router.rs:409-411 | Up to the end tag of the raw-text element, in any case. |
| Html.FindFrom | crates/framework/krab_client/src/router.rs:414-423 | The first occurrence from a position on. |
| Html.ScanFor | crates/framework/krab_client/src/router.rs:427-451 | The first wanted tag outside comments and raw text. |
| Html.ScanExtent | crates/framework/krab_client/src/router.rs:480-509 | The end tag that closes the outlet, counting nested elements of its name. |
| Html.ExtractOutletHtml | crates/framework/krab_client/src/router.rs:463-510 | The loops together compute the outlet function of the text. |
| Printing.SeekAll | crates/framework/krab_client/src/router.rs:427-451 | In a printed document the scanner finds the first wanted element of the tree, wherever marker or tag text occurs in comments, declarations, instructions, raw text, text or attribute values, and past any `<` that begins no tag. |
| Printing.ScanAttrs | crates/framework/krab_client/src/router.rs:322-405 | The attribute scanner inverts the attribute printer: bare, quoted and unquoted values, any blanks before attributes, around `=` and before the end, lone slashes, names in any case. |
| Printing.UnquotedLength | crates/framework/krab_client/src/router.rs:397-402 | An unquoted value runs up to the next blank or the end of the tag, slashes, equals signs and quotes inside it included. |
| Printing.NextStray | crates/framework/krab_client/src/router.rs:276-277 | A `<` that begins no tag is text. |
| Printing.RawEnds | crates/framework/krab_client/src/router.rs:409-423 | A raw text ends where its end tag is printed, in whatever case. |
| Extraction.ExtentAll | crates/framework/krab_client/src/router.rs:463-510 | Printed trees in front do not change where an element ends, same-tag nesting included. |
| Extraction.OutletOfPrinted | crates/framework/krab_client/src/router.rs:463-510 | For every well-formed document: the outlet of the printed text is what is printed inside the first element that carries the marker, nothing if no element does; for a marked raw-text element if and only if reading its text as markup gets to its end tag. |
| Extraction.RawOutletLost | crates/framework/krab_client/src/router.rs:463-510 | A concrete family for which a marked raw-text outlet is lost. |
| Extraction.PlainRawReaches | crates/framework/krab_client/src/router.rs:463-510 | A raw-text outlet whose text holds no `<` is always found. |
| RawOutlets.EndsExactly | crates/framework/krab_client/src/router.rs:480-509 | The measured end is the element's own if and only if no start tag of its name and no construct reaching past it is met on the way. |
| RawOutlets.NextParses | crates/framework/krab_client/src/router.rs:255-281 | Every tag the scanner reports is the one its `<` begins. |
| Escaping.ChainEscapesEach | services/service_frontend/build.rs:281-287 | The four-step chain escapes each character once and never what an earlier step produced. |
| Escaping.DecodeHtmlEntities | crates/framework/krab_client/src/router.rs:530-564 | The loop computes the decoding of the text, which the next rows tie to what references mean. |
| Escaping.DecodeReference | crates/framework/krab_client/src/router.rs:530-583 | One reference after an `&`, or none, as that decoding reads it. |
| Escaping.DecodeUndoesEscape | crates/framework/krab_client/src/router.rs:530-583 | For every text, decoding the escaped text gives the text back. |
| Entities.CharacterByNumber | crates/framework/krab_client/src/router.rs:566-583 | Every character, written by its decimal or hexadecimal number in either case, decodes to itself. |
| Entities.NumericReference | crates/framework/krab_client/src/router.rs:545-583 | For all digits within the length limit: the reference decodes to the character with their positional value, leading zeros and both cases included, and stands for itself if that is no scalar value. |
| Entities.BadNumber | crates/framework/krab_client/src/router.rs:570-577 | A numeric reference with anything but digits of its radix, save a leading `+`, stands for itself. |
| Entities.ParsePositional | crates/framework/krab_client/src/router.rs:570-577 | A numeral of any length, with or without a leading `+`, parses to its positional value if and only if that fits 32 bits. |
| Entities.NamedReferences | crates/framework/krab_client/src/router.rs:566-583 | The six named references, `apos` and `nbsp` among them, decode to their characters. |
| Entities.UnknownName | crates/framework/krab_client/src/router.rs:544-583 | Any other name stands for itself, ampersand and all. |
| Entities.StrayAmpersand | crates/framework/krab_client/src/router.rs:544-558 | So does an ampersand that no semicolon follows. |
| Entities.LongReference | crates/framework/krab_client/src/router.rs:542-558 | A reference beyond the length limit is left as it stands. |
| Extraction.ExtractTitle | crates/framework/krab_client/src/router.rs:516-523 | The loops together compute the title function of the text. |
| Extraction.TitleOfPrinted | crates/framework/krab_client/src/router.rs:516-583 | The title of a printed document is the decoded, trimmed text of its first title element; if that is an escaped text, it is that text, trimmed; no title, no result. |
| Extraction.TrimmedExactly | crates/framework/krab_client/src/router.rs:522 | Trimming takes away exactly the Unicode white space at both ends. |
| CacheKey.EscapeCacheKeySegment | services/service_frontend/src/cache.rs:163-176 | The loop computes the segment escape. |
| CacheKey.UnescapeCacheKeySegment | services/service_frontend/src/cache.rs:178-202 | The loop computes the inverse, passing through what is no escape. |
| CacheKey.UnescapeUndoesEscape | services/service_frontend/src/cache.rs:163-202 | For every text, unescaping undoes escaping. |
| CacheKey.MarksEncoded | services/service_frontend/src/cache.rs:163-176 | `@` and `%` are written as their percent-encodings, every other character as it is. |
| CacheKey.NothingToUnescape | services/service_frontend/src/cache.rs:178-202 | A segment without the two escapes is its own unescaping: foreign percent-encodings pass through. |
| CacheKey.SortedUnique | services/service_frontend/src/cache.rs:114 | A sorted list is determined by its members, so the choice of sorting algorithm does not matter. |
| CacheKey.SplitJoined | services/service_frontend/src/cache.rs:97-156 | Splitting undoes joining when no part holds the separator. |
| CacheKey.KeyCanonical | services/service_frontend/src/cache.rs:97-156 | Under a fixed allowlist two requests get the same key if and only if path, locale (empty read as `en`) and the multiset of allowlisted parameters agree, for all `?`-free paths and locales. |
| CacheRequests.KeysAgree | services/service_frontend/src/cache.rs:97-156 | The same against the queries as written: two requests share a key if and only if path and locale agree and every allowlisted name comes with the same values equally often, whatever the order, empty parts and other parameters. |
| CacheRequests.KeyWritten | services/service_frontend/src/cache.rs:97-156 | The key spelled out: escaped path, locale other than English, and the allowlisted parameters in order, an empty value without its `=`. |
| CacheRequests.EveryRequestCarries | services/service_frontend/src/cache.rs:108-112 | Every query is of the written form those laws are about. |
| CacheRequests.ValuesApart | services/service_frontend/src/cache.rs:108-134 | Two values of one parameter get different keys if and only if its name is allowlisted. |
| CacheKey.FirstDifference | services/service_frontend/src/cache.rs:114 | The order of parameters is that of the first differing character, prefixes first. |
| CacheKey.ParseUndoesKey | services/service_frontend/src/cache.rs:208-220 | Parsing a key returns its path and locale. |
| CacheKey.MarkedLocaleCollides | services/service_frontend/src/cache.rs:97-156 | Why a locale must be free of `?`: one that is not can pose as a query. |
| Action.Runner.Dispatch | crates/framework/krab_core/src/action.rs:109-133 | One step of the protocol: the generation is bumped before the factory runs. |
| Action.Runner.Complete | crates/framework/krab_core/src/action.rs:226-251 | One step of the protocol: an outcome is applied only if no newer run has started. |
| Action.SignalsExplained | crates/framework/krab_core/src/action.rs:226-251 | Over every interleaving, factory panics included: `pending` holds exactly while the latest dispatch that built a future has not completed as the newest, `error` is that dispatch's, `value` is that of the newest dispatch that succeeded while it was the newest, and the runs in flight are the started ones without an outcome. |
| Action.LatestPending | crates/framework/krab_core/src/action.rs:226-251 | If no factory panics while a run is pending: `pending` holds if and only if the newest run is in flight, and `pending` and `error` follow from the latest run's outcome alone. |
| Action.AppliedIsOutcome | crates/framework/krab_core/src/action.rs:226-251 | Under the same condition the latest run is still the newest when it completes. |
| Action.FaithfulExactly | crates/framework/krab_core/src/action.rs:226-251 | Over every run: `pending` always says whether the newest run is in flight if and only if no factory panics while it is set. |
| Action.OrderDoesNotMatter | crates/framework/krab_core/src/action.rs:226-251 | Under the same condition final `pending` and `error` do not depend on the order of completions. |
| Action.ValueDependsOnOrder | crates/framework/krab_core/src/action.rs:226-251 | `value` does: two orders of the same outcomes leave different values. |
| Action.SupersededNeverWrites | crates/framework/krab_core/src/action.rs:226-251 | A superseded run never writes a signal, however late it completes. |
| Action.PanicExact | crates/framework/krab_core/src/action.rs:226-240 | A step keeps the signals faithful if and only if it is not a factory panic during a run. |
| Action.PanicLatchesPending | crates/framework/krab_core/src/action.rs:226-240 | A factory panic during a run leaves `pending` set with nothing in flight. |
| Navigation.Router.NavigateTo | crates/framework/krab_client/src/router.rs:795-834 | One step: fragment-only, no outlet, or a claimed generation and a fetch. |
| Navigation.Router.Arrive | crates/framework/krab_client/src/router.rs:834-897 | One step: a fetch comes back; superseded, failed, without outlet, or committed. |
| Navigation.Router.PopState | crates/framework/krab_client/src/router.rs:723-738 | One step: the address bar has moved before the navigation starts. |
| Navigation.Router.Push | crates/framework/krab_client/src/router.rs:988-999 | The final URL is pushed, the requested one if the browser refuses it. |
| Navigation.CommitsIncrease | crates/framework/krab_client/src/router.rs:601-646 | In every interleaving committed generations strictly increase. |
| Navigation.SupersededNeverWrites | crates/framework/krab_client/src/router.rs:795-897 | A superseded navigation never writes outlet, title, history or location. |
| Navigation.LatestWins | crates/framework/krab_client/src/router.rs:795-897 | The newest navigation, once it arrives with an outlet, determines outlet, title, source and, if it was a click whose final URL the browser accepts, the address up to fragment, whatever arrives before or after. |
| Navigation.ClickPushes | crates/framework/krab_client/src/router.rs:877-880 | Over every run: when a clicked navigation commits, the final URL becomes the address and the one new history entry; if the browser refuses it, the clicked URL does; if it refuses both, neither moves. |
| Navigation.PopNeverPushes | crates/framework/krab_client/src/router.rs:723-738 | Over every run: neither a Back or Forward nor the arrival of its fetch adds an entry; the address is where the traversal went. |
| Navigation.AddressMoves | crates/framework/krab_client/src/router.rs:723-897 | The address changes by a traversal or by a new entry only; a new entry is an accepted URL of a click or of a clicked navigation that is the newest. |
| Navigation.OnlyClicksPush | crates/framework/krab_client/src/router.rs:723-897 | A run without clicks and without clicked navigations in flight leaves the history as it was. |
| Navigation.NewestSettles | crates/framework/krab_client/src/router.rs:834-861 | Over every run: the newest navigation, when its fetch is back, commits if the answer and the page have an outlet, and otherwise asks for a full load of the URL it was for and changes nothing else. |
| Navigation.NoOutletLoads | crates/framework/krab_client/src/router.rs:822-830 | On a page without an outlet a click is a full load. |
| Navigation.SameDocumentExactly | crates/framework/krab_client/src/router.rs:803-826 | A URL is taken for a fragment change exactly if it is the current one, without its fragment, followed by `#` and anything. |
| Navigation.RenderedExact | crates/framework/krab_client/src/router.rs:601-646 | A step, click or Back, keeps the rendered URL equal to the outlet's source up to fragment if and only if it is not misread: nothing was rendered yet, it goes to another part of the document the address bar names, and that is not the document shown. |
| Navigation.RenderedUrlMatches | crates/framework/krab_client/src/router.rs:601-646 | Over every run, in any interleaving: the rendered URL is right throughout if and only if no step is misread. |
| Navigation.AddressBarStandsIn | crates/framework/krab_client/src/router.rs:601-646 | As long as every Back before the first rendering stays within the loaded document, the address bar names what is shown. |
| Navigation.BackToFragmentMisread | crates/framework/krab_client/src/router.rs:803-826 | One misread step: before the first rendering, Back to another page's URL with a fragment is taken for a fragment change. |
| Navigation.ClickAfterBackMisread | crates/framework/krab_client/src/router.rs:803-826 | The other: Back to another page, and a click on a fragment link before its fetch is back. |

## Left out

- Nested `Dynamic` nodes inside a view: views are Dynamic-free, so a region's run holds no further region except in `Teardown`, where runs nest freely.
- `Node::Dynamic` during hydration (`hydration.rs:1284-1369`): regions enter the model when their cells exist.
- Regions.RunUpdates: does not cover regions that wait with an empty run, because their position was captured earlier and may lie in another region's run; `Regions.UpdateDynamicRegion` covers their updates one at a time, without the claim about other regions.
- KeyedLists.RerenderFor: rows whose view carries its own marker keep that key instead; the theorem is about rows keyed by their item.
- Hydration.HydrateNode: conformance is about kinds, tags, texts, order, listeners and reactive attributes; hydration neither compares nor writes static attributes and comment texts, and it adopts the contents of `script` and `style` unread, so the theorem says that those stay, not that they agree with the view.
- Teardown.RemoveTrackedNode: exactness is stated for runs whose nodes hang in the element itself or nowhere, as the runs of a region and of the regions nested in it do.
- Islands.Interrupt: a trap hits between two top-level nodes of the view, not between two writes of one registry, and its contract promises containment only; `Islands.Fail` starts from any contained state. The cleanup of a contained failure runs to its end.
- Extraction.OutletOfPrinted: a well-formed document has no stray `=` between attributes and no attributes on end tags; the scanner functions skip both.
- Views of one element carry distinct attribute names.
- The signal runtime, owners, batching and effect scheduling: an effect is a handle that is disposed once, and a reactive attribute is the value its source has now.
- Live properties of form controls, and the mode that spares them while adopting server markup.
- Failing `addEventListener` calls and expando writes, and the wrap-around of 32-bit ids and 64-bit generations.
- `annotate_hydration_tree`: a factory's view is taken with its markers.
- Positions are character offsets, not byte offsets; names are compared in ASCII case folding.
- Diagnostics, logging, scrolling, focus, the announcer and the fetch itself.
- `show`, `should_intercept` and `fragment_target`: single readings of their arguments.
- The ISR cache, the cache middleware and the parsing of the allowlist from the environment.
- Authentication, migrations, the services and the build script other than `html_escape`.
