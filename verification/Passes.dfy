/** Hydrating every island below a root, and unmounting them again. */
module Passes {
  import opened Prelude
  import opened VirtualDom
  import opened Dom
  import opened Resources
  import opened Rendering
  import opened Attributes
  import opened Building
  import opened Confinement
  import opened PatchSteps
  import opened Adoption
  import opened HydrationPlan
  import opened Islands

  // --- Document order ---

  /** The subtree of `n` in document order. */
  function Preorder(d: Document, n: NodeId): seq<NodeId>
    requires WellFormed(d) && n in d.tree
    decreases d.next - n, |d.tree[n].kids| + 1
  {
    [n] + PreorderKids(d, n, 0)
  }

  /** The subtrees of the children of `n` from the `i`-th on. */
  function PreorderKids(d: Document, n: NodeId, i: nat): seq<NodeId>
    requires WellFormed(d) && n in d.tree && i <= |d.tree[n].kids|
    decreases d.next - n, |d.tree[n].kids| - i
  {
    KidsBelow(d, n);
    if i == |d.tree[n].kids| then [] else Preorder(d, d.tree[n].kids[i]) + PreorderKids(d, n, i + 1)
  }

  /** Below some child of `n` from the `i`-th on. */
  ghost predicate BelowKid(d: Document, n: NodeId, i: nat, x: NodeId)
    requires n in d.tree
  {
    exists k :: i <= k < |d.tree[n].kids| && Under(d.tree, d.tree[n].kids[k], x)
  }

  lemma {:induction false} PreorderMember(d: Document, n: NodeId, x: NodeId)
    requires WellFormed(d) && n in d.tree
    ensures x in Preorder(d, n) <==> x in d.tree && Under(d.tree, n, x)
    decreases d.next - n, |d.tree[n].kids| + 1
  {
    hide TreeOk;
    PreorderKidsMember(d, n, 0, x);
    if x in d.tree && Under(d.tree, n, x) && x != n {
      var k := UnderSomeKid(d, n, x);
      var i := IndexOf(d.tree[n].kids, k);
      assert Under(d.tree, d.tree[n].kids[i], x);
    }
    if BelowKid(d, n, 0, x) {
      var k :| 0 <= k < |d.tree[n].kids| && Under(d.tree, d.tree[n].kids[k], x);
      UnderKid(d, n, d.tree[n].kids[k], x);
    }
  }

  lemma {:induction false} PreorderKidsMember(d: Document, n: NodeId, i: nat, x: NodeId)
    requires WellFormed(d) && n in d.tree && i <= |d.tree[n].kids|
    ensures x in PreorderKids(d, n, i) <==> x in d.tree && BelowKid(d, n, i, x)
    decreases d.next - n, |d.tree[n].kids| - i
  {
    hide WellFormed;
    KidsBelow(d, n);
    if i < |d.tree[n].kids| {
      PreorderMember(d, d.tree[n].kids[i], x);
      PreorderKidsMember(d, n, i + 1, x);
    }
  }

  /** `x` hangs below an earlier child of some node than `y` does. */
  ghost predicate Branches(t: Tree, x: NodeId, y: NodeId) {
    exists p, i, k :: p in t && 0 <= i < k < |t[p].kids| && Under(t, t[p].kids[i], x) && Under(t, t[p].kids[k], y)
  }

  /** `x` comes before `y` in the document: it contains `y`, or hangs further to the front. */
  ghost predicate Before(t: Tree, x: NodeId, y: NodeId) {
    !Under(t, y, x) && (Under(t, x, y) || Branches(t, x, y))
  }

  ghost predicate InOrder(t: Tree, ns: seq<NodeId>) {
    forall i, j :: 0 <= i < j < |ns| ==> Before(t, ns[i], ns[j])
  }

  lemma InOrderConcat(t: Tree, a: seq<NodeId>, b: seq<NodeId>)
    requires InOrder(t, a) && InOrder(t, b) && forall x, y :: x in a && y in b ==> Before(t, x, y)
    ensures InOrder(t, a + b)
  {
    hide Before;
    var r := a + b;
    forall i, j | 0 <= i < j < |r| ensures Before(t, r[i], r[j]) {
      assert r[i] == if i < |a| then a[i] else b[i - |a|];
      assert r[j] == if j < |a| then a[j] else b[j - |a|];
      assert i < |a| ==> a[i] in a;
      assert j >= |a| ==> b[j - |a|] in b;
    }
  }

  lemma {:induction false} PreorderInOrder(d: Document, n: NodeId)
    requires WellFormed(d) && n in d.tree
    ensures InOrder(d.tree, Preorder(d, n))
    decreases d.next - n, |d.tree[n].kids| + 1
  {
    hide TreeOk, Before, InOrder;
    PreorderKidsInOrder(d, n, 0);
    forall y | y in PreorderKids(d, n, 0) ensures Before(d.tree, n, y) {
      PreorderKidsMember(d, n, 0, y);
      BelowBefore(d, n, y);
    }
    OneInOrder(d.tree, n);
    InOrderConcat(d.tree, [n], PreorderKids(d, n, 0));
  }

  lemma OneInOrder(t: Tree, n: NodeId)
    ensures InOrder(t, [n])
  {
  }

  lemma BelowBefore(d: Document, n: NodeId, y: NodeId)
    requires WellFormed(d) && n in d.tree && BelowKid(d, n, 0, y)
    ensures Before(d.tree, n, y)
  {
    hide TreeOk;
    var k :| 0 <= k < |d.tree[n].kids| && Under(d.tree, d.tree[n].kids[k], y);
    KidsBelow(d, n);
    UnderKid(d, n, d.tree[n].kids[k], y);
  }

  lemma {:induction false} PreorderKidsInOrder(d: Document, n: NodeId, i: nat)
    requires WellFormed(d) && n in d.tree && i <= |d.tree[n].kids|
    ensures InOrder(d.tree, PreorderKids(d, n, i))
    decreases d.next - n, |d.tree[n].kids| - i
  {
    hide TreeOk, Before;
    KidsBelow(d, n);
    if i < |d.tree[n].kids| {
      var k := d.tree[n].kids[i];
      PreorderInOrder(d, k);
      PreorderKidsInOrder(d, n, i + 1);
      forall x, y | x in Preorder(d, k) && y in PreorderKids(d, n, i + 1) ensures Before(d.tree, x, y) {
        PreorderMember(d, k, x);
        PreorderKidsMember(d, n, i + 1, y);
        LaterKid(d, n, i, x, y);
      }
      InOrderConcat(d.tree, Preorder(d, k), PreorderKids(d, n, i + 1));
    }
  }

  lemma LaterKid(d: Document, n: NodeId, i: nat, x: NodeId, y: NodeId)
    requires WellFormed(d) && n in d.tree && i < |d.tree[n].kids| && Under(d.tree, d.tree[n].kids[i], x) && x in d.tree
    requires BelowKid(d, n, i + 1, y)
    ensures Before(d.tree, x, y)
  {
    hide TreeOk;
    var k :| i + 1 <= k < |d.tree[n].kids| && Under(d.tree, d.tree[n].kids[k], y);
    assert Branches(d.tree, x, y);
    var a, b := d.tree[n].kids[i], d.tree[n].kids[k];
    DistinctKids(d, n, i, k);
    if Under(d.tree, y, x) {
      UnderTransitive(d.tree, b, y, x);
      SiblingsDisjoint(d, a, b, x);
    }
  }

  lemma DistinctKids(d: Document, n: NodeId, i: nat, k: nat)
    requires WellFormed(d) && n in d.tree && i < k < |d.tree[n].kids|
    ensures var kids := d.tree[n].kids;
            kids[i] != kids[k] && IsChild(d, n, kids[i]) && IsChild(d, n, kids[k])
  {
    assert LinksOk(d.tree, n);
  }

  // --- The snapshot of a pass ---

  function Matching(d: Document, ns: seq<NodeId>, name: string): (r: seq<NodeId>)
    ensures forall x :: x in r <==> x in ns && AttrOf(d, x, name).Some?
  {
    if ns == [] then []
    else (if AttrOf(d, ns[0], name).Some? then [ns[0]] else []) + Matching(d, ns[1..], name)
  }

  lemma {:induction false} MatchingInOrder(d: Document, ns: seq<NodeId>, name: string)
    requires InOrder(d.tree, ns)
    ensures InOrder(d.tree, Matching(d, ns, name))
  {
    hide AttrOf, Before;
    if ns != [] {
      assert forall i, j :: 0 <= i < j < |ns[1..]| ==> ns[1..][i] == ns[i + 1] && ns[1..][j] == ns[j + 1];
      MatchingInOrder(d, ns[1..], name);
      var rest := Matching(d, ns[1..], name);
      forall y | y in rest ensures Before(d.tree, ns[0], y) {
        var j :| 0 <= j < |ns[1..]| && ns[1..][j] == y;
        assert ns[j + 1] == y;
      }
      if AttrOf(d, ns[0], name).Some? {
        InOrderConcat(d.tree, [ns[0]], rest);
      } else {
        assert [] + rest == rest;
      }
    }
  }

  /** The elements below `root` that carry attribute `name`, in document order. */
  function QuerySelectorAll(d: Document, root: NodeId, name: string): seq<NodeId>
    requires WellFormed(d) && root in d.tree
  {
    Matching(d, PreorderKids(d, root, 0), name)
  }

  lemma QueryFacts(d: Document, root: NodeId, name: string)
    requires WellFormed(d) && root in d.tree
    ensures var r := QuerySelectorAll(d, root, name);
            && InOrder(d.tree, r)
            && forall x :: x in r <==> x in d.tree && x != root && Under(d.tree, root, x) && AttrOf(d, x, name).Some?
  {
    hide AttrOf, TreeOk;
    PreorderKidsInOrder(d, root, 0);
    MatchingInOrder(d, PreorderKids(d, root, 0), name);
    forall x ensures x in PreorderKids(d, root, 0) <==> x in d.tree && x != root && Under(d.tree, root, x) {
      PreorderKidsMember(d, root, 0, x);
      KidsBelow(d, root);
      if x in d.tree && x != root && Under(d.tree, root, x) {
        var k := UnderSomeKid(d, root, x);
        var i := IndexOf(d.tree[root].kids, k);
        assert Under(d.tree, d.tree[root].kids[i], x);
      }
      if x in d.tree && BelowKid(d, root, 0, x) {
        var k :| 0 <= k < |d.tree[root].kids| && Under(d.tree, d.tree[root].kids[k], x);
        UnderKid(d, root, d.tree[root].kids[k], x);
      }
    }
  }

  // --- Passes ---

  /** Hydrating the boundary `x` once: an island that no pass has claimed comes to its outcome. */
  ghost predicate Turn(a: Snapshot, b: Snapshot, x: NodeId, factories: map<string, Factory>, ordinal: nat) {
    if IsIsland(a.dom, x) && !IsHydrated(a.dom, x) then
      && Contained(a.dom, b.dom, x) && IsHydrated(b.dom, x) && Labelled(a.dom, b.dom, x, ordinal)
      && exists stats :: Outcome(a.dom, b, x, AttemptOf(a.dom, x, factories, ordinal), stats)
    else b == a
  }

  /** The boundary `x` was not claimed in `d`, and ended in `error`. */
  predicate Fails(d: Document, e: Document, x: NodeId) {
    !IsHydrated(d, x) && StateOf(e, x) == Some("error")
  }

  /** The pass turns to `x`: an element that is still `root` or below it. */
  predicate Reached(d: Document, root: NodeId, x: NodeId) {
    IsElement(d, x) && Under(d.tree, root, x)
  }

  /** `x` comes up in the pass: it is hydrated, or passed over. */
  ghost predicate Visited(a: Snapshot, b: Snapshot, root: NodeId, x: NodeId, factories: map<string, Factory>,
                          ordinal: nat) {
    if Reached(a.dom, root, x) then Turn(a, b, x, factories, ordinal) else b == a
  }

  /** How many of the first `k` targets the pass turned to. */
  ghost function Turns(states: seq<Snapshot>, root: NodeId, targets: seq<NodeId>, k: nat): nat
    requires k <= |targets| && k <= |states|
  {
    if k == 0 then 0
    else Turns(states, root, targets, k - 1) + if Reached(states[k - 1].dom, root, targets[k - 1]) then 1 else 0
  }

  /** A run of a pass over `targets`, numbering boundaries from `start`: the state before each, and the last one. */
  ghost predicate Trace(states: seq<Snapshot>, root: NodeId, targets: seq<NodeId>, factories: map<string, Factory>,
                        start: nat) {
    && |states| == |targets| + 1
    && forall i :: 0 <= i < |targets| ==>
         Visited(states[i], states[i + 1], root, targets[i], factories, start + Turns(states, root, targets, i))
  }

  /** The `i`-th target was not claimed when the pass turned to it and is in `error` in `e`. */
  ghost predicate FailedAt(states: seq<Snapshot>, root: NodeId, targets: seq<NodeId>, e: Document, i: nat)
    requires i < |targets| <= |states|
  {
    Reached(states[i].dom, root, targets[i]) && Fails(states[i].dom, e, targets[i])
  }

  /** The boundaries of which this holds. */
  ghost function NewlyFailed(states: seq<Snapshot>, root: NodeId, targets: seq<NodeId>, e: Document): set<NodeId>
    requires |targets| <= |states|
  {
    set i | 0 <= i < |targets| && FailedAt(states, root, targets, e, i) :: targets[i]
  }

  lemma {:induction false} TurnsPrefix(states: seq<Snapshot>, root: NodeId, targets: seq<NodeId>, b: Snapshot,
                                       x: NodeId,
                                       k: nat)
    requires k <= |targets| && k <= |states|
    ensures Turns(states + [b], root, targets + [x], k) == Turns(states, root, targets, k)
    decreases k
  {
    hide Reached;
    if k > 0 {
      TurnsPrefix(states, root, targets, b, x, k - 1);
    }
  }

  lemma TraceSnoc(states: seq<Snapshot>, root: NodeId, targets: seq<NodeId>, factories: map<string, Factory>,
                  start: nat,
                  b: Snapshot, x: NodeId)
    requires Trace(states, root, targets, factories, start)
    requires var k := |targets|; Visited(states[k], b, root, x, factories, start + Turns(states, root, targets, k))
    ensures Trace(states + [b], root, targets + [x], factories, start)
    ensures Turns(states + [b], root, targets + [x], |targets| + 1) ==
              Turns(states, root, targets, |targets|) + if Reached(states[|targets|].dom, root, x) then 1 else 0
  {
    hide Visited, Reached;
    var s, t := states + [b], targets + [x];
    TurnsPrefix(states, root, targets, b, x, |targets|);
    forall i | 0 <= i < |t| ensures Visited(s[i], s[i + 1], root, t[i], factories, start + Turns(s, root, t, i)) {
      TurnsPrefix(states, root, targets, b, x, i);
      if i < |targets| {
        assert targets[i] == t[i];
      }
    }
  }

  lemma FailedSnoc(states: seq<Snapshot>, root: NodeId, targets: seq<NodeId>, e: Document, b: Snapshot, x: NodeId)
    requires |states| == |targets| + 1 && x !in targets
    requires forall k :: 0 <= k < |targets| ==> StateOf(b.dom, targets[k]) == StateOf(e, targets[k])
    ensures |NewlyFailed(states + [b], root, targets + [x], b.dom)| ==
              |NewlyFailed(states, root, targets, e)| +
              if Reached(states[|targets|].dom, root, x) && Fails(states[|targets|].dom, b.dom, x) then 1 else 0
  {
    var s, t, n := states + [b], targets + [x], |targets|;
    forall i | 0 <= i < n ensures t[i] == targets[i]
      && FailedAt(s, root, t, b.dom, i) == FailedAt(states, root, targets, e, i) {
      FailedLater(states, root, targets, e, b, x, i);
    }
    assert FailedAt(s, root, t, b.dom, n) == (Reached(states[n].dom, root, x) && Fails(states[n].dom, b.dom, x));
    hide FailedAt, Reached, Fails;
    var before, after := NewlyFailed(states, root, targets, e), NewlyFailed(s, root, t, b.dom);
    forall y ensures y in after <==> y in before || (FailedAt(s, root, t, b.dom, n) && y == x) {
      if y in before {
        var i :| 0 <= i < n && FailedAt(states, root, targets, e, i) && targets[i] == y;
        assert FailedAt(s, root, t, b.dom, i) && t[i] == y;
      }
    }
    assert after == if FailedAt(s, root, t, b.dom, n) then before + {x} else before;
  }

  lemma FailedLater(states: seq<Snapshot>, root: NodeId, targets: seq<NodeId>, e: Document, b: Snapshot, x: NodeId,
                    i: nat)
    requires |states| == |targets| + 1 && i < |targets| && StateOf(b.dom, targets[i]) == StateOf(e, targets[i])
    ensures FailedAt(states + [b], root, targets + [x], b.dom, i) == FailedAt(states, root, targets, e, i)
  {
    hide Reached, StateOf;
  }

  class HydrationPass {
    const factories: map<string, Factory>
    var nextOrdinal: nat
    var failed: nat

    constructor (factories: map<string, Factory>)
      ensures this.factories == factories && nextOrdinal == 0 && failed == 0
    {
      this.factories := factories;
      nextOrdinal, failed := 0, 0;
    }
  }

  /** Hydrates one boundary, containing a failure to it. */
  method HydrateOne(pass: HydrationPass, rt: Runtime, el: NodeId)
    requires rt.Valid() && el in rt.dom.tree && IsElement(rt.dom, el) && FactoriesOk(pass.factories)
             && NamesOk(rt.dom.rules)
    modifies rt, pass
    ensures rt.Valid() && Contained(old(rt.dom), rt.dom, el)
    ensures Turn(old(Now(rt)), Now(rt), el, pass.factories, old(pass.nextOrdinal))
    ensures pass.nextOrdinal == old(pass.nextOrdinal) + 1
    ensures pass.failed == old(pass.failed) + if Fails(old(rt.dom), rt.dom, el) then 1 else 0
  {
    hide WellFormed, EventsAgree, EffectsAgree, RegionsAgree, Issued, CellsExist, Numbered, Contained, AttrOf,
         Outcome, FactoriesOk;
    var ordinal := pass.nextOrdinal;
    pass.nextOrdinal := ordinal + 1;
    var alreadyClaimed := IsHydrated(rt.dom, el);
    ghost var stats := HydrateBoundary(rt, el, ordinal, pass.factories);
    if !alreadyClaimed && StateOf(rt.dom, el) == Some("error") {
      pass.failed := pass.failed + 1;
    }
  }

  /** A boundary that is not inside the island just hydrated keeps its attributes. */
  lemma OutsideKeepsState(d: Document, e: Document, el: NodeId, x: NodeId)
    requires WellFormed(d) && Contained(d, e, el) && el in d.tree && x in d.tree && !Under(d.tree, el, x)
    ensures StateOf(e, x) == StateOf(d, x) && IsIsland(e, x) == IsIsland(d, x)
  {
    assert SameNode(d, e, x);
    assert x in d.data;
  }

  lemma ContainedKeeps(d: Document, e: Document, el: NodeId)
    requires Contained(d, e, el)
    ensures KeepsParents(d, e) && e.rules == d.rules && el in e.tree && IsElement(e, el)
  {
    hide Confined;
  }

  /** `x` is left in the state `s`, and claimed if it is still an island below the root. */
  ghost predicate Settled(e: Document, root: NodeId, x: NodeId, s: Option<string>) {
    && x in e.tree && StateOf(e, x) == s
    && (Under(e.tree, root, x) && IsIsland(e, x) ==> IsHydrated(e, x))
  }

  /** The pass has come to the `i`-th target; `d` is the document they were found in. */
  ghost predicate Progress(d: Document, root: NodeId, all: seq<NodeId>, i: nat, states: seq<Snapshot>,
                           factories: map<string, Factory>, start: nat)
  {
    && i <= |all| && |states| == i + 1 && Trace(states, root, all[..i], factories, start)
    && Contained(d, states[i].dom, root) && (IsIsland(states[i].dom, root) ==> IsIsland(d, root))
    && (forall k :: 0 <= k < i ==> Settled(states[i].dom, root, all[k], StateOf(states[k + 1].dom, all[k])))
  }

  /** The targets of a pass, in the document they were found in. */
  ghost predicate Snapshotted(d: Document, root: NodeId, all: seq<NodeId>) {
    && root in d.tree && IsElement(d, root) && InOrder(d.tree, all)
    && forall x :: x in all ==> x in d.tree && Under(d.tree, root, x)
  }

  /** What was not inside the later target before the pass is not inside it now. */
  lemma StillOutside(d: Document, e: Document, root: NodeId, all: seq<NodeId>, k: nat, i: nat)
    requires WellFormed(d) && Snapshotted(d, root, all) && k < i < |all| && KeepsParents(d, e)
    ensures !Under(e.tree, all[i], all[k])
  {
    assert all[k] in all;
    if Under(e.tree, all[i], all[k]) {
      KeptBelow(d, e, all[i], all[k]);
    }
  }

  lemma ContainedUp(e: Document, f: Document, root: NodeId, x: NodeId)
    requires WellFormed(e) && Contained(e, f, x) && root in e.tree && x in e.tree && IsElement(e, root)
    requires Under(e.tree, root, x) && x != root
    ensures Contained(e, f, root) && IsIsland(f, root) == IsIsland(e, root)
  {
    forall y | y in e.tree && !Under(e.tree, root, y) ensures SameNode(e, f, y) {
      if Under(e.tree, x, y) {
        UnderTransitive(e.tree, root, x, y);
      }
    }
    assert SameNode(e, f, root);
  }

  /** A target whose turn is over stays settled. */
  lemma StaysSettled(d: Document, e: Document, f: Document, root: NodeId, all: seq<NodeId>, k: nat, i: nat,
                     s: Option<string>)
    requires WellFormed(d) && WellFormed(e) && WellFormed(f) && Snapshotted(d, root, all) && k < i < |all|
    requires KeepsParents(d, e) && Contained(e, f, all[i]) && all[i] in e.tree && Settled(e, root, all[k], s)
    ensures Settled(f, root, all[k], s) && StateOf(f, all[k]) == StateOf(e, all[k])
  {
    hide Contained, WellFormed, StateOf, KeepsParents, AttrOf, Snapshotted;
    StillOutside(d, e, root, all, k, i);
    OutsideKeepsState(e, f, all[i], all[k]);
    ContainedKeeps(e, f, all[i]);
    KeptNode(e, f, all[k]);
    if Under(f.tree, root, all[k]) {
      KeptBelow(e, f, root, all[k]);
    }
  }

  /** A boundary that is passed over, not an island, or claimed: nothing happens. */
  lemma PassIdles(d: Document, root: NodeId, all: seq<NodeId>, i: nat, states: seq<Snapshot>,
                  factories: map<string, Factory>, start: nat)
    requires Progress(d, root, all, i, states, factories, start) && i < |all| && all[i] in states[i].dom.tree
    requires Visited(states[i], states[i], root, all[i], factories, start + Turns(states, root, all[..i], i))
    ensures Progress(d, root, all, i + 1, states + [states[i]], factories, start)
  {
    hide Contained, Outcome, StateOf, Trace, Under, AttrOf;
    var a, x := states[i], all[i];
    IdleSettled(a, root, x, factories, start + Turns(states, root, all[..i], i));
    PassTraced(d, root, all, i, states, a, factories, start);
    var s := states + [a];
    forall k | 0 <= k < i + 1 ensures Settled(s[i + 1].dom, root, all[k], StateOf(s[k + 1].dom, all[k])) {
      assert k < i ==> Settled(states[i].dom, root, all[k], StateOf(states[k + 1].dom, all[k]));
    }
  }

  lemma IdleSettled(a: Snapshot, root: NodeId, x: NodeId, factories: map<string, Factory>, ordinal: nat)
    requires Visited(a, a, root, x, factories, ordinal) && x in a.dom.tree
    ensures Settled(a.dom, root, x, StateOf(a.dom, x))
  {
    hide Outcome, Contained, StateOf;
  }

  lemma PassTraced(d: Document, root: NodeId, all: seq<NodeId>, i: nat, states: seq<Snapshot>, b: Snapshot,
                   factories: map<string, Factory>, start: nat)
    requires Progress(d, root, all, i, states, factories, start) && i < |all|
    requires Visited(states[i], b, root, all[i], factories, start + Turns(states, root, all[..i], i))
    ensures Trace(states + [b], root, all[..i + 1], factories, start)
    ensures Turns(states + [b], root, all[..i + 1], i + 1) ==
              Turns(states, root, all[..i], i) + if Reached(states[i].dom, root, all[i]) then 1 else 0
  {
    hide Visited, Contained, Settled, Reached;
    assert all[..i + 1] == all[..i] + [all[i]];
    TraceSnoc(states, root, all[..i], factories, start, b, all[i]);
  }

  /** Hydrating the next boundary keeps what the pass has done so far. */
  lemma PassVisits(d: Document, root: NodeId, all: seq<NodeId>, i: nat, states: seq<Snapshot>, b: Snapshot,
                   factories: map<string, Factory>, start: nat)
    requires Progress(d, root, all, i, states, factories, start) && i < |all|
    requires WellFormed(d) && WellFormed(states[i].dom) && WellFormed(b.dom) && Snapshotted(d, root, all)
             && all[i] != root
    requires Reached(states[i].dom, root, all[i])
    requires Turn(states[i], b, all[i], factories, start + Turns(states, root, all[..i], i)) && b != states[i]
    ensures Progress(d, root, all, i + 1, states + [b], factories, start)
  {
    hide Contained, Outcome, StateOf, Trace, Under, AttrOf, WellFormed, Settled, InOrder, KeepsParents;
    var e, f, x := states[i].dom, b.dom, all[i];
    PassTraced(d, root, all, i, states, b, factories, start);
    VisitContained(d, e, f, root, x);
    var s := states + [b];
    forall k | 0 <= k < i ensures Settled(f, root, all[k], StateOf(states[k + 1].dom, all[k])) {
      StaysSettled(d, e, f, root, all, k, i, StateOf(states[k + 1].dom, all[k]));
    }
    forall k | 0 <= k < i + 1 ensures Settled(s[i + 1].dom, root, all[k], StateOf(s[k + 1].dom, all[k])) {
      if k == i {
        ClaimedSettled(f, root, x);
      }
    }
  }

  lemma ClaimedSettled(f: Document, root: NodeId, x: NodeId)
    requires x in f.tree && IsHydrated(f, x)
    ensures Settled(f, root, x, StateOf(f, x))
  {
    hide StateOf, AttrOf;
  }

  lemma VisitContained(d: Document, e: Document, f: Document, root: NodeId, x: NodeId)
    requires WellFormed(d) && WellFormed(e) && root in d.tree && Contained(d, e, root) && Contained(e, f, x)
    requires Reached(e, root, x) && x != root
    ensures Contained(d, f, root) && KeepsParents(d, e) && x in f.tree && x in e.tree
    ensures IsIsland(f, root) == IsIsland(e, root)
  {
    hide Contained, Under, KeepsParents, AttrOf;
    ContainedKeeps(d, e, root);
    ContainedKeeps(e, f, x);
    KeysAgree(e);
    ContainedUp(e, f, root, x);
    ContainedTrans(d, e, f, root);
  }

  /** The counters agree with the run so far. */
  ghost predicate Tallied(root: NodeId, targets: seq<NodeId>, states: seq<Snapshot>, e: Document, start: nat,
                          turns: nat,
                          failed: nat)
    requires |states| == |targets| + 1
  {
    turns == start + Turns(states, root, targets, |targets|) && failed == |NewlyFailed(states, root, targets, e)|
  }

  /** One more target, and the counters. */
  lemma PassSteps(d: Document, root: NodeId, all: seq<NodeId>, i: nat, states: seq<Snapshot>, b: Snapshot,
                  factories: map<string, Factory>, start: nat, turns: nat, failed: nat)
    requires Progress(d, root, all, i, states, factories, start) && i < |all|
    requires Tallied(root, all[..i], states, states[i].dom, start, turns, failed)
    requires WellFormed(d) && WellFormed(states[i].dom) && WellFormed(b.dom) && Snapshotted(d, root, all)
             && all[i] != root
    requires Visited(states[i], b, root, all[i], factories, turns)
    ensures Progress(d, root, all, i + 1, states + [b], factories, start)
    ensures var reached := Reached(states[i].dom, root, all[i]);
            Tallied(root, all[..i + 1], states + [b], b.dom, start, turns + if reached then 1 else 0,
                    failed + if reached && Fails(states[i].dom, b.dom, all[i]) then 1 else 0)
  {
    hide Contained, StateOf, Trace, Under, AttrOf, WellFormed, Settled, InOrder, Progress, Turn, NewlyFailed, Fails,
         Reached, Turns;
    ProgressParts(d, root, all, i, states, factories, start);
    var a, x := states[i], all[i];
    assert x in all;
    KeptNode(d, a.dom, x);
    if b == a {
      PassIdles(d, root, all, i, states, factories, start);
    } else {
      PassVisits(d, root, all, i, states, b, factories, start);
    }
    PassTraced(d, root, all, i, states, b, factories, start);
    assert all[..i + 1] == all[..i] + [x];
    EarlierStates(d, root, all, i, states, b, factories, start);
    NotBefore(d, all, i);
    FailedSnoc(states, root, all[..i], a.dom, b, x);
  }

  lemma ProgressParts(d: Document, root: NodeId, all: seq<NodeId>, i: nat, states: seq<Snapshot>,
                      factories: map<string, Factory>, start: nat)
    requires Progress(d, root, all, i, states, factories, start)
    ensures i <= |all| && |states| == i + 1 && Contained(d, states[i].dom, root) && KeepsParents(d, states[i].dom)
    ensures states[i].dom.rules == d.rules && root in states[i].dom.tree && IsElement(states[i].dom, root)
    ensures IsIsland(states[i].dom, root) ==> IsIsland(d, root)
    ensures Trace(states, root, all[..i], factories, start)
  {
    hide Contained, Settled, Trace, KeepsParents;
    ContainedKeeps(d, states[i].dom, root);
  }

  lemma EarlierStates(d: Document, root: NodeId, all: seq<NodeId>, i: nat, states: seq<Snapshot>, b: Snapshot,
                      factories: map<string, Factory>, start: nat)
    requires Progress(d, root, all, i, states, factories, start)
    requires Progress(d, root, all, i + 1, states + [b], factories, start)
    ensures forall k :: 0 <= k < i ==> StateOf(b.dom, all[..i][k]) == StateOf(states[i].dom, all[..i][k])
  {
    hide Contained, Trace, StateOf;
    var s := states + [b];
    forall k | 0 <= k < i ensures StateOf(b.dom, all[..i][k]) == StateOf(states[i].dom, all[..i][k]) {
      assert Settled(s[i + 1].dom, root, all[k], StateOf(s[k + 1].dom, all[k]));
      assert Settled(states[i].dom, root, all[k], StateOf(states[k + 1].dom, all[k]));
      assert s[k + 1] == states[k + 1];
    }
  }

  lemma NotBefore(d: Document, all: seq<NodeId>, i: nat)
    requires InOrder(d.tree, all) && i < |all|
    ensures all[i] !in all[..i]
  {
    forall k | 0 <= k < i ensures all[k] != all[i] {
      assert Before(d.tree, all[k], all[i]);
    }
  }

  /** Hydrates `x` if it is still below `root`, and passes over it otherwise. */
  method Visit(pass: HydrationPass, rt: Runtime, root: NodeId, x: NodeId)
    requires rt.Valid() && root in rt.dom.tree && x in rt.dom.tree && FactoriesOk(pass.factories)
             && NamesOk(rt.dom.rules)
    modifies rt, pass
    ensures rt.Valid() && Visited(old(Now(rt)), Now(rt), root, x, pass.factories, old(pass.nextOrdinal))
    ensures var reached := Reached(old(rt.dom), root, x);
            && pass.nextOrdinal == old(pass.nextOrdinal) + (if reached then 1 else 0)
            && pass.failed == old(pass.failed) + if reached && Fails(old(rt.dom), rt.dom, x) then 1 else 0
  {
    hide WellFormed, EventsAgree, EffectsAgree, RegionsAgree, Issued, CellsExist, Numbered, Contained, AttrOf, Under,
         FactoriesOk, StateOf, IsHydrated, NamesOk, Turn, Fails;
    if IsElement(rt.dom, x) && Under(rt.dom.tree, root, x) {
      HydrateOne(pass, rt, x);
    }
  }

  /**
   * Hydrates every island of the snapshot that is still below `root` when its turn comes, after the
   * `first` targets with their run `past`.
   */
  method HydrateBelow(pass: HydrationPass, rt: Runtime, root: NodeId, ghost first: seq<NodeId>,
                      ghost past: seq<Snapshot>, ghost start: nat, ghost failures: nat)
    returns (ghost targets: seq<NodeId>, ghost states: seq<Snapshot>)
    requires rt.Valid() && root in rt.dom.tree && IsElement(rt.dom, root) && FactoriesOk(pass.factories)
             && NamesOk(rt.dom.rules) && first in [[], [root]]
    requires Progress(rt.dom, root, first, |first|, past, pass.factories, start) && past[|first|] == Now(rt)
    requires failures <= pass.failed
             && Tallied(root, first, past, rt.dom, start, pass.nextOrdinal, pass.failed - failures)
    modifies rt, pass
    ensures rt.Valid() && targets == first + QuerySelectorAll(old(rt.dom), root, ISLAND_ATTR)
    ensures past <= states && Progress(old(rt.dom), root, targets, |targets|, states, pass.factories, start)
    ensures states[|targets|] == Now(rt) && failures <= pass.failed
            && Tallied(root, targets, states, rt.dom, start, pass.nextOrdinal, pass.failed - failures)
  {
    hide WellFormed, EventsAgree, EffectsAgree, RegionsAgree, Issued, CellsExist, Numbered, Contained, AttrOf, Under,
         FactoriesOk, Progress, Snapshotted, QuerySelectorAll, StateOf, IsHydrated, NamesOk, Tallied, Turn, Fails,
         KeepsParents, TreeOk, InOrder, Trace, IsIsland, Visited, Reached;
    ghost var d := rt.dom;
    var islands := QuerySelectorAll(rt.dom, root, ISLAND_ATTR);
    targets, states := first + islands, past;
    TargetsHold(d, root, first);
    ProgressExtends(d, root, first, targets, past, pass.factories, start);
    ghost var n := |first|;
    ProgressParts(d, root, first, n, past, pass.factories, start);
    for i := 0 to |islands|
      invariant rt.Valid() && past <= states && |states| == n + i + 1
      invariant Progress(d, root, targets, n + i, states, pass.factories, start)
      invariant states[n + i] == Now(rt) && failures <= pass.failed
      invariant Tallied(root, targets[..n + i], states, rt.dom, start, pass.nextOrdinal, pass.failed - failures)
    {
      ghost var a, turns, failed := Now(rt), pass.nextOrdinal, pass.failed - failures;
      NextTarget(d, root, first, islands, i, states, pass.factories, start);
      Visit(pass, rt, root, islands[i]);
      PassSteps(d, root, targets, n + i, states, Now(rt), pass.factories, start, turns, failed);
      Grown(past, states, Now(rt));
      states := states + [Now(rt)];
    }
    assert targets[..|targets|] == targets;
  }

  lemma NextTarget(d: Document, root: NodeId, first: seq<NodeId>, islands: seq<NodeId>, i: nat, states: seq<Snapshot>,
                   factories: map<string, Factory>, start: nat)
    requires i < |islands| && Snapshotted(d, root, first + islands) && root !in islands
    requires Progress(d, root, first + islands, |first| + i, states, factories, start)
    ensures |states| == |first| + i + 1 && (first + islands)[|first| + i] == islands[i] && islands[i] != root
    ensures var e := states[|first| + i].dom; root in e.tree && islands[i] in e.tree && e.rules == d.rules
  {
    hide Snapshotted, Progress, KeepsParents, Contained, Trace;
    ProgressParts(d, root, first + islands, |first| + i, states, factories, start);
    TargetThere(d, states[|first| + i].dom, root, first + islands, |first| + i);
  }

  lemma Grown(past: seq<Snapshot>, states: seq<Snapshot>, b: Snapshot)
    requires past <= states
    ensures past <= states + [b] && |states + [b]| == |states| + 1 && (states + [b])[|states|] == b
  {
  }

  lemma TargetThere(d: Document, e: Document, root: NodeId, all: seq<NodeId>, i: nat)
    requires Snapshotted(d, root, all) && i < |all| && KeepsParents(d, e)
    ensures all[i] in e.tree
  {
    assert all[i] in all;
    KeptNode(d, e, all[i]);
  }

  lemma ProgressExtends(d: Document, root: NodeId, first: seq<NodeId>, all: seq<NodeId>, states: seq<Snapshot>,
                        factories: map<string, Factory>, start: nat)
    requires Progress(d, root, first, |first|, states, factories, start) && first <= all
    ensures Progress(d, root, all, |first|, states, factories, start)
  {
    hide Contained, Trace, Settled;
    assert all[..|first|] == first[..|first|];
  }

  /** The root, and the islands found below it, in document order. */
  lemma TargetsHold(d: Document, root: NodeId, first: seq<NodeId>)
    requires WellFormed(d) && root in d.tree && IsElement(d, root) && first in [[], [root]]
    ensures var islands := QuerySelectorAll(d, root, ISLAND_ATTR);
            Snapshotted(d, root, first + islands) && root !in islands
  {
    hide QuerySelectorAll, AttrOf;
    QueryFacts(d, root, ISLAND_ATTR);
    var islands := QuerySelectorAll(d, root, ISLAND_ATTR);
    InOrderConcat(d.tree, first, islands);
  }

  /** Every island of the pass is claimed already: the root, if it is one, and those below it. */
  ghost predicate AllClaimed(d: Document, root: NodeId)
    requires WellFormed(d) && root in d.tree
  {
    && (IsIsland(d, root) ==> IsHydrated(d, root))
    && forall x :: x in QuerySelectorAll(d, root, ISLAND_ATTR) ==> IsHydrated(d, x)
  }

  /** The document a pass takes its snapshot in: after the turn of the root, if that is an island. */
  ghost function FoundIn(states: seq<Snapshot>, root: NodeId): Document
    requires |states| > 0 && (IsIsland(states[0].dom, root) ==> |states| > 1)
  {
    if IsIsland(states[0].dom, root) then states[1].dom else states[0].dom
  }

  /** The targets are the root, if it is an island, and then the islands below it. */
  ghost predicate Targeted(states: seq<Snapshot>, root: NodeId, targets: seq<NodeId>)
    requires |states| == |targets| + 1
  {
    var first := if IsIsland(states[0].dom, root) then [root] else [];
    && |first| <= |targets| && WellFormed(FoundIn(states, root)) && root in FoundIn(states, root).tree
    && targets == first + QuerySelectorAll(FoundIn(states, root), root, ISLAND_ATTR)
  }

  /**
   * One pass over `root` and everything below it: a run over exactly the root and the islands found
   * below it, each turned to once if it is still there. Each that is still an island below the root
   * has been claimed, all are left in the state their turn gave them, and `failed` grows by the
   * number of boundaries that were unclaimed when their turn came and ended in `error`. The pass
   * changes nothing if and only if everything was claimed before.
   */
  method HydrateSubtree(pass: HydrationPass, rt: Runtime, root: NodeId)
    returns (ghost targets: seq<NodeId>, ghost states: seq<Snapshot>)
    requires rt.Valid() && root in rt.dom.tree && IsElement(rt.dom, root) && FactoriesOk(pass.factories)
             && NamesOk(rt.dom.rules)
    modifies rt, pass
    ensures rt.Valid() && Contained(old(rt.dom), rt.dom, root)
    ensures Trace(states, root, targets, pass.factories, old(pass.nextOrdinal)) && Targeted(states, root, targets)
    ensures states[0] == old(Now(rt)) && states[|targets|] == Now(rt)
    ensures forall k :: 0 <= k < |targets| ==>
              Settled(rt.dom, root, targets[k], StateOf(states[k + 1].dom, targets[k]))
    ensures IsIsland(rt.dom, root) ==> old(IsIsland(rt.dom, root))
    ensures KeepsParents(FoundIn(states, root), rt.dom)
    ensures pass.nextOrdinal == old(pass.nextOrdinal) + Turns(states, root, targets, |targets|)
    ensures pass.failed == old(pass.failed) + |NewlyFailed(states, root, targets, rt.dom)|
    ensures old(AllClaimed(rt.dom, root)) ==> Now(rt) == old(Now(rt))
    ensures rt.dom == old(rt.dom) ==> old(AllClaimed(rt.dom, root))
  {
    hide WellFormed, EventsAgree, EffectsAgree, RegionsAgree, Issued, CellsExist, Numbered, Contained, AttrOf, Under,
         FactoriesOk, Progress, QuerySelectorAll, StateOf, IsHydrated, NamesOk, Fails, Trace, Turn, Turns, NewlyFailed,
         AllClaimed, Settled, KeepsParents;
    ghost var a, start, failures := Now(rt), pass.nextOrdinal, pass.failed;
    ghost var first, past := [], [a];
    NothingRun(a, root, pass.factories, start);
    if IsIsland(rt.dom, root) {
      HydrateOne(pass, rt, root);
      ContainedKeeps(a.dom, rt.dom, root);
      first, past := [root], [a, Now(rt)];
      RootRun(a, Now(rt), root, pass.factories, start);
    }
    ContainedSelf(a.dom, root);
    ghost var m := rt.dom;
    assert first == [] || first == [root];
    targets, states := HydrateBelow(pass, rt, root, first, past, start, failures);
    assert states[0] == past[0] && states[|first|] == past[|first|];
    PassEnds(a, m, root, first, targets, states, pass.factories, start);
  }

  lemma NothingRun(a: Snapshot, root: NodeId, factories: map<string, Factory>, start: nat)
    requires root in a.dom.tree && IsElement(a.dom, root)
    ensures Progress(a.dom, root, [], 0, [a], factories, start) && Tallied(root, [], [a], a.dom, start, start, 0)
  {
    hide Contained;
    ContainedSelf(a.dom, root);
    assert NewlyFailed([a], root, [], a.dom) == {};
  }

  lemma RootRun(a: Snapshot, b: Snapshot, root: NodeId, factories: map<string, Factory>, start: nat)
    requires WellFormed(a.dom) && WellFormed(b.dom) && Turn(a, b, root, factories, start) && IsIsland(a.dom, root)
    requires root in a.dom.tree && IsElement(a.dom, root) && root in b.dom.tree && IsElement(b.dom, root)
    ensures Progress(b.dom, root, [root], 1, [a, b], factories, start)
    ensures Tallied(root, [root], [a, b], b.dom, start, start + 1, if Fails(a.dom, b.dom, root) then 1 else 0)
  {
    hide Contained, WellFormed, StateOf, Turn, Progress, Fails, FailedAt;
    NothingRun(a, root, factories, start);
    RootTraced(a, b, root, factories, start);
    assert [] + [root] == [root] && [a] + [b] == [a, b];
    FailedSnoc([a], root, [], a.dom, b, root);
    assert Reached(a.dom, root, root);
  }

  lemma RootTraced(a: Snapshot, b: Snapshot, root: NodeId, factories: map<string, Factory>, start: nat)
    requires Turn(a, b, root, factories, start) && IsIsland(a.dom, root) && IsElement(a.dom, root)
    requires root in b.dom.tree && IsElement(b.dom, root)
    ensures Progress(b.dom, root, [root], 1, [a, b], factories, start)
    ensures Turns([a, b], root, [root], 1) == 1
  {
    hide Contained, StateOf, Outcome;
    ContainedSelf(b.dom, root);
    assert Turns([a, b], root, [root], 0) == 0;
    assert Reached(a.dom, root, root);
    assert [root][..1] == [root];
    assert IsHydrated(b.dom, root);
  }

  /** If everything is claimed, a run changes nothing. */
  lemma {:induction false} IdleRun(states: seq<Snapshot>, root: NodeId, targets: seq<NodeId>,
                                   factories: map<string, Factory>, start: nat, k: nat)
    requires Trace(states, root, targets, factories, start) && k <= |targets|
    requires forall i :: 0 <= i < k ==> IsHydrated(states[0].dom, targets[i])
    ensures states[k] == states[0]
    decreases k
  {
    hide Contained, Outcome, IsHydrated, Reached;
    if k > 0 {
      IdleRun(states, root, targets, factories, start, k - 1);
      assert Visited(states[k - 1], states[k - 1 + 1], root, targets[k - 1], factories,
                     start + Turns(states, root, targets, k - 1));
    }
  }

  lemma PassEnds(a: Snapshot, m: Document, root: NodeId, first: seq<NodeId>, targets: seq<NodeId>,
                 states: seq<Snapshot>,
                 factories: map<string, Factory>, start: nat)
    requires WellFormed(a.dom) && WellFormed(m) && root in a.dom.tree && root in m.tree && Contained(a.dom, m, root)
    requires first == if IsIsland(a.dom, root) then [root] else []
    requires targets == first + QuerySelectorAll(m, root, ISLAND_ATTR)
    requires Progress(m, root, targets, |targets|, states, factories, start)
    requires states[0] == a && states[|first|].dom == m && WellFormed(states[|targets|].dom)
    ensures Contained(a.dom, states[|targets|].dom, root) && Targeted(states, root, targets)
    ensures Trace(states, root, targets, factories, start)
    ensures forall k :: 0 <= k < |targets| ==>
              Settled(states[|targets|].dom, root, targets[k], StateOf(states[k + 1].dom, targets[k]))
    ensures IsIsland(states[|targets|].dom, root) ==> IsIsland(a.dom, root)
    ensures KeepsParents(FoundIn(states, root), states[|targets|].dom)
    ensures AllClaimed(a.dom, root) ==> states[|targets|] == a
    ensures states[|targets|].dom == a.dom ==> AllClaimed(a.dom, root)
  {
    hide Contained, WellFormed, QuerySelectorAll, StateOf, AttrOf, Trace, Settled, AllClaimed, Progress, KeepsParents;
    ProgressParts(m, root, targets, |targets|, states, factories, start);
    assert targets[..|targets|] == targets;
    ContainedTrans(a.dom, m, states[|targets|].dom, root);
    AllSettled(m, root, targets, states, factories, start);
    ClaimedIdle(a, m, root, first, targets, states, factories, start);
    UnchangedClaimed(a, m, root, first, targets, states, factories, start);
  }

  lemma AllSettled(d: Document, root: NodeId, all: seq<NodeId>, states: seq<Snapshot>, factories: map<string, Factory>,
                   start: nat)
    requires Progress(d, root, all, |all|, states, factories, start)
    ensures forall k :: 0 <= k < |all| ==> Settled(states[|all|].dom, root, all[k], StateOf(states[k + 1].dom, all[k]))
  {
    hide Contained, Settled, Trace, StateOf;
  }

  lemma ClaimedIdle(a: Snapshot, m: Document, root: NodeId, first: seq<NodeId>, targets: seq<NodeId>,
                    states: seq<Snapshot>, factories: map<string, Factory>, start: nat)
    requires WellFormed(a.dom) && WellFormed(m) && root in a.dom.tree && root in m.tree
    requires first == if IsIsland(a.dom, root) then [root] else []
    requires targets == first + QuerySelectorAll(m, root, ISLAND_ATTR) && Trace(states, root, targets, factories, start)
    requires states[0] == a && states[|first|].dom == m
    ensures AllClaimed(a.dom, root) ==> states[|targets|] == a
  {
    hide WellFormed, QuerySelectorAll, IsHydrated, IsIsland, Visited, Trace, Turns;
    if AllClaimed(a.dom, root) {
      IdleRun(states, root, targets, factories, start, |first|);
      forall i | 0 <= i < |targets| ensures IsHydrated(a.dom, targets[i]) {
        if i >= |first| {
          assert targets[i] in QuerySelectorAll(m, root, ISLAND_ATTR);
        }
      }
      IdleRun(states, root, targets, factories, start, |targets|);
    }
  }

  lemma UnchangedClaimed(a: Snapshot, m: Document, root: NodeId, first: seq<NodeId>, targets: seq<NodeId>,
                         states: seq<Snapshot>, factories: map<string, Factory>, start: nat)
    requires WellFormed(a.dom) && WellFormed(m) && root in a.dom.tree && root in m.tree
    requires first == if IsIsland(a.dom, root) then [root] else []
    requires targets == first + QuerySelectorAll(m, root, ISLAND_ATTR) && Trace(states, root, targets, factories, start)
    requires |states| == |targets| + 1 && states[0] == a && states[|first|].dom == m
    requires forall k :: 0 <= k < |targets| ==>
               Settled(states[|targets|].dom, root, targets[k], StateOf(states[k + 1].dom, targets[k]))
    ensures states[|targets|].dom == a.dom ==> AllClaimed(a.dom, root)
  {
    hide WellFormed, QuerySelectorAll, AttrOf, StateOf, IsHydrated, Visited, Turns;
    if states[|targets|].dom == a.dom {
      if IsIsland(a.dom, root) {
        assert targets[0] == root;
        assert IsHydrated(a.dom, root);
        IdleRun(states, root, targets, factories, start, 1);
      }
      QueryFacts(a.dom, root, ISLAND_ATTR);
      var islands := QuerySelectorAll(a.dom, root, ISLAND_ATTR);
      forall x | x in islands ensures IsHydrated(a.dom, x) {
        var k := IndexOf(islands, x);
        assert targets[|first| + k] == x;
      }
    }
  }

  // --- A second pass ---

  /**
   * After a pass everything is claimed if and only if every island that was not one when the pass
   * took its snapshot is: those it built, and those an adopted element became. All others it found.
   */
  lemma SecondPassIdle(states: seq<Snapshot>, root: NodeId, targets: seq<NodeId>)
    requires |states| == |targets| + 1 && Targeted(states, root, targets)
    requires var e := states[|targets|].dom;
             && WellFormed(e) && root in e.tree && (IsIsland(e, root) ==> IsIsland(states[0].dom, root))
             && KeepsParents(FoundIn(states, root), e)
             && forall k :: 0 <= k < |targets| ==> Settled(e, root, targets[k], StateOf(states[k + 1].dom, targets[k]))
    ensures var e, m := states[|targets|].dom, FoundIn(states, root);
            var islands := QuerySelectorAll(e, root, ISLAND_ATTR);
            && (AllClaimed(e, root) <==> forall x :: x in islands && !IsIsland(m, x) ==> IsHydrated(e, x))
            && forall x :: x in islands ==> (x in targets <==> IsIsland(m, x))
  {
    hide QuerySelectorAll, StateOf, AttrOf, WellFormed, KeepsParents;
    var e, m := states[|targets|].dom, FoundIn(states, root);
    var islands := QuerySelectorAll(e, root, ISLAND_ATTR);
    QueryFacts(e, root, ISLAND_ATTR);
    QueryFacts(m, root, ISLAND_ATTR);
    if IsIsland(e, root) {
      assert targets[0] == root;
      assert Under(e.tree, root, root);
    }
    forall x | x in islands
      ensures (x in targets <==> IsIsland(m, x)) && (x in targets ==> IsHydrated(e, x))
    {
      FoundIfThere(m, e, root, x);
      if x in targets {
        var k := IndexOf(targets, x);
        assert Settled(e, root, targets[k], StateOf(states[k + 1].dom, targets[k]));
      }
    }
  }

  /** An island below the root now, and an island at the snapshot, was below the root at the snapshot. */
  lemma FoundIfThere(m: Document, e: Document, root: NodeId, x: NodeId)
    requires WellFormed(m) && root in m.tree && KeepsParents(m, e) && Under(e.tree, root, x)
    ensures IsIsland(m, x) ==> x in m.tree && Under(m.tree, root, x)
  {
    if IsIsland(m, x) {
      KeptBelow(m, e, root, x);
    }
  }

  /** Two passes, one after the other: when the second one finds nothing to do. */
  method HydrateTwice(rt: Runtime, root: NodeId, factories: map<string, Factory>)
    returns (ghost targets: seq<NodeId>, ghost states: seq<Snapshot>)
    requires rt.Valid() && root in rt.dom.tree && IsElement(rt.dom, root) && FactoriesOk(factories)
             && NamesOk(rt.dom.rules)
    modifies rt
    ensures rt.Valid() && |states| == |targets| + 1
    ensures Trace(states, root, targets, factories, 0) && Targeted(states, root, targets)
    ensures states[0] == old(Now(rt)) && WellFormed(states[|targets|].dom) && root in states[|targets|].dom.tree
    ensures var e, m := states[|targets|], FoundIn(states, root);
            Now(rt) == e <==>
              forall x :: x in QuerySelectorAll(e.dom, root, ISLAND_ATTR) && !IsIsland(m, x) ==> IsHydrated(e.dom, x)
  {
    hide WellFormed, EventsAgree, EffectsAgree, RegionsAgree, Issued, CellsExist, Numbered, Contained, AttrOf, Under,
         FactoriesOk, QuerySelectorAll, StateOf, IsHydrated, NamesOk, Visited, Turns, NewlyFailed, AllClaimed, Settled,
         KeepsParents, Targeted;
    var pass := new HydrationPass(factories);
    ghost var d := rt.dom;
    targets, states := HydrateSubtree(pass, rt, root);
    ghost var e := rt.dom;
    ContainedKeeps(d, e, root);
    SecondPassIdle(states, root, targets);
    pass := new HydrationPass(factories);
    ghost var _, _ := HydrateSubtree(pass, rt, root);
  }

  // --- Both ways for a second pass to find work ---

  function Record(kind: Kind, attrs: map<string, string>): NodeData {
    NodeData(kind, "", attrs, [], None, None, None)
  }

  /** `<div><span data-island="a"></span></div>`, with a `<p>` in the `<span>` if `filled`. */
  function IslandPage(filled: bool): Document {
    var tree := map[0 := Link(None, [1]), 1 := Link(Some(0), if filled then [2] else [])];
    var data := map[0 := Record(ElementNode("div"), map[]), 1 := Record(ElementNode("span"), map[ISLAND_ATTR := "a"])];
    Document(
      Rules(_ => true, _ => true),
      if filled then tree[2 := Link(Some(1), [])] else tree,
      if filled then data[2 := Record(ElementNode("p"), map[])] else data,
      if filled then 3 else 2,
      [])
  }

  lemma PageWellFormed(filled: bool)
    ensures WellFormed(IslandPage(filled))
  {
    var d := IslandPage(filled);
    assert LinksOk(d.tree, 0) && LinksOk(d.tree, 1);
    assert filled ==> LinksOk(d.tree, 2);
  }

  /** The one target is the `<span>`. */
  lemma PageTargets(filled: bool)
    ensures WellFormed(IslandPage(filled)) && !IsIsland(IslandPage(filled), 0)
    ensures QuerySelectorAll(IslandPage(filled), 0, ISLAND_ATTR) == [1]
  {
    PageWellFormed(filled);
    hide WellFormed, QuerySelectorAll;
    var d := IslandPage(filled);
    var r := QuerySelectorAll(d, 0, ISLAND_ATTR);
    QueryFacts(d, 0, ISLAND_ATTR);
    assert Under(d.tree, 0, 1) && IsIsland(d, 1);
    assert forall i :: 0 <= i < |r| ==> r[i] in r;
    assert forall x :: x in r ==> x == 1;
    assert |r| > 1 ==> !Under(d.tree, r[1], r[0]);
  }

  /** The `<p>` is an island, server-rendered: by plain attributes, or by reactive ones. */
  function NestedView(reactive: bool): VNode {
    var island := Attribute(ISLAND_ATTR, "b", if reactive then Some(Source(Some("b"))) else None);
    var state := Attribute(BOUNDARY_STATE_ATTR, "ssr", if reactive then Some(Source(Some("ssr"))) else None);
    Element("p", [island, state], [], [])
  }

  function NestedFactories(reactive: bool): map<string, Factory> {
    map["a" := (props, id) => Renders(NestedView(reactive))]
  }

  lemma NestedAttributes(reactive: bool)
    ensures var list := NestedView(reactive).attributes;
            && Find(list, ISLAND_ATTR) == Some(list[0]) && Find(list, BOUNDARY_STATE_ATTR) == Some(list[1])
            && list[0].CurrentValue() == Some("b") && list[1].CurrentValue() == Some("ssr")
  {
    var list := NestedView(reactive).attributes;
    assert list[1..][0] == list[1];
  }

  /** A node that has the attributes of the view is an island that no pass has claimed. */
  lemma NestedUnclaimed(d: Document, n: NodeId, filled: bool)
    requires n in d.data && d.data[n].kind.ElementNode? && d.rules == IslandPage(filled).rules
    requires
      || AttrsShown(d.data[n].attrs, NestedView(filled).attributes, d.rules.attrOk)
      || (filled && DynamicsShown(d.data[n].attrs, NestedView(filled).attributes, d.rules.attrOk))
    ensures IsIsland(d, n) && !IsHydrated(d, n)
  {
    var list := NestedView(filled).attributes;
    NestedAttributes(filled);
    var attrs := d.data[n].attrs;
    if AttrsShown(attrs, list, d.rules.attrOk) {
      assert Lookup(attrs, ISLAND_ATTR) == Wanted(list, ISLAND_ATTR, d.rules.attrOk);
      assert Lookup(attrs, BOUNDARY_STATE_ATTR) == Wanted(list, BOUNDARY_STATE_ATTR, d.rules.attrOk);
    }
  }

  /** The turn of the `<span>` ends as a rendered one. */
  lemma SpanRendered(a: Snapshot, b: Snapshot, filled: bool) returns (stats: Stats)
    requires a.dom == IslandPage(filled) && Visited(a, b, 0, 1, NestedFactories(filled), 0)
    ensures Contained(a.dom, b.dom, 1) && Rehydrated(a.dom, b.dom, 1, NestedView(filled), stats)
    ensures AttrOf(b.dom, 1, MISMATCHES_ATTR) == Some(Decimal(stats.MismatchCount()))
  {
    hide Contained, Rehydrated, Decimal;
    assert Under(a.dom.tree, 0, 1);
    assert AttrOf(a.dom, 1, ISLAND_ATTR) == Some("a") && StateOf(a.dom, 1) == None;
    var factories := NestedFactories(filled);
    assert "a" in factories;
    assert AttemptOf(a.dom, 1, factories, 0) == Some(Renders(NestedView(filled)));
    stats :| Outcome(a.dom, b, 1, AttemptOf(a.dom, 1, factories, 0), stats);
  }

  lemma NestedReady(a: Document)
    requires a == IslandPage(true)
    ensures AllReady(a, a.tree[1].kids, [NestedView(true)])
  {
    var v := NestedView(true);
    assert KeyOf(v) == None by {
      assert v.attributes[1..][1..] == [];
    }
    assert Ready(a, 2, v);
  }

  /** A child of the `<span>` is below the root. */
  lemma NestedBelow(a: Document, b: Document, filled: bool, k: NodeId)
    requires a == IslandPage(filled) && WellFormed(b) && Contained(a, b, 1) && k in b.tree[1].kids
    ensures 0 in b.tree && k in b.tree && k > 1 && Under(b.tree, 0, k)
  {
    assert LinksOk(b.tree, 1) && b.tree[1].parent == Some(0);
    assert Under(b.tree, 0, 1);
    UnderTransitive(b.tree, 0, 1, k);
  }

  /**
   * On the page above, with the view of the `<span>` a single `<p>`, the turn of the `<span>` leaves
   * one node in it, below the root: an island that is not claimed. If the `<span>` was empty the
   * `<p>` was built; if it held a `<p>` that was adopted in place, with no mismatch.
   */
  lemma NestedLeft(a: Snapshot, b: Snapshot, filled: bool)
    requires a.dom == IslandPage(filled) && WellFormed(b.dom)
    requires Visited(a, b, 0, 1, NestedFactories(filled), 0)
    ensures 0 in b.dom.tree && 1 in b.dom.tree && |b.dom.tree[1].kids| == 1
    ensures var k := b.dom.tree[1].kids[0];
            && k in QuerySelectorAll(b.dom, 0, ISLAND_ATTR) && !IsHydrated(b.dom, k) && !IsIsland(a.dom, k)
            && if filled then k == 2 && AttrOf(b.dom, 1, MISMATCHES_ATTR) == Some(Decimal(0)) else k >= 2
  {
    hide Contained, WellFormed, PlanList, Shuffled, OnAdopted, Decimal, QuerySelectorAll, Visited, AllReady;
    var view := NestedView(filled);
    var stats := SpanRendered(a, b, filled);
    assert Flatten([view]) == [view] by {
      assert [view][1..] == [];
    }
    ContainedParts(a.dom, b.dom, 1);
    var k := b.dom.tree[1].kids[0];
    NestedBelow(a.dom, b.dom, filled, k);
    assert Conforms(b.dom, k, view, a.dom);
    if filled {
      NestedReady(a.dom);
      assert b.dom.tree == a.dom.tree;
    }
    NestedUnclaimed(b.dom, k, filled);
    QueryFacts(b.dom, 0, ISLAND_ATTR);
  }

  lemma NestedPlain(filled: bool)
    ensures FactoriesOk(NestedFactories(filled)) && NamesOk(IslandPage(filled).rules)
  {
    assert Plain(NestedView(filled));
  }

  /** A pass over the page consists of the turn of the `<span>`. */
  lemma OneVisit(states: seq<Snapshot>, targets: seq<NodeId>, filled: bool, factories: map<string, Factory>)
    requires Trace(states, 0, targets, factories, 0) && Targeted(states, 0, targets)
    requires states[0].dom == IslandPage(filled)
    ensures targets == [1] && Visited(states[0], states[1], 0, 1, factories, 0)
    ensures FoundIn(states, 0) == states[0].dom
  {
    PageTargets(filled);
    hide WellFormed, AttrOf, QuerySelectorAll, Visited, IslandPage;
    assert targets[0] == 1 && Turns(states, 0, targets, 0) == 0;
  }

  lemma RootThere(filled: bool)
    ensures 0 in IslandPage(filled).tree && IsElement(IslandPage(filled), 0)
  {
  }

  /** Nothing is bound anywhere on the page. */
  lemma BareAgrees(rt: Runtime, filled: bool)
    requires rt.Agrees() && rt.eventClosures == map[] && rt.attributeEffects == map[] && rt.dynamicRegions == map[]
    ensures var data := IslandPage(filled).data;
            && EventsAgree(data, rt.eventClosures, rt.eventOwner)
              && RegionsAgree(data, rt.dynamicRegions, rt.regionOwner)
            && EffectsAgree(data, rt.attributeEffects, rt.attrOwner, rt.liveEffects, rt.home)
  {
    hide Housed;
    var data := IslandPage(filled).data;
    assert forall n :: n in data ==>
      data[n].eventId == None && data[n].attrId == None && data[n].regionId == None && data[n].listeners == [];
  }

  /** Both pages, hydrated twice: the second pass still finds work. */
  method NestedTwice(filled: bool) returns (rt: Runtime, ghost states: seq<Snapshot>)
    ensures rt.Valid() && |states| == 2 && states[0].dom == IslandPage(filled)
    ensures Trace(states, 0, [1], NestedFactories(filled), 0) && Now(rt) != states[1]
  {
    hide WellFormed, EventsAgree, EffectsAgree, RegionsAgree, Issued, CellsExist, Numbered, IslandPage, NestedFactories,
         FactoriesOk, NamesOk, Trace, Targeted, FoundIn, Visited, QuerySelectorAll, IsHydrated, AttrOf;
    rt := new Runtime(IslandPage(filled).rules);
    BareAgrees(rt, filled);
    rt.dom := IslandPage(filled);
    PageWellFormed(filled);
    NestedPlain(filled);
    RootThere(filled);
    ghost var targets;
    targets, states := HydrateTwice(rt, 0, NestedFactories(filled));
    OneVisit(states, targets, filled, NestedFactories(filled));
    NestedLeft(states[0], states[1], filled);
  }

  // --- Unmounting ---

  /** Only `attrs` of the nodes in `done` differ, by the missing boundary state. */
  ghost predicate StatesCleared(d: Document, e: Document, done: set<NodeId>) {
    && e.tree == d.tree && e.data.Keys == d.data.Keys && e.rules == d.rules
    && forall x :: x in d.data ==>
         e.data[x] == if x in done then d.data[x].(attrs := d.data[x].attrs - {BOUNDARY_STATE_ATTR}) else d.data[x]
  }

  method ClearState(rt: Runtime, n: NodeId, ghost d: Document, ghost done: set<NodeId>)
    requires rt.Valid() && n in rt.dom.data && StatesCleared(d, rt.dom, done)
    modifies rt`dom
    ensures rt.Valid() && StatesCleared(d, rt.dom, done + {n})
  {
    hide WellFormed, EventsAgree, EffectsAgree, RegionsAgree, Issued, CellsExist, Numbered;
    var data := rt.dom.data[n].(attrs := rt.dom.data[n].attrs - {BOUNDARY_STATE_ATTR});
    ContentKeepsValid(rt, n, data);
    assert d.data[n].attrs - {BOUNDARY_STATE_ATTR} - {BOUNDARY_STATE_ATTR} == d.data[n].attrs - {BOUNDARY_STATE_ATTR};
    rt.dom := RemoveAttribute(rt.dom, n, BOUNDARY_STATE_ATTR);
  }

  /**
   * Releases everything the subtree holds and makes every boundary in it eligible again; the
   * document's tree and every other attribute stay.
   */
  method Unmount(rt: Runtime, root: NodeId) returns (ghost released: Snapshot, ghost cleared: set<NodeId>)
    requires rt.Valid() && root in rt.dom.tree && IsElement(rt.dom, root)
    modifies rt
    ensures rt.Valid() && Released(old(Now(rt)), released, Subtree(old(rt.dom.tree), root))
    ensures StatesCleared(released.dom, rt.dom, cleared) && cleared <= Subtree(old(rt.dom.tree), root)
    ensures rt.eventClosures == released.events && rt.attributeEffects == released.effects
    ensures rt.dynamicRegions == released.regions && rt.cells == released.cells
    ensures forall x :: x in Subtree(rt.dom.tree, root) ==> !IsHydrated(rt.dom, x) && StateOf(rt.dom, x) == None
  {
    hide WellFormed, EventsAgree, EffectsAgree, RegionsAgree, Issued, CellsExist, Numbered, Released, QuerySelectorAll,
         AttrOf, Subtree, StatesCleared;
    ghost var a := Now(rt);
    KeysAgree(rt.dom);
    ReleaseDomNodeResources(rt, root);
    released := Now(rt);
    ReleasedTree(a, released, Subtree(rt.dom.tree, root));
    ghost var d := rt.dom;
    KeysAgree(d);
    NoneCleared(d);
    ClearState(rt, root, d, {});
    cleared := {root};
    assert {} + {root} == cleared;
    KeysAgree(rt.dom);
    ClearedTree(d, rt.dom, cleared);
    ghost var e := rt.dom;
    var boundaries := QuerySelectorAll(rt.dom, root, BOUNDARY_STATE_ATTR);
    QueryFacts(rt.dom, root, BOUNDARY_STATE_ATTR);
    for i := 0 to |boundaries|
      invariant rt.Valid() && cleared == {root} + set k | 0 <= k < i :: boundaries[k]
      invariant StatesCleared(d, rt.dom, cleared)
      modifies rt`dom
    {
      ClearedTree(d, rt.dom, cleared);
      assert boundaries[i] in boundaries;
      ClearState(rt, boundaries[i], d, cleared);
      cleared := cleared + {boundaries[i]};
    }
    AllCleared(d, e, rt.dom, root, boundaries, cleared);
  }

  lemma NoneCleared(d: Document)
    ensures StatesCleared(d, d, {})
  {
  }

  lemma ClearedTree(d: Document, e: Document, done: set<NodeId>)
    requires StatesCleared(d, e, done)
    ensures e.tree == d.tree && e.data.Keys == d.data.Keys
  {
  }

  lemma AllCleared(d: Document, e: Document, f: Document, root: NodeId, boundaries: seq<NodeId>, cleared: set<NodeId>)
    requires WellFormed(d) && WellFormed(e) && root in d.tree && StatesCleared(d, e, {root})
             && StatesCleared(d, f, cleared)
    requires boundaries == QuerySelectorAll(e, root, BOUNDARY_STATE_ATTR)
    requires cleared == {root} + set k | 0 <= k < |boundaries| :: boundaries[k]
    ensures cleared <= Subtree(d.tree, root)
    ensures forall x :: x in Subtree(f.tree, root) ==> StateOf(f, x) == None && !IsHydrated(f, x)
  {
    hide QuerySelectorAll, TreeOk;
    QueryFacts(e, root, BOUNDARY_STATE_ATTR);
    forall k | 0 <= k < |boundaries| ensures boundaries[k] in Subtree(d.tree, root) {
      assert boundaries[k] in boundaries;
    }
    forall x | x in Subtree(f.tree, root) ensures StateOf(f, x) == None {
      if x in boundaries {
        var k :| 0 <= k < |boundaries| && boundaries[k] == x;
        assert x in cleared;
      }
    }
  }
}
