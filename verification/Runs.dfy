/** The state of a run of siblings while it is being reconciled. */
module Runs {
  import opened Prelude
  import opened VirtualDom
  import opened Dom
  import opened Resources
  import opened Rendering
  import opened Building
  import opened Confinement
  import opened KeyedMatching
  import opened PatchSteps

  /** The nodes of the run nobody has claimed yet. */
  function Rest(ns: seq<NodeId>, consumed: seq<bool>): (r: seq<NodeId>)
    requires |consumed| == |ns|
  {
    if ns == [] then [] else (if consumed[0] then [] else [ns[0]]) + Rest(ns[1..], consumed[1..])
  }

  lemma {:induction false} RestMember(ns: seq<NodeId>, consumed: seq<bool>, x: NodeId)
    requires |consumed| == |ns|
    ensures x in Rest(ns, consumed) <==> exists i :: 0 <= i < |ns| && !consumed[i] && ns[i] == x
  {
    if ns != [] {
      RestMember(ns[1..], consumed[1..], x);
      if i :| 0 <= i < |ns| && !consumed[i] && ns[i] == x {
        if i > 0 {
          assert !consumed[1..][i - 1] && ns[1..][i - 1] == x;
        }
      }
    }
  }

  lemma {:induction false} RestStart(ns: seq<NodeId>, consumed: seq<bool>)
    requires |consumed| == |ns| && forall i :: 0 <= i < |ns| ==> !consumed[i]
    ensures Rest(ns, consumed) == ns
  {
    if ns != [] {
      RestStart(ns[1..], consumed[1..]);
    }
  }

  lemma {:induction false} RestConsume(ns: seq<NodeId>, consumed: seq<bool>, s: nat)
    requires |consumed| == |ns| && Distinct(ns) && s < |ns| && !consumed[s]
    ensures Rest(ns, consumed[s := true]) == Without(Rest(ns, consumed), ns[s])
  {
    var here := if consumed[0] then [] else [ns[0]];
    WithoutConcat(here, Rest(ns[1..], consumed[1..]), ns[s]);
    if s == 0 {
      RestMember(ns[1..], consumed[1..], ns[0]);
      assert forall i :: 0 <= i < |ns[1..]| ==> ns[1..][i] == ns[i + 1];
      WithoutAbsent(Rest(ns[1..], consumed[1..]), ns[0]);
      assert consumed[s := true][1..] == consumed[1..];
    } else {
      RestConsume(ns[1..], consumed[1..], s - 1);
      WithoutAbsent(here, ns[s]);
      assert consumed[s := true][1..] == consumed[1..][s - 1 := true];
    }
  }

  /** An unclaimed node heads what is left only if everything before it is claimed. */
  lemma {:induction false} RestHead(ns: seq<NodeId>, consumed: seq<bool>, s: nat)
    requires |consumed| == |ns| && Distinct(ns) && s < |ns| && !consumed[s]
    ensures Rest(ns, consumed) != []
    ensures Rest(ns, consumed)[0] == ns[s] <==> forall i :: 0 <= i < s ==> consumed[i]
  {
    if s > 0 {
      if consumed[0] {
        RestHead(ns[1..], consumed[1..], s - 1);
        assert forall i :: 0 <= i < s - 1 ==> consumed[1..][i] == consumed[i + 1];
      } else {
        assert Rest(ns, consumed)[0] == ns[0];
      }
    }
  }

  // --- The run's invariant ---

  /** Unclaimed nodes still have the subtrees they started with. */
  ghost predicate Untouched(d: Document, e: Document, ns: seq<NodeId>, consumed: seq<bool>)
    requires |consumed| == |ns|
  {
    forall s, x :: 0 <= s < |ns| && !consumed[s] && x in d.tree && Under(d.tree, ns[s], x) ==> SameNode(d, e, x)
  }

  ghost predicate RunTracks(d: Document, ns: seq<NodeId>, prior: seq<VNode>) {
    AllMatch(d, ns, prior, true)
  }

  ghost predicate PlacedShow(d: Document, e: Document, ns: seq<NodeId>, prior: seq<VNode>, wanted: seq<VNode>,
                             placed: seq<NodeId>)
    requires |placed| <= |wanted|
  {
    RunTracks(d, ns, prior) ==> forall i :: 0 <= i < |placed| ==> Matches(e, placed[i], wanted[i], false)
  }

  /**
   * Where the node placed for new child `i` comes from: a claimed node is kept exactly when it can
   * be patched in place; anything else is new.
   */
  ghost predicate PlacedFrom(d: Document, ns: seq<NodeId>, prior: seq<VNode>, wanted: seq<VNode>, i: nat, r: NodeId)
    requires |ns| == |prior| && i < |wanted|
  {
    match Claim(Keys(prior), Keys(wanted), i)
    case None => r >= d.next
    case Some(s) => if Patchable(d, ns[s], prior[s], wanted[i]) then r == ns[s] else r >= d.next
  }

  ghost predicate PlacedOrigins(d: Document, ns: seq<NodeId>, prior: seq<VNode>, wanted: seq<VNode>,
                                placed: seq<NodeId>)
    requires |ns| == |prior| && |placed| <= |wanted|
  {
    forall i :: 0 <= i < |placed| ==> PlacedFrom(d, ns, prior, wanted, i, placed[i])
  }

  /** New child `i` claims a node that does not head what is left. */
  ghost predicate OutOfPlace(prior: seq<Key>, wanted: seq<Key>, i: nat)
    requires i < |wanted|
  {
    var c := Claim(prior, wanted, i);
    c.Some? && exists k :: 0 <= k < c.value && !ConsumedAfter(prior, wanted, i)[k]
  }

  /** Some new child claims `x` out of place. */
  ghost predicate MustMove(ns: seq<NodeId>, prior: seq<Key>, wanted: seq<Key>, x: NodeId)
    requires |ns| == |prior|
  {
    exists i :: 0 <= i < |wanted| && Claim(prior, wanted, i).Some? && ns[Claim(prior, wanted, i).value] == x
      && OutOfPlace(prior, wanted, i)
  }

  /**
   * A mutation of a new node, or one in the run's subtrees; a node of the run is inserted
   * anywhere only if it is claimed out of place.
   */
  ghost predicate RunMutation(d: Document, ns: seq<NodeId>, prior: seq<Key>, wanted: seq<Key>, m: Mutation)
    requires |ns| == |prior|
  {
    || Subject(m) >= d.next
    || (UnderAny(d.tree, ns, Subject(m)) && (m.Inserted? && m.node in ns ==> MustMove(ns, prior, wanted, m.node)))
  }

  ghost predicate RunLog(d: Document, e: Document, ns: seq<NodeId>, prior: seq<Key>, wanted: seq<Key>)
    requires |ns| == |prior|
  {
    forall m :: m in Since(d, e) ==> RunMutation(d, ns, prior, wanted, m)
  }

  ghost predicate RunKids(e: Document, el: NodeId, p: seq<NodeId>, ns: seq<NodeId>, consumed: seq<bool>,
                          suf: seq<NodeId>)
    requires |consumed| == |ns|
  {
    el in e.tree && e.tree[el].kids == p + (Rest(ns, consumed) + suf)
  }

  // --- Steps ---

  lemma UnclaimedChild(e: Document, el: NodeId, p: seq<NodeId>, ns: seq<NodeId>, consumed: seq<bool>,
                       suf: seq<NodeId>, s: nat)
    requires WellFormed(e) && |consumed| == |ns| && RunKids(e, el, p, ns, consumed, suf) && s < |ns| && !consumed[s]
    ensures ns[s] in e.tree && IsChild(e, el, ns[s]) && el < ns[s]
    ensures ns[s] in Rest(ns, consumed) + suf && ns[s] !in p
  {
    RestMember(ns, consumed, ns[s]);
    assert LinksOk(e.tree, el);
    assert ns[s] in e.tree[el].kids;
    DistinctParts(p, Rest(ns, consumed) + suf);
  }

  lemma UnclaimedSubtree(d: Document, e: Document, ns: seq<NodeId>, consumed: seq<bool>, s: nat, x: NodeId)
    requires WellFormed(d) && WellFormed(e) && |consumed| == |ns| && Untouched(d, e, ns, consumed)
    requires s < |ns| && !consumed[s] && ns[s] in d.tree
    ensures Under(e.tree, ns[s], x) <==> Under(d.tree, ns[s], x)
  {
    forall y | y in d.tree && Under(d.tree, ns[s], y) ensures y in e.tree && e.tree[y].kids == d.tree[y].kids {
      assert SameNode(d, e, y);
    }
    SameSubtree(d, e, ns[s], x);
  }

  lemma UnclaimedSame(d: Document, e: Document, ns: seq<NodeId>, consumed: seq<bool>, s: nat)
    requires WellFormed(d) && Grows(d, e) && |consumed| == |ns| && Untouched(d, e, ns, consumed)
    requires s < |ns| && !consumed[s]
    ensures SameBelow(d, e, ns[s])
  {
    forall x | Under(d.tree, ns[s], x) && x in d.tree
      ensures x in e.tree && x in e.data && x in d.data && e.tree[x].kids == d.tree[x].kids && e.data[x] == d.data[x]
    {
      assert SameNode(d, e, x);
    }
  }

  lemma StepFrame(d: Document, e: Document, f: Document, el: NodeId, ns: seq<NodeId>, consumed: seq<bool>, s: nat)
    requires WellFormed(d) && WellFormed(e) && |consumed| == |ns| && s < |ns| && !consumed[s] && ns[s] in d.tree
    requires RunFrame(d, e, el, ns) && Untouched(d, e, ns, consumed) && KidStep(e, f, el, Some(ns[s]))
    ensures RunFrame(d, f, el, ns)
  {
    GrowsTrans(d, e, f);
    forall x | x in d.tree && x != el && !UnderAny(d.tree, ns, x) ensures SameNode(d, f, x) {
      assert SameNode(d, e, x);
      UnclaimedSubtree(d, e, ns, consumed, s, x);
      assert SameNode(e, f, x);
    }
  }

  lemma CreateFrame(d: Document, e: Document, f: Document, el: NodeId, ns: seq<NodeId>)
    requires RunFrame(d, e, el, ns) && KidStep(e, f, el, None)
    ensures RunFrame(d, f, el, ns)
  {
    GrowsTrans(d, e, f);
    forall x | x in d.tree && x != el && !UnderAny(d.tree, ns, x) ensures SameNode(d, f, x) {
      assert SameNode(d, e, x) && SameNode(e, f, x);
    }
  }

  /** A step on one child leaves the other unclaimed nodes untouched. */
  lemma StepUntouched(d: Document, e: Document, f: Document, el: NodeId, p: seq<NodeId>, ns: seq<NodeId>,
                      consumed: seq<bool>, suf: seq<NodeId>, n: Option<NodeId>, after: seq<bool>)
    requires WellFormed(d) && WellFormed(e) && |consumed| == |ns| == |after| && RunKids(e, el, p, ns, consumed, suf)
    requires Untouched(d, e, ns, consumed) && KidStep(e, f, el, n)
    requires forall s :: 0 <= s < |ns| ==> ns[s] in d.tree
    requires n.Some? ==> n.value in e.tree && IsChild(e, el, n.value)
    requires forall s :: 0 <= s < |ns| && !after[s] ==> !consumed[s] && Some(ns[s]) != n
    ensures Untouched(d, f, ns, after)
  {
    forall s, x | 0 <= s < |ns| && !after[s] && x in d.tree && Under(d.tree, ns[s], x) ensures SameNode(d, f, x) {
      UnclaimedChild(e, el, p, ns, consumed, suf, s);
      OtherKidSame(e, f, el, n, ns[s]);
      UnclaimedSubtree(d, e, ns, consumed, s, x);
      assert SameNode(d, e, x);
      assert SameNode(e, f, x);
    }
  }

  /** A step on one child leaves what the others show. */
  lemma StepShows(e: Document, f: Document, el: NodeId, n: Option<NodeId>, k: NodeId, v: VNode)
    requires WellFormed(e) && KidStep(e, f, el, n) && k in e.tree && IsChild(e, el, k)
    requires n.Some? ==> n.value in e.tree && IsChild(e, el, n.value) && n.value != k
    requires Shows(e, k, v)
    ensures Shows(f, k, v)
  {
    OtherKidSame(e, f, el, n, k);
    MatchesFrame(e, f, k, v, false);
  }

  lemma StepPlacedKept(d: Document, e: Document, f: Document, el: NodeId, p: seq<NodeId>, q: seq<NodeId>,
                       ns: seq<NodeId>, prior: seq<VNode>, wanted: seq<VNode>, placed: seq<NodeId>, n: Option<NodeId>)
    requires WellFormed(e) && KidStep(e, f, el, n) && el in e.tree && e.tree[el].kids == p + placed + q
    requires |placed| <= |wanted| && PlacedShow(d, e, ns, prior, wanted, placed)
    requires n.Some? ==> n.value in q
    ensures PlacedShow(d, f, ns, prior, wanted, placed)
  {
    hide Matches, KidStep;
    if RunTracks(d, ns, prior) {
      assert LinksOk(e.tree, el);
      assert n.Some? ==> n.value in e.tree[el].kids;
      DistinctParts(p + placed, q);
      forall i | 0 <= i < |placed| ensures Matches(f, placed[i], wanted[i], false) {
        assert placed[i] in p + placed;
        assert placed[i] in e.tree[el].kids;
        StepShows(e, f, el, n, placed[i], wanted[i]);
      }
    }
  }

  lemma PlacedShowMore(d: Document, e: Document, ns: seq<NodeId>, prior: seq<VNode>, wanted: seq<VNode>,
                       placed: seq<NodeId>, r: NodeId)
    requires |placed| < |wanted| && PlacedShow(d, e, ns, prior, wanted, placed)
    requires RunTracks(d, ns, prior) ==> Shows(e, r, wanted[|placed|])
    ensures PlacedShow(d, e, ns, prior, wanted, placed + [r])
  {
    hide Matches;
  }

  /** Two nodes of the run are never below one another. */
  lemma RunApart(d: Document, el: NodeId, ns: seq<NodeId>, i: nat, k: nat)
    requires WellFormed(d) && i < |ns| && k < |ns|
    requires forall s :: 0 <= s < |ns| ==> ns[s] in d.tree && IsChild(d, el, ns[s])
    requires Under(d.tree, ns[i], ns[k])
    ensures ns[i] == ns[k]
  {
    if ns[i] != ns[k] {
      SiblingsDisjoint(d, ns[k], ns[i], ns[k]);
    }
  }

  lemma StepLog(d: Document, e: Document, f: Document, el: NodeId, ns: seq<NodeId>, consumed: seq<bool>, s: nat,
                prior: seq<Key>, wanted: seq<Key>)
    requires WellFormed(d) && WellFormed(e) && Grows(d, e) && Grows(e, f) && |consumed| == |ns| == |prior|
    requires forall k :: 0 <= k < |ns| ==> ns[k] in d.tree && IsChild(d, el, ns[k])
    requires s < |ns| && !consumed[s] && Untouched(d, e, ns, consumed) && RunLog(d, e, ns, prior, wanted)
    requires forall m :: m in Since(e, f) ==>
               Subject(m) >= e.next
               || (Under(e.tree, ns[s], Subject(m))
                   && (m.Inserted? && m.node == ns[s] ==> MustMove(ns, prior, wanted, ns[s])))
    ensures RunLog(d, f, ns, prior, wanted)
  {
    hide MustMove, WellFormed, IsChild, Untouched;
    GrowsTrans(d, e, f);
    forall m | m in Since(e, f) ensures RunMutation(d, ns, prior, wanted, m) {
      if Subject(m) < e.next {
        UnclaimedSubtree(d, e, ns, consumed, s, Subject(m));
        if m.Inserted? && m.node in ns {
          var k := IndexOf(ns, m.node);
          RunApart(d, el, ns, s, k);
        }
      }
    }
  }

  lemma CreateLog(d: Document, e: Document, f: Document, ns: seq<NodeId>, prior: seq<Key>, wanted: seq<Key>)
    requires Grows(d, e) && Grows(e, f) && |ns| == |prior| && RunLog(d, e, ns, prior, wanted)
    requires forall m :: m in Since(e, f) ==> Subject(m) >= e.next
    ensures RunLog(d, f, ns, prior, wanted)
  {
    GrowsTrans(d, e, f);
  }

  /** How a placement changes the child list, in terms of what is left of the run. */
  lemma StepKids(ns: seq<NodeId>, consumed: seq<bool>, suf: seq<NodeId>, s: nat)
    requires |consumed| == |ns| && Distinct(ns) && s < |ns| && !consumed[s] && ns[s] !in suf
    ensures Without(Rest(ns, consumed) + suf, ns[s]) == Rest(ns, consumed[s := true]) + suf
  {
    RestConsume(ns, consumed, s);
    WithoutConcat(Rest(ns, consumed), suf, ns[s]);
    WithoutAbsent(suf, ns[s]);
  }

  /**
   * Everything that holds between two new children: the parent's children are the prefix, the
   * nodes placed so far, the unclaimed nodes in their old order, and the suffix.
   */
  ghost predicate RunState(d: Document, e: Document, el: NodeId, pre: seq<NodeId>, ns: seq<NodeId>, suf: seq<NodeId>,
                           prior: seq<VNode>, wanted: seq<VNode>, placed: seq<NodeId>, consumed: seq<bool>)
  {
    && |ns| == |prior| == |consumed| && |placed| <= |wanted|
    && RunFrame(d, e, el, ns)
    && RunKids(e, el, pre + placed, ns, consumed, suf)
    && Untouched(d, e, ns, consumed)
    && PlacedShow(d, e, ns, prior, wanted, placed)
    && PlacedOrigins(d, ns, prior, wanted, placed)
    && RunLog(d, e, ns, Keys(prior), Keys(wanted))
  }

  ghost predicate RunSetting(d: Document, el: NodeId, pre: seq<NodeId>, ns: seq<NodeId>, suf: seq<NodeId>) {
    && el in d.tree && el in d.data && d.tree[el].kids == pre + ns + suf
    && Distinct(ns)
    && forall s :: 0 <= s < |ns| ==> ns[s] in d.tree && IsChild(d, el, ns[s]) && ns[s] !in suf && el < ns[s]
  }

  lemma SettingHolds(d: Document, el: NodeId, pre: seq<NodeId>, ns: seq<NodeId>, suf: seq<NodeId>)
    requires WellFormed(d) && el in d.tree && d.tree[el].kids == pre + ns + suf
    ensures RunSetting(d, el, pre, ns, suf)
  {
    assert LinksOk(d.tree, el);
    DistinctParts(pre + ns, suf);
    DistinctParts(pre, ns);
    forall s | 0 <= s < |ns| ensures ns[s] in d.tree && IsChild(d, el, ns[s]) && ns[s] !in suf && el < ns[s] {
      assert ns[s] in pre + ns;
      assert ns[s] in d.tree[el].kids;
    }
  }

  lemma RunBegins(d: Document, el: NodeId, pre: seq<NodeId>, ns: seq<NodeId>, suf: seq<NodeId>, prior: seq<VNode>,
                  wanted: seq<VNode>)
    requires RunSetting(d, el, pre, ns, suf) && |ns| == |prior|
    ensures RunState(d, d, el, pre, ns, suf, prior, wanted, [], ConsumedAfter(Keys(prior), Keys(wanted), 0))
  {
    var consumed := ConsumedAfter(Keys(prior), Keys(wanted), 0);
    RestStart(ns, consumed);
    assert pre + [] == pre;
    assert pre + ns + suf == pre + (ns + suf);
    assert Since(d, d) == [];
  }

  /** What one claimed child's step guarantees. */
  ghost predicate ClaimedStep(e: Document, f: Document, el: NodeId, n: NodeId, v: VNode, w: VNode, r: NodeId,
                              p: seq<NodeId>, q: seq<NodeId>)
  {
    && KidStep(e, f, el, Some(n))
    && q != [] && f.tree[el].kids == p + [r] + Without(q, n)
    && (r == n || r >= e.next)
    && (Tracks(e, n, v) ==> Shows(f, r, w))
    && (r == n <==> Patchable(e, n, v, w))
    && forall m :: m in Since(e, f) ==>
         Subject(m) >= e.next || (Under(e.tree, n, Subject(m)) && (m.Inserted? && m.node == n ==> q[0] != n))
  }

  /** What one created child's step guarantees. */
  ghost predicate CreatedStep(e: Document, f: Document, el: NodeId, w: VNode, r: NodeId, p: seq<NodeId>,
                              q: seq<NodeId>) {
    && KidStep(e, f, el, None) && f.tree[el].kids == p + [r] + q
    && r >= e.next && Shows(f, r, w)
    && forall m :: m in Since(e, f) ==> Subject(m) >= e.next
  }

  lemma ClaimedOrigin(d: Document, e: Document, f: Document, el: NodeId, ns: seq<NodeId>, prior: seq<VNode>,
                      wanted: seq<VNode>, placed: seq<NodeId>, consumed: seq<bool>, s: nat, r: NodeId, p: seq<NodeId>,
                      q: seq<NodeId>)
    requires WellFormed(d) && Grows(d, e) && |ns| == |prior| == |consumed| && |placed| < |wanted|
    requires Untouched(d, e, ns, consumed) && s < |ns| && !consumed[s] && ns[s] in d.tree
    requires Claim(Keys(prior), Keys(wanted), |placed|) == Some(s)
    requires ClaimedStep(e, f, el, ns[s], prior[s], wanted[|placed|], r, p, q)
    requires PlacedOrigins(d, ns, prior, wanted, placed)
    ensures PlacedOrigins(d, ns, prior, wanted, placed + [r])
    ensures RunTracks(d, ns, prior) ==> Shows(f, r, wanted[|placed|])
  {
    hide Matches, Claim, KidStep, Untouched, WellFormed, SameBelow, Patchable, PlacedFrom, PlacedOrigins, Keys,
        RunTracks,
         ClaimedStep;
    UnclaimedPatchable(d, e, ns, consumed, s, prior[s], wanted[|placed|]);
    ClaimedFrom(d, e, f, el, ns, prior, wanted, |placed|, s, r, p, q);
    OneMorePlaced(d, ns, prior, wanted, placed, r);
    ClaimedShows(d, e, f, el, ns, prior, consumed, s, wanted[|placed|], r, p, q);
  }

  lemma ClaimedShows(d: Document, e: Document, f: Document, el: NodeId, ns: seq<NodeId>, prior: seq<VNode>,
                     consumed: seq<bool>, s: nat, w: VNode, r: NodeId, p: seq<NodeId>, q: seq<NodeId>)
    requires WellFormed(d) && Grows(d, e) && |ns| == |prior| == |consumed|
    requires Untouched(d, e, ns, consumed) && s < |ns| && !consumed[s]
    requires ClaimedStep(e, f, el, ns[s], prior[s], w, r, p, q)
    ensures RunTracks(d, ns, prior) ==> Shows(f, r, w)
  {
    hide Matches, KidStep, Untouched, WellFormed, SameBelow, Patchable;
    UnclaimedSame(d, e, ns, consumed, s);
    if Matches(d, ns[s], prior[s], true) {
      MatchesFrame(d, e, ns[s], prior[s], true);
    }
  }

  lemma ClaimedFrom(d: Document, e: Document, f: Document, el: NodeId, ns: seq<NodeId>, prior: seq<VNode>,
                    wanted: seq<VNode>, i: nat, s: nat, r: NodeId, p: seq<NodeId>, q: seq<NodeId>)
    requires Grows(d, e) && |ns| == |prior| && i < |wanted| && s < |ns|
             && Claim(Keys(prior), Keys(wanted), i) == Some(s)
    requires ClaimedStep(e, f, el, ns[s], prior[s], wanted[i], r, p, q)
    requires Patchable(e, ns[s], prior[s], wanted[i]) == Patchable(d, ns[s], prior[s], wanted[i])
    ensures PlacedFrom(d, ns, prior, wanted, i, r)
  {
    hide Matches, Claim, KidStep, Patchable;
  }

  lemma UnclaimedPatchable(d: Document, e: Document, ns: seq<NodeId>, consumed: seq<bool>, s: nat, v: VNode, w: VNode)
    requires WellFormed(d) && |consumed| == |ns| && s < |ns| && !consumed[s] && Untouched(d, e, ns, consumed)
    requires ns[s] in d.tree
    ensures Patchable(e, ns[s], v, w) == Patchable(d, ns[s], v, w)
  {
    assert SameNode(d, e, ns[s]);
    PatchableSame(d, e, ns[s], v, w);
  }

  lemma OneMorePlaced(d: Document, ns: seq<NodeId>, prior: seq<VNode>, wanted: seq<VNode>, placed: seq<NodeId>,
                      r: NodeId)
    requires |ns| == |prior| && |placed| < |wanted| && PlacedOrigins(d, ns, prior, wanted, placed)
    requires PlacedFrom(d, ns, prior, wanted, |placed|, r)
    ensures PlacedOrigins(d, ns, prior, wanted, placed + [r])
  {
    hide PlacedFrom;
  }

  lemma ClaimedMoves(ns: seq<NodeId>, prior: seq<Key>, wanted: seq<Key>, j: nat, consumed: seq<bool>, s: nat,
                     suf: seq<NodeId>)
    requires |ns| == |prior| && j < |wanted| && consumed == ConsumedAfter(prior, wanted, j) && s < |ns|
    requires Claim(prior, wanted, j) == Some(s) && Distinct(ns)
    ensures Rest(ns, consumed) + suf != []
    ensures (Rest(ns, consumed) + suf)[0] != ns[s] ==> MustMove(ns, prior, wanted, ns[s])
  {
    RestHead(ns, consumed, s);
    if (Rest(ns, consumed) + suf)[0] != ns[s] {
      assert OutOfPlace(prior, wanted, j);
    }
  }

  lemma AfterClaimed(d: Document, e: Document, f: Document, el: NodeId, pre: seq<NodeId>, ns: seq<NodeId>,
                     suf: seq<NodeId>, prior: seq<VNode>, wanted: seq<VNode>, placed: seq<NodeId>, consumed: seq<bool>,
                     s: nat, r: NodeId)
    requires WellFormed(d) && WellFormed(e) && RunSetting(d, el, pre, ns, suf)
    requires RunState(d, e, el, pre, ns, suf, prior, wanted, placed, consumed) && |placed| < |wanted|
    requires consumed == ConsumedAfter(Keys(prior), Keys(wanted), |placed|)
    requires Claim(Keys(prior), Keys(wanted), |placed|) == Some(s) && s < |ns|
    requires ClaimedStep(e, f, el, ns[s], prior[s], wanted[|placed|], r, pre + placed, Rest(ns, consumed) + suf)
    ensures RunState(d, f, el, pre, ns, suf, prior, wanted, placed + [r], consumed[s := true])
  {
    hide Matches, RunFrame, Untouched, PlacedShow, PlacedOrigins, RunLog, ConsumedAfter, Claim, Rest, Without, MustMove,
         RunTracks, WellFormed, IsChild;
    var p, q := pre + placed, Rest(ns, consumed) + suf;
    RunBasic(d, e, el, ns);
    UnclaimedChild(e, el, p, ns, consumed, suf, s);
    StepFrame(d, e, f, el, ns, consumed, s);
    StepKids(ns, consumed, suf, s);
    assert p + [r] == pre + (placed + [r]);
    StepUntouched(d, e, f, el, p, ns, consumed, suf, Some(ns[s]), consumed[s := true]);
    ClaimedOrigin(d, e, f, el, ns, prior, wanted, placed, consumed, s, r, p, q);
    StepPlacedKept(d, e, f, el, pre, q, ns, prior, wanted, placed, Some(ns[s]));
    PlacedShowMore(d, f, ns, prior, wanted, placed, r);
    ClaimedMoves(ns, Keys(prior), Keys(wanted), |placed|, consumed, s, suf);
    StepLog(d, e, f, el, ns, consumed, s, Keys(prior), Keys(wanted));
  }

  lemma RunBasic(d: Document, e: Document, el: NodeId, ns: seq<NodeId>)
    requires RunFrame(d, e, el, ns)
    ensures Grows(d, e)
  {
  }

  lemma AfterCreated(d: Document, e: Document, f: Document, el: NodeId, pre: seq<NodeId>, ns: seq<NodeId>,
                     suf: seq<NodeId>, prior: seq<VNode>, wanted: seq<VNode>, placed: seq<NodeId>, consumed: seq<bool>,
                     r: NodeId)
    requires WellFormed(d) && WellFormed(e) && RunSetting(d, el, pre, ns, suf)
    requires RunState(d, e, el, pre, ns, suf, prior, wanted, placed, consumed) && |placed| < |wanted|
    requires Claim(Keys(prior), Keys(wanted), |placed|) == None
    requires CreatedStep(e, f, el, wanted[|placed|], r, pre + placed, Rest(ns, consumed) + suf)
    ensures RunState(d, f, el, pre, ns, suf, prior, wanted, placed + [r], consumed)
  {
    hide Matches, RunFrame, Untouched, PlacedShow, RunLog, ConsumedAfter, Claim, Rest, Without, MustMove, RunTracks,
         WellFormed, IsChild;
    var p, q := pre + placed, Rest(ns, consumed) + suf;
    RunBasic(d, e, el, ns);
    CreateFrame(d, e, f, el, ns);
    assert p + [r] == pre + (placed + [r]);
    StepUntouched(d, e, f, el, p, ns, consumed, suf, None, consumed);
    StepPlacedKept(d, e, f, el, pre, q, ns, prior, wanted, placed, None);
    PlacedShowMore(d, f, ns, prior, wanted, placed, r);
    CreateLog(d, e, f, ns, Keys(prior), Keys(wanted));
  }

  /** Removing an unclaimed node is a step too. */
  lemma AfterRemoved(d: Document, e: Document, f: Document, el: NodeId, pre: seq<NodeId>, ns: seq<NodeId>,
                     suf: seq<NodeId>, prior: seq<VNode>, wanted: seq<VNode>, placed: seq<NodeId>, consumed: seq<bool>,
                     s: nat)
    requires WellFormed(d) && WellFormed(e) && RunSetting(d, el, pre, ns, suf)
    requires RunState(d, e, el, pre, ns, suf, prior, wanted, placed, consumed) && s < |ns| && !consumed[s]
    requires KidStep(e, f, el, Some(ns[s]))
             && f.tree[el].kids == pre + placed + Without(Rest(ns, consumed) + suf, ns[s])
    requires forall m :: m in Since(e, f) ==> Subject(m) == ns[s] && !m.Inserted?
    ensures RunState(d, f, el, pre, ns, suf, prior, wanted, placed, consumed[s := true])
  {
    hide Matches, RunFrame, Untouched, PlacedShow, PlacedOrigins, RunLog, Rest, Without, MustMove, RunTracks,
         WellFormed, IsChild;
    var p, q := pre + placed, Rest(ns, consumed) + suf;
    RunBasic(d, e, el, ns);
    UnclaimedChild(e, el, p, ns, consumed, suf, s);
    StepFrame(d, e, f, el, ns, consumed, s);
    StepKids(ns, consumed, suf, s);
    StepUntouched(d, e, f, el, p, ns, consumed, suf, Some(ns[s]), consumed[s := true]);
    StepPlacedKept(d, e, f, el, pre, q, ns, prior, wanted, placed, Some(ns[s]));
    assert Under(e.tree, ns[s], ns[s]);
    StepLog(d, e, f, el, ns, consumed, s, Keys(prior), Keys(wanted));
  }

  lemma {:induction false} RestEmpty(ns: seq<NodeId>, consumed: seq<bool>)
    requires |consumed| == |ns| && forall i :: 0 <= i < |ns| ==> consumed[i]
    ensures Rest(ns, consumed) == []
  {
    if ns != [] {
      RestEmpty(ns[1..], consumed[1..]);
    }
  }
}
