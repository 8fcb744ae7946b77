/**
 * Which old child each new child takes over. The rule is a naive scan; the reconciler
 * implements it with a map from key to a queue of indices.
 */
module KeyedMatching {
  import opened Prelude

  type Key = Option<string>

  /** The first unconsumed old child carrying `key`, looking from `from`. */
  function FirstFree(prior: seq<Key>, consumed: seq<bool>, key: string, from: nat): (r: Option<nat>)
    requires |consumed| == |prior| && from <= |prior|
    ensures r.Some? ==> from <= r.value < |prior| && !consumed[r.value] && prior[r.value] == Some(key)
    ensures r.Some? ==> forall i :: from <= i < r.value ==> consumed[i] || prior[i] != Some(key)
    ensures r.None? ==> forall i :: from <= i < |prior| ==> consumed[i] || prior[i] != Some(key)
    decreases |prior| - from
  {
    if from == |prior| then None
    else if !consumed[from] && prior[from] == Some(key) then Some(from)
    else FirstFree(prior, consumed, key, from + 1)
  }

  /**
   * The old child that new child `j` takes over: the first unconsumed one with its key, else the
   * unconsumed, unkeyed one in its position.
   */
  function ClaimOf(prior: seq<Key>, consumed: seq<bool>, j: nat, key: Key): (r: Option<nat>)
    requires |consumed| == |prior|
    ensures r.Some? ==> r.value < |prior| && !consumed[r.value]
  {
    var keyed := if key.Some? then FirstFree(prior, consumed, key.value, 0) else None;
    if keyed.Some? then keyed
    else if j < |prior| && !consumed[j] && prior[j] == None then Some(j)
    else None
  }

  /** What is consumed once the first `j` new children have claimed. */
  function ConsumedAfter(prior: seq<Key>, wanted: seq<Key>, j: nat): (r: seq<bool>)
    requires j <= |wanted|
    ensures |r| == |prior|
    decreases j, 0
  {
    if j == 0 then seq(|prior|, i => false)
    else Consume(ConsumedAfter(prior, wanted, j - 1), Claim(prior, wanted, j - 1))
  }

  function Consume(consumed: seq<bool>, claim: Option<nat>): (r: seq<bool>)
    requires claim.Some? ==> claim.value < |consumed|
    ensures |r| == |consumed|
  {
    if claim.Some? then consumed[claim.value := true] else consumed
  }

  function Claim(prior: seq<Key>, wanted: seq<Key>, j: nat): (r: Option<nat>)
    requires j < |wanted|
    ensures r.Some? ==> r.value < |prior| && !ConsumedAfter(prior, wanted, j)[r.value]
    decreases j, 1
  {
    ClaimOf(prior, ConsumedAfter(prior, wanted, j), j, wanted[j])
  }

  // --- What claims are like ---

  lemma {:induction false} ConsumedBy(prior: seq<Key>, wanted: seq<Key>, j: nat, s: nat) returns (i: nat)
    requires j <= |wanted| && s < |prior| && ConsumedAfter(prior, wanted, j)[s]
    ensures i < j && Claim(prior, wanted, i) == Some(s)
  {
    i := j - 1;
    if Claim(prior, wanted, i) != Some(s) {
      i := ConsumedBy(prior, wanted, j - 1, s);
    }
  }

  lemma {:induction false} ClaimConsumes(prior: seq<Key>, wanted: seq<Key>, i: nat, j: nat)
    requires i < j <= |wanted| && Claim(prior, wanted, i).Some?
    ensures ConsumedAfter(prior, wanted, j)[Claim(prior, wanted, i).value]
  {
    if i < j - 1 {
      ClaimConsumes(prior, wanted, i, j - 1);
    }
  }

  /** No old child is taken over twice. */
  lemma ClaimsDisjoint(prior: seq<Key>, wanted: seq<Key>, i: nat, j: nat)
    requires i < j < |wanted| && Claim(prior, wanted, i).Some?
    ensures Claim(prior, wanted, i) != Claim(prior, wanted, j)
  {
    ClaimConsumes(prior, wanted, i, j);
  }

  ghost predicate UniqueKeys(keys: seq<Key>) {
    && (forall i :: 0 <= i < |keys| ==> keys[i].Some?)
    && Distinct(keys)
  }

  /** With unique keys on both sides, claims pair exactly the equal keys. */
  lemma UniqueClaims(prior: seq<Key>, wanted: seq<Key>, j: nat, s: nat)
    requires UniqueKeys(prior) && UniqueKeys(wanted) && j < |wanted| && s < |prior|
    ensures Claim(prior, wanted, j) == Some(s) <==> prior[s] == wanted[j]
  {
    var consumed := ConsumedAfter(prior, wanted, j);
    if prior[s] == wanted[j] {
      if consumed[s] {
        var i := ConsumedBy(prior, wanted, j, s);
      }
      var free := FirstFree(prior, consumed, wanted[j].value, 0);
      assert free.Some? ==> prior[free.value] == prior[s];
    }
  }

  // --- Repeated keys ---

  /** How many of the first `n` children carry `key`. */
  ghost function Occurrences(keys: seq<Key>, key: string, n: nat): nat
    requires n <= |keys|
  {
    if n == 0 then 0 else Occurrences(keys, key, n - 1) + (if keys[n - 1] == Some(key) then 1 else 0)
  }

  lemma {:induction false} OccurrencesGrow(keys: seq<Key>, key: string, a: nat, b: nat)
    requires a <= b <= |keys|
    ensures Occurrences(keys, key, a) <= Occurrences(keys, key, b)
    ensures a < b && keys[a] == Some(key) ==> Occurrences(keys, key, a) < Occurrences(keys, key, b)
  {
    if a < b {
      OccurrencesGrow(keys, key, a, b - 1);
    }
  }

  /** Among the first `n` children, if more than `m` have the key, one of them is preceded by exactly `m`. */
  lemma {:induction false} Occurs(keys: seq<Key>, key: string, n: nat, m: nat) returns (s: nat)
    requires n <= |keys| && m < Occurrences(keys, key, n)
    ensures s < n && keys[s] == Some(key) && Occurrences(keys, key, s) == m
  {
    if keys[n - 1] == Some(key) && Occurrences(keys, key, n - 1) == m {
      s := n - 1;
    } else {
      s := Occurs(keys, key, n - 1, m);
    }
  }

  /** The old children carrying `key` are consumed from the front: the first `m` of them. */
  ghost predicate FirstTaken(prior: seq<Key>, consumed: seq<bool>, key: string, m: nat)
    requires |consumed| == |prior|
  {
    forall s :: 0 <= s < |prior| && prior[s] == Some(key) ==> (consumed[s] <==> Occurrences(prior, key, s) < m)
  }

  /** The scan then finds the next one, if there is one. */
  lemma NextFree(prior: seq<Key>, consumed: seq<bool>, key: string, m: nat)
    requires |consumed| == |prior| && FirstTaken(prior, consumed, key, m)
    ensures var free := FirstFree(prior, consumed, key, 0);
            if free.Some? then Occurrences(prior, key, free.value) == m else Occurrences(prior, key, |prior|) <= m
  {
    var free := FirstFree(prior, consumed, key, 0);
    if m < Occurrences(prior, key, |prior|) {
      var s := Occurs(prior, key, |prior|, m);
      assert !consumed[s];
      assert free.Some? && free.value <= s;
      OccurrencesGrow(prior, key, free.value, s);
    }
    if free.Some? {
      OccurrencesGrow(prior, key, free.value, |prior|);
    }
  }

  /** However the keys repeat: of the old children with a key, as many are consumed as new ones with it have come. */
  lemma {:induction false} TakenByCount(prior: seq<Key>, wanted: seq<Key>, j: nat, key: string)
    requires j <= |wanted|
    ensures FirstTaken(prior, ConsumedAfter(prior, wanted, j), key, Occurrences(wanted, key, j))
    decreases j
  {
    if j > 0 {
      TakenByCount(prior, wanted, j - 1, key);
      var before, m := ConsumedAfter(prior, wanted, j - 1), Occurrences(wanted, key, j - 1);
      NextFree(prior, before, key, m);
      var c := Claim(prior, wanted, j - 1);
      forall s | 0 <= s < |prior| && prior[s] == Some(key)
        ensures ConsumedAfter(prior, wanted, j)[s] <==> Occurrences(prior, key, s) < Occurrences(wanted, key, j)
      {
        if c.Some? && prior[c.value] == Some(key) {
          if s < c.value {
            OccurrencesGrow(prior, key, s, c.value);
          } else if c.value < s {
            OccurrencesGrow(prior, key, c.value, s);
          }
        }
        OccurrencesGrow(prior, key, s, |prior|);
      }
    }
  }

  /**
   * For all lists: a keyed new child takes over an old one of its key if and only if as many of
   * that key precede it as precede the old one.
   */
  lemma DuplicatesPairUp(prior: seq<Key>, wanted: seq<Key>, j: nat, s: nat)
    requires j < |wanted| && s < |prior| && wanted[j].Some? && prior[s] == wanted[j]
    ensures var key := wanted[j].value;
            Claim(prior, wanted, j) == Some(s) <==> Occurrences(wanted, key, j) == Occurrences(prior, key, s)
  {
    hide ConsumedAfter, FirstFree;
    var key, consumed := wanted[j].value, ConsumedAfter(prior, wanted, j);
    TakenByCount(prior, wanted, j, key);
    NextFree(prior, consumed, key, Occurrences(wanted, key, j));
    OccurrencesGrow(prior, key, s, |prior|);
    var free := FirstFree(prior, consumed, key, 0);
    if free.Some? {
      OneOccurrence(prior, key, free.value, s);
    }
  }

  lemma OneOccurrence(keys: seq<Key>, key: string, a: nat, b: nat)
    requires a < |keys| && b < |keys| && keys[a] == keys[b] == Some(key)
    ensures Occurrences(keys, key, a) == Occurrences(keys, key, b) <==> a == b
  {
    if a < b {
      OccurrencesGrow(keys, key, a, b);
    } else if b < a {
      OccurrencesGrow(keys, key, b, a);
    }
  }

  /**
   * A keyed new child finds no old one of its key exactly when the old list has no more of them
   * than came before it; it then takes the unkeyed child at its position, or is built.
   */
  lemma DuplicateRebuilt(prior: seq<Key>, wanted: seq<Key>, j: nat)
    requires j < |wanted| && wanted[j].Some?
    ensures var key, c := wanted[j].value, Claim(prior, wanted, j);
            && ((c.Some? && prior[c.value] == wanted[j]) <==>
                Occurrences(wanted, key, j) < Occurrences(prior, key, |prior|))
            && (Occurrences(wanted, key, j) >= Occurrences(prior, key, |prior|) ==>
                  c == if j < |prior| && prior[j] == None then Some(j) else None)
  {
    Unclaimed(prior, wanted, j);
    var key, consumed := wanted[j].value, ConsumedAfter(prior, wanted, j);
    TakenByCount(prior, wanted, j, key);
    NextFree(prior, consumed, key, Occurrences(wanted, key, j));
    var free := FirstFree(prior, consumed, key, 0);
    if free.Some? {
      OccurrencesGrow(prior, key, free.value, |prior|);
    }
  }

  /** An unkeyed old child can only be claimed by the new child in its position. */
  lemma Unclaimed(prior: seq<Key>, wanted: seq<Key>, j: nat)
    requires j < |wanted|
    ensures j < |prior| && prior[j] == None ==> !ConsumedAfter(prior, wanted, j)[j]
  {
    if j < |prior| && prior[j] == None && ConsumedAfter(prior, wanted, j)[j] {
      var i := ConsumedBy(prior, wanted, j, j);
    }
  }

  /** A new child without a key takes over the old one in its position, if that has no key either. */
  lemma UnkeyedByPosition(prior: seq<Key>, wanted: seq<Key>, j: nat)
    requires j < |wanted| && wanted[j] == None
    ensures Claim(prior, wanted, j) == if j < |prior| && prior[j] == None then Some(j) else None
  {
    hide ConsumedAfter;
    Unclaimed(prior, wanted, j);
  }

  /** Equal runs pair up position by position even when keys repeat: a duplicate is not rebuilt. */
  lemma RepeatedKeysPairUp(keys: seq<Key>, j: nat)
    requires j < |keys| && keys[j].Some?
    ensures Claim(keys, keys, j) == Some(j)
  {
    DuplicatesPairUp(keys, keys, j, j);
  }

  // --- Insert-only updates ---

  /** `at` embeds `prior` in `wanted`, in order. */
  ghost predicate Embeds(prior: seq<Key>, wanted: seq<Key>, at: seq<nat>) {
    && |at| == |prior|
    && (forall i :: 0 <= i < |at| ==> at[i] < |wanted| && wanted[at[i]] == prior[i])
    && (forall i, k :: 0 <= i < k < |at| ==> at[i] < at[k])
  }

  /** No key occurs twice among the keyed entries. */
  ghost predicate NoDuplicates(keys: seq<Key>) {
    forall i, k :: 0 <= i < k < |keys| && keys[i].Some? ==> keys[i] != keys[k]
  }

  /**
   * When a keyed run is only inserted into, each claim takes the first old child not yet taken:
   * survivors are met in their old order.
   */
  lemma InsertOnlyClaims(prior: seq<Key>, wanted: seq<Key>, at: seq<nat>, j: nat)
    requires Embeds(prior, wanted, at) && NoDuplicates(wanted)
    requires forall i :: 0 <= i < |prior| ==> prior[i].Some?
    requires j < |wanted|
    ensures forall s :: 0 <= s < |prior| && at[s] == j ==> Claim(prior, wanted, j) == Some(s)
    ensures var c := Claim(prior, wanted, j);
            c.Some? ==> at[c.value] == j && forall i :: 0 <= i < c.value ==> ConsumedAfter(prior, wanted, j)[i]
    decreases j
  {
    var consumed := ConsumedAfter(prior, wanted, j);
    var c := Claim(prior, wanted, j);
    forall i | 0 <= i < j
      ensures Claim(prior, wanted, i).Some? ==> at[Claim(prior, wanted, i).value] == i
      ensures forall s :: 0 <= s < |prior| && at[s] == i ==> Claim(prior, wanted, i) == Some(s)
    {
      InsertOnlyClaims(prior, wanted, at, i);
    }
    if c.Some? {
      assert wanted[j] == prior[c.value] == wanted[at[c.value]];
      forall i | 0 <= i < c.value ensures consumed[i] {
        assert Claim(prior, wanted, at[i]) == Some(i);
        ClaimConsumes(prior, wanted, at[i], j);
      }
    }
    forall s | 0 <= s < |prior| && at[s] == j ensures c == Some(s) {
      if consumed[s] {
        var i := ConsumedBy(prior, wanted, j, s);
      }
      var free := FirstFree(prior, consumed, wanted[j].value, 0);
      assert prior[free.value] == wanted[at[free.value]] == wanted[j];
    }
  }

  // --- The key index ---

  function LastFree(prior: seq<Key>, consumed: seq<bool>, key: string, i: nat): seq<nat>
    requires |consumed| == |prior| && i < |prior|
  {
    if !consumed[i] && prior[i] == Some(key) then [i] else []
  }

  /** The unconsumed old children carrying `key` among the first `n`, first to last. */
  ghost function FreeSources(prior: seq<Key>, consumed: seq<bool>, key: string, n: nat): (r: seq<nat>)
    requires |consumed| == |prior| && n <= |prior|
  {
    if n == 0 then [] else FreeSources(prior, consumed, key, n - 1) + LastFree(prior, consumed, key, n - 1)
  }

  predicate FreeAt(prior: seq<Key>, consumed: seq<bool>, key: string, i: nat)
    requires |consumed| == |prior| && i < |prior|
  {
    !consumed[i] && prior[i] == Some(key)
  }

  lemma NoneYet(prior: seq<Key>, consumed: seq<bool>, key: string)
    requires |consumed| == |prior|
    ensures |FreeSources(prior, consumed, key, 0)| == 0
  {
  }

  lemma CountOneMore(prior: seq<Key>, consumed: seq<bool>, key: string, i: nat)
    requires |consumed| == |prior| && i < |prior|
    ensures |FreeSources(prior, consumed, key, i + 1)| ==
              |FreeSources(prior, consumed, key, i)| + if FreeAt(prior, consumed, key, i) then 1 else 0
  {
  }

  lemma {:induction false} FreeIsListed(prior: seq<Key>, consumed: seq<bool>, key: string, n: nat, i: nat)
    requires |consumed| == |prior| && i < n <= |prior| && FreeAt(prior, consumed, key, i)
    ensures |FreeSources(prior, consumed, key, n)| > 0
  {
    hide FreeSources, FreeAt;
    CountOneMore(prior, consumed, key, n - 1);
    if i < n - 1 {
      FreeIsListed(prior, consumed, key, n - 1, i);
    }
  }

  lemma {:induction false} SomeFree(prior: seq<Key>, consumed: seq<bool>, key: string, n: nat) returns (i: nat)
    requires |consumed| == |prior| && n <= |prior| && |FreeSources(prior, consumed, key, n)| > 0
    ensures i < n && FreeAt(prior, consumed, key, i)
  {
    hide FreeSources, FreeAt;
    NoneYet(prior, consumed, key);
    CountOneMore(prior, consumed, key, n - 1);
    if FreeAt(prior, consumed, key, n - 1) {
      i := n - 1;
    } else {
      i := SomeFree(prior, consumed, key, n - 1);
    }
  }

  lemma NoFreeSources(prior: seq<Key>, consumed: seq<bool>, key: string, n: nat)
    requires |consumed| == |prior| && n <= |prior|
    ensures FreeSources(prior, consumed, key, n) == [] <==>
            forall i :: 0 <= i < n ==> consumed[i] || prior[i] != Some(key)
  {
    hide FreeSources;
    if FreeSources(prior, consumed, key, n) == [] {
      forall i | 0 <= i < n
        ensures consumed[i] || prior[i] != Some(key)
      {
        if FreeAt(prior, consumed, key, i) {
          FreeIsListed(prior, consumed, key, n, i);
        }
      }
    } else {
      var i := SomeFree(prior, consumed, key, n);
    }
  }

  /** `index` holds, for every key, the queue of its unconsumed sources. */
  ghost predicate Indexes(index: map<string, seq<nat>>, prior: seq<Key>, consumed: seq<bool>, n: nat)
    requires |consumed| == |prior| && n <= |prior|
  {
    forall key :: FreeSources(prior, consumed, key, n) == if key in index then index[key] else []
  }

  function Queued(index: map<string, seq<nat>>, key: string, i: nat): map<string, seq<nat>> {
    index[key := (if key in index then index[key] else []) + [i]]
  }

  lemma QueuedIndexes(index: map<string, seq<nat>>, prior: seq<Key>, consumed: seq<bool>, i: nat)
    requires |consumed| == |prior| && i < |prior| && !consumed[i] && Indexes(index, prior, consumed, i)
    ensures Indexes(if prior[i].Some? then Queued(index, prior[i].value, i) else index, prior, consumed, i + 1)
  {
    var after := if prior[i].Some? then Queued(index, prior[i].value, i) else index;
    forall key: string
      ensures FreeSources(prior, consumed, key, i + 1) == if key in after then after[key] else []
    {
      assert FreeSources(prior, consumed, key, i) == if key in index then index[key] else [];
      assert FreeSources(prior, consumed, key, i + 1)
          == FreeSources(prior, consumed, key, i) + LastFree(prior, consumed, key, i);
    }
  }

  lemma NothingIndexed(prior: seq<Key>)
    ensures Indexes(map[], prior, seq(|prior|, i => false), 0)
  {
  }

  /** Builds the index in one pass. */
  method IndexKeys(prior: seq<Key>) returns (index: map<string, seq<nat>>)
    ensures Indexes(index, prior, seq(|prior|, i => false), |prior|)
  {
    hide FreeSources;
    index := map[];
    NothingIndexed(prior);
    ghost var consumed := seq(|prior|, i => false);
    for i := 0 to |prior|
      invariant Indexes(index, prior, consumed, i)
    {
      QueuedIndexes(index, prior, consumed, i);
      if prior[i].Some? {
        index := Queued(index, prior[i].value, i);
      }
    }
  }

  /** The head of a queue is the first unconsumed source of its key; consuming it drops the head. */
  ghost predicate Fronted(prior: seq<Key>, consumed: seq<bool>, key: string, n: nat)
    requires |consumed| == |prior| && n <= |prior|
  {
    var free := FreeSources(prior, consumed, key, n);
    && free != [] && free[0] < n && !consumed[free[0]] && prior[free[0]] == Some(key)
    && (forall i :: 0 <= i < free[0] ==> consumed[i] || prior[i] != Some(key))
    && FreeSources(prior, consumed[free[0] := true], key, n) == free[1..]
  }

  lemma {:induction false} QueueFront(prior: seq<Key>, consumed: seq<bool>, key: string, n: nat)
    requires |consumed| == |prior| && n <= |prior|
    requires FreeSources(prior, consumed, key, n) != []
    ensures Fronted(prior, consumed, key, n)
  {
    hide Fronted, LastFree;
    if FreeSources(prior, consumed, key, n - 1) != [] {
      QueueFront(prior, consumed, key, n - 1);
      FrontStays(prior, consumed, key, n);
    } else {
      FrontArrives(prior, consumed, key, n);
    }
  }

  lemma FrontStays(prior: seq<Key>, consumed: seq<bool>, key: string, n: nat)
    requires |consumed| == |prior| && 0 < n <= |prior| && Fronted(prior, consumed, key, n - 1)
    ensures Fronted(prior, consumed, key, n)
  {
    hide LastFree;
    var rest, last := FreeSources(prior, consumed, key, n - 1), LastFree(prior, consumed, key, n - 1);
    LastOnly(prior, consumed, key, n - 1);
    LastOnly(prior, consumed[rest[0] := true], key, n - 1);
    assert (rest + last)[0] == rest[0] && (rest + last)[1..] == rest[1..] + last;
  }

  lemma FrontArrives(prior: seq<Key>, consumed: seq<bool>, key: string, n: nat)
    requires |consumed| == |prior| && 0 < n <= |prior|
    requires FreeSources(prior, consumed, key, n - 1) == [] && FreeSources(prior, consumed, key, n) != []
    ensures Fronted(prior, consumed, key, n)
  {
    hide LastFree, FreeSources;
    var after := consumed[n - 1 := true];
    FreeSnoc(prior, consumed, key, n);
    FreeSnoc(prior, after, key, n);
    LastOnly(prior, consumed, key, n - 1);
    LastOnly(prior, after, key, n - 1);
    NoFreeSources(prior, consumed, key, n - 1);
    NothingFree(prior, consumed, key, n - 1, n - 1);
  }

  lemma FreeSnoc(prior: seq<Key>, consumed: seq<bool>, key: string, n: nat)
    requires |consumed| == |prior| && 0 < n <= |prior|
    ensures FreeSources(prior, consumed, key, n) ==
              FreeSources(prior, consumed, key, n - 1) + LastFree(prior, consumed, key, n - 1)
  {
  }

  lemma LastOnly(prior: seq<Key>, consumed: seq<bool>, key: string, i: nat)
    requires |consumed| == |prior| && i < |prior|
    ensures LastFree(prior, consumed, key, i) == if !consumed[i] && prior[i] == Some(key) then [i] else []
  {
  }

  lemma {:induction false} NothingFree(prior: seq<Key>, consumed: seq<bool>, key: string, n: nat, s: nat)
    requires |consumed| == |prior| && n <= s < |prior|
    ensures FreeSources(prior, consumed[s := true], key, n) == FreeSources(prior, consumed, key, n)
  {
    if n > 0 {
      NothingFree(prior, consumed, key, n - 1, s);
    }
  }

  /** Consuming a source of another key leaves a queue as it was. */
  lemma {:induction false} OtherQueue(prior: seq<Key>, consumed: seq<bool>, key: string, n: nat, s: nat)
    requires |consumed| == |prior| && n <= |prior| && s < |prior| && prior[s] != Some(key)
    ensures FreeSources(prior, consumed[s := true], key, n) == FreeSources(prior, consumed, key, n)
  {
    if n > 0 {
      OtherQueue(prior, consumed, key, n - 1, s);
    }
  }

  /**
   * Resolves one new child through the index: it claims what the naive scan would, duplicate
   * keys included, and leaves the index ready for the next child.
   */
  method ClaimSource(index: map<string, seq<nat>>, prior: seq<Key>, consumed: seq<bool>, j: nat, key: Key)
    returns (source: Option<nat>, rest: map<string, seq<nat>>)
    requires |consumed| == |prior| && Indexes(index, prior, consumed, |prior|)
    ensures source == ClaimOf(prior, consumed, j, key)
    ensures Indexes(rest, prior, Consume(consumed, source), |prior|)
  {
    hide FreeSources;
    source, rest := None, index;
    if key.Some? && key.value in index {
      var queue := index[key.value];
      assert queue == FreeSources(prior, consumed, key.value, |prior|);
      if queue != [] {
        QueueFront(prior, consumed, key.value, |prior|);
        source, rest := Some(queue[0]), index[key.value := queue[1..]];
        forall k | k != key.value
          ensures FreeSources(prior, consumed[queue[0] := true], k, |prior|) == FreeSources(prior, consumed, k, |prior|)
        {
          OtherQueue(prior, consumed, k, |prior|, queue[0]);
        }
        return;
      }
    }
    if key.Some? {
      assert FreeSources(prior, consumed, key.value, |prior|) == [];
      NoFreeSources(prior, consumed, key.value, |prior|);
    }
    if j < |consumed| && !consumed[j] && prior[j] == None {
      source := Some(j);
      forall k: string
        ensures FreeSources(prior, consumed[j := true], k, |prior|) == FreeSources(prior, consumed, k, |prior|)
      {
        OtherQueue(prior, consumed, k, |prior|, j);
      }
    }
  }
}
