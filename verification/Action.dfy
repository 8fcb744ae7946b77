/**
 * Client-initiated writes: a dispatch bumps a shared generation, and a completion whose
 * generation is no longer the newest is discarded. Generations are unbounded.
 */
module Action {
  import opened Prelude

  datatype Outcome<O> = Done(value: O) | Failed(message: string)

  /** The shared cell, the three signals, and the runs that are still in flight. */
  datatype State<O> = State(
    generation: nat,
    pending: bool,
    value: Option<O>,
    error: Option<string>,
    flights: set<nat>)

  /** `Dispatched(false)` is a dispatch whose future factory panics. */
  datatype Event<O> = Dispatched(factoryReturns: bool) | Completed(run: nat, outcome: Outcome<O>)

  function Idle<O>(): State<O> {
    State(0, false, None, None, {})
  }

  predicate Enabled<O>(s: State<O>, e: Event<O>) {
    e.Completed? ==> e.run in s.flights
  }

  function Settled<O>(s: State<O>, outcome: Outcome<O>): State<O> {
    match outcome
    case Done(v) => s.(pending := false, value := Some(v))
    case Failed(m) => s.(pending := false, error := Some(m))
  }

  function Step<O>(s: State<O>, e: Event<O>): State<O> {
    match e
    case Dispatched(false) => s.(generation := s.generation + 1)
    case Dispatched(true) =>
      State(s.generation + 1, true, s.value, None, s.flights + {s.generation + 1})
    case Completed(run, outcome) =>
      var left := s.(flights := s.flights - {run});
      if s.generation != run then left else Settled(left, outcome)
  }

  /** One action with its signals. */
  class Runner<O(==)> {
    var generation: nat
    var pending: bool
    var value: Option<O>
    var error: Option<string>
    var flights: set<nat>

    ghost function Now(): State<O>
      reads this
    {
      State(generation, pending, value, error, flights)
    }

    constructor ()
      ensures Now() == Idle()
    {
      generation, pending, value, error, flights := 0, false, None, None, {};
    }

    /**
     * Bumps the generation, builds the future, and only then marks the run as pending: a factory
     * that panics unwinds before anything else is written.
     */
    method Dispatch(factoryReturns: bool) returns (run: nat)
      modifies this
      ensures Now() == Step(old(Now()), Dispatched(factoryReturns)) && run == generation
    {
      run := generation + 1;
      generation := run;
      if !factoryReturns {
        return;
      }
      pending, error := true, None;
      flights := flights + {run};
    }

    /** A run resolves; its outcome is applied if no newer run has started. */
    method Complete(run: nat, outcome: Outcome<O>)
      requires run in flights
      modifies this
      ensures Now() == Step(old(Now()), Completed(run, outcome))
    {
      flights := flights - {run};
      if generation != run {
        return;
      }
      pending := false;
      match outcome {
        case Done(v) => value := Some(v);
        case Failed(m) => error := Some(m);
      }
    }
  }

  // --- Runs ---

  ghost predicate Feasible<O>(s: State<O>, events: seq<Event<O>>)
    decreases |events|
  {
    events == [] || (Enabled(s, events[0]) && Feasible(Step(s, events[0]), events[1..]))
  }

  ghost function Run<O>(s: State<O>, events: seq<Event<O>>): State<O>
    decreases |events|
  {
    if events == [] then s else Run(Step(s, events[0]), events[1..])
  }

  lemma {:induction false} RunSnoc<O>(s: State<O>, events: seq<Event<O>>, e: Event<O>)
    ensures Run(s, events + [e]) == Step(Run(s, events), e)
    ensures Feasible(s, events + [e]) <==> Feasible(s, events) && Enabled(Run(s, events), e)
    decreases |events|
  {
    if events == [] {
      assert [e][1..] == [] && events + [e] == [e];
    } else {
      assert (events + [e])[1..] == events[1..] + [e] && (events + [e])[0] == events[0];
      RunSnoc(Step(s, events[0]), events[1..], e);
    }
  }

  function Dispatches<O>(events: seq<Event<O>>): nat {
    if events == [] then 0
    else Dispatches(events[..|events| - 1]) + (if events[|events| - 1].Dispatched? then 1 else 0)
  }

  /** Dispatch number `run` built its future. */
  ghost predicate Started<O>(events: seq<Event<O>>, run: nat) {
    events != [] &&
    ((events[|events| - 1] == Dispatched(true) && Dispatches(events) == run) || Started(events[..|events| - 1], run))
  }

  /** The latest dispatch that did, or 0. */
  ghost function Latest<O>(events: seq<Event<O>>): nat {
    if events == [] then 0
    else if events[|events| - 1] == Dispatched(true) then Dispatches(events)
    else Latest(events[..|events| - 1])
  }

  /** The outcome with which `run` completed, if it has. */
  ghost function OutcomeOf<O>(events: seq<Event<O>>, run: nat): Option<Outcome<O>> {
    if events == [] then None
    else
      var e := events[|events| - 1];
      if e.Completed? && e.run == run then Some(e.outcome) else OutcomeOf(events[..|events| - 1], run)
  }

  /** The same, but only if no dispatch, of either kind, came in between. */
  ghost function Applied<O>(events: seq<Event<O>>, run: nat): Option<Outcome<O>> {
    if events == [] then None
    else
      var e, before := events[|events| - 1], events[..|events| - 1];
      if e.Completed? && e.run == run && Dispatches(before) == run then Some(e.outcome) else Applied(before, run)
  }

  function ErrorOf<O>(outcome: Option<Outcome<O>>): Option<string> {
    match outcome
    case Some(Failed(m)) => Some(m)
    case _ => None
  }

  /** The value of the newest of the first `n` dispatches that succeeded while it was the latest. */
  ghost function LastSuccess<O>(events: seq<Event<O>>, n: nat): Option<O> {
    if n == 0 then None
    else
      match Applied(events, n)
      case Some(Done(v)) => Some(v)
      case _ => LastSuccess(events, n - 1)
  }

  ghost predicate InFlight<O>(s: State<O>, events: seq<Event<O>>) {
    forall r: nat :: r in s.flights <==> Started(events, r) && OutcomeOf(events, r) == None
  }

  /** What the state says, from the events alone. */
  ghost predicate Explained<O>(s: State<O>, events: seq<Event<O>>) {
    var n, latest := Dispatches(events), Latest(events);
    && s.generation == n
    && InFlight(s, events)
    && (s.pending <==> latest > 0 && Applied(events, latest) == None)
    && s.error == ErrorOf(Applied(events, latest))
    && s.value == LastSuccess(events, n)
  }

  /** What the run numbers obey. */
  ghost predicate Consistent<O>(events: seq<Event<O>>) {
    var n, latest := Dispatches(events), Latest(events);
    && (forall r: nat :: Started(events, r) ==> 1 <= r <= latest)
    && latest <= n && (latest > 0 ==> Started(events, latest))
    && (forall r: nat :: OutcomeOf(events, r).Some? ==> Started(events, r))
    && (forall r: nat :: Applied(events, r).Some? ==> OutcomeOf(events, r) == Applied(events, r))
  }

  lemma {:induction false} SameSuccess<O>(a: seq<Event<O>>, b: seq<Event<O>>, n: nat)
    requires forall r: nat :: r <= n ==> Applied(a, r) == Applied(b, r)
    ensures LastSuccess(a, n) == LastSuccess(b, n)
  {
    hide Applied;
    if n > 0 {
      SameSuccess(a, b, n - 1);
    }
  }

  /** How the explanation of a run changes with one more event. */
  lemma Later<O>(before: seq<Event<O>>, e: Event<O>, r: nat)
    ensures var events := before + [e];
            && Dispatches(events) == Dispatches(before) + (if e.Dispatched? then 1 else 0)
            && (Started(events, r) <==> (e == Dispatched(true) && Dispatches(before) + 1 == r) || Started(before, r))
            && Latest(events) == (if e == Dispatched(true) then Dispatches(before) + 1 else Latest(before))
            && OutcomeOf(events, r) == (if e.Completed? && e.run == r then Some(e.outcome) else OutcomeOf(before, r))
            && Applied(events, r) ==
                 if e.Completed? && e.run == r && Dispatches(before) == r then Some(e.outcome) else Applied(before, r)
  {
    assert (before + [e])[..|before|] == before;
  }

  lemma ConsistentLater<O>(before: seq<Event<O>>, e: Event<O>)
    requires Consistent(before) && (e.Completed? ==> Started(before, e.run) && OutcomeOf(before, e.run) == None)
    ensures Consistent(before + [e])
  {
    hide Started, Latest, OutcomeOf, Applied, Dispatches;
    forall r: nat {
      Later(before, e, r);
    }
    Later(before, e, 0);
  }

  lemma FlightsLater<O>(s: State<O>, before: seq<Event<O>>, e: Event<O>)
    requires InFlight(s, before) && Consistent(before) && s.generation == Dispatches(before)
    ensures InFlight(Step(s, e), before + [e])
  {
    hide Started, Latest, OutcomeOf, Applied, Dispatches;
    forall r: nat {
      Later(before, e, r);
    }
  }

  lemma SuccessLater<O>(before: seq<Event<O>>, e: Event<O>)
    requires Consistent(before) && (e.Completed? ==> Started(before, e.run) && OutcomeOf(before, e.run) == None)
    ensures var events, n := before + [e], Dispatches(before);
            LastSuccess(events, Dispatches(events)) ==
              if e.Completed? && e.run == n && e.outcome.Done? then Some(e.outcome.value) else LastSuccess(before, n)
  {
    hide Started, Latest, OutcomeOf, Applied, Dispatches;
    forall r: nat {
      Later(before, e, r);
    }
    var n := Dispatches(before);
    SameSuccess(before, before + [e], if e.Completed? && e.run == n then n - 1 else n);
  }

  /**
   * Over every run, whatever the order of completions and whichever factories panic: `pending` holds
   * exactly while the latest dispatch that built a future has not completed as the newest one,
   * `error` is that dispatch's, and `value` is that of the newest dispatch to have succeeded so.
   */
  lemma {:induction false} SignalsExplained<O>(events: seq<Event<O>>)
    requires Feasible(Idle(), events)
    ensures Explained(Run(Idle(), events), events) && Consistent(events)
    decreases |events|
  {
    if events != [] {
      var before, e := events[..|events| - 1], events[|events| - 1];
      assert events == before + [e];
      RunSnoc(Idle(), before, e);
      SignalsExplained(before);
      var s := Run(Idle(), before);
      if e.Completed? {
        assert e.run in s.flights;
      }
      FlightsLater(s, before, e);
      hide Feasible, Run, Started, Latest, OutcomeOf, Applied, Dispatches, LastSuccess, InFlight;
      Later(before, e, Latest(before));
      Later(before, e, Dispatches(before));
      Later(before, e, Dispatches(before) + 1);
      ConsistentLater(before, e);
      SuccessLater(before, e);
    }
  }

  // --- Superseded runs ---

  /** The runs in flight were dispatched. */
  ghost predicate Numbered<O>(s: State<O>) {
    forall r :: r in s.flights ==> 1 <= r <= s.generation
  }

  lemma {:induction false} GenerationGrows<O>(s: State<O>, events: seq<Event<O>>)
    requires Numbered(s)
    ensures Run(s, events).generation >= s.generation && Numbered(Run(s, events))
    decreases |events|
  {
    if events != [] {
      GenerationGrows(Step(s, events[0]), events[1..]);
    }
  }

  /** A run that was once superseded never writes a signal, however much later it completes. */
  lemma SupersededNeverWrites<O>(s: State<O>, events: seq<Event<O>>, run: nat, outcome: Outcome<O>)
    requires Numbered(s) && run < s.generation
    ensures var t := Run(s, events);
            Step(t, Completed(run, outcome)) == t.(flights := t.flights - {run})
  {
    GenerationGrows(s, events);
  }

  // --- Factories that panic ---

  ghost predicate Faithful<O>(s: State<O>) {
    s.pending <==> s.generation in s.flights
  }

  /** No factory panics while a run is pending. */
  ghost predicate NoPanicWhilePending<O>(events: seq<Event<O>>) {
    forall k :: 0 <= k < |events| && events[k] == Dispatched(false) ==> !Run(Idle(), events[..k]).pending
  }

  /** The generation is bumped before the factory runs: a panic there is harmless only when idle. */
  lemma PanicExact<O>(s: State<O>, e: Event<O>)
    requires Numbered(s) && Faithful(s) && Enabled(s, e)
    ensures Faithful(Step(s, e)) <==> !(e == Dispatched(false) && s.pending)
  {
  }

  /** A panic during a run supersedes it, and `pending` stays set with nothing in flight. */
  lemma PanicLatchesPending<O>(o: Outcome<O>)
    ensures var events := [Dispatched(true), Dispatched(false), Completed(1, o)];
            && Feasible(Idle(), events)
            && Run<O>(Idle(), events).pending && Run<O>(Idle(), events).flights == {}
  {
    var events := [Dispatched(true), Dispatched(false), Completed(1, o)];
    RunSnoc<O>(Idle(), [], events[0]);
    RunSnoc(Idle(), [events[0]], events[1]);
    RunSnoc(Idle(), [events[0], events[1]], events[2]);
    assert events == [events[0], events[1]] + [events[2]];
    assert [events[0], events[1]] == [events[0]] + [events[1]];
    assert [events[0]] == [] + [events[0]];
  }

  lemma {:induction false} Prefix<O>(events: seq<Event<O>>, k: nat)
    requires Feasible(Idle(), events) && k < |events|
    ensures var s := Run(Idle(), events[..k]);
            && Feasible(Idle(), events[..k]) && Enabled(s, events[k]) && Numbered(s)
            && Run(Idle(), events[..k + 1]) == Step(s, events[k])
    decreases |events|
  {
    hide Run, Feasible, Enabled;
    var before, e := events[..|events| - 1], events[|events| - 1];
    assert events == before + [e];
    RunSnoc(Idle(), before, e);
    if k < |before| {
      assert before[..k] == events[..k] && before[..k + 1] == events[..k + 1];
      Prefix(before, k);
    } else {
      assert events[..k] == before && events[..k + 1] == events;
      GenerationGrows(Idle(), before);
    }
  }

  /**
   * Over every run: `pending` always says whether the newest run is in flight if and only if no factory
   * panics while it is set.
   */
  lemma {:induction false} FaithfulExactly<O>(events: seq<Event<O>>)
    requires Feasible(Idle(), events)
    ensures (forall k :: 0 <= k <= |events| ==> Faithful(Run(Idle(), events[..k]))) <==> NoPanicWhilePending(events)
  {
    hide Run, Feasible, Step, Enabled;
    if forall k :: 0 <= k <= |events| ==> Faithful(Run(Idle(), events[..k])) {
      forall k | 0 <= k < |events| && events[k] == Dispatched(false) ensures !Run(Idle(), events[..k]).pending {
        Prefix(events, k);
        PanicExact(Run(Idle(), events[..k]), events[k]);
        assert Faithful(Run(Idle(), events[..k + 1]));
      }
    }
    if NoPanicWhilePending(events) {
      forall k | 0 <= k <= |events| ensures Faithful(Run(Idle(), events[..k])) {
        FaithfulUpTo(events, k);
      }
    }
  }

  lemma {:induction false} FaithfulUpTo<O>(events: seq<Event<O>>, k: nat)
    requires Feasible(Idle(), events) && NoPanicWhilePending(events) && k <= |events|
    ensures Faithful(Run(Idle(), events[..k]))
  {
    if k > 0 {
      FaithfulUpTo(events, k - 1);
      Prefix(events, k - 1);
      PanicExact(Run(Idle(), events[..k - 1]), events[k - 1]);
    } else {
      assert events[..0] == [];
    }
  }

  /** Then the latest run is still the newest when it completes. */
  lemma {:induction false} AppliedIsOutcome<O>(events: seq<Event<O>>)
    requires Feasible(Idle(), events) && NoPanicWhilePending(events)
    ensures Applied(events, Latest(events)) == OutcomeOf(events, Latest(events))
    decreases |events|
  {
    if events != [] {
      var before, e := events[..|events| - 1], events[|events| - 1];
      assert events == before + [e];
      assert forall k :: 0 <= k < |before| ==> before[..k] == events[..k];
      RunSnoc(Idle(), before, e);
      AppliedIsOutcome(before);
      SignalsExplained(before);
      FaithfulUpTo(before, |before|);
      assert before[..|before|] == before;
      hide Feasible, Run, Started, Latest, OutcomeOf, Applied, Dispatches, LastSuccess, Step;
      Later(before, e, Latest(events));
      var s := Run(Idle(), before);
      if e.Completed? && e.run == Latest(before) {
        assert s.pending;
        assert Started(before, s.generation);
      }
    }
  }

  /** Then `pending` and `error` are those of the latest run, by its outcome alone. */
  lemma LatestPending<O>(events: seq<Event<O>>)
    requires Feasible(Idle(), events) && NoPanicWhilePending(events)
    ensures var s, latest := Run(Idle(), events), Latest(events);
            && (s.pending <==> s.generation in s.flights)
            && (s.pending <==> latest > 0 && OutcomeOf(events, latest) == None)
            && s.error == ErrorOf(OutcomeOf(events, latest))
  {
    hide Run, Feasible, Started, Latest, OutcomeOf, Applied, Dispatches, LastSuccess;
    SignalsExplained(events);
    AppliedIsOutcome(events);
    FaithfulUpTo(events, |events|);
    assert events[..|events|] == events;
  }

  /** Two runs with the same latest dispatch and the same outcomes agree on `pending` and `error`. */
  lemma OrderDoesNotMatter<O>(a: seq<Event<O>>, b: seq<Event<O>>)
    requires Feasible(Idle(), a) && Feasible(Idle(), b) && NoPanicWhilePending(a) && NoPanicWhilePending(b)
    requires Latest(a) == Latest(b) && forall r: nat :: OutcomeOf(a, r) == OutcomeOf(b, r)
    ensures Run(Idle(), a).pending == Run(Idle(), b).pending && Run(Idle(), a).error == Run(Idle(), b).error
  {
    LatestPending(a);
    LatestPending(b);
  }

  /** `value`, in contrast, is that of the last run that succeeded while it was the latest. */
  lemma ValueDependsOnOrder<O>(v: O)
    ensures var first, second := Completed(1, Done(v)), Completed(2, Failed("down"));
            var a := [Dispatched(true), first, Dispatched(true), second];
            var b := [Dispatched(true), Dispatched(true), second, first];
            && Feasible(Idle(), a) && Feasible(Idle(), b)
            && (forall i :: 0 <= i < 4 ==> a[i] != Dispatched(false) && b[i] != Dispatched(false))
            && Latest(a) == Latest(b) && (forall r: nat :: OutcomeOf(a, r) == OutcomeOf(b, r))
            && Run(Idle(), a).value == Some(v) && Run<O>(Idle(), b).value == None
  {
    var first, second := Completed(1, Done(v)), Completed(2, Failed("down"));
    var a := [Dispatched(true), first, Dispatched(true), second];
    var b := [Dispatched(true), Dispatched(true), second, first];
    Four(a);
    Four(b);
    forall r: nat ensures OutcomeOf(a, r) == OutcomeOf(b, r) && Latest(a) == Latest(b) {
      FourEvents(a, r);
      FourEvents(b, r);
    }
    assert OutcomeOf(a, 0) == OutcomeOf(b, 0);
  }

  lemma FourEvents<O>(es: seq<Event<O>>, r: nat)
    requires |es| == 4
    ensures OutcomeOf(es, r) ==
              if es[3].Completed? && es[3].run == r then Some(es[3].outcome)
              else if es[2].Completed? && es[2].run == r then Some(es[2].outcome)
              else if es[1].Completed? && es[1].run == r then Some(es[1].outcome)
              else if es[0].Completed? && es[0].run == r then Some(es[0].outcome)
              else None
    ensures var n := i requires 0 <= i < 4 => if es[i].Dispatched? then 1 else 0;
            Latest(es) ==
              if es[3] == Dispatched(true) then n(0) + n(1) + n(2) + n(3)
              else if es[2] == Dispatched(true) then n(0) + n(1) + n(2)
              else if es[1] == Dispatched(true) then n(0) + n(1)
              else if es[0] == Dispatched(true) then 1
              else 0
  {
    Later([], es[0], r);
    Later([es[0]], es[1], r);
    Later([es[0], es[1]], es[2], r);
    Later([es[0], es[1], es[2]], es[3], r);
    assert es == [es[0], es[1], es[2]] + [es[3]];
    assert [es[0], es[1], es[2]] == [es[0], es[1]] + [es[2]];
    assert [es[0], es[1]] == [es[0]] + [es[1]];
    assert [es[0]] == [] + [es[0]];
  }

  lemma Four<O>(es: seq<Event<O>>)
    requires |es| == 4
    ensures Run(Idle(), es) == Step(Step(Step(Step(Idle(), es[0]), es[1]), es[2]), es[3])
    ensures Feasible(Idle(), es) <==>
            && Enabled(Idle(), es[0]) && Enabled(Step(Idle(), es[0]), es[1])
            && Enabled(Step(Step(Idle(), es[0]), es[1]), es[2])
            && Enabled(Step(Step(Step(Idle(), es[0]), es[1]), es[2]), es[3])
  {
    RunSnoc(Idle(), [], es[0]);
    RunSnoc(Idle(), [es[0]], es[1]);
    RunSnoc(Idle(), [es[0], es[1]], es[2]);
    RunSnoc(Idle(), [es[0], es[1], es[2]], es[3]);
    assert es == [es[0], es[1], es[2]] + [es[3]];
    assert [es[0], es[1], es[2]] == [es[0], es[1]] + [es[2]];
    assert [es[0], es[1]] == [es[0]] + [es[1]];
    assert [es[0]] == [] + [es[0]];
  }
}
