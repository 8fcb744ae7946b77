/**
 * Client-side navigation: a navigation claims a generation, fetches, and commits only if no newer
 * one has started. Generations are unbounded; a fetch is a step that completes at any later time.
 */
module Navigation {
  import opened Prelude
  import opened Html
  import opened Extraction

  function StripFragment(url: string): string {
    match FindChar(url, '#')
    case Some(i) => url[..i]
    case None => url
  }

  /** The URLs differ only by fragment, and the second has one. */
  predicate IsSameDocumentFragment(current: string, next: string) {
    StripFragment(current) == StripFragment(next) && '#' in next
  }

  /** The fragment is everything from the first `#` on. */
  lemma FragmentStripped(page: string, fragment: string)
    requires '#' !in page
    ensures StripFragment(page + "#" + fragment) == page && StripFragment(page) == page
  {
    hide FindChar;
    assert page + "#" + fragment == page + (['#'] + fragment);
    FoundAfter(page, fragment);
    NotFound(page, '#');
    assert (page + (['#'] + fragment))[..|page|] == page;
  }

  lemma {:induction false} FoundAfter(page: string, fragment: string)
    requires '#' !in page
    ensures FindChar(page + (['#'] + fragment), '#') == Some(|page|)
  {
    if page != [] {
      assert (page + (['#'] + fragment))[1..] == page[1..] + (['#'] + fragment);
      FoundAfter(page[1..], fragment);
    }
  }

  lemma {:induction false} NotFound(s: string, c: char)
    requires c !in s
    ensures FindChar(s, c) == None
  {
    if s != [] {
      NotFound(s[1..], c);
    }
  }

  /** A navigation stays within the document exactly when it goes to a fragment, maybe empty, of the same page. */
  lemma SameDocumentExactly(current: string, next: string)
    ensures IsSameDocumentFragment(current, next) <==>
            exists fragment :: next == StripFragment(current) + "#" + fragment
  {
    hide FindChar;
    NoMark(current);
    if '#' in next {
      var fragment := CutAt(next);
      if IsSameDocumentFragment(current, next) {
        assert next == StripFragment(current) + "#" + fragment;
      }
    }
    if fragment :| next == StripFragment(current) + "#" + fragment {
      FragmentStripped(StripFragment(current), fragment);
      assert next[|StripFragment(current)|] == '#';
    }
  }

  lemma NoMark(url: string)
    ensures '#' !in StripFragment(url)
  {
  }

  lemma CutAt(url: string) returns (fragment: string)
    requires '#' in url
    ensures url == StripFragment(url) + "#" + fragment
  {
    var i := FindChar(url, '#').value;
    fragment := url[i + 1..];
  }

  /** What a fetch yields; `finalUrl` is the URL after redirects. */
  datatype Response = Failed | Fetched(html: string, finalUrl: Option<string>)

  datatype Flight = Flight(href: string, push: bool)

  /**
   * The navigation counter, the URL the outlet's content came from, and the page: address bar,
   * the outlet's content if the page has an outlet, title, pushed history entries and requested
   * full page loads. `source` and `commits` record what was swapped in.
   */
  datatype State = State(
    generation: nat,
    rendered: Option<string>,
    location: string,
    outlet: Option<string>,
    title: string,
    pushed: seq<string>,
    loads: seq<string>,
    flights: map<nat, Flight>,
    source: string,
    commits: seq<nat>)

  datatype Event =
    | Clicked(href: string)
    | PoppedTo(url: string)
    | Arrived(run: nat, response: Response)
    | OutletRemoved

  function RenderedUrl(s: State): string {
    match s.rendered
    case Some(url) => url
    case None => s.location
  }

  /** `url` unless the browser refuses to push it, then `requested` unless it refuses that. */
  function PushHistory(s: State, url: string, requested: string, ok: string -> bool): State {
    if ok(url) then s.(location := url, pushed := s.pushed + [url])
    else if ok(requested) then s.(location := requested, pushed := s.pushed + [requested])
    else s
  }

  /** Up to the fetch. */
  function Navigated(s: State, href: string, push: bool, ok: string -> bool): State {
    if IsSameDocumentFragment(RenderedUrl(s), href) then
      var r := s.(rendered := Some(href));
      if push then PushHistory(r, href, href, ok) else r
    else if s.outlet == None then s.(loads := s.loads + [href])
    else
      var n := s.generation + 1;
      s.(generation := n, flights := s.flights[n := Flight(href, push)])
  }

  /** The swap. */
  function Committed(s: State, run: nat, f: Flight, html: string, content: string, url: string,
                     ok: string -> bool): State {
    var swapped := s.(rendered := Some(url), outlet := Some(content), source := url, commits := s.commits + [run],
                      title := match TitleText(html) case Some(t) => t case None => s.title);
    if f.push then PushHistory(swapped, url, f.href, ok) else swapped
  }

  function UrlOf(f: Flight, finalUrl: Option<string>): string {
    match finalUrl
    case Some(url) => url
    case None => f.href
  }

  /** From the fetch on. */
  function Landed(s: State, run: nat, response: Response, ok: string -> bool): State
    requires run in s.flights
  {
    var f := s.flights[run];
    var left := s.(flights := s.flights - {run});
    if s.generation != run then left
    else
      match response
      case Failed => left.(loads := left.loads + [f.href])
      case Fetched(html, finalUrl) =>
        match OutletHtml(html)
        case None => left.(loads := left.loads + [f.href])
        case Some(content) =>
          if left.outlet == None then left.(loads := left.loads + [f.href])
          else Committed(left, run, f, html, content, UrlOf(f, finalUrl), ok)
  }

  predicate Enabled(s: State, e: Event) {
    e.Arrived? ==> e.run in s.flights
  }

  function Step(s: State, e: Event, ok: string -> bool): State
    requires Enabled(s, e)
  {
    match e
    case Clicked(href) => Navigated(s, href, true, ok)
    case PoppedTo(url) => Navigated(s.(location := url), url, false, ok)
    case Arrived(run, response) => Landed(s, run, response, ok)
    case OutletRemoved => s.(outlet := None)
  }

  /** The router's cells and the page it drives. */
  class Router {
    const pushOk: string -> bool
    var generation: nat
    var rendered: Option<string>
    var location: string
    var outlet: Option<string>
    var title: string
    var pushed: seq<string>
    var loads: seq<string>
    var flights: map<nat, Flight>
    ghost var source: string
    ghost var commits: seq<nat>

    ghost function Now(): State
      reads this
    {
      State(generation, rendered, location, outlet, title, pushed, loads, flights, source, commits)
    }

    constructor (pushOk: string -> bool, location: string, outlet: Option<string>, title: string)
      ensures Now() == Fresh(location, outlet, title) && this.pushOk == pushOk
    {
      this.pushOk := pushOk;
      this.location, this.outlet, this.title, source := location, outlet, title, location;
      generation, rendered, pushed, loads, flights, commits := 0, None, [], [], map[], [];
    }

    method Push(url: string, requested: string)
      modifies this`location, this`pushed
      ensures Now() == PushHistory(old(Now()), url, requested, pushOk)
    {
      if pushOk(url) {
        location, pushed := url, pushed + [url];
      } else if pushOk(requested) {
        location, pushed := requested, pushed + [requested];
      }
    }

    /** Navigates up to the fetch. */
    method NavigateTo(href: string, push: bool)
      modifies this
      ensures Now() == Navigated(old(Now()), href, push, pushOk)
    {
      var current := if rendered.Some? then rendered.value else location;
      if IsSameDocumentFragment(current, href) {
        rendered := Some(href);
        if push {
          Push(href, href);
        }
        return;
      }
      if outlet == None {
        loads := loads + [href];
        return;
      }
      generation := generation + 1;
      flights := flights[generation := Flight(href, push)];
    }

    /** The fetch of `run` came back; what happens from there on. */
    method Arrive(run: nat, response: Response)
      requires run in flights
      modifies this
      ensures Now() == Landed(old(Now()), run, response, pushOk)
    {
      hide OutletHtml, TitleText;
      var f := flights[run];
      flights := flights - {run};
      if generation != run {
        return;
      }
      if response.Failed? {
        loads := loads + [f.href];
        return;
      }
      var next := ExtractOutletHtml(response.html);
      if next.None? || outlet.None? {
        loads := loads + [f.href];
        return;
      }
      var url := UrlOf(f, response.finalUrl);
      outlet, rendered, source, commits := next, Some(url), url, commits + [run];
      var found := ExtractTitle(response.html);
      if found.Some? {
        title := found.value;
      }
      if f.push {
        Push(url, f.href);
      }
    }

    /** The browser has moved the address bar before the event fires. */
    method PopState(url: string)
      modifies this
      ensures Now() == Step(old(Now()), PoppedTo(url), pushOk)
    {
      location := url;
      NavigateTo(url, false);
    }
  }

  /** A page just loaded. */
  function Fresh(location: string, outlet: Option<string>, title: string): State {
    State(0, None, location, outlet, title, [], [], map[], location, [])
  }

  // --- Runs ---

  ghost predicate Feasible(s: State, events: seq<Event>, ok: string -> bool)
    decreases |events|
  {
    events == [] || (Enabled(s, events[0]) && Feasible(Step(s, events[0], ok), events[1..], ok))
  }

  ghost function Run(s: State, events: seq<Event>, ok: string -> bool): State
    requires Feasible(s, events, ok)
    decreases |events|
  {
    if events == [] then s else Run(Step(s, events[0], ok), events[1..], ok)
  }

  ghost predicate Increasing(s: seq<nat>) {
    forall i, j :: 0 <= i < j < |s| ==> s[i] < s[j]
  }

  /** Generations in flight were claimed, and committed ones are in flight no more. */
  ghost predicate Ordered(s: State) {
    && (forall n :: n in s.flights ==> 1 <= n <= s.generation)
    && Increasing(s.commits)
    && forall n :: n in s.commits ==> n <= s.generation && n !in s.flights
  }

  lemma StepOrdered(s: State, e: Event, ok: string -> bool)
    requires Ordered(s) && Enabled(s, e)
    ensures Ordered(Step(s, e, ok)) && s.generation <= Step(s, e, ok).generation && s.commits <= Step(s, e, ok).commits
  {
    hide OutletHtml, TitleText, StripFragment;
    var t := Step(s, e, ok);
    assert s.generation + 1 !in s.commits;
    if e.Arrived? {
      assert e.run !in s.commits;
      if s.generation == e.run {
        IncreasingNext(s.commits, e.run);
      }
      assert t.commits == s.commits || (s.generation == e.run && t.commits == s.commits + [e.run]);
      assert t.flights == s.flights - {e.run} && t.generation == s.generation;
    }
  }

  lemma IncreasingNext(s: seq<nat>, n: nat)
    requires Increasing(s) && n !in s && forall k :: k in s ==> k <= n
    ensures Increasing(s + [n])
  {
    forall i | 0 <= i < |s| ensures s[i] < n {
      assert s[i] in s;
    }
  }

  /** Over every run, in any interleaving: committed generations strictly increase. */
  lemma {:induction false} CommitsIncrease(s: State, events: seq<Event>, ok: string -> bool)
    requires Ordered(s) && Feasible(s, events, ok)
    ensures var t := Run(s, events, ok);
            Ordered(t) && Increasing(t.commits) && s.generation <= t.generation && s.commits <= t.commits
    decreases |events|
  {
    if events != [] {
      StepOrdered(s, events[0], ok);
      CommitsIncrease(Step(s, events[0], ok), events[1..], ok);
    }
  }

  /** A superseded navigation never writes outlet, title, history or location, however late it arrives. */
  lemma SupersededNeverWrites(s: State, events: seq<Event>, run: nat, response: Response, ok: string -> bool)
    requires Ordered(s) && Feasible(s, events, ok) && run < s.generation && run in Run(s, events, ok).flights
    ensures var t := Run(s, events, ok); Step(t, Arrived(run, response), ok) == t.(flights := t.flights - {run})
  {
    hide OutletHtml, TitleText;
    CommitsIncrease(s, events, ok);
  }

  // --- The latest navigation wins ---

  predicate Navigable(s: State, response: Response) {
    response.Fetched? && OutletHtml(response.html).Some? && s.outlet.Some?
  }

  lemma {:induction false} OutletStays(s: State, events: seq<Event>, ok: string -> bool)
    requires Ordered(s) && Feasible(s, events, ok) && s.generation !in s.flights && s.outlet.Some?
    requires Run(s, events, ok).generation == s.generation
    requires forall i :: 0 <= i < |events| ==> events[i] != OutletRemoved
    ensures var t := Run(s, events, ok);
            t.outlet == s.outlet && t.title == s.title && t.source == s.source && t.commits == s.commits
    decreases |events|
  {
    hide OutletHtml, TitleText, StripFragment;
    if events != [] {
      var n := Step(s, events[0], ok);
      StepOrdered(s, events[0], ok);
      CommitsIncrease(n, events[1..], ok);
      assert events[0] != OutletRemoved;
      assert forall i :: 0 <= i < |events[1..]| ==> events[1..][i] == events[i + 1];
      OutletStays(n, events[1..], ok);
    }
  }

  lemma {:induction false} RunConcat(s: State, a: seq<Event>, b: seq<Event>, ok: string -> bool)
    requires Feasible(s, a + b, ok)
    ensures Feasible(s, a, ok) && Feasible(Run(s, a, ok), b, ok)
    ensures Run(s, a + b, ok) == Run(Run(s, a, ok), b, ok)
    decreases |a|
  {
    hide Step;
    if a == [] {
      assert a + b == b;
    } else {
      assert (a + b)[1..] == a[1..] + b && (a + b)[0] == a[0];
      RunConcat(Step(s, a[0], ok), a[1..], b, ok);
    }
  }

  /**
   * Whatever arrives before or after it, and in whatever order: the newest navigation, once it
   * arrives with an outlet, determines outlet, title and source for good, and, if it was a click
   * whose final URL the browser accepts, the address bar up to fragment.
   */
  lemma LatestWins(s: State, before: seq<Event>, run: nat, response: Response, after: seq<Event>, ok: string -> bool)
    requires Ordered(s) && Feasible(s, before + [Arrived(run, response)] + after, ok)
    requires Run(s, before + [Arrived(run, response)] + after, ok).generation == run
    requires Feasible(s, before, ok) ==> Navigable(Run(s, before, ok), response)
    requires forall i :: 0 <= i < |after| ==> after[i] != OutletRemoved
    ensures var t := Run(s, before + [Arrived(run, response)] + after, ok);
            && Feasible(s, before, ok) && run in Run(s, before, ok).flights
            && var u := Run(s, before, ok);
            && t.outlet == OutletHtml(response.html) && t.source == UrlOf(u.flights[run], response.finalUrl)
            && t.title == (match TitleText(response.html) case Some(x) => x case None => u.title)
            && t.commits != [] && t.commits[|t.commits| - 1] == run
            && (u.flights[run].push && ok(t.source) ==> StripFragment(t.location) == StripFragment(t.source))
  {
    hide OutletHtml, TitleText, StripFragment;
    RunConcat(s, before + [Arrived(run, response)], after, ok);
    RunConcat(s, before, [Arrived(run, response)], ok);
    var u := Run(s, before, ok);
    CommitsIncrease(s, before, ok);
    assert [Arrived(run, response)][1..] == [];
    var v := Step(u, Arrived(run, response), ok);
    StepOrdered(u, Arrived(run, response), ok);
    CommitsIncrease(v, after, ok);
    OutletStays(v, after, ok);
    if u.flights[run].push && ok(v.source) {
      AddressStays(v, after, ok);
    }
  }

  /** While no newer navigation starts, the address bar stays within the document it names. */
  lemma {:induction false} AddressStays(s: State, events: seq<Event>, ok: string -> bool)
    requires Ordered(s) && Feasible(s, events, ok) && s.generation !in s.flights && s.outlet.Some? && s.rendered.Some?
    requires Run(s, events, ok).generation == s.generation
    requires forall i :: 0 <= i < |events| ==> events[i] != OutletRemoved
    requires StripFragment(s.location) == StripFragment(s.rendered.value)
    ensures StripFragment(Run(s, events, ok).location) == StripFragment(s.rendered.value)
    decreases |events|
  {
    hide OutletHtml, TitleText, StripFragment;
    if events != [] {
      var n := Step(s, events[0], ok);
      StepOrdered(s, events[0], ok);
      CommitsIncrease(n, events[1..], ok);
      assert events[0] != OutletRemoved;
      assert forall i :: 0 <= i < |events[1..]| ==> events[1..][i] == events[i + 1];
      AddressStays(n, events[1..], ok);
    }
  }

  // --- The address bar and the history ---

  /** A generation that is not in flight never is again. */
  lemma {:induction false} NotBack(s: State, events: seq<Event>, n: nat, ok: string -> bool)
    requires Ordered(s) && Feasible(s, events, ok) && n <= s.generation && n !in s.flights
    ensures n !in Run(s, events, ok).flights
    decreases |events|
  {
    hide OutletHtml, TitleText, StripFragment;
    if events != [] {
      StepOrdered(s, events[0], ok);
      NotBack(Step(s, events[0], ok), events[1..], n, ok);
    }
  }

  /** A navigation in flight keeps its URL and its kind. */
  lemma {:induction false} FlightKept(s: State, events: seq<Event>, n: nat, ok: string -> bool)
    requires Ordered(s) && Feasible(s, events, ok) && n in s.flights && n in Run(s, events, ok).flights
    ensures Run(s, events, ok).flights[n] == s.flights[n]
    decreases |events|
  {
    hide OutletHtml, TitleText, StripFragment;
    if events != [] {
      var m := Step(s, events[0], ok);
      StepOrdered(s, events[0], ok);
      if n in m.flights {
        FlightKept(m, events[1..], n, ok);
      } else {
        NotBack(m, events[1..], n, ok);
      }
    }
  }

  /** The event starts a fetch of `href`. */
  predicate Starts(s: State, e: Event, href: string) {
    && (e == Clicked(href) || e == PoppedTo(href))
    && s.outlet.Some? && !IsSameDocumentFragment(if e.PoppedTo? && s.rendered.None? then href else RenderedUrl(s), href)
  }

  /** What it started is remembered, as a click or a traversal, until its fetch is back. */
  lemma StartRemembered(s: State, e: Event, href: string, during: seq<Event>, ok: string -> bool)
    requires Ordered(s) && Starts(s, e, href) && Feasible(Step(s, e, ok), during, ok)
    ensures Step(s, e, ok).generation == s.generation + 1 && s.generation + 1 in Step(s, e, ok).flights
    ensures var n, m := s.generation + 1, Run(Step(s, e, ok), during, ok);
            n in m.flights ==> m.flights[n] == Flight(href, e.Clicked?)
  {
    hide OutletHtml, TitleText, StripFragment;
    StepOrdered(s, e, ok);
    var n, m := s.generation + 1, Run(Step(s, e, ok), during, ok);
    if n in m.flights {
      FlightKept(Step(s, e, ok), during, n, ok);
    }
  }

  /** The URL a response came from, after redirects. */
  function ArrivedFrom(response: Response, href: string): string
    requires response.Fetched?
  {
    if response.finalUrl.Some? then response.finalUrl.value else href
  }

  /**
   * A click that starts a fetch and is still the newest navigation when the fetch is back: if both
   * pages have an outlet, the final URL becomes the address and the one new history entry; if the
   * browser refuses it, the clicked one does; if it refuses that, neither address nor history moves.
   */
  lemma ClickPushes(s: State, href: string, during: seq<Event>, response: Response, ok: string -> bool)
    requires Ordered(s) && Starts(s, Clicked(href), href) && Feasible(Step(s, Clicked(href), ok), during, ok)
    requires var m := Run(Step(s, Clicked(href), ok), during, ok);
             m.generation == s.generation + 1 && m.generation in m.flights && Navigable(m, response)
    ensures var m := Run(Step(s, Clicked(href), ok), during, ok);
            var t, final := Step(m, Arrived(m.generation, response), ok), ArrivedFrom(response, href);
            && t.outlet == OutletHtml(response.html) && t.source == final && t.rendered == Some(final)
            && (ok(final) ==> t.location == final && t.pushed == m.pushed + [final])
            && (!ok(final) && ok(href) ==> t.location == href && t.pushed == m.pushed + [href])
            && (!ok(final) && !ok(href) ==> t.location == m.location && t.pushed == m.pushed)
  {
    hide OutletHtml, TitleText, StripFragment, Starts;
    StartRemembered(s, Clicked(href), href, during, ok);
  }

  /** Back and Forward never add an entry: neither at once nor when their fetch is back. */
  lemma PopNeverPushes(s: State, url: string, during: seq<Event>, response: Response, ok: string -> bool)
    requires Ordered(s) && Feasible(Step(s, PoppedTo(url), ok), during, ok)
    ensures Step(s, PoppedTo(url), ok).pushed == s.pushed && Step(s, PoppedTo(url), ok).location == url
    ensures var n, m := s.generation + 1, Run(Step(s, PoppedTo(url), ok), during, ok);
            Starts(s, PoppedTo(url), url) && n in m.flights ==>
              var t := Step(m, Arrived(n, response), ok); t.pushed == m.pushed && t.location == m.location
  {
    hide OutletHtml, TitleText, StripFragment, Starts;
    if Starts(s, PoppedTo(url), url) {
      StartRemembered(s, PoppedTo(url), url, during, ok);
    }
  }

  /** The address bar moves by a traversal or by a new entry only, and an entry is one the browser accepts. */
  lemma AddressMoves(s: State, e: Event, ok: string -> bool)
    requires Enabled(s, e)
    ensures var t := Step(s, e, ok);
            && (t.pushed == s.pushed ==> t.location == if e.PoppedTo? then e.url else s.location)
            && (t.pushed != s.pushed ==> t.pushed == s.pushed + [t.location] && ok(t.location))
            && (t.pushed != s.pushed ==> e.Clicked? || (e.Arrived? && s.flights[e.run].push && s.generation == e.run))
  {
    hide OutletHtml, TitleText, StripFragment;
    assert s.pushed + [] == s.pushed;
  }

  /** Over a run without clicks, begun with no clicked navigation in flight, the history stays. */
  lemma {:induction false} OnlyClicksPush(s: State, events: seq<Event>, ok: string -> bool)
    requires Feasible(s, events, ok) && forall i :: 0 <= i < |events| ==> !events[i].Clicked?
    requires forall n :: n in s.flights ==> !s.flights[n].push
    ensures Run(s, events, ok).pushed == s.pushed
    decreases |events|
  {
    hide OutletHtml, TitleText, StripFragment;
    if events != [] {
      AddressMoves(s, events[0], ok);
      assert forall i :: 0 <= i < |events[1..]| ==> events[1..][i] == events[i + 1];
      OnlyClicksPush(Step(s, events[0], ok), events[1..], ok);
    }
  }

  /**
   * The newest navigation, when its fetch is back, either commits or asks for a full load of the
   * URL it was for: it commits exactly when the answer and the page both have an outlet.
   */
  lemma NewestSettles(s: State, e: Event, href: string, during: seq<Event>, response: Response, ok: string -> bool)
    requires Ordered(s) && Starts(s, e, href) && Feasible(Step(s, e, ok), during, ok)
    requires var m := Run(Step(s, e, ok), during, ok); m.generation == s.generation + 1 && m.generation in m.flights
    ensures var m := Run(Step(s, e, ok), during, ok);
            var t := Step(m, Arrived(m.generation, response), ok);
            if Navigable(m, response) then t.commits == m.commits + [m.generation] && t.loads == m.loads
            else t == m.(flights := m.flights - {m.generation}, loads := m.loads + [href])
  {
    hide OutletHtml, TitleText, StripFragment, Starts;
    StartRemembered(s, e, href, during, ok);
  }

  /** Without an outlet in the page, a navigation that is no fragment change is a full load. */
  lemma NoOutletLoads(s: State, href: string, ok: string -> bool)
    requires s.outlet == None && !IsSameDocumentFragment(RenderedUrl(s), href)
    ensures Step(s, Clicked(href), ok) == s.(loads := s.loads + [href])
  {
  }

  // --- The rendered URL ---

  /** Once a navigation has rendered, its URL names the outlet's source, up to fragment. */
  ghost predicate Rendered(s: State) {
    s.rendered.Some? ==> StripFragment(s.rendered.value) == StripFragment(s.source)
  }

  /** Before the first client navigation the address bar stands in for it. */
  ghost predicate Addressed(s: State) {
    StripFragment(RenderedUrl(s)) == StripFragment(s.source)
  }

  /** Where a navigation starts from, as the browser shows it, and where it goes. */
  function Heading(s: State, e: Event): Option<(string, string)> {
    match e
    case Clicked(href) => Some((s.location, href))
    case PoppedTo(url) => Some((url, url))
    case _ => None
  }

  /**
   * Before anything was rendered, and with the address bar away from what is shown, a navigation
   * within the address bar's document is taken for a fragment change.
   */
  predicate Misread(s: State, e: Event) {
    && s.rendered == None && Heading(s, e).Some?
    && var (at, url) := Heading(s, e).value;
    IsSameDocumentFragment(at, url) && StripFragment(url) != StripFragment(s.source)
  }

  /** One step keeps the rendered URL right, except in exactly that case. */
  lemma RenderedExact(s: State, e: Event, ok: string -> bool)
    requires Rendered(s) && Enabled(s, e)
    ensures Rendered(Step(s, e, ok)) <==> !Misread(s, e)
  {
    hide OutletHtml, TitleText, StripFragment;
  }

  /** The rendered URL is right at every moment of the run. */
  ghost predicate RenderedThroughout(s: State, events: seq<Event>, ok: string -> bool)
    requires Feasible(s, events, ok)
    decreases |events|
  {
    Rendered(s) && (events != [] ==> RenderedThroughout(Step(s, events[0], ok), events[1..], ok))
  }

  /** No step of the run is misread. */
  ghost predicate NeverMisread(s: State, events: seq<Event>, ok: string -> bool)
    requires Feasible(s, events, ok)
    decreases |events|
  {
    events != [] ==> !Misread(s, events[0]) && NeverMisread(Step(s, events[0], ok), events[1..], ok)
  }

  /** Over every run, in any interleaving: the rendered URL is right throughout if and only if no step is misread. */
  lemma {:induction false} RenderedUrlMatches(s: State, events: seq<Event>, ok: string -> bool)
    requires Rendered(s) && Feasible(s, events, ok)
    ensures RenderedThroughout(s, events, ok) <==> NeverMisread(s, events, ok)
    ensures NeverMisread(s, events, ok) ==> Rendered(Run(s, events, ok))
    decreases |events|
  {
    hide OutletHtml, TitleText, StripFragment, Rendered, Misread, Step, IsSameDocumentFragment;
    if events != [] {
      RenderedExact(s, events[0], ok);
      var n := Step(s, events[0], ok);
      if Rendered(n) {
        RenderedUrlMatches(n, events[1..], ok);
      } else {
        assert !RenderedThroughout(n, events[1..], ok);
      }
    }
  }

  /** Every Back before the first rendering stays within the loaded document. */
  ghost predicate BackStaysHome(s: State, events: seq<Event>, ok: string -> bool)
    decreases |events|
  {
    events != [] && Enabled(s, events[0]) ==>
      && (events[0].PoppedTo? && s.rendered == None ==> StripFragment(events[0].url) == StripFragment(s.source))
      && BackStaysHome(Step(s, events[0], ok), events[1..], ok)
  }

  /** As long as Back stays home, the address bar names the source until the first rendering. */
  lemma {:induction false} AddressBarStandsIn(s: State, events: seq<Event>, ok: string -> bool)
    requires Addressed(s) && Feasible(s, events, ok) && BackStaysHome(s, events, ok)
    ensures Addressed(Run(s, events, ok))
    decreases |events|
  {
    hide OutletHtml, TitleText, StripFragment;
    if events != [] {
      AddressedStep(s, events[0], ok);
      AddressBarStandsIn(Step(s, events[0], ok), events[1..], ok);
    }
  }

  lemma AddressedStep(s: State, e: Event, ok: string -> bool)
    requires Addressed(s) && Enabled(s, e)
    requires e.PoppedTo? && s.rendered == None ==> StripFragment(e.url) == StripFragment(s.source)
    ensures Addressed(Step(s, e, ok))
  {
    hide OutletHtml, TitleText, StripFragment;
  }

  lemma UrlParts()
    ensures StripFragment("/a#x") == "/a" && StripFragment("/a") == "/a" && StripFragment("/b") == "/b"
    ensures '#' in "/a#x" && '#' !in "/a"
  {
    var url := "/a#x";
    assert FindChar(url, '#') == Some(2) by {
      assert url[1..][1..] == "#x";
    }
    assert FindChar("/b", '#') == None && FindChar("/a", '#') == None;
    assert url[2] == '#';
  }

  /** One way to it: a reloaded page, then Back to another page's URL with a fragment. */
  lemma BackToFragmentMisread(content: string, ok: string -> bool)
    ensures var s := Fresh("/b", Some(content), "B");
            var t := Step(s, PoppedTo("/a#x"), ok);
            && t.rendered == Some("/a#x") && t.outlet == Some(content) && t.source == "/b" && !Rendered(t)
  {
    hide StripFragment;
    UrlParts();
  }

  /** The other: Back to a page without a fragment, and a click on a fragment link before its fetch is back. */
  lemma ClickAfterBackMisread(content: string, ok: string -> bool)
    ensures var s := Fresh("/b", Some(content), "B");
            var events := [PoppedTo("/a"), Clicked("/a#x")];
            && Feasible(s, events, ok)
            && var t := Run(s, events, ok);
            t.rendered == Some("/a#x") && t.outlet == Some(content) && t.source == "/b" && !Rendered(t)
  {
    hide StripFragment;
    UrlParts();
    var s, events := Fresh("/b", Some(content), "B"), [PoppedTo("/a"), Clicked("/a#x")];
    assert events[1..] == [Clicked("/a#x")] && events[1..][1..] == [];
    var m := Step(s, events[0], ok);
    assert m.rendered == None && m.location == "/a";
  }
}
