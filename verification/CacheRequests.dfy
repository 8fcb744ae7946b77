/** Cache keys against the queries that requests carry, as written. */
module CacheRequests {
  import opened Prelude
  import opened CacheKey

  /** What stands between two `&`: nothing, a bare name, or a name with a value. */
  datatype Part = Blank | Bare(name: string) | Named(name: string, value: string)

  predicate PartOk(p: Part) {
    match p
    case Blank => true
    case Bare(name) => name != "" && '&' !in name && '=' !in name
    case Named(name, value) => '&' !in name && '=' !in name && '&' !in value
  }

  function Written(p: Part): string {
    match p
    case Blank => ""
    case Bare(name) => name
    case Named(name, value) => name + "=" + value
  }

  function AllWritten(ps: seq<Part>): (r: seq<string>)
    ensures |r| == |ps| && forall i :: 0 <= i < |ps| ==> r[i] == Written(ps[i])
  {
    seq(|ps|, i requires 0 <= i < |ps| => Written(ps[i]))
  }

  predicate QueryOk(ps: seq<Part>) {
    ps != [] && forall i :: 0 <= i < |ps| ==> PartOk(ps[i])
  }

  function Query(ps: seq<Part>): string {
    Join(AllWritten(ps), '&')
  }

  /** The parameters the parts stand for; a bare name has the empty value. */
  function Parameters(ps: seq<Part>): seq<Pair> {
    if ps == [] then []
    else
      var rest := Parameters(ps[1..]);
      match ps[0]
      case Blank => rest
      case Bare(name) => [(name, "")] + rest
      case Named(name, value) => [(name, value)] + rest
  }

  /** The request's query is written so; `None` is a request without one. */
  predicate Carries(r: Request, ps: Option<seq<Part>>) {
    match ps
    case None => r.query == None
    case Some(parts) => QueryOk(parts) && r.query == Some(Query(parts))
  }

  function Carried(ps: Option<seq<Part>>): seq<Pair> {
    match ps
    case None => []
    case Some(parts) => Parameters(parts)
  }

  // --- Every query is written so ---

  lemma {:induction false} JoinSplit(s: string, c: char)
    ensures Join(SplitOn(s, c), c) == s
    decreases |s|
  {
    if c in s {
      var (a, b) := SplitOnce(s, c).value;
      JoinSplit(b, c);
      assert ([a] + SplitOn(b, c))[1..] == SplitOn(b, c);
    }
  }

  lemma ReadPart(s: string) returns (p: Part)
    requires '&' !in s
    ensures PartOk(p) && Written(p) == s
  {
    if s == "" {
      p := Blank;
    } else if '=' in s {
      var (name, value) := SplitOnce(s, '=').value;
      p := Named(name, value);
      assert name + "=" + value == name + ['='] + value;
    } else {
      p := Bare(s);
    }
  }

  lemma {:induction false} ReadParts(ss: seq<string>) returns (ps: seq<Part>)
    requires forall i :: 0 <= i < |ss| ==> '&' !in ss[i]
    ensures |ps| == |ss| && AllWritten(ps) == ss && forall i :: 0 <= i < |ps| ==> PartOk(ps[i])
  {
    if ss == [] {
      ps := [];
    } else {
      var first := ReadPart(ss[0]);
      var rest := ReadParts(ss[1..]);
      ps := [first] + rest;
      assert forall i :: 0 < i < |ps| ==> ps[i] == rest[i - 1] && AllWritten(rest)[i - 1] == ss[1..][i - 1];
    }
  }

  /** So the statements below are about every request. */
  lemma EveryRequestCarries(r: Request) returns (ps: Option<seq<Part>>)
    ensures Carries(r, ps)
  {
    match r.query
    case None => ps := None;
    case Some(q) =>
      var parts := ReadParts(SplitOn(q, '&'));
      JoinSplit(q, '&');
      ps := Some(parts);
  }

  // --- What a key keeps of it ---

  function Allowed(ps: seq<Pair>, allowlist: seq<string>): seq<Pair> {
    if ps == [] then [] else (if ps[0].0 in allowlist then [ps[0]] else []) + Allowed(ps[1..], allowlist)
  }

  lemma {:induction false} AllowedCount(ps: seq<Pair>, allowlist: seq<string>, p: Pair)
    ensures multiset(Allowed(ps, allowlist))[p] == if p.0 in allowlist then multiset(ps)[p] else 0
  {
    if ps != [] {
      AllowedCount(ps[1..], allowlist, p);
      assert ps == [ps[0]] + ps[1..];
      var head := if ps[0].0 in allowlist then [ps[0]] else [];
      assert multiset(head + Allowed(ps[1..], allowlist))
          == multiset(head) + multiset(Allowed(ps[1..], allowlist));
    }
  }

  lemma PartSplit(p: Part)
    requires PartOk(p) && !p.Blank?
    ensures Written(p) != "" && SplitPair(Written(p)) == (p.name, if p.Bare? then "" else p.value)
  {
    hide SplitOnce;
    if p.Named? {
      assert p.name + "=" + p.value == p.name + ['='] + p.value;
      SplitOnceAt(p.name, '=', p.value);
    }
  }

  lemma {:induction false} KeptParameters(ps: seq<Part>, allowlist: seq<string>)
    requires forall i :: 0 <= i < |ps| ==> PartOk(ps[i])
    ensures Kept(AllWritten(ps), allowlist) == Allowed(Parameters(ps), allowlist)
  {
    hide SplitPair;
    if ps != [] {
      KeptParameters(ps[1..], allowlist);
      assert AllWritten(ps)[1..] == AllWritten(ps[1..]);
      if !ps[0].Blank? {
        PartSplit(ps[0]);
        assert Parameters(ps)[1..] == Parameters(ps[1..]);
      }
    }
  }

  lemma WrittenPlain(p: Part)
    requires PartOk(p)
    ensures '&' !in Written(p)
  {
  }

  lemma PairsCarried(r: Request, ps: Option<seq<Part>>, allowlist: seq<string>)
    requires Carries(r, ps)
    ensures Pairs(r, allowlist) == Allowed(Carried(ps), allowlist)
  {
    hide SplitOn, Join, Kept, Written, PartOk;
    if ps.Some? {
      forall i | 0 <= i < |ps.value| ensures '&' !in AllWritten(ps.value)[i] {
        WrittenPlain(ps.value[i]);
      }
      SplitJoined(AllWritten(ps.value), '&');
      KeptParameters(ps.value, allowlist);
    }
  }

  /** Every allowlisted parameter occurs as often in the one as in the other. */
  ghost predicate SameAllowed(ps: seq<Pair>, qs: seq<Pair>, allowlist: seq<string>) {
    forall p: Pair :: p.0 in allowlist ==> multiset(ps)[p] == multiset(qs)[p]
  }

  /**
   * Under a fixed allowlist two requests have the same key exactly when they agree in path and
   * locale and every allowlisted name comes with the same values the same number of times,
   * whatever the order, and whatever else the queries carry.
   */
  lemma KeysAgree(r: Request, ps: Option<seq<Part>>, t: Request, qs: Option<seq<Part>>, allowlist: seq<string>)
    requires '?' !in r.path && '?' !in r.locale && '?' !in t.path && '?' !in t.locale
    requires Carries(r, ps) && Carries(t, qs)
    ensures Key(r, allowlist) == Key(t, allowlist) <==>
            && r.path == t.path && LocaleOf(r) == LocaleOf(t)
            && SameAllowed(Carried(ps), Carried(qs), allowlist)
  {
    hide Key, LocaleOf, Pairs, Carries, Carried, Allowed;
    KeyCanonical(r, t, allowlist);
    PairsCarried(r, ps, allowlist);
    PairsCarried(t, qs, allowlist);
    var a, b := Carried(ps), Carried(qs);
    forall p: Pair
      ensures multiset(Allowed(a, allowlist))[p] == (if p.0 in allowlist then multiset(a)[p] else 0)
      ensures multiset(Allowed(b, allowlist))[p] == (if p.0 in allowlist then multiset(b)[p] else 0)
    {
      AllowedCount(a, allowlist, p);
      AllowedCount(b, allowlist, p);
    }
  }

  /** As a key writes a parameter: an empty value goes without the `=`. */
  predicate Terse(p: Part) {
    p.Bare? || (p.Named? && p.value != "")
  }

  lemma {:induction false} ParametersAt(ps: seq<Part>)
    requires forall i :: 0 <= i < |ps| ==> Terse(ps[i])
    ensures |Parameters(ps)| == |ps|
    ensures forall i :: 0 <= i < |ps| ==>
              Terse(ps[i]) && Parameters(ps)[i] == (ps[i].name, if ps[i].Bare? then "" else ps[i].value)
              && ShowPair(Parameters(ps)[i]) == Written(ps[i])
  {
    if ps != [] {
      ParametersAt(ps[1..]);
      assert forall i :: 0 < i < |ps| ==> ps[i] == ps[1..][i - 1];
    }
  }

  lemma ShownWritten(ps: seq<Part>)
    requires forall i :: 0 <= i < |ps| ==> Terse(ps[i])
    ensures ShowPairs(Parameters(ps)) == AllWritten(ps)
  {
    hide Terse, Written, ShowPair;
    ParametersAt(ps);
  }

  lemma AllAllowed(ps: seq<Pair>, qs: seq<Pair>, allowlist: seq<string>)
    requires SameAllowed(ps, qs, allowlist) && forall p :: p in qs ==> p.0 in allowlist
    ensures multiset(Allowed(ps, allowlist)) == multiset(qs)
  {
    forall p: Pair ensures multiset(Allowed(ps, allowlist))[p] == multiset(qs)[p] {
      AllowedCount(ps, allowlist, p);
      assert p in multiset(qs) <==> p in qs;
    }
  }

  /**
   * The key, spelled out: the path, a locale other than English, and the allowlisted parameters in
   * order, however the request wrote them and whatever else it carries.
   */
  lemma KeyWritten(r: Request, qs: Option<seq<Part>>, ps: seq<Part>, allowlist: seq<string>)
    requires '?' !in r.path && '?' !in r.locale && Carries(r, qs)
    requires ps != [] && IsSorted(Parameters(ps))
             && forall i :: 0 <= i < |ps| ==> Terse(ps[i]) && ps[i].name in allowlist
    requires SameAllowed(Carried(qs), Parameters(ps), allowlist)
    ensures Key(r, allowlist) ==
            Escaped(r.path) + (if LocaleOf(r) == "en" then "" else "@" + Escaped(r.locale)) + "?" + Query(ps)
  {
    hide Key, LocaleOf, Pairs, Carries, Carried, Allowed, SameAllowed, IsSorted, Sort, Escaped, QueryPart, Join,
         ShowPairs, AllWritten, Parameters, Terse, Front;
    KeyShape(r, allowlist);
    PairsCarried(r, qs, allowlist);
    QueryAbsent(r, allowlist);
    SortedThere(Carried(qs), ps, allowlist);
    ShownWritten(ps);
    FrontWritten(r);
  }

  lemma FrontWritten(r: Request)
    ensures Front(r) == Escaped(r.path) + (if LocaleOf(r) == "en" then "" else "@" + Escaped(r.locale))
  {
    hide Escaped, LocaleOf;
  }

  lemma SortedThere(given: seq<Pair>, ps: seq<Part>, allowlist: seq<string>)
    requires ps != [] && IsSorted(Parameters(ps)) && SameAllowed(given, Parameters(ps), allowlist)
             && forall i :: 0 <= i < |ps| ==> Terse(ps[i]) && ps[i].name in allowlist
    ensures Allowed(given, allowlist) != [] && Sort(Allowed(given, allowlist)) == Parameters(ps)
  {
    hide IsSorted, Sort, Allowed, SameAllowed, Parameters, Terse;
    ParametersAt(ps);
    forall p | p in Parameters(ps) ensures p.0 in allowlist {
      var i :| 0 <= i < |ps| && Parameters(ps)[i] == p;
    }
    var kept := Allowed(given, allowlist);
    AllAllowed(given, Parameters(ps), allowlist);
    assert |multiset(kept)| == |kept| && |multiset(Parameters(ps))| == |ps|;
    SortKeeps(kept);
    SortSorts(kept);
    SortedUnique(Sort(kept), Parameters(ps));
  }

  /** Two values of an allowlisted parameter never share a key; those of any other always do. */
  lemma ValuesApart(path: string, locale: string, name: string, v: string, w: string, allowlist: seq<string>)
    requires '?' !in path && '?' !in locale && PartOk(Named(name, v)) && PartOk(Named(name, w)) && v != w
    ensures var r := Request(path, Some(Query([Named(name, v)])), locale);
            var t := Request(path, Some(Query([Named(name, w)])), locale);
            Key(r, allowlist) != Key(t, allowlist) <==> name in allowlist
  {
    hide Key, Query;
    var ps, qs := [Named(name, v)], [Named(name, w)];
    var r, t := Request(path, Some(Query(ps)), locale), Request(path, Some(Query(qs)), locale);
    KeysAgree(r, Some(ps), t, Some(qs), allowlist);
    assert ps[1..] == [] && qs[1..] == [];
    assert Parameters(ps) == [(name, v)] && Parameters(qs) == [(name, w)];
    assert multiset(Parameters(ps))[(name, v)] == 1 && multiset(Parameters(qs))[(name, v)] == 0;
  }
}
