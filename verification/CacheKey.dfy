/** The page cache's keys: canonical for path, locale and allowlisted query, and invertible. */
module CacheKey {
  import opened Prelude

  // --- Escaping a segment ---

  function EscapedChar(c: char): string {
    if c == '%' then "%25" else if c == '@' then "%40" else [c]
  }

  function Escaped(s: string): (r: string)
    ensures '@' !in r
    ensures forall c :: c in r ==> c in s || c in "%2450"
  {
    if s == [] then [] else EscapedChar(s[0]) + Escaped(s[1..])
  }

  function Unescaped(s: string): string
    decreases |s|
  {
    if s == [] then []
    else if s[0] != '%' then [s[0]] + Unescaped(s[1..])
    else if StartsWith40(s) then "@" + Unescaped(s[3..])
    else if StartsWith25(s) then "%" + Unescaped(s[3..])
    else "%" + Unescaped(s[1..])
  }

  /** A `%` that introduces neither escape is passed through, as percent-encoded request bytes are. */
  lemma {:induction false} NothingToUnescape(s: string)
    requires forall i :: 0 <= i <= |s| ==> !StartsWith40(s[i..]) && !StartsWith25(s[i..])
    ensures Unescaped(s) == s
  {
    hide StartsWith40, StartsWith25;
    if s != [] {
      assert s[0..] == s;
      forall i | 0 <= i <= |s[1..]| ensures !StartsWith40(s[1..][i..]) && !StartsWith25(s[1..][i..]) {
        assert s[1..][i..] == s[i + 1..];
      }
      NothingToUnescape(s[1..]);
    }
  }

  lemma {:induction false} EscapedPlain(s: string)
    requires '%' !in s && '@' !in s
    ensures Escaped(s) == s
  {
    if s != [] {
      EscapedPlain(s[1..]);
    }
  }

  lemma EscapedSnoc(s: string, c: char)
    ensures Escaped(s + [c]) == Escaped(s) + EscapedChar(c)
  {
    if s == [] {
      assert s + [c] == [c] && [c][1..] == [];
    } else {
      assert (s + [c])[1..] == s[1..] + [c];
      EscapedSnoc(s[1..], c);
    }
  }

  /** The delimiter and the escape mark themselves are written as percent-encodings; nothing else changes. */
  lemma MarksEncoded(s: string, c: char)
    ensures Escaped(s + "@") == Escaped(s) + "%40" && Escaped(s + "%") == Escaped(s) + "%25"
    ensures c != '@' && c != '%' ==> Escaped(s + [c]) == Escaped(s) + [c]
  {
    hide Escaped;
    EscapedSnoc(s, '@');
    EscapedSnoc(s, '%');
    EscapedSnoc(s, c);
  }

  /** Makes a path or locale safe to join with `@`. */
  method EscapeCacheKeySegment(raw: string) returns (out: string)
    ensures out == Escaped(raw)
  {
    if '%' !in raw && '@' !in raw {
      EscapedPlain(raw);
      return raw;
    }
    out := "";
    for i := 0 to |raw|
      invariant out == Escaped(raw[..i])
    {
      EscapedSnoc(raw[..i], raw[i]);
      assert raw[..i + 1] == raw[..i] + [raw[i]];
      out := out + match raw[i]
                   case '%' => "%25"
                   case '@' => "%40"
                   case other => [other];
    }
    assert raw[..|raw|] == raw;
  }

  lemma {:induction false} UnescapedPast(a: string, s: string)
    requires '%' !in a
    ensures Unescaped(a + s) == a + Unescaped(s)
  {
    if a == [] {
      assert a + s == s;
    } else {
      assert (a + s)[1..] == a[1..] + s && (a + s)[0] == a[0];
      UnescapedPast(a[1..], s);
    }
  }

  /** Decodes left to right; a `%` that starts none of the two escapes is passed through. */
  method UnescapeCacheKeySegment(escaped: string) returns (out: string)
    ensures out == Unescaped(escaped)
  {
    hide Unescaped, StartsWith40, StartsWith25;
    PlainUnescaped(escaped);
    if '%' !in escaped {
      return escaped;
    }
    out := "";
    var rest := escaped;
    while '%' in rest
      invariant Unescaped(escaped) == out + Unescaped(rest)
      decreases |rest|
    {
      var i := IndexOf(rest, '%');
      var tail := rest[i..];
      UnescapedStep(rest, i);
      if StartsWith40(tail) {
        out, rest := out + rest[..i] + "@", tail[3..];
      } else if StartsWith25(tail) {
        out, rest := out + rest[..i] + "%", tail[3..];
      } else {
        out, rest := out + rest[..i] + "%", tail[1..];
      }
    }
    PlainUnescaped(rest);
    out := out + rest;
  }

  predicate StartsWith40(s: string) {
    |s| >= 3 && s[0] == '%' && s[1] == '4' && s[2] == '0'
  }

  predicate StartsWith25(s: string) {
    |s| >= 3 && s[0] == '%' && s[1] == '2' && s[2] == '5'
  }

  lemma PlainUnescaped(s: string)
    ensures '%' !in s ==> Unescaped(s) == s
  {
    if '%' !in s {
      UnescapedPast(s, "");
      assert s + "" == s;
    }
  }

  lemma UnescapedMark(s: string)
    requires s != [] && s[0] == '%'
    ensures Unescaped(s) == if StartsWith40(s) then "@" + Unescaped(s[3..])
                            else if StartsWith25(s) then "%" + Unescaped(s[3..])
                            else "%" + Unescaped(s[1..])
  {
  }

  /** Up to the first `%` and what it stands for. */
  lemma UnescapedStep(s: string, i: nat)
    requires i < |s| && s[i] == '%' && '%' !in s[..i]
    ensures var tail := s[i..];
            if StartsWith40(tail) then |tail| >= 3 && Unescaped(s) == s[..i] + "@" + Unescaped(tail[3..])
            else if StartsWith25(tail) then |tail| >= 3 && Unescaped(s) == s[..i] + "%" + Unescaped(tail[3..])
            else Unescaped(s) == s[..i] + "%" + Unescaped(tail[1..])
  {
    hide Unescaped;
    assert s == s[..i] + s[i..];
    UnescapedPast(s[..i], s[i..]);
    UnescapedMark(s[i..]);
  }

  /** Unescaping undoes escaping, for every text. */
  lemma {:induction false} UnescapeUndoesEscape(s: string)
    ensures Unescaped(Escaped(s)) == s
  {
    hide Escaped, Unescaped;
    if s == [] {
      NothingEscaped();
    } else {
      EscapedHead(s);
      var rest := Escaped(s[1..]);
      UnescapeUndoesEscape(s[1..]);
      if s[0] == '%' {
        assert ("%25" + rest)[3..] == rest;
        UnescapedMark("%25" + rest);
      } else if s[0] == '@' {
        assert ("%40" + rest)[3..] == rest;
        UnescapedMark("%40" + rest);
      } else {
        UnescapedPast([s[0]], rest);
      }
    }
  }

  lemma NothingEscaped()
    ensures Escaped("") == "" && Unescaped("") == ""
  {
  }

  lemma EscapedHead(s: string)
    requires s != []
    ensures Escaped(s) == EscapedChar(s[0]) + Escaped(s[1..])
  {
  }

  // --- Splitting and joining ---

  /** Splits at the first `c`. */
  function SplitOnce(s: string, c: char): (r: Option<(string, string)>)
    ensures r.Some? <==> c in s
    ensures r.Some? ==> c !in r.value.0 && s == r.value.0 + [c] + r.value.1
  {
    if c in s then
      var i := IndexOf(s, c);
      Some((s[..i], s[i + 1..]))
    else None
  }

  /** Splits at the last `c`. */
  function RSplitOnce(s: string, c: char): (r: Option<(string, string)>)
    ensures r.Some? <==> c in s
    ensures r.Some? ==> c !in r.value.1 && s == r.value.0 + [c] + r.value.1
  {
    if s == [] then None
    else if s[|s| - 1] == c then Some((s[..|s| - 1], ""))
    else
      match RSplitOnce(s[..|s| - 1], c)
      case Some((a, b)) => Some((a, b + [s[|s| - 1]]))
      case None => None
  }

  function SplitOn(s: string, c: char): (r: seq<string>)
    ensures r != [] && forall i :: 0 <= i < |r| ==> c !in r[i]
    decreases |s|
  {
    match SplitOnce(s, c)
    case Some((a, b)) => [a] + SplitOn(b, c)
    case None => [s]
  }

  function Join(parts: seq<string>, c: char): string {
    if parts == [] then "" else if |parts| == 1 then parts[0] else parts[0] + [c] + Join(parts[1..], c)
  }

  lemma SplitOnceAt(a: string, c: char, b: string)
    requires c !in a
    ensures SplitOnce(a + [c] + b, c) == Some((a, b))
  {
    IndexOfAfter(a, c, b);
    assert (a + [c] + b)[..|a|] == a && (a + [c] + b)[|a| + 1..] == b;
  }

  /** A cut at a `c` that is not on its left side is unique. */
  lemma SameCut(a: string, b: string, c: char, x: string, y: string)
    requires c !in a && c !in x && a + [c] + b == x + [c] + y
    ensures a == x && b == y
  {
    SplitOnceAt(a, c, b);
    SplitOnceAt(x, c, y);
  }

  lemma {:induction false} SplitJoined(parts: seq<string>, c: char)
    requires parts != [] && forall i :: 0 <= i < |parts| ==> c !in parts[i]
    ensures SplitOn(Join(parts, c), c) == parts
  {
    hide SplitOnce;
    if |parts| > 1 {
      SplitOnceAt(parts[0], c, Join(parts[1..], c));
      SplitJoined(parts[1..], c);
    } else {
      assert parts == [parts[0]];
    }
  }

  lemma {:induction false} RSplitAt(a: string, c: char, b: string)
    requires c !in b
    ensures RSplitOnce(a + [c] + b, c) == Some((a, b))
    decreases |b|
  {
    var s := a + [c] + b;
    if b == [] {
      assert s[..|s| - 1] == a;
    } else {
      var b', x := b[..|b| - 1], b[|b| - 1];
      assert b == b' + [x] && s[..|s| - 1] == a + [c] + b' && s[|s| - 1] == x;
      RSplitAt(a, c, b');
    }
  }

  // --- Sorting pairs ---

  type Pair = (string, string)

  predicate TextLeq(a: string, b: string) {
    a == [] || (b != [] && (a[0] < b[0] || (a[0] == b[0] && TextLeq(a[1..], b[1..]))))
  }

  /** The lexicographic order of pairs. */
  predicate PairLeq(p: Pair, q: Pair) {
    if p.0 == q.0 then TextLeq(p.1, q.1) else TextLeq(p.0, q.0)
  }

  lemma {:induction false} TextTotal(a: string, b: string)
    ensures TextLeq(a, b) || TextLeq(b, a)
    ensures TextLeq(a, b) && TextLeq(b, a) ==> a == b
  {
    if a != [] && b != [] {
      TextTotal(a[1..], b[1..]);
      assert a == [a[0]] + a[1..] && b == [b[0]] + b[1..];
    }
  }

  lemma {:induction false} TextTransitive(a: string, b: string, c: string)
    requires TextLeq(a, b) && TextLeq(b, c)
    ensures TextLeq(a, c)
  {
    if a != [] && a[0] == b[0] == c[0] {
      TextTransitive(a[1..], b[1..], c[1..]);
    }
  }

  /** The first difference decides; a text comes after its prefixes. */
  lemma {:induction false} FirstDifference(a: string, b: string, i: nat)
    requires i <= |a| && i <= |b| && a[..i] == b[..i] && (i < |a| && i < |b| ==> a[i] != b[i])
    ensures TextLeq(a, b) <==> i == |a| || (i < |b| && a[i] < b[i])
  {
    if i > 0 {
      assert a[0] == a[..i][0] == b[0];
      assert a[1..][..i - 1] == a[..i][1..] && b[1..][..i - 1] == b[..i][1..];
      FirstDifference(a[1..], b[1..], i - 1);
    }
  }

  lemma PairTotal(p: Pair, q: Pair)
    ensures PairLeq(p, q) || PairLeq(q, p)
    ensures PairLeq(p, q) && PairLeq(q, p) ==> p == q
  {
    TextTotal(p.0, q.0);
    TextTotal(p.1, q.1);
  }

  lemma PairTransitive(p: Pair, q: Pair, r: Pair)
    requires PairLeq(p, q) && PairLeq(q, r)
    ensures PairLeq(p, r)
  {
    TextTotal(p.0, q.0);
    TextTotal(q.0, r.0);
    if p.0 == q.0 && q.0 == r.0 {
      TextTransitive(p.1, q.1, r.1);
    } else {
      TextTransitive(p.0, q.0, r.0);
      TextTotal(p.0, r.0);
      TextTotal(q.0, p.0);
    }
  }

  ghost predicate IsSorted(s: seq<Pair>) {
    forall i, j :: 0 <= i < j < |s| ==> PairLeq(s[i], s[j])
  }

  function Insert(p: Pair, s: seq<Pair>): seq<Pair> {
    if s == [] || PairLeq(p, s[0]) then [p] + s else [s[0]] + Insert(p, s[1..])
  }

  function Sort(s: seq<Pair>): seq<Pair> {
    if s == [] then [] else Insert(s[0], Sort(s[1..]))
  }

  lemma {:induction false} InsertKeeps(p: Pair, s: seq<Pair>)
    ensures multiset(Insert(p, s)) == multiset(s) + multiset{p}
  {
    hide PairLeq;
    if s != [] && !PairLeq(p, s[0]) {
      InsertKeeps(p, s[1..]);
      assert s == [s[0]] + s[1..];
    }
  }

  lemma {:induction false} SortKeeps(s: seq<Pair>)
    ensures multiset(Sort(s)) == multiset(s)
  {
    if s != [] {
      SortKeeps(s[1..]);
      InsertKeeps(s[0], Sort(s[1..]));
      assert s == [s[0]] + s[1..];
    }
  }

  lemma {:induction false} InsertSorts(p: Pair, s: seq<Pair>)
    requires IsSorted(s)
    ensures IsSorted(Insert(p, s))
  {
    hide PairLeq;
    var r := Insert(p, s);
    if s == [] {
    } else if PairLeq(p, s[0]) {
      forall i, j | 0 <= i < j < |r| ensures PairLeq(r[i], r[j]) {
        if i == 0 && j > 1 {
          PairTransitive(p, s[0], s[j - 1]);
        }
      }
    } else {
      PairTotal(p, s[0]);
      InsertSorts(p, s[1..]);
      InsertKeeps(p, s[1..]);
      var t := Insert(p, s[1..]);
      forall j | 0 <= j < |t| ensures PairLeq(s[0], t[j]) {
        assert t[j] in multiset(t);
        if t[j] != p {
          assert t[j] in s[1..];
        }
      }
    }
  }

  lemma {:induction false} SortSorts(s: seq<Pair>)
    ensures IsSorted(Sort(s))
  {
    if s != [] {
      SortSorts(s[1..]);
      InsertSorts(s[0], Sort(s[1..]));
    }
  }

  lemma SortedHead(s: seq<Pair>, x: Pair)
    requires IsSorted(s) && s != [] && x in s
    ensures PairLeq(s[0], x)
  {
    PairTotal(x, x);
    var i :| 0 <= i < |s| && s[i] == x;
  }

  lemma TailMembers(s: seq<Pair>)
    requires s != []
    ensures multiset(s) == multiset(s[1..]) + multiset{s[0]} && s == [s[0]] + s[1..]
    ensures IsSorted(s) ==> IsSorted(s[1..])
    ensures s[0] in multiset(s) && s[0] in s
  {
    hide PairLeq;
    assert s == [s[0]] + s[1..];
  }

  lemma SameMembers(s: seq<Pair>, t: seq<Pair>)
    requires multiset(s) == multiset(t)
    ensures |s| == |t| && forall x :: x in s <==> x in t
  {
    assert |multiset(s)| == |s| && |multiset(t)| == |t|;
    assert forall x :: x in s <==> x in multiset(s);
    assert forall x :: x in t <==> x in multiset(t);
  }

  /** A sorted list is determined by its members: any sorting algorithm gives the same result. */
  lemma {:induction false} SortedUnique(s: seq<Pair>, t: seq<Pair>)
    requires IsSorted(s) && IsSorted(t) && multiset(s) == multiset(t)
    ensures s == t
  {
    hide PairLeq, IsSorted;
    SameMembers(s, t);
    if s != [] {
      TailMembers(s);
      TailMembers(t);
      SortedHead(s, t[0]);
      SortedHead(t, s[0]);
      PairTotal(s[0], t[0]);
      assert multiset(s[1..]) == multiset(s) - multiset{s[0]} == multiset(t[1..]);
      SortedUnique(s[1..], t[1..]);
    }
  }

  // --- The key ---

  datatype Request = Request(path: string, query: Option<string>, locale: string)

  function SplitPair(part: string): (p: Pair)
    ensures '=' !in p.0 && forall c :: c !in part ==> c !in p.0 && c !in p.1
  {
    match SplitOnce(part, '=')
    case Some(p) => p
    case None => (part, "")
  }

  function Kept(parts: seq<string>, allowlist: seq<string>): seq<Pair> {
    if parts == [] then []
    else
      var p := SplitPair(parts[0]);
      (if parts[0] != "" && p.0 in allowlist then [p] else []) + Kept(parts[1..], allowlist)
  }

  /** The allowlisted parameters of a request, in the order they came. */
  function Pairs(r: Request, allowlist: seq<string>): seq<Pair> {
    match r.query
    case Some(q) => Kept(SplitOn(q, '&'), allowlist)
    case None => []
  }

  function ShowPair(p: Pair): string {
    if p.1 == "" then p.0 else p.0 + "=" + p.1
  }

  function ShowPairs(ps: seq<Pair>): (r: seq<string>)
    ensures |r| == |ps| && forall i :: 0 <= i < |ps| ==> r[i] == ShowPair(ps[i])
  {
    seq(|ps|, i requires 0 <= i < |ps| => ShowPair(ps[i]))
  }

  function QueryPart(r: Request, allowlist: seq<string>): Option<string> {
    if r.query == None || allowlist == [] then None
    else
      var kept := Pairs(r, allowlist);
      if kept == [] then None else Some(Join(ShowPairs(Sort(kept)), '&'))
  }

  function Key(r: Request, allowlist: seq<string>): string {
    var base := match QueryPart(r, allowlist)
                case Some(q) => Escaped(r.path) + "?" + q
                case None => Escaped(r.path);
    if r.locale == "" || r.locale == "en" then base
    else
      match SplitOnce(base, '?')
      case Some((p, query)) => p + "@" + Escaped(r.locale) + "?" + query
      case None => base + "@" + Escaped(r.locale)
  }

  function ParseKey(key: string): (string, string) {
    var bare := SplitOn(key, '?')[0];
    match RSplitOnce(bare, '@')
    case Some((path, locale)) => (Unescaped(path), Unescaped(locale))
    case None => (Unescaped(bare), "en")
  }

  function LocaleOf(r: Request): string {
    if r.locale == "" then "en" else r.locale
  }

  // --- Its shape ---

  /** What stands before the query. */
  function Front(r: Request): string {
    if LocaleOf(r) == "en" then Escaped(r.path) else Escaped(r.path) + "@" + Escaped(r.locale)
  }

  lemma FrontPlain(r: Request)
    requires '?' !in r.path && '?' !in r.locale
    ensures '?' !in Front(r) && '?' !in Escaped(r.path)
  {
  }

  lemma KeyShape(r: Request, allowlist: seq<string>)
    requires '?' !in r.path && '?' !in r.locale
    ensures Key(r, allowlist) == match QueryPart(r, allowlist)
                                 case Some(q) => Front(r) + ['?'] + q
                                 case None => Front(r)
  {
    hide Escaped, QueryPart, SplitOnce;
    FrontPlain(r);
    match QueryPart(r, allowlist)
    case Some(q) => SplitOnceAt(Escaped(r.path), '?', q);
    case None =>
  }

  lemma FirstPart(a: string, q: Option<string>)
    requires '?' !in a
    ensures SplitOn(match q case Some(t) => a + ['?'] + t case None => a, '?')[0] == a
  {
    hide SplitOnce;
    match q
    case Some(t) => SplitOnceAt(a, '?', t);
    case None =>
  }

  /** Parsing a key returns the path and the locale it was made of. */
  lemma ParseUndoesKey(r: Request, allowlist: seq<string>)
    requires '?' !in r.path && '?' !in r.locale
    ensures ParseKey(Key(r, allowlist)) == (r.path, LocaleOf(r))
  {
    hide Escaped, Unescaped, QueryPart, SplitOn, RSplitOnce, Key;
    KeyShape(r, allowlist);
    FrontPlain(r);
    FirstPart(Front(r), QueryPart(r, allowlist));
    UnescapeUndoesEscape(r.path);
    UnescapeUndoesEscape(r.locale);
    if LocaleOf(r) != "en" {
      RSplitAt(Escaped(r.path), '@', Escaped(r.locale));
    }
  }

  // --- Canonicity ---

  lemma {:induction false} KeptPlain(parts: seq<string>, allowlist: seq<string>)
    requires forall i :: 0 <= i < |parts| ==> '&' !in parts[i]
    ensures forall p :: p in Kept(parts, allowlist) ==> '&' !in p.0 && '&' !in p.1 && '=' !in p.0
  {
    hide SplitPair;
    if parts != [] {
      KeptPlain(parts[1..], allowlist);
    }
  }

  lemma ShowPairPlain(p: Pair)
    requires '&' !in p.0 && '&' !in p.1
    ensures '&' !in ShowPair(p)
  {
  }

  lemma ShowsEquals(p: Pair)
    ensures p.1 != "" ==> '=' in ShowPair(p)
  {
    assert (p.0 + "=" + p.1)[|p.0|] == '=';
  }

  lemma ShowPairInjective(p: Pair, q: Pair)
    requires '=' !in p.0 && '=' !in q.0 && ShowPair(p) == ShowPair(q)
    ensures p == q
  {
    ShowsEquals(p);
    ShowsEquals(q);
    if p.1 != "" && q.1 != "" {
      SameCut(p.0, p.1, '=', q.0, q.1);
    }
  }

  lemma ShowPairsInjective(ps: seq<Pair>, qs: seq<Pair>)
    requires ShowPairs(ps) == ShowPairs(qs)
    requires (forall p :: p in ps ==> '=' !in p.0) && (forall q :: q in qs ==> '=' !in q.0)
    ensures ps == qs
  {
    hide ShowPair;
    assert |ps| == |ShowPairs(ps)| == |qs|;
    forall i | 0 <= i < |ps| ensures ps[i] == qs[i] {
      assert ps[i] in ps && qs[i] in qs;
      assert ShowPairs(ps)[i] == ShowPairs(qs)[i];
      ShowPairInjective(ps[i], qs[i]);
    }
  }

  lemma SortMembers(s: seq<Pair>)
    ensures |Sort(s)| == |s| && forall p :: p in Sort(s) <==> p in s
  {
    SortKeeps(s);
    assert |multiset(Sort(s))| == |Sort(s)| && |multiset(s)| == |s|;
    assert forall p :: p in Sort(s) <==> p in multiset(Sort(s));
  }

  lemma PairsPlain(r: Request, allowlist: seq<string>)
    ensures forall p :: p in Pairs(r, allowlist) ==> '&' !in p.0 && '&' !in p.1 && '=' !in p.0
  {
    if r.query.Some? {
      KeptPlain(SplitOn(r.query.value, '&'), allowlist);
    }
  }

  lemma NothingAllowed(parts: seq<string>)
    ensures Kept(parts, []) == []
  {
  }

  /** The query part is absent exactly when no parameter is allowlisted. */
  lemma QueryAbsent(r: Request, allowlist: seq<string>)
    ensures QueryPart(r, allowlist) == None <==> Pairs(r, allowlist) == []
    ensures QueryPart(r, allowlist).Some? ==>
              QueryPart(r, allowlist).value == Join(ShowPairs(Sort(Pairs(r, allowlist))), '&')
  {
    if r.query.Some? && allowlist == [] {
      NothingAllowed(SplitOn(r.query.value, '&'));
    }
  }

  lemma Parts(r: Request, allowlist: seq<string>)
    requires Pairs(r, allowlist) != []
    ensures var shown := ShowPairs(Sort(Pairs(r, allowlist)));
            shown != [] && SplitOn(Join(shown, '&'), '&') == shown
  {
    hide Join, SplitOn, ShowPair, Kept;
    var sorted := Sort(Pairs(r, allowlist));
    PairsPlain(r, allowlist);
    SortMembers(Pairs(r, allowlist));
    forall i | 0 <= i < |sorted| ensures '&' !in ShowPairs(sorted)[i] {
      assert sorted[i] in sorted;
      ShowPairPlain(sorted[i]);
    }
    SplitJoined(ShowPairs(sorted), '&');
  }

  /** Two requests have the same query part exactly when they have the same multiset of parameters. */
  lemma QueryCanonical(r: Request, t: Request, allowlist: seq<string>)
    ensures QueryPart(r, allowlist) == QueryPart(t, allowlist) <==>
              multiset(Pairs(r, allowlist)) == multiset(Pairs(t, allowlist))
  {
    hide QueryPart, Pairs, Sort, Join, ShowPairs;
    var ps, qs := Pairs(r, allowlist), Pairs(t, allowlist);
    QueryAbsent(r, allowlist);
    QueryAbsent(t, allowlist);
    SortKeeps(ps);
    SortKeeps(qs);
    SortSorts(ps);
    SortSorts(qs);
    assert |multiset(ps)| == |ps| && |multiset(qs)| == |qs|;
    if multiset(ps) == multiset(qs) {
      SortedUnique(Sort(ps), Sort(qs));
    }
    if QueryPart(r, allowlist) == QueryPart(t, allowlist) && ps != [] {
      Parts(r, allowlist);
      Parts(t, allowlist);
      PairsPlain(r, allowlist);
      PairsPlain(t, allowlist);
      SortMembers(ps);
      SortMembers(qs);
      ShowPairsInjective(Sort(ps), Sort(qs));
    }
  }

  lemma FrontInjective(r: Request, t: Request)
    ensures Front(r) == Front(t) <==> r.path == t.path && LocaleOf(r) == LocaleOf(t)
  {
    hide Escaped;
    UnescapeUndoesEscape(r.path);
    UnescapeUndoesEscape(t.path);
    UnescapeUndoesEscape(r.locale);
    UnescapeUndoesEscape(t.locale);
    NoAt(r.path);
    NoAt(t.path);
    FrontMark(r);
    FrontMark(t);
    if Front(r) == Front(t) && LocaleOf(r) != "en" && LocaleOf(t) != "en" {
      SameCut(Escaped(r.path), Escaped(r.locale), '@', Escaped(t.path), Escaped(t.locale));
    }
  }

  lemma FrontMark(r: Request)
    ensures LocaleOf(r) != "en" ==> '@' in Front(r)
  {
    assert (Escaped(r.path) + "@" + Escaped(r.locale))[|Escaped(r.path)|] == '@';
  }

  lemma NoAt(s: string)
    ensures '@' !in Escaped(s)
  {
  }

  /**
   * Under a fixed allowlist, two requests get the same key exactly when they have the same path,
   * the same locale (an empty one read as `en`) and the same multiset of allowlisted parameters.
   */
  lemma KeyCanonical(r: Request, t: Request, allowlist: seq<string>)
    requires '?' !in r.path && '?' !in r.locale && '?' !in t.path && '?' !in t.locale
    ensures Key(r, allowlist) == Key(t, allowlist) <==>
            && r.path == t.path && LocaleOf(r) == LocaleOf(t)
            && multiset(Pairs(r, allowlist)) == multiset(Pairs(t, allowlist))
  {
    hide Front, QueryPart, Pairs, LocaleOf, Key;
    KeyShape(r, allowlist);
    KeyShape(t, allowlist);
    FrontPlain(r);
    FrontPlain(t);
    FrontInjective(r, t);
    QueryCanonical(r, t, allowlist);
    if Key(r, allowlist) == Key(t, allowlist) {
      SameShape(Front(r), QueryPart(r, allowlist), Front(t), QueryPart(t, allowlist));
    }
  }

  function Shape(front: string, query: Option<string>): string {
    match query
    case Some(q) => front + ['?'] + q
    case None => front
  }

  lemma SameShape(a: string, q: Option<string>, b: string, p: Option<string>)
    requires '?' !in a && '?' !in b && Shape(a, q) == Shape(b, p)
    ensures a == b && q == p
  {
    QueryMark(a, q);
    QueryMark(b, p);
    if q.Some? && p.Some? {
      SameCut(a, q.value, '?', b, p.value);
    }
  }

  lemma QueryMark(a: string, q: Option<string>)
    ensures q.Some? ==> '?' in Shape(a, q)
  {
    assert q.Some? ==> Shape(a, q)[|a|] == '?';
  }

  /** Why the locale must be free of `?`: one that is not can pose as a query. */
  lemma MarkedLocaleCollides(path: string)
    requires '?' !in path
    ensures Key(Request(path, None, "fr?x"), ["x"]) == Key(Request(path, Some("x"), "fr"), ["x"])
  {
    hide Escaped, QueryPart, SplitOnce;
    var plain, posing := Request(path, Some("x"), "fr"), Request(path, None, "fr?x");
    FrontPlain(plain);
    KeyShape(plain, ["x"]);
    OneParameter(path);
    EscapedPlain("fr");
    EscapedPlain("fr?x");
    assert QueryPart(posing, ["x"]) == None by {
      QueryAbsent(posing, ["x"]);
    }
    assert SplitOnce(Escaped(path), '?') == None;
    assert Escaped(path) + "@" + "fr?x" == Escaped(path) + "@" + "fr" + ['?'] + "x";
  }

  lemma OneParameter(path: string)
    ensures QueryPart(Request(path, Some("x"), "fr"), ["x"]) == Some("x")
  {
    hide SplitOn, Sort, Join;
    var r := Request(path, Some("x"), "fr");
    assert SplitOn("x", '&') == ["x"] by {
      assert Join(["x"], '&') == "x" by {
        JoinOne("x");
      }
      SplitJoined(["x"], '&');
    }
    assert ["x"][1..] == [];
    assert Pairs(r, ["x"]) == [("x", "")];
    SortOne(("x", ""));
    JoinOne("x");
    assert ShowPairs([("x", "")]) == ["x"];
  }

  lemma JoinOne(s: string)
    ensures Join([s], '&') == s
  {
  }

  lemma SortOne(p: Pair)
    ensures Sort([p]) == [p]
  {
    assert [p][1..] == [];
  }
}
