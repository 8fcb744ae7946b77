/**
 * The router's tag scanner. Each loop over a position is proved to compute a function of the
 * text from that position on; offsets inside those functions are relative to their argument.
 */
module Html {
  import opened Prelude

  const OUTLET_ATTR := "data-krab-router-outlet"

  datatype TagKind = Start(selfClosing: bool, outlet: bool) | End

  /** `start` is the offset of the `<`, `end` the one past the `>`. */
  datatype Tag = Tag(name: string, start: nat, end: nat, kind: TagKind)

  predicate IsRawText(name: string) {
    name == "script" || name == "style" || name == "textarea" || name == "title"
  }

  predicate IsSpace(c: char) {
    c == ' ' || c == '\t' || c == '\n' || c == '\r' || c == '\U{c}'
  }

  predicate IsAlpha(c: char) {
    'a' <= c <= 'z' || 'A' <= c <= 'Z'
  }

  predicate IsNameChar(c: char) {
    IsAlpha(c) || '0' <= c <= '9' || c == '-'
  }

  predicate StartsWith(s: string, prefix: string) {
    |prefix| <= |s| && s[..|prefix|] == prefix
  }

  // --- Searching ---

  /** The offset of the first `c`. */
  function FindChar(s: string, c: char): (r: Option<nat>)
    ensures r.Some? ==> r.value < |s| && s[r.value] == c && c !in s[..r.value]
    ensures r.None? ==> c !in s
  {
    if s == [] then None
    else if s[0] == c then Some(0)
    else
      match FindChar(s[1..], c)
      case Some(i) =>
        assert s[..i + 1] == [s[0]] + s[1..][..i];
        Some(i + 1)
      case None => None
  }

  lemma WholeSlice(s: string)
    ensures s[0..] == s
  {
  }

  lemma TailSlices(s: string)
    requires s != []
    ensures forall i {:trigger s[i..]} :: 1 <= i <= |s| ==> s[i..] == s[1..][i - 1..]
  {
  }

  /** The offset of the first occurrence of `needle`. */
  function Find(s: string, needle: string): (r: Option<nat>)
    ensures r.Some? ==> r.value <= |s| && StartsWith(s[r.value..], needle)
    ensures r.Some? ==> forall i :: 0 <= i < r.value ==> !StartsWith(s[i..], needle)
    ensures r.None? ==> forall i :: 0 <= i <= |s| ==> !StartsWith(s[i..], needle)
  {
    WholeSlice(s);
    if StartsWith(s, needle) then Some(0)
    else if s == [] then None
    else
      TailSlices(s);
      hide StartsWith;
      var r := Find(s[1..], needle);
      match r
      case Some(i) => Some(i + 1)
      case None => None
  }

  lemma FoundAt(s: string, needle: string, i: nat)
    requires i <= |s| && StartsWith(s[i..], needle) && forall k :: 0 <= k < i ==> !StartsWith(s[k..], needle)
    ensures Find(s, needle) == Some(i)
  {
    var r := Find(s, needle);
    assert r.Some?;
  }

  // --- Attributes ---

  predicate EndsName(c: char) {
    IsSpace(c) || c == '=' || c == '>' || c == '/'
  }

  function SpaceRun(s: string): (n: nat)
    ensures n <= |s| && (forall i :: 0 <= i < n ==> IsSpace(s[i])) && (n < |s| ==> !IsSpace(s[n]))
  {
    if s == [] || !IsSpace(s[0]) then 0 else 1 + SpaceRun(s[1..])
  }

  function NameRun(s: string): (n: nat)
    ensures n <= |s| && (forall i :: 0 <= i < n ==> !EndsName(s[i])) && (n < |s| ==> EndsName(s[n]))
  {
    if s == [] || EndsName(s[0]) then 0 else 1 + NameRun(s[1..])
  }

  /** The length of an unquoted value. */
  function BareRun(s: string): (n: nat)
    ensures n <= |s| && (forall i :: 0 <= i < n ==> !IsSpace(s[i]) && s[i] != '>')
    ensures n < |s| ==> IsSpace(s[n]) || s[n] == '>'
  {
    if s == [] || IsSpace(s[0]) || s[0] == '>' then 0 else 1 + BareRun(s[1..])
  }

  /** The length of the value that `s` begins with, quotes included. */
  function ValueRun(s: string): (n: nat)
    requires s != []
    ensures n <= |s|
  {
    if s[0] == '"' || s[0] == '\'' then
      match FindChar(s[1..], s[0])
      case Some(k) => k + 2
      case None => |s|
    else BareRun(s)
  }

  /** How much of what follows an `=` the value takes. */
  function AfterEquals(s: string): (n: nat)
    ensures n <= |s|
  {
    var i := SpaceRun(s);
    if i == |s| then i else i + ValueRun(s[i..])
  }

  /** How much of `s` an attribute's `=` and value take: nothing, if no `=` follows. */
  function ValueLength(s: string): (n: nat)
    ensures n <= |s|
  {
    var i := SpaceRun(s);
    if i == |s| || s[i] != '=' then 0 else i + 1 + AfterEquals(s[i + 1..])
  }

  /** A tag's end, whether it closes itself, and whether it carries the outlet marker. */
  datatype Attributes = Attributes(end: nat, selfClosing: bool, outlet: bool)

  function Shifted(r: Option<Attributes>, n: nat): Option<Attributes> {
    match r
    case Some(a) => Some(a.(end := a.end + n))
    case None => None
  }

  /** Reads attributes up to and including the `>`; `None` if the tag does not end. */
  function Scan(s: string, outlet: bool): (r: Option<Attributes>)
    ensures r.Some? ==> 0 < r.value.end <= |s|
    decreases |s|
  {
    if s == [] then None
    else if IsSpace(s[0]) then Shifted(Scan(s[1..], outlet), 1)
    else if s[0] == '>' then Some(Attributes(1, false, outlet))
    else if StartsWith(s, "/>") then Some(Attributes(2, true, outlet))
    else if s[0] == '/' || s[0] == '=' then Shifted(Scan(s[1..], outlet), 1)
    else
      var n := NameRun(s);
      var v := ValueLength(s[n..]);
      Shifted(Scan(s[n + v..], outlet || Lower(s[..n]) == OUTLET_ATTR), n + v)
  }

  // --- Tags ---

  function TagNameRun(s: string): (n: nat)
    ensures n <= |s| && (forall i :: 0 <= i < n ==> IsNameChar(s[i])) && (n < |s| ==> !IsNameChar(s[n]))
  {
    if s == [] || !IsNameChar(s[0]) then 0 else 1 + TagNameRun(s[1..])
  }

  /** The tag that `s`, which starts with `<`, begins with. */
  function Parse(s: string): (r: Option<Tag>)
    requires s != [] && s[0] == '<'
    ensures r.Some? ==> r.value.start == 0 && 0 < r.value.end <= |s|
  {
    var isEnd := 1 < |s| && s[1] == '/';
    var from := if isEnd then 2 else 1;
    var n := TagNameRun(s[from..]);
    if n == 0 || !IsAlpha(s[from]) then None
    else
      match Scan(s[from + n..], false)
      case None => None
      case Some(a) =>
        Some(Tag(Lower(s[from..from + n]), 0, from + n + a.end, if isEnd then End else Start(a.selfClosing, a.outlet)))
  }

  function Moved(r: Option<Tag>, n: nat): Option<Tag> {
    match r
    case Some(t) => Some(t.(start := t.start + n, end := t.end + n))
    case None => None
  }

  /** The first tag of `s`, past comments, declarations and bare `<`. */
  function Next(s: string): (r: Option<Tag>)
    ensures r.Some? ==> r.value.start < r.value.end <= |s|
    decreases |s|, 1
  {
    match FindChar(s, '<')
    case None => None
    case Some(at) => Moved(AtMark(s[at..]), at)
  }

  /** The first tag of `s`, which starts with a `<`. */
  function AtMark(s: string): (r: Option<Tag>)
    requires s != [] && s[0] == '<'
    ensures r.Some? ==> r.value.start < r.value.end <= |s|
    decreases |s|, 0
  {
    if StartsWith(s, "<!--") then
      match Find(s[4..], "-->")
      case Some(k) => Moved(Next(s[4 + k + 3..]), 4 + k + 3)
      case None => None
    else if StartsWith(s, "<!") || StartsWith(s, "<?") then
      match FindChar(s, '>')
      case Some(k) => Moved(Next(s[k + 1..]), k + 1)
      case None => None
    else
      var t := Parse(s);
      if t.Some? then t else Moved(Next(s[1..]), 1)
  }

  // --- Walking the tags ---

  /** The offset of the `</name` that ends raw text, in any case, or the end. */
  function RawLength(s: string, name: string): (n: nat)
    ensures n <= |s|
  {
    match Find(Lower(s), Lower("</" + name))
    case Some(i) => i
    case None => |s|
  }

  /** Where scanning goes on after tag `t`. */
  function After(s: string, t: Tag): (n: nat)
    requires t.end <= |s|
    ensures t.end <= n <= |s|
  {
    if t.kind.Start? && !t.kind.selfClosing && IsRawText(t.name) then t.end + RawLength(s[t.end..], t.name) else t.end
  }

  datatype Want = Outlet | Title

  predicate Accepts(w: Want, t: Tag) {
    match w
    case Outlet => t.kind.Start? && t.kind.outlet
    case Title => t.kind.Start? && t.name == "title"
  }

  /** The first tag wanted, past the contents of raw-text elements. */
  function Seek(s: string, w: Want): (r: Option<Tag>)
    ensures r.Some? ==> Accepts(w, r.value) && r.value.start < r.value.end <= |s|
    decreases |s|
  {
    match Next(s)
    case None => None
    case Some(t) => if Accepts(w, t) then Some(t) else Moved(Seek(s[After(s, t)..], w), After(s, t))
  }

  /** How many elements called `name` are open after tag `t`. */
  function DepthAfter(t: Tag, name: string, depth: nat): nat
    requires depth > 0
  {
    if t.name != name then depth
    else
      match t.kind
      case Start(selfClosing, _) => if selfClosing then depth else depth + 1
      case End => depth - 1
  }

  /** Where measuring the element `name` goes on after tag `t`. */
  function Onward(s: string, t: Tag, name: string): (n: nat)
    requires t.end <= |s|
    ensures t.end <= n <= |s|
  {
    if t.name == name then t.end else After(s, t)
  }

  /** The offset of the end tag that closes `depth` open elements called `name`. */
  function Extent(s: string, name: string, depth: nat): (r: Option<nat>)
    requires depth > 0
    ensures r.Some? ==> r.value <= |s|
    decreases |s|
  {
    match Next(s)
    case None => None
    case Some(t) =>
      var d := DepthAfter(t, name, depth);
      if d == 0 then Some(t.start) else Ahead(Extent(s[Onward(s, t, name)..], name, d), Onward(s, t, name))
  }

  function Ahead(r: Option<nat>, n: nat): Option<nat> {
    match r
    case Some(i) => Some(i + n)
    case None => None
  }

  /** The content of the outlet, if the document has one. */
  function OutletHtml(s: string): Option<string> {
    match Seek(s, Want.Outlet)
    case None => None
    case Some(t) =>
      if t.kind.selfClosing then Some("")
      else
        match Extent(s[t.end..], t.name, 1)
        case None => None
        case Some(k) => Some(s[t.end..t.end + k])
  }

  // --- The loops ---

  lemma FindCharStep(s: string, c: char, pos: nat)
    requires pos <= |s|
    ensures FindChar(s[pos..], c) ==
              if pos == |s| then None
              else if s[pos] == c then Some(0)
              else Ahead(FindChar(s[pos + 1..], c), 1)
  {
    if pos < |s| {
      Dropped(s, pos, pos + 1);
    }
  }

  method FindCharFrom(s: string, c: char, from: nat) returns (r: Option<nat>)
    requires from <= |s|
    ensures r == Ahead(FindChar(s[from..], c), from)
  {
    hide FindChar;
    var pos := from;
    while pos < |s|
      invariant from <= pos <= |s|
      invariant Ahead(FindChar(s[from..], c), from) == Ahead(FindChar(s[pos..], c), pos)
    {
      FindCharStep(s, c, pos);
      if s[pos] == c {
        return Some(pos);
      }
      pos := pos + 1;
    }
    FindCharStep(s, c, pos);
    r := None;
  }

  lemma FindStep(s: string, needle: string, pos: nat)
    requires pos <= |s|
    ensures StartsWith(s[pos..], needle) ==> Find(s[pos..], needle) == Some(0)
    ensures pos < |s| && !StartsWith(s[pos..], needle) ==>
              Find(s[pos..], needle) == Ahead(Find(s[pos + 1..], needle), 1)
    ensures pos == |s| && !StartsWith(s[pos..], needle) ==> Find(s[pos..], needle) == None
  {
    hide StartsWith;
    if pos < |s| {
      assert s[pos..][1..] == s[pos + 1..];
    }
  }

  method FindFrom(s: string, needle: string, from: nat) returns (r: Option<nat>)
    requires from <= |s|
    ensures r == Ahead(Find(s[from..], needle), from)
  {
    hide Find, StartsWith;
    var pos := from;
    while pos < |s|
      invariant from <= pos <= |s|
      invariant Ahead(Find(s[from..], needle), from) == Ahead(Find(s[pos..], needle), pos)
    {
      FindStep(s, needle, pos);
      if StartsWith(s[pos..], needle) {
        return Some(pos);
      }
      pos := pos + 1;
    }
    FindStep(s, needle, pos);
    r := if StartsWith(s[pos..], needle) then Some(pos) else None;
  }

  method SkipSpaces(s: string, from: nat) returns (pos: nat)
    requires from <= |s|
    ensures pos == from + SpaceRun(s[from..])
  {
    pos := from;
    while pos < |s| && IsSpace(s[pos])
      invariant from <= pos <= |s| && from + SpaceRun(s[from..]) == pos + SpaceRun(s[pos..])
    {
      assert s[pos..][1..] == s[pos + 1..];
      pos := pos + 1;
    }
  }

  /** Consumes an `=` and the value after it, if an `=` follows. */
  method SkipAttributeValue(s: string, from: nat) returns (r: nat)
    requires from <= |s|
    ensures r == from + ValueLength(s[from..])
  {
    hide FindChar, SpaceRun, BareRun, ValueLength, ValueRun;
    var mark := SkipSpaces(s, from);
    ValueAt(s, from, mark);
    if mark >= |s| || s[mark] != '=' {
      return from;
    }
    var probe := SkipSpaces(s, mark + 1);
    if probe >= |s| {
      return probe;
    }
    ValueStarts(s, mark + 1, probe);
    if s[probe] == '"' || s[probe] == '\'' {
      var close := FindCharFrom(s, s[probe], probe + 1);
      return if close.Some? then close.value + 1 else |s|;
    }
    r := SkipBare(s, probe);
  }

  lemma ValueAt(s: string, from: nat, mark: nat)
    requires from <= |s| && mark == from + SpaceRun(s[from..])
    ensures mark <= |s|
    ensures from + ValueLength(s[from..]) ==
              if mark == |s| || s[mark] != '=' then from else mark + 1 + AfterEquals(s[mark + 1..])
  {
    hide SpaceRun, AfterEquals;
    if mark < |s| {
      Dropped(s, from, mark + 1);
    }
  }

  /** The value stands at `probe`, behind the spaces from `from` on. */
  lemma ValueStarts(s: string, from: nat, probe: nat)
    requires from <= |s| && probe == from + SpaceRun(s[from..]) < |s|
    ensures from + AfterEquals(s[from..]) == probe + ValueRun(s[probe..])
    ensures ValueRun(s[probe..]) ==
              if s[probe] == '"' || s[probe] == '\'' then
                match FindChar(s[probe + 1..], s[probe])
                case Some(k) => k + 2
                case None => |s| - probe
              else BareRun(s[probe..])
  {
    hide SpaceRun, FindChar, BareRun;
    Dropped(s, from, probe);
    Dropped(s, probe, probe + 1);
  }

  lemma Dropped(s: string, from: nat, k: nat)
    requires from <= k <= |s|
    ensures s[from..][k - from..] == s[k..]
  {
  }

  method SkipBare(s: string, from: nat) returns (pos: nat)
    requires from <= |s|
    ensures pos == from + BareRun(s[from..])
  {
    pos := from;
    while pos < |s| && !IsSpace(s[pos]) && s[pos] != '>'
      invariant from <= pos <= |s| && from + BareRun(s[from..]) == pos + BareRun(s[pos..])
    {
      assert s[pos..][1..] == s[pos + 1..];
      pos := pos + 1;
    }
  }

  method SkipName(s: string, from: nat) returns (pos: nat)
    requires from <= |s|
    ensures pos == from + NameRun(s[from..])
  {
    pos := from;
    while pos < |s| && !EndsName(s[pos])
      invariant from <= pos <= |s| && from + NameRun(s[from..]) == pos + NameRun(s[pos..])
    {
      assert s[pos..][1..] == s[pos + 1..];
      pos := pos + 1;
    }
  }

  /** One step of the walk over a tag's attributes, at `pos`. */
  lemma ScanStep(s: string, pos: nat, outlet: bool)
    requires pos < |s|
    ensures var here := Shifted(Scan(s[pos..], outlet), pos);
            if IsSpace(s[pos]) then here == Shifted(Scan(s[pos + 1..], outlet), pos + 1)
            else if s[pos] == '>' then here == Some(Attributes(pos + 1, false, outlet))
            else if s[pos] == '/' && pos + 1 < |s| && s[pos + 1] == '>'
            then here == Some(Attributes(pos + 2, true, outlet))
            else if s[pos] == '/' || s[pos] == '=' then here == Shifted(Scan(s[pos + 1..], outlet), pos + 1)
            else
              var stop := pos + NameRun(s[pos..]);
              var next := stop + ValueLength(s[stop..]);
              pos < stop <= next <= |s| &&
              here == Shifted(Scan(s[next..], outlet || Lower(s[pos..stop]) == OUTLET_ATTR), next)
  {
    hide ValueLength, NameRun, Scan, StartsWith;
    var t := s[pos..];
    if EndsName(s[pos]) {
      ScanMark(t, outlet);
      Slices(s, pos, 1, 1);
    } else {
      ScanName(t, outlet);
      var n := NameRun(t);
      Slices(s, pos, 0, n);
      Slices(s, pos, n, n + ValueLength(t[n..]));
      Shift2(Scan(t[n + ValueLength(t[n..])..], outlet || Lower(t[..n]) == OUTLET_ATTR), n + ValueLength(t[n..]), pos);
    }
  }

  lemma Slices(s: string, a: nat, b: nat, c: nat)
    requires a <= |s| && b <= c <= |s| - a
    ensures s[a..][b..c] == s[a + b..a + c] && s[a..][b..] == s[a + b..] && s[a..][c..] == s[a + c..]
    ensures b == 0 ==> s[a..][..c] == s[a..a + c]
  {
  }

  lemma Shift2(r: Option<Attributes>, a: nat, b: nat)
    ensures Shifted(Shifted(r, a), b) == Shifted(r, a + b)
  {
  }

  lemma ScanMark(t: string, outlet: bool)
    requires t != [] && EndsName(t[0])
    ensures Scan(t, outlet) == if t[0] == '>' then Some(Attributes(1, false, outlet))
                               else if t[0] == '/' && 1 < |t| && t[1] == '>' then Some(Attributes(2, true, outlet))
                               else Shifted(Scan(t[1..], outlet), 1)
  {
    assert StartsWith(t, "/>") <==> (t[0] == '/' && 1 < |t| && t[1] == '>') by {
      assert |t| >= 2 ==> t[..2] == [t[0], t[1]];
    }
  }

  lemma ScanName(t: string, outlet: bool)
    requires t != [] && !EndsName(t[0])
    ensures var n := NameRun(t);
            var v := ValueLength(t[n..]);
            0 < n <= n + v <= |t| &&
            Scan(t, outlet) == Shifted(Scan(t[n + v..], outlet || Lower(t[..n]) == OUTLET_ATTR), n + v)
  {
    hide ValueLength, Lower;
  }

  /** Walks a tag's attributes to its `>`. */
  method ScanAttributes(s: string, from: nat) returns (r: Option<Attributes>)
    requires from <= |s|
    ensures r == Shifted(Scan(s[from..], false), from)
  {
    hide NameRun, ValueLength, SpaceRun, Scan;
    var pos, outlet := from, false;
    while pos < |s|
      invariant from <= pos <= |s|
      invariant Shifted(Scan(s[from..], false), from) == Shifted(Scan(s[pos..], outlet), pos)
      decreases |s| - pos
    {
      ScanStep(s, pos, outlet);
      if IsSpace(s[pos]) {
        pos := pos + 1;
      } else if s[pos] == '>' {
        return Some(Attributes(pos + 1, false, outlet));
      } else if s[pos] == '/' && pos + 1 < |s| && s[pos + 1] == '>' {
        return Some(Attributes(pos + 2, true, outlet));
      } else if s[pos] == '/' || s[pos] == '=' {
        pos := pos + 1;
      } else {
        var stop := SkipName(s, pos);
        outlet := outlet || Lower(s[pos..stop]) == OUTLET_ATTR;
        pos := SkipAttributeValue(s, stop);
      }
    }
    NoAttributes(s, pos, outlet);
    r := None;
  }

  lemma NoAttributes(s: string, pos: nat, outlet: bool)
    requires pos == |s|
    ensures Scan(s[pos..], outlet) == None
  {
  }

  /** The tag that starts at `at`, by offsets in the whole text. */
  lemma ParseAt(s: string, at: nat)
    requires at < |s| && s[at] == '<'
    ensures var isEnd := at + 1 < |s| && s[at + 1] == '/';
            var start := if isEnd then at + 2 else at + 1;
            var pos := start + TagNameRun(s[start..]);
            start <= pos <= |s| &&
            Moved(Parse(s[at..]), at) ==
              if pos == start || !IsAlpha(s[start]) then None
              else
                match Shifted(Scan(s[pos..], false), pos)
                case None => None
                case Some(a) => Some(Tag(Lower(s[start..pos]), at, a.end,
                                         if isEnd then End else Start(a.selfClosing, a.outlet)))
  {
    hide Scan, TagNameRun, Lower;
    var isEnd := at + 1 < |s| && s[at + 1] == '/';
    var start := if isEnd then at + 2 else at + 1;
    var t := s[at..];
    assert isEnd == (1 < |t| && t[1] == '/');
    Slices(s, at, start - at, start - at);
    var pos := start + TagNameRun(s[start..]);
    Slices(s, at, start - at, pos - at);
    assert start < |s| ==> t[start - at] == s[start];
  }

  /** The tag whose `<` is at `at`, if there is one. */
  method ParseTag(s: string, at: nat) returns (r: Option<Tag>)
    requires at < |s| && s[at] == '<'
    ensures r == Moved(Parse(s[at..]), at)
  {
    hide Scan, Parse, TagNameRun;
    ParseAt(s, at);
    var isEnd := at + 1 < |s| && s[at + 1] == '/';
    var start := if isEnd then at + 2 else at + 1;
    var pos := SkipTagName(s, start);
    if pos == start || !IsAlpha(s[start]) {
      return None;
    }
    var a := ScanAttributes(s, pos);
    if a.None? {
      return None;
    }
    var kind := if isEnd then End else Start(a.value.selfClosing, a.value.outlet);
    r := Some(Tag(Lower(s[start..pos]), at, a.value.end, kind));
  }

  method SkipTagName(s: string, from: nat) returns (pos: nat)
    requires from <= |s|
    ensures pos == from + TagNameRun(s[from..])
  {
    pos := from;
    while pos < |s| && IsNameChar(s[pos])
      invariant from <= pos <= |s| && from + TagNameRun(s[from..]) == pos + TagNameRun(s[pos..])
    {
      assert s[pos..][1..] == s[pos + 1..];
      pos := pos + 1;
    }
  }

  lemma MovedTwice(r: Option<Tag>, a: nat, b: nat)
    ensures Moved(Moved(r, a), b) == Moved(r, a + b)
  {
  }

  /** One step of the search for a tag, from the `<` at `at`. */
  lemma MarkStep(s: string, at: nat)
    requires at < |s| && s[at] == '<'
    ensures var here := Moved(AtMark(s[at..]), at);
            if StartsWith(s[at..], "<!--") then
              at + 4 <= |s| &&
              match Ahead(Find(s[at + 4..], "-->"), at + 4)
              case None => here == None
              case Some(k) => k + 3 <= |s| && here == Moved(Next(s[k + 3..]), k + 3)
            else if StartsWith(s[at..], "<!") || StartsWith(s[at..], "<?") then
              match Ahead(FindChar(s[at..], '>'), at)
              case None => here == None
              case Some(k) => k < |s| && here == Moved(Next(s[k + 1..]), k + 1)
            else
              var t := Moved(Parse(s[at..]), at);
              here == if t.Some? then t else Moved(Next(s[at + 1..]), at + 1)
  {
    hide Parse, Find, FindChar, Next, StartsWith, Moved;
    var rest := s[at..];
    MovedNone(at);
    if StartsWith(rest, "<!--") {
      Prefixed(rest, "<!--");
      Slices(s, at, 4, 4);
      if Find(rest[4..], "-->").Some? {
        var k := Find(rest[4..], "-->").value;
        Prefixed(rest[4..][k..], "-->");
        Slices(s, at, 4 + k + 3, 4 + k + 3);
        MovedTwice(Next(rest[4 + k + 3..]), 4 + k + 3, at);
      }
    } else if StartsWith(rest, "<!") || StartsWith(rest, "<?") {
      if FindChar(rest, '>').Some? {
        var k := FindChar(rest, '>').value;
        Slices(s, at, k + 1, k + 1);
        MovedTwice(Next(rest[k + 1..]), k + 1, at);
      }
    } else {
      Slices(s, at, 1, 1);
      MovedTwice(Next(rest[1..]), 1, at);
    }
  }

  lemma MovedNone(n: nat)
    ensures Moved(None, n) == None && forall r :: Moved(r, n).Some? <==> r.Some?
  {
  }

  /** The search goes to the first `<`. */
  lemma ToMark(s: string, pos: nat, at: nat)
    requires pos <= at < |s| && FindChar(s[pos..], '<') == Some(at - pos)
    ensures s[at] == '<' && Moved(Next(s[pos..]), pos) == Moved(AtMark(s[at..]), at)
  {
    hide AtMark, FindChar;
    Slices(s, pos, at - pos, at - pos);
    MovedTwice(AtMark(s[at..]), at - pos, pos);
  }

  lemma Prefixed(s: string, prefix: string)
    requires StartsWith(s, prefix)
    ensures |prefix| <= |s|
  {
  }

  lemma NoTag(s: string)
    requires FindChar(s, '<').None?
    ensures Next(s).None?
  {
  }

  /** The next real tag at or after `from`. */
  method NextTag(s: string, from: nat) returns (r: Option<Tag>)
    requires from <= |s|
    ensures r == Moved(Next(s[from..]), from)
  {
    hide Parse, Find, FindChar, Next, AtMark, StartsWith;
    var pos := from;
    while true
      invariant from <= pos <= |s|
      invariant Moved(Next(s[from..]), from) == Moved(Next(s[pos..]), pos)
      decreases |s| - pos
    {
      var found := FindCharFrom(s, '<', pos);
      if found.None? {
        NoTag(s[pos..]);
        return None;
      }
      var at := found.value;
      ToMark(s, pos, at);
      MarkStep(s, at);
      if StartsWith(s[at..], "<!--") {
        var close := FindFrom(s, "-->", at + 4);
        if close.None? {
          return None;
        }
        pos := close.value + 3;
      } else if StartsWith(s[at..], "<!") || StartsWith(s[at..], "<?") {
        var close := FindCharFrom(s, '>', at);
        if close.None? {
          return None;
        }
        pos := close.value + 1;
      } else {
        var tag := ParseTag(s, at);
        if tag.Some? {
          return tag;
        }
        pos := at + 1;
      }
    }
  }

  /** Skips the raw text of the element that `tag` opens. */
  method SkipRawText(s: string, tag: Tag) returns (pos: nat)
    requires tag.end <= |s|
    ensures pos == tag.end + RawLength(s[tag.end..], tag.name)
  {
    hide Find;
    var lower := Lower(s);
    LowerSlice(s, tag.end);
    var found := FindFrom(lower, Lower("</" + tag.name), tag.end);
    pos := if found.Some? then found.value else |s|;
  }

  lemma LowerSlice(s: string, n: nat)
    requires n <= |s|
    ensures Lower(s)[n..] == Lower(s[n..])
  {
  }

  /** Where scanning goes on after `tag`. */
  method SkipAfter(s: string, tag: Tag) returns (pos: nat)
    requires tag.end <= |s|
    ensures pos == After(s, tag)
  {
    if tag.kind.Start? && !tag.kind.selfClosing && IsRawText(tag.name) {
      pos := SkipRawText(s, tag);
    } else {
      pos := tag.end;
    }
  }

  lemma AfterMoved(s: string, pos: nat, t: Tag)
    requires pos <= |s| && t.end <= |s| - pos
    ensures var m := t.(start := t.start + pos, end := t.end + pos);
            && After(s, m) == pos + After(s[pos..], t) && After(s, m) <= |s|
            && s[pos..][After(s[pos..], t)..] == s[After(s, m)..]
  {
    hide RawLength;
    Slices(s, pos, t.end, t.end);
    Slices(s, pos, After(s[pos..], t), After(s[pos..], t));
  }

  /** One step of `Seek`, by offsets in the whole text. */
  lemma SeekStep(s: string, pos: nat, w: Want)
    requires pos <= |s|
    ensures var here := Moved(Seek(s[pos..], w), pos);
            match Moved(Next(s[pos..]), pos)
            case None => here == None
            case Some(t) =>
              && pos < t.end <= After(s, t) <= |s|
              && here == if Accepts(w, t) then Some(t) else Moved(Seek(s[After(s, t)..], w), After(s, t))
  {
    hide Next, After;
    match Next(s[pos..])
    case None =>
    case Some(t) =>
      AfterMoved(s, pos, t);
      MovedTwice(Seek(s[pos..][After(s[pos..], t)..], w), After(s[pos..], t), pos);
  }

  /** The first wanted tag, skipping the contents of raw-text elements along the way. */
  method ScanFor(s: string, w: Want) returns (r: Option<Tag>)
    ensures r == Seek(s, w)
  {
    hide Next, After, Seek;
    var pos := 0;
    assert s[0..] == s;
    MovedTwice(Seek(s, w), 0, 0);
    while true
      invariant pos <= |s| && Seek(s, w) == Moved(Seek(s[pos..], w), pos)
      decreases |s| - pos
    {
      SeekStep(s, pos, w);
      var tag := NextTag(s, pos);
      if tag.None? {
        return None;
      }
      if Accepts(w, tag.value) {
        return tag;
      }
      pos := SkipAfter(s, tag.value);
    }
  }

  lemma AheadTwice(r: Option<nat>, a: nat, b: nat)
    ensures Ahead(Ahead(r, a), b) == Ahead(r, a + b)
  {
  }

  lemma OnwardMoved(s: string, pos: nat, t: Tag, name: string)
    requires pos <= |s| && t.end <= |s| - pos
    ensures var m := t.(start := t.start + pos, end := t.end + pos);
            && Onward(s, m, name) == pos + Onward(s[pos..], t, name)
            && s[pos..][Onward(s[pos..], t, name)..] == s[Onward(s, m, name)..]
  {
    hide After;
    AfterMoved(s, pos, t);
    Slices(s, pos, t.end, t.end);
  }

  /** One step of `Extent`, by offsets in the whole text. */
  lemma ExtentStep(s: string, pos: nat, name: string, depth: nat)
    requires pos <= |s| && depth > 0
    ensures var here := Ahead(Extent(s[pos..], name, depth), pos);
            match Moved(Next(s[pos..]), pos)
            case None => here == None
            case Some(t) =>
              && pos < t.end <= |s|
              && var d := DepthAfter(t, name, depth);
              here == if d == 0 then Some(t.start)
                      else Ahead(Extent(s[Onward(s, t, name)..], name, d), Onward(s, t, name))
  {
    hide Next, Onward, Ahead, DepthAfter;
    NoneAhead(pos);
    match Next(s[pos..])
    case None =>
    case Some(t) =>
      OnwardMoved(s, pos, t, name);
      SameDepth(t, pos, name, depth);
      SomeAhead(t.start, pos);
      var d := DepthAfter(t, name, depth);
      if d > 0 {
        AheadTwice(Extent(s[pos..][Onward(s[pos..], t, name)..], name, d), Onward(s[pos..], t, name), pos);
      }
  }

  lemma SameDepth(t: Tag, pos: nat, name: string, depth: nat)
    requires depth > 0
    ensures DepthAfter(t.(start := t.start + pos, end := t.end + pos), name, depth) == DepthAfter(t, name, depth)
  {
  }

  lemma NoneAhead(n: nat)
    ensures Ahead(None, n) == None
  {
  }

  lemma SomeAhead(i: nat, n: nat)
    ensures Ahead(Some(i), n) == Some(i + n)
  {
  }

  /** The offset of the end tag that closes the element `name` opened before `from`. */
  method ScanExtent(s: string, from: nat, name: string) returns (r: Option<nat>)
    requires from <= |s|
    ensures r == Ahead(Extent(s[from..], name, 1), from)
  {
    hide Next, RawLength, Extent, Ahead;
    var pos, depth := from, 1;
    while true
      invariant from <= pos <= |s| && depth > 0
      invariant Ahead(Extent(s[from..], name, 1), from) == Ahead(Extent(s[pos..], name, depth), pos)
      decreases |s| - pos
    {
      ExtentStep(s, pos, name, depth);
      var tag := NextTag(s, pos);
      if tag.None? {
        return None;
      }
      var t := tag.value;
      match t.kind {
        case Start(selfClosing, _) =>
          if selfClosing {
            pos := t.end;
          } else if t.name == name {
            depth, pos := depth + 1, t.end;
          } else {
            pos := SkipAfter(s, t);
          }
        case End =>
          if t.name == name {
            depth := depth - 1;
            if depth == 0 {
              return Some(t.start);
            }
          }
          pos := t.end;
      }
    }
  }

  /** The outlet's inner HTML, or nothing if the document has no outlet. */
  method ExtractOutletHtml(s: string) returns (r: Option<string>)
    ensures r == OutletHtml(s)
  {
    hide Seek, Extent;
    var opening := ScanFor(s, Want.Outlet);
    if opening.None? {
      return None;
    }
    if opening.value.kind.selfClosing {
      return Some("");
    }
    var end := ScanExtent(s, opening.value.end, opening.value.name);
    r := if end.Some? then Some(s[opening.value.end..end.value]) else None;
  }
}
