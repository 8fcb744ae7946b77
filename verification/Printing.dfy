/** Well-formed documents as trees, printed; the scanner finds in the text what is in the tree. */
module Printing {
  import opened Prelude
  import opened Html
  import opened Escaping

  // --- The grammar, in HTML's own terms ---

  predicate Letter(c: char) {
    'a' <= c <= 'z' || 'A' <= c <= 'Z'
  }

  predicate Blank(c: char) {
    c in {' ', '\t', '\n', '\r', '\U{c}'}
  }

  predicate Blanks(s: string) {
    forall i :: 0 <= i < |s| ==> Blank(s[i])
  }

  /** Equal up to the case of a letter. */
  predicate SameLetter(a: char, b: char) {
    a == b || (Letter(a) && Letter(b) && (a as int == b as int + 32 || b as int == a as int + 32))
  }

  predicate SameLetters(a: string, b: string) {
    |a| == |b| && forall i :: 0 <= i < |a| ==> SameLetter(a[i], b[i])
  }

  predicate NamedAmong(name: string, names: set<string>) {
    exists n :: n in names && SameLetters(name, n)
  }

  const RAW_TEXT: set<string> := {"script", "style", "textarea", "title"}

  const VOIDS: set<string> :=
    {"area", "base", "br", "col", "embed", "hr", "img", "input", "link", "meta", "source", "track", "wbr"}

  /** An attribute's value, and the blanks around its `=`. */
  datatype Value =
    | Bare
    | Quoted(before: string, after: string, quote: char, text: string)
    | Unquoted(before: string, after: string, text: string)

  /** What may follow the name in a start tag; a lone slash stands between two blanks. */
  datatype Attr = Attr(gap: string, name: string, value: Value) | Space(text: string) | Slash

  /** The name in an end tag, and the blanks after it. */
  datatype Ending = Ending(name: string, gap: string)

  /** `Stray` text follows a `<` that begins no tag; the text of an `Instruction` follows `<?`. */
  datatype Doc =
    | Plain(text: string)
    | Stray(text: string)
    | Remark(text: string)
    | Declaration(text: string)
    | Instruction(text: string)
    | Elem(name: string, attrs: seq<Attr>, kids: seq<Doc>, ending: Ending)
    | Raw(name: string, attrs: seq<Attr>, text: string, ending: Ending)
    | Void(name: string, attrs: seq<Attr>)
    | Closed(name: string, attrs: seq<Attr>)

  // --- Printing ---

  function PrintValue(v: Value): string {
    match v
    case Bare => ""
    case Quoted(before, after, q, text) => before + "=" + after + ([q] + text + [q])
    case Unquoted(before, after, text) => before + "=" + after + text
  }

  function PrintAttr(a: Attr): string {
    match a
    case Attr(gap, name, value) => gap + (name + PrintValue(value))
    case Space(text) => text
    case Slash => " / "
  }

  function PrintAttrs(attrs: seq<Attr>): string {
    if attrs == [] then "" else PrintAttr(attrs[0]) + PrintAttrs(attrs[1..])
  }

  function OpenTag(name: string, attrs: seq<Attr>): string {
    "<" + name + PrintAttrs(attrs) + ">"
  }

  function CloseTag(e: Ending): string {
    "</" + e.name + (e.gap + ">")
  }

  function Size(doc: Doc): (n: nat)
    ensures n > 0
  {
    match doc
    case Elem(_, _, kids, _) => 1 + SizeAll(kids)
    case _ => 1
  }

  function SizeAll(docs: seq<Doc>): nat {
    if docs == [] then 0 else Size(docs[0]) + SizeAll(docs[1..])
  }

  function Print(doc: Doc): string
    decreases Size(doc), 0
  {
    match doc
    case Plain(text) => text
    case Stray(text) => "<" + text
    case Remark(text) => "<!--" + text + "-->"
    case Declaration(text) => "<!" + text + ">"
    case Instruction(text) => "<?" + text + ">"
    case Elem(name, attrs, kids, ending) => OpenTag(name, attrs) + PrintAll(kids) + CloseTag(ending)
    case Raw(name, attrs, text, ending) => OpenTag(name, attrs) + text + CloseTag(ending)
    case Void(name, attrs) => OpenTag(name, attrs)
    case Closed(name, attrs) => "<" + name + PrintAttrs(attrs) + "/>"
  }

  function PrintAll(docs: seq<Doc>): string
    decreases SizeAll(docs), 1
  {
    if docs == [] then "" else Print(docs[0]) + PrintAll(docs[1..])
  }

  // --- Well-formedness ---

  predicate TagNameOk(name: string) {
    && name != [] && Letter(name[0])
    && forall i :: 0 <= i < |name| ==> Letter(name[i]) || '0' <= name[i] <= '9' || name[i] == '-'
  }

  predicate AttrNameOk(name: string) {
    name != [] && forall i :: 0 <= i < |name| ==> !Blank(name[i]) && name[i] !in {'=', '>', '/'}
  }

  predicate ValueOk(v: Value) {
    match v
    case Bare => true
    case Quoted(before, after, q, text) => Blanks(before) && Blanks(after) && q in {'"', '\''} && q !in text
    case Unquoted(before, after, text) => Blanks(before) && Blanks(after) && UnquotedOk(text)
  }

  predicate AttrOk(a: Attr) {
    match a
    case Attr(gap, name, value) => gap != [] && Blanks(gap) && AttrNameOk(name) && ValueOk(value)
    case Space(text) => text != [] && Blanks(text)
    case Slash => true
  }

  /** Anything up to a blank or the end of the tag: slashes, equals signs and later quotes included. */
  predicate UnquotedOk(text: string) {
    && text != [] && text[0] != '"' && text[0] != '\''
    && forall i :: 0 <= i < |text| ==> !Blank(text[i]) && text[i] != '>'
  }

  /** What follows a `<` that begins nothing. */
  predicate StrayOk(text: string) {
    text != [] && !Letter(text[0]) && text[0] !in {'/', '!', '?'} && '<' !in text
  }

  predicate AttrsOk(attrs: seq<Attr>) {
    forall i :: 0 <= i < |attrs| ==> AttrOk(attrs[i])
  }

  predicate OpenEnded(a: Attr) {
    a.Attr? && a.value.Unquoted?
  }

  /** The last value runs on to the end of the tag: a slash there would be part of it. */
  predicate EndsOpen(attrs: seq<Attr>) {
    attrs != [] && OpenEnded(attrs[|attrs| - 1])
  }

  predicate EndingOk(e: Ending, name: string) {
    SameLetters(e.name, name) && Blanks(e.gap)
  }

  /** No tail of `s` starts with `needle`. */
  predicate Lacks(s: string, needle: string) {
    Find(s, needle).None?
  }

  /** No `</name`, in any case, begins anywhere in `s`. */
  predicate LacksEnd(s: string, name: string) {
    forall i :: 0 <= i <= |s| - |name| - 2 ==>
      !(s[i] == '<' && s[i + 1] == '/' && SameLetters(s[i + 2..i + 2 + |name|], name))
  }

  predicate DocOk(doc: Doc)
    decreases Size(doc), 0
  {
    match doc
    case Plain(text) => '<' !in text
    case Stray(text) => StrayOk(text)
    case Remark(text) => Lacks(text, "-->")
    case Declaration(text) => '>' !in text && !StartsWith(text, "--")
    case Instruction(text) => '>' !in text
    case Elem(name, attrs, kids, ending) =>
      && TagNameOk(name) && !NamedAmong(name, RAW_TEXT) && !NamedAmong(name, VOIDS)
      && AttrsOk(attrs) && EndingOk(ending, name) && AllOk(kids)
    case Raw(name, attrs, text, ending) =>
      && TagNameOk(name) && NamedAmong(name, RAW_TEXT) && AttrsOk(attrs) && EndingOk(ending, name)
      && LacksEnd(text, name)
    case Void(name, attrs) => TagNameOk(name) && NamedAmong(name, VOIDS) && AttrsOk(attrs)
    case Closed(name, attrs) => TagNameOk(name) && AttrsOk(attrs) && !EndsOpen(attrs)
  }

  predicate AllOk(docs: seq<Doc>)
    decreases SizeAll(docs), 1
  {
    docs == [] || (DocOk(docs[0]) && AllOk(docs[1..]))
  }

  /** An attribute of this name, in any case, is the outlet marker. */
  predicate Marks(a: Attr) {
    a.Attr? && SameLetters(a.name, OUTLET_ATTR)
  }

  /** The element carries the outlet marker as an attribute name. */
  predicate Marked(attrs: seq<Attr>) {
    exists i :: 0 <= i < |attrs| && Marks(attrs[i])
  }

  // --- Case ---

  lemma SameLower(a: string, b: string)
    ensures SameLetters(a, b) <==> Lower(a) == Lower(b)
  {
    if Lower(a) == Lower(b) {
      assert |Lower(a)| == |a| && |Lower(b)| == |b|;
      forall i | 0 <= i < |a| ensures SameLetter(a[i], b[i]) {
        assert Lower(a)[i] == Lower(b)[i];
      }
    }
  }

  predicate IsVoid(name: string) {
    name in VOIDS
  }

  lemma AmongLower(name: string, names: set<string>)
    requires forall n :: n in names ==> Lower(n) == n
    ensures NamedAmong(name, names) <==> Lower(name) in names
  {
    hide SameLetters, Lower;
    forall n | n in names ensures SameLetters(name, n) <==> Lower(name) == n {
      SameLower(name, n);
    }
  }

  predicate Small(s: string) {
    forall i :: 0 <= i < |s| ==> !('A' <= s[i] <= 'Z')
  }

  lemma SmallStays(s: string)
    requires Small(s)
    ensures Lower(s) == s
  {
  }

  lemma WordsSmall()
    ensures forall n :: n in RAW_TEXT + VOIDS ==> Lower(n) == n
  {
    forall n | n in RAW_TEXT + VOIDS ensures Lower(n) == n {
      assert Small(n);
      SmallStays(n);
    }
  }

  lemma RawNames(name: string)
    ensures NamedAmong(name, RAW_TEXT) <==> IsRawText(Lower(name))
  {
    hide Lower, NamedAmong, SameLetters;
    WordsSmall();
    AmongLower(name, RAW_TEXT);
  }

  lemma VoidNames(name: string)
    ensures NamedAmong(name, VOIDS) <==> IsVoid(Lower(name))
  {
    hide Lower, NamedAmong, SameLetters;
    WordsSmall();
    AmongLower(name, VOIDS);
  }

  // --- Texts around a tag ---

  lemma {:induction false} FindCharPast(a: string, c: char, s: string)
    requires c !in a
    ensures FindChar(a + s, c) == Ahead(FindChar(s, c), |a|)
  {
    if a == [] {
      assert a + s == s;
    } else {
      assert (a + s)[1..] == a[1..] + s && (a + s)[0] == a[0];
      FindCharPast(a[1..], c, s);
    }
  }

  lemma PrefixOf(a: string, s: string)
    ensures StartsWith(a + s, a)
  {
    assert (a + s)[..|a|] == a;
  }

  lemma {:induction false} SpaceStops(c: char, s: string)
    requires !Blank(c)
    ensures SpaceRun([c] + s) == 0
  {
  }

  lemma {:induction false} SpacePast(a: string, s: string)
    requires Blanks(a)
    ensures SpaceRun(a + s) == |a| + SpaceRun(s)
  {
    if a == [] {
      assert a + s == s;
    } else {
      assert (a + s)[1..] == a[1..] + s && (a + s)[0] == a[0];
      SpacePast(a[1..], s);
    }
  }

  lemma {:induction false} NameRunIs(a: string, s: string)
    requires forall i :: 0 <= i < |a| ==> !EndsName(a[i])
    requires s == [] || EndsName(s[0])
    ensures NameRun(a + s) == |a|
  {
    if a == [] {
      assert a + s == s;
    } else {
      assert (a + s)[1..] == a[1..] + s && (a + s)[0] == a[0];
      NameRunIs(a[1..], s);
    }
  }

  lemma {:induction false} TagNameRunIs(a: string, s: string)
    requires forall i :: 0 <= i < |a| ==> IsNameChar(a[i])
    requires s == [] || !IsNameChar(s[0])
    ensures TagNameRun(a + s) == |a|
  {
    if a == [] {
      assert a + s == s;
    } else {
      assert (a + s)[1..] == a[1..] + s && (a + s)[0] == a[0];
      TagNameRunIs(a[1..], s);
    }
  }

  // --- Attributes ---

  /** What follows something in a printed tag: more of it, or its end. */
  predicate TagRest(s: string) {
    var n := SpaceRun(s);
    n < |s| && s[n] != '=' && (n > 0 || s[0] == '>' || s[0] == '/')
  }

  /** A value follows: blanks, `=`, blanks, and `w`, which begins with none. */
  lemma ValueFollows(before: string, after: string, w: string)
    requires Blanks(before) && Blanks(after) && w != [] && !Blank(w[0])
    ensures ValueLength(before + "=" + after + w) == |before| + 1 + |after| + ValueRun(w)
  {
    hide Blanks, SpaceRun, ValueRun;
    ValueParts(before, after, w);
    SpaceThen(before, ['='] + (after + w));
    ValueAfter(after, w);
  }

  lemma ValueAfter(after: string, w: string)
    requires Blanks(after) && w != [] && !Blank(w[0])
    ensures AfterEquals(after + w) == |after| + ValueRun(w)
  {
    hide Blanks, SpaceRun, ValueRun;
    SpaceThen(after, w);
    assert (after + w)[|after|..] == w;
  }

  lemma ValueParts(before: string, after: string, w: string)
    requires w != []
    ensures var s, i := before + "=" + after + w, |before|;
            s == before + (['='] + (after + w)) && i < |s| && s[i] == '=' && s[i + 1..] == after + w
  {
  }

  lemma SpaceThen(a: string, w: string)
    requires Blanks(a) && w != [] && !Blank(w[0])
    ensures SpaceRun(a + w) == |a|
  {
    hide SpaceRun;
    SpacePast(a, w);
    assert w == [w[0]] + w[1..];
    SpaceStops(w[0], w[1..]);
  }

  lemma FindCharHere(c: char, s: string)
    ensures FindChar([c] + s, c) == Some(0)
  {
  }

  lemma QuotedLength(v: Value, s: string)
    requires v.Quoted? && ValueOk(v)
    ensures ValueLength(PrintValue(v) + s) == |PrintValue(v)|
  {
    hide FindChar, ValueLength;
    var q, text := v.quote, v.text;
    var w := [q] + text + [q] + s;
    ValueFollows(v.before, v.after, w);
    assert w[1..] == text + ([q] + s);
    FindCharPast(text, q, [q] + s);
    FindCharHere(q, s);
    assert v.before + "=" + v.after + w == PrintValue(v) + s;
  }

  lemma {:induction false} BareRunIs(a: string, s: string)
    requires forall i :: 0 <= i < |a| ==> !Blank(a[i]) && a[i] != '>'
    requires s != [] && (Blank(s[0]) || s[0] == '>')
    ensures BareRun(a + s) == |a|
  {
    if a == [] {
      assert a + s == s;
    } else {
      assert (a + s)[1..] == a[1..] + s && (a + s)[0] == a[0];
      BareRunIs(a[1..], s);
    }
  }

  lemma UnquotedLength(v: Value, s: string)
    requires v.Unquoted? && ValueOk(v) && s != [] && (Blank(s[0]) || s[0] == '>')
    ensures ValueLength(PrintValue(v) + s) == |PrintValue(v)|
  {
    hide BareRun, ValueLength, UnquotedOk;
    UnquotedParts(v.text);
    ValueFollows(v.before, v.after, v.text + s);
    BareRunIs(v.text, s);
    assert v.before + "=" + v.after + (v.text + s) == PrintValue(v) + s;
  }

  lemma UnquotedParts(text: string)
    requires UnquotedOk(text)
    ensures text != [] && text[0] != '"' && text[0] != '\'' && !Blank(text[0])
    ensures forall i :: 0 <= i < |text| ==> !Blank(text[i]) && text[i] != '>'
  {
  }

  lemma ValueTaken(v: Value, s: string)
    requires ValueOk(v) && TagRest(s) && (v.Unquoted? ==> s[0] != '/')
    ensures ValueLength(PrintValue(v) + s) == |PrintValue(v)|
  {
    hide ValueLength;
    match v {
      case Bare =>
        assert "" + s == s;
        BareLength(s);
      case Quoted(_, _, _, _) =>
        QuotedLength(v, s);
      case Unquoted(_, _, _) =>
        RestStarts(s);
        UnquotedLength(v, s);
    }
  }

  lemma BareLength(s: string)
    requires TagRest(s)
    ensures ValueLength(s) == 0
  {
  }

  lemma RestStarts(s: string)
    requires TagRest(s)
    ensures s != [] && (Blank(s[0]) || s[0] == '>' || s[0] == '/')
  {
  }

  lemma ValueEndsName(v: Value, s: string)
    requires ValueOk(v) && TagRest(s)
    ensures PrintValue(v) + s != [] && EndsName((PrintValue(v) + s)[0])
  {
    RestStarts(s);
    match v {
      case Bare =>
        assert "" + s == s;
      case Quoted(before, _, _, _) =>
        assert PrintValue(v)[0] == if before == [] then '=' else before[0];
      case Unquoted(before, _, _) =>
        assert PrintValue(v)[0] == if before == [] then '=' else before[0];
    }
  }

  lemma NameEnds(name: string)
    requires AttrNameOk(name)
    ensures name != [] && forall i :: 0 <= i < |name| ==> !EndsName(name[i])
  {
  }

  lemma ScanNameValue(name: string, w: string, outlet: bool)
    requires AttrNameOk(name) && w != [] && EndsName(w[0])
    ensures Scan(name + w, outlet) ==
            Shifted(Scan(w[ValueLength(w)..], outlet || Lower(name) == OUTLET_ATTR), |name| + ValueLength(w))
  {
    hide Lower, Scan, ValueLength, NameRun, AttrNameOk, EndsName;
    NameEnds(name);
    var u, n := name + w, |name|;
    assert u[0] == name[0];
    ScanName(u, outlet);
    NameRunIs(name, w);
    assert u[..n] == name && u[n..] == w;
    assert u[n + ValueLength(w)..] == w[ValueLength(w)..];
  }

  lemma {:induction false} ScanBlanks(a: string, s: string, outlet: bool)
    requires Blanks(a)
    ensures Scan(a + s, outlet) == Shifted(Scan(s, outlet), |a|)
  {
    if a == [] {
      assert a + s == s;
      Shift0(Scan(s, outlet));
    } else {
      hide Scan;
      assert (a + s)[1..] == a[1..] + s && (a + s)[0] == a[0];
      ScanMark(a + s, outlet);
      ScanBlanks(a[1..], s, outlet);
      Shift2(Scan(s, outlet), |a| - 1, 1);
    }
  }

  lemma Shift0(r: Option<Attributes>)
    ensures Shifted(r, 0) == r
  {
  }

  lemma ScanSlash(s: string, outlet: bool)
    ensures Scan(" / " + s, outlet) == Shifted(Scan(s, outlet), 3)
  {
    hide Scan;
    assert " / " + s == " " + ("/" + (" " + s));
    ScanBlanks(" ", "/" + (" " + s), outlet);
    ScanMark("/" + (" " + s), outlet);
    assert ("/" + (" " + s))[1..] == " " + s;
    ScanBlanks(" ", s, outlet);
    Shift2(Scan(s, outlet), 1, 1);
    Shift2(Scan(s, outlet), 2, 1);
  }

  lemma MarksLower(a: Attr)
    requires a.Attr?
    ensures Marks(a) <==> Lower(a.name) == OUTLET_ATTR
  {
    hide Lower, SameLetters;
    SameLower(a.name, OUTLET_ATTR);
    assert Lower(OUTLET_ATTR) == OUTLET_ATTR by {
      assert Small(OUTLET_ATTR);
      SmallStays(OUTLET_ATTR);
    }
  }

  /** Scanning over one printed attribute. */
  lemma ScanAttr(a: Attr, s: string, outlet: bool)
    requires AttrOk(a) && TagRest(s) && (OpenEnded(a) ==> s[0] != '/')
    ensures Scan(PrintAttr(a) + s, outlet) == Shifted(Scan(s, outlet || Marks(a)), |PrintAttr(a)|)
  {
    hide Lower, Scan, TagRest, Marks;
    match a
    case Attr(gap, name, value) =>
      MarksLower(a);
      ScanNamed(gap, name, value, s, outlet);
    case Space(text) =>
      NoMark(a);
      ScanBlanks(text, s, outlet);
    case Slash =>
      NoMark(a);
      ScanSlash(s, outlet);
  }

  lemma NoMark(a: Attr)
    requires !a.Attr?
    ensures !Marks(a)
  {
  }

  lemma ScanNamed(gap: string, name: string, v: Value, s: string, outlet: bool)
    requires Blanks(gap) && AttrNameOk(name) && ValueOk(v) && TagRest(s) && (v.Unquoted? ==> s[0] != '/')
    ensures var a := gap + (name + PrintValue(v));
            Scan(a + s, outlet) == Shifted(Scan(s, outlet || Lower(name) == OUTLET_ATTR), |a|)
  {
    hide Lower, Scan, ValueLength, TagRest, PrintValue, ValueOk, AttrNameOk, Blanks;
    var w, n := PrintValue(v) + s, |PrintValue(v)|;
    assert gap + (name + PrintValue(v)) + s == gap + (name + w);
    ScanBlanks(gap, name + w, outlet);
    ValueEndsName(v, s);
    ValueTaken(v, s);
    ScanNameValue(name, w, outlet);
    assert w[n..] == s;
    Shift2(Scan(s, outlet || Lower(name) == OUTLET_ATTR), |name| + n, |gap|);
  }

  lemma AttrRest(a: Attr, s: string)
    requires AttrOk(a) && TagRest(s)
    ensures TagRest(PrintAttr(a) + s) && Blank((PrintAttr(a) + s)[0])
  {
    hide SpaceRun;
    match a
    case Attr(gap, name, value) =>
      var w := name[1..] + PrintValue(value) + s;
      assert PrintAttr(a) + s == gap + ([name[0]] + w);
      SpacePast(gap, [name[0]] + w);
      SpaceStops(name[0], w);
    case Space(text) =>
      SpacePast(text, s);
    case Slash =>
      var w := " " + s;
      assert PrintAttr(a) + s == " " + (['/'] + w);
      SpacePast(" ", ['/'] + w);
      SpaceStops('/', w);
  }

  lemma {:induction false} AttrsRest(attrs: seq<Attr>, s: string)
    requires AttrsOk(attrs) && TagRest(s)
    ensures TagRest(PrintAttrs(attrs) + s) && (attrs != [] ==> Blank((PrintAttrs(attrs) + s)[0]))
  {
    hide TagRest, PrintAttr, AttrOk;
    if attrs == [] {
      assert PrintAttrs(attrs) + s == s;
    } else {
      AttrsRest(attrs[1..], s);
      assert PrintAttrs(attrs) + s == PrintAttr(attrs[0]) + (PrintAttrs(attrs[1..]) + s);
      AttrRest(attrs[0], PrintAttrs(attrs[1..]) + s);
    }
  }

  /** Scanning over all printed attributes finds the marker exactly when the tree has it. */
  lemma {:induction false} ScanAttrs(attrs: seq<Attr>, s: string, outlet: bool)
    requires AttrsOk(attrs) && TagRest(s) && (EndsOpen(attrs) ==> s[0] != '/')
    ensures Scan(PrintAttrs(attrs) + s, outlet) == Shifted(Scan(s, outlet || Marked(attrs)), |PrintAttrs(attrs)|)
  {
    hide Scan, PrintAttr, Marked, Marks, TagRest, AttrOk, OpenEnded;
    MarkedNone();
    if attrs == [] {
      assert PrintAttrs(attrs) + s == s;
      Shift0(Scan(s, outlet));
    } else {
      var rest := PrintAttrs(attrs[1..]) + s;
      AttrsRest(attrs[1..], s);
      RestStart(attrs[1..], s);
      assert PrintAttrs(attrs) + s == PrintAttr(attrs[0]) + rest;
      ScanAttr(attrs[0], rest, outlet);
      var outlet' := outlet || Marks(attrs[0]);
      ScanAttrs(attrs[1..], s, outlet');
      MarkedHead(attrs);
      Shift2(Scan(s, outlet' || Marked(attrs[1..])), |PrintAttrs(attrs[1..])|, |PrintAttr(attrs[0])|);
    }
  }

  lemma RestStart(attrs: seq<Attr>, s: string)
    requires AttrsOk(attrs) && TagRest(s)
    ensures var t := PrintAttrs(attrs) + s; t != [] && (if attrs == [] then t[0] == s[0] else t[0] != '/')
  {
    hide PrintAttr;
    AttrsRest(attrs, s);
  }

  lemma MarkedNone()
    ensures !Marked([])
  {
  }

  lemma MarkedHead(attrs: seq<Attr>)
    requires attrs != []
    ensures Marked(attrs) <==> Marks(attrs[0]) || Marked(attrs[1..])
  {
    hide Marks;
    if Marked(attrs[1..]) {
      var i :| 0 <= i < |attrs[1..]| && Marks(attrs[1..][i]);
      assert Marks(attrs[i + 1]);
    }
    if Marked(attrs) && !Marks(attrs[0]) {
      var i :| 0 <= i < |attrs| && Marks(attrs[i]);
      assert Marks(attrs[1..][i - 1]);
    }
  }

  // --- Tags ---

  /** The text of a start tag. */
  function TagText(name: string, attrs: seq<Attr>, closed: bool): string {
    "<" + name + PrintAttrs(attrs) + (if closed then "/>" else ">")
  }

  lemma EndMark(closed: bool, s: string, outlet: bool)
    ensures var e := if closed then "/>" else ">";
            && TagRest(e + s) && !IsNameChar((e + s)[0])
            && Scan(e + s, outlet) == Some(Attributes(|e|, closed, outlet))
  {
    hide Scan;
    var e := if closed then "/>" else ">";
    assert (e + s)[0] == e[0];
    ScanMark(e + s, outlet);
  }

  lemma AttrStarts(a: Attr)
    requires AttrOk(a)
    ensures PrintAttr(a) != [] && Blank(PrintAttr(a)[0])
  {
  }

  lemma AttrsStart(attrs: seq<Attr>, e: string)
    requires AttrsOk(attrs) && e != [] && !IsNameChar(e[0])
    ensures PrintAttrs(attrs) + e != [] && !IsNameChar((PrintAttrs(attrs) + e)[0])
  {
    hide PrintAttr, AttrOk;
    if attrs == [] {
      assert PrintAttrs(attrs) + e == e;
    } else {
      AttrStarts(attrs[0]);
      assert (PrintAttrs(attrs) + e)[0] == PrintAttr(attrs[0])[0];
    }
  }

  /** Parsing a tag whose name is followed by `w`. */
  lemma ParseNamed(slash: bool, name: string, w: string)
    requires TagNameOk(name) && w != [] && !IsNameChar(w[0])
    ensures var from := if slash then 2 else 1;
            Parse((if slash then "</" else "<") + name + w) ==
              match Scan(w, false)
              case None => None
              case Some(a) => Some(Tag(Lower(name), 0, from + |name| + a.end,
                                       if slash then End else Start(a.selfClosing, a.outlet)))
  {
    hide Scan, Lower, TagNameRun, Parse, TagNameOk;
    NamedText(slash, name, w);
    ParseParts(slash, name, w, (if slash then "</" else "<") + name + w);
  }

  lemma ParseParts(slash: bool, name: string, w: string, t: string)
    requires TagNameOk(name) && w != [] && !IsNameChar(w[0])
    requires var from := if slash then 2 else 1;
             && |t| == from + |name| + |w| && t[0] == '<' && t[from] == name[0] && ((1 < |t| && t[1] == '/') == slash)
             && t[from..] == name + w && t[from..from + |name|] == name && t[from + |name|..] == w
    ensures var from := if slash then 2 else 1;
            Parse(t) ==
              match Scan(w, false)
              case None => None
              case Some(a) => Some(Tag(Lower(name), 0, from + |name| + a.end,
                                       if slash then End else Start(a.selfClosing, a.outlet)))
  {
    hide Scan, Lower, TagNameRun;
    TagNameRunIs(name, w);
  }

  lemma NamedText(slash: bool, name: string, w: string)
    requires TagNameOk(name)
    ensures var from := if slash then 2 else 1;
            var t := (if slash then "</" else "<") + name + w;
            && |t| == from + |name| + |w| && t[0] == '<' && t[from] == name[0] && ((1 < |t| && t[1] == '/') == slash)
            && t[from..] == name + w && t[from..from + |name|] == name && t[from + |name|..] == w
  {
  }

  lemma ParseOpen(name: string, attrs: seq<Attr>, closed: bool, s: string)
    requires TagNameOk(name) && AttrsOk(attrs) && (closed ==> !EndsOpen(attrs))
    ensures var t := TagText(name, attrs, closed);
            Parse(t + s) == Some(Tag(Lower(name), 0, |t|, Start(closed, Marked(attrs))))
  {
    hide Scan, Lower, PrintAttrs, TagRest, TagNameOk, AttrsOk, Marked, EndsOpen;
    var e := if closed then "/>" else ">";
    var w := PrintAttrs(attrs) + (e + s);
    EndMark(closed, s, Marked(attrs));
    AttrsStart(attrs, e + s);
    ScanAttrs(attrs, e + s, false);
    ParseNamed(false, name, w);
    assert TagText(name, attrs, closed) + s == "<" + name + w;
  }

  /** An end tag's name is the start tag's, up to case. */
  lemma EndingNamed(e: Ending, name: string)
    requires EndingOk(e, name) && TagNameOk(name)
    ensures TagNameOk(e.name) && Lower(e.name) == Lower(name) && |e.name| == |name|
  {
    hide Lower;
    SameLower(e.name, name);
    assert forall i :: 0 <= i < |name| ==> SameLetter(e.name[i], name[i]);
  }

  lemma ParseClose(e: Ending, name: string, s: string)
    requires EndingOk(e, name) && TagNameOk(name)
    ensures Parse(CloseTag(e) + s) == Some(Tag(Lower(name), 0, |CloseTag(e)|, End))
  {
    hide Scan, Lower, TagNameOk, EndingOk;
    EndingNamed(e, name);
    EndMark(false, s, false);
    GapEnds(e, name, s);
    ParseNamed(true, e.name, e.gap + (">" + s));
  }

  lemma GapEnds(e: Ending, name: string, s: string)
    requires EndingOk(e, name)
    ensures var w := e.gap + (">" + s);
            && w != [] && !IsNameChar(w[0]) && Scan(w, false) == Shifted(Scan(">" + s, false), |e.gap|)
            && CloseTag(e) + s == "</" + e.name + w && |CloseTag(e)| == 2 + |e.name| + |e.gap| + 1
  {
    hide Scan, SameLetters;
    ScanBlanks(e.gap, ">" + s, false);
    var w := e.gap + (">" + s);
    assert w[0] == if e.gap == [] then '>' else e.gap[0];
  }

  // --- The next tag ---

  lemma NextPast(a: string, s: string)
    requires '<' !in a
    ensures Next(a + s) == Moved(Next(s), |a|)
  {
    hide AtMark, FindChar, Moved, Next;
    FindCharPast(a, '<', s);
    MovedNone(|a|);
    NextFound(s);
    NextFound(a + s);
    if FindChar(s, '<').Some? {
      var at := FindChar(s, '<').value;
      DropPast(a, s, at);
      MovedTwice(AtMark(s[at..]), at, |a|);
    }
  }

  lemma NextFound(s: string)
    ensures match FindChar(s, '<')
            case None => Next(s) == None
            case Some(at) => at < |s| && Next(s) == Moved(AtMark(s[at..]), at)
  {
    hide AtMark, FindChar, Moved;
  }

  lemma DropPast(a: string, s: string, at: nat)
    requires at <= |s|
    ensures (a + s)[|a| + at..] == s[at..]
  {
  }

  lemma StartsDiffer(s: string, c: char)
    requires |s| >= 2 && s[0] == '<' && s[1] == c && c != '!' && c != '?'
    ensures !StartsWith(s, "<!--") && !StartsWith(s, "<!") && !StartsWith(s, "<?")
  {
    assert |s| >= 4 ==> s[..4][1] == c;
    assert s[..2][1] == c;
  }

  lemma AtHead(s: string)
    requires s != [] && s[0] == '<'
    ensures Next(s) == AtMark(s)
  {
    hide AtMark;
    assert FindChar(s, '<') == Some(0);
    assert s[0..] == s;
    Moved0(AtMark(s));
  }

  lemma Moved0(r: Option<Tag>)
    ensures Moved(r, 0) == r
  {
  }

  lemma NextParsedHere(s: string, c: char)
    requires |s| >= 2 && s[0] == '<' && s[1] == c && c != '!' && c != '?' && Parse(s).Some?
    ensures Next(s) == Parse(s)
  {
    hide Parse, StartsWith;
    AtHead(s);
    StartsDiffer(s, c);
  }

  lemma NextOpen(name: string, attrs: seq<Attr>, closed: bool, s: string)
    requires TagNameOk(name) && AttrsOk(attrs) && (closed ==> !EndsOpen(attrs))
    ensures var t := TagText(name, attrs, closed);
            Next(t + s) == Some(Tag(Lower(name), 0, |t|, Start(closed, Marked(attrs))))
  {
    hide Lower, PrintAttrs, Marked, AttrsOk, Parse, Next;
    ParseOpen(name, attrs, closed, s);
    var t := TagText(name, attrs, closed) + s;
    assert t[1] == name[0];
    NextParsedHere(t, name[0]);
  }

  lemma NextClose(e: Ending, name: string, s: string)
    requires EndingOk(e, name) && TagNameOk(name)
    ensures Next(CloseTag(e) + s) == Some(Tag(Lower(name), 0, |CloseTag(e)|, End))
  {
    hide Lower, Parse, Next, TagNameOk, EndingOk;
    ParseClose(e, name, s);
    NextParsedHere(CloseTag(e) + s, '/');
  }

  /** A `<` that begins nothing is passed over. */
  lemma NextStray(text: string, s: string)
    requires StrayOk(text)
    ensures Next("<" + text + s) == Moved(Next(s), 1 + |text|)
  {
    hide Next, Moved, StartsWith;
    var t := "<" + text + s;
    assert t[1] == text[0] && t[1..] == text + s;
    AtHead(t);
    StartsDiffer(t, text[0]);
    NextPast(text, s);
    MovedTwice(Next(s), |text|, 1);
  }

  /** A comment's end is where its text ends: an overlap with the text is impossible. */
  lemma CommentEnds(text: string, s: string)
    requires Lacks(text, "-->")
    ensures Find(text + ("-->" + s), "-->") == Some(|text|)
  {
    hide Find, StartsWith;
    var t := text + ("-->" + s);
    assert t[|text|..] == "-->" + s;
    PrefixOf("-->", s);
    forall k | 0 <= k < |text| ensures !StartsWith(t[k..], "-->") {
      NoOverlap(text, s, k);
    }
    FoundAt(t, "-->", |text|);
  }

  lemma NoOverlap(text: string, s: string, k: nat)
    requires Lacks(text, "-->") && k < |text|
    ensures !StartsWith((text + ("-->" + s))[k..], "-->")
  {
    hide Find;
    var t := text + ("-->" + s);
    NotThere(text, "-->", k);
    assert t[|text|] == '-' && t[|text| + 1] == '-';
    assert t[k..][..3] == [t[k], t[k + 1], t[k + 2]];
    assert k + 3 <= |text| ==> text[k..][..3] == t[k..][..3];
  }

  lemma NotThere(s: string, needle: string, k: nat)
    requires Lacks(s, needle) && k <= |s|
    ensures !StartsWith(s[k..], needle)
  {
  }

  lemma NextRemark(text: string, s: string)
    requires Lacks(text, "-->")
    ensures Next("<!--" + text + "-->" + s) == Moved(Next(s), |text| + 7)
  {
    hide Parse, Next, StartsWith, Find, Moved, Lacks;
    var t := "<!--" + text + "-->" + s;
    var rest := text + ("-->" + s);
    assert t == "<!--" + rest;
    PrefixOf("<!--", rest);
    AtHead(t);
    assert t[4..] == rest;
    CommentEnds(text, s);
    assert t[4 + |text| + 3..] == s;
  }

  lemma NextInstruction(text: string, s: string)
    requires '>' !in text
    ensures Next("<?" + text + ">" + s) == Moved(Next(s), |text| + 3)
  {
    hide Parse, Next, Moved, FindChar;
    var t := "<?" + text + ">" + s;
    InstructionStarts(text, s);
    AtHead(t);
    FindCharPast("<?" + text, '>', ">" + s);
    FindCharHere('>', s);
  }

  lemma InstructionStarts(text: string, s: string)
    ensures var t := "<?" + text + ">" + s;
            && StartsWith(t, "<?") && !StartsWith(t, "<!--") && t[0] == '<' && t[|text| + 3..] == s
            && t == ("<?" + text) + (">" + s)
  {
    var t := "<?" + text + ">" + s;
    assert t == "<?" + (text + (">" + s));
    PrefixOf("<?", text + (">" + s));
    assert |t| >= 4 ==> t[..4][1] == '?';
  }

  lemma NextDecl(text: string, s: string)
    requires '>' !in text && !StartsWith(text, "--")
    ensures Next("<!" + text + ">" + s) == Moved(Next(s), |text| + 3)
  {
    hide Parse, Next, Moved, FindChar, StartsWith;
    var t := "<!" + text + ">" + s;
    DeclarationStarts(text, s);
    NotComment(text, s);
    AtHead(t);
    FindCharPast("<!" + text, '>', ">" + s);
    FindCharHere('>', s);
  }

  lemma DeclarationStarts(text: string, s: string)
    ensures var t := "<!" + text + ">" + s;
            && StartsWith(t, "<!") && t[0] == '<' && t[|text| + 3..] == s && t == ("<!" + text) + (">" + s)
  {
    assert "<!" + text + ">" + s == "<!" + (text + (">" + s));
    PrefixOf("<!", text + (">" + s));
  }

  lemma NotComment(text: string, s: string)
    requires '>' !in text && !StartsWith(text, "--")
    ensures !StartsWith("<!" + text + ">" + s, "<!--")
  {
    var t := "<!" + text + ">" + s;
    assert |t| >= 4 ==> t[..4] == [t[0], t[1], t[2], t[3]];
    assert |text| == 0 ==> t[2] == '>';
    assert |text| == 1 ==> t[3] == '>';
    assert |text| >= 2 ==> text[..2] == [text[0], text[1]] && t[2] == text[0] && t[3] == text[1];
  }

  // --- Raw text ---

  lemma LowerConcat(a: string, b: string)
    ensures Lower(a + b) == Lower(a) + Lower(b)
  {
  }

  /** Without its end tag in any case, a text lacks the lower-case one in lower case. */
  lemma LacksLower(text: string, name: string)
    requires LacksEnd(text, name)
    ensures Lacks(Lower(text), "</" + Lower(name))
  {
    hide Find, SameLetters;
    var low, needle := Lower(text), "</" + Lower(name);
    forall k | 0 <= k <= |low| ensures !StartsWith(low[k..], needle) {
      if StartsWith(low[k..], needle) {
        SpelledThere(text, name, k);
      }
    }
    LacksWhen(low, needle);
  }

  lemma SpelledThere(text: string, name: string, k: nat)
    requires k <= |text| && StartsWith(Lower(text)[k..], "</" + Lower(name))
    ensures k + 2 + |name| <= |text| && text[k] == '<' && text[k + 1] == '/'
            && SameLetters(text[k + 2..k + 2 + |name|], name)
  {
    hide SameLetters;
    var low, needle := Lower(text)[k..], "</" + Lower(name);
    assert |needle| == 2 + |name| && |low| == |text| - k;
    assert forall i :: 0 <= i < |needle| ==> low[..|needle|][i] == low[i] == Lower(text)[k + i] == ToLower(text[k + i]);
    assert needle[0] == '<' && needle[1] == '/';
    assert ToLower(text[k + 0]) == '<' && ToLower(text[k + 1]) == '/';
    var part := text[k + 2..k + 2 + |name|];
    assert Lower(part) == Lower(name) by {
      forall i | 0 <= i < |name| ensures Lower(part)[i] == Lower(name)[i] {
        assert needle[i + 2] == Lower(name)[i];
        assert part[i] == text[k + (i + 2)];
      }
    }
    SameLower(part, name);
  }

  lemma LacksWhen(s: string, needle: string)
    requires forall k :: 0 <= k <= |s| ==> !StartsWith(s[k..], needle)
    ensures Lacks(s, needle)
  {
  }

  /** Raw text ends at its own end tag. */
  lemma RawEnds(e: Ending, name: string, text: string, s: string)
    requires LacksEnd(text, name) && EndingOk(e, name) && TagNameOk(name)
    ensures RawLength(text + (CloseTag(e) + s), Lower(name)) == |text|
  {
    hide Find, LacksEnd, EndingOk, TagNameOk, CloseTag, Lower;
    LacksLower(text, name);
    RawTextEnds(e, name, text, s);
    NeedleLower(name);
  }

  lemma NeedleLower(name: string)
    ensures Lower("</" + Lower(name)) == "</" + Lower(name)
  {
    LowerTwice(name);
  }

  lemma LowerClose(e: Ending, name: string, s: string)
    requires EndingOk(e, name) && TagNameOk(name)
    ensures Lower(CloseTag(e) + s) == "</" + Lower(name) + Lower(e.gap + ">" + s)
  {
    hide Lower;
    EndingNamed(e, name);
    assert CloseTag(e) + s == "</" + (e.name + (e.gap + ">" + s));
    LowerConcat("</", e.name + (e.gap + ">" + s));
    LowerConcat(e.name, e.gap + ">" + s);
    assert Small("</");
    SmallStays("</");
  }

  lemma LowerLength(s: string)
    ensures |Lower(s)| == |s|
  {
  }

  lemma NoMarkIn(name: string)
    requires TagNameOk(name)
    ensures forall i :: 1 <= i < |name| + 2 ==> ("</" + Lower(name))[i] != '<'
  {
    assert forall i :: 0 <= i < |name| ==> Lower(name)[i] == ToLower(name[i]);
  }

  /** The first `</name`, in any case, is the one in the end tag. */
  lemma RawTextEnds(e: Ending, name: string, text: string, s: string)
    requires LacksEnd(text, name) && EndingOk(e, name) && TagNameOk(name)
    ensures Find(Lower(text + (CloseTag(e) + s)), "</" + Lower(name)) == Some(|text|)
  {
    hide Find, Lower, LacksEnd, EndingOk, TagNameOk, CloseTag;
    var needle := "</" + Lower(name);
    LacksLower(text, name);
    LowerConcat(text, CloseTag(e) + s);
    LowerClose(e, name, s);
    LowerLength(text);
    LowerLength(name);
    NoMarkIn(name);
    assert Lower(text + (CloseTag(e) + s)) == Lower(text) + (needle + Lower(e.gap + ">" + s));
    NeedleEnds(Lower(text), needle, Lower(e.gap + ">" + s));
  }

  /** A needle that repeats its first character nowhere is first found where it was put. */
  lemma NeedleEnds(low: string, needle: string, s: string)
    requires Lacks(low, needle) && |needle| >= 2 && needle[0] == '<'
             && forall i :: 1 <= i < |needle| ==> needle[i] != '<'
    ensures Find(low + (needle + s), needle) == Some(|low|)
  {
    hide Find;
    var t := low + (needle + s);
    assert t[|low|..] == needle + s;
    PrefixOf(needle, s);
    forall k | 0 <= k < |low| ensures !StartsWith(t[k..], needle) {
      NotThere(low, needle, k);
      if k + |needle| <= |low| {
        assert low[k..][..|needle|] == t[k..][..|needle|];
      } else {
        assert t[k..][..|needle|][|low| - k] == t[|low|] == '<';
      }
    }
    FoundAt(t, needle, |low|);
  }

  // --- Where the wanted element is ---

  predicate IsElem(doc: Doc) {
    doc.Elem? || doc.Raw? || doc.Void? || doc.Closed?
  }

  predicate Wanted(doc: Doc, w: Want) {
    IsElem(doc) && (if w.Outlet? then Marked(doc.attrs) else SameLetters(doc.name, "title"))
  }

  /** An element, and what is printed before and after it. */
  datatype Site = Site(doc: Doc, before: string, after: string)

  lemma Nested(a: string, b: string, c: string, d: string, e: string)
    ensures a + (b + c + d) + e == (a + b) + c + (d + e)
    ensures "" + (b + c + d) == b + c + d && a + b + c + d + "" == a + b + c + d && "" + b == b && d + "" == d
  {
  }

  /** The first wanted element of a tree, in document order. */
  function FirstIn(doc: Doc, w: Want): (r: Option<Site>)
    ensures r.Some? ==> Wanted(r.value.doc, w) && Print(doc) == r.value.before + Print(r.value.doc) + r.value.after
    decreases Size(doc), 0
  {
    if Wanted(doc, w) then Some(Site(doc, "", ""))
    else if doc.Elem? then
      match FirstWanted(doc.kids, w)
      case Some(site) =>
        Nested(OpenTag(doc.name, doc.attrs), site.before, Print(site.doc), site.after, CloseTag(doc.ending));
        Some(Site(site.doc, OpenTag(doc.name, doc.attrs) + site.before, site.after + CloseTag(doc.ending)))
      case None => None
    else None
  }

  function FirstWanted(docs: seq<Doc>, w: Want): (r: Option<Site>)
    ensures r.Some? ==> Wanted(r.value.doc, w) && PrintAll(docs) == r.value.before + Print(r.value.doc) + r.value.after
    decreases SizeAll(docs), 1
  {
    if docs == [] then None
    else
      match FirstIn(docs[0], w)
      case Some(site) =>
        Nested("", site.before, Print(site.doc), site.after, PrintAll(docs[1..]));
        Some(Site(site.doc, site.before, site.after + PrintAll(docs[1..])))
      case None =>
        match FirstWanted(docs[1..], w)
        case Some(site) =>
          Nested(Print(docs[0]), site.before, Print(site.doc), site.after, "");
          Some(Site(site.doc, Print(docs[0]) + site.before, site.after))
        case None => None
  }

  function TagOf(doc: Doc): Tag
    requires IsElem(doc)
  {
    Tag(Lower(doc.name), 0, |TagText(doc.name, doc.attrs, doc.Closed?)|, Start(doc.Closed?, Marked(doc.attrs)))
  }

  lemma WantedAccepted(doc: Doc, w: Want)
    requires IsElem(doc)
    ensures Accepts(w, TagOf(doc)) <==> Wanted(doc, w)
  {
    hide Lower, SameLetters, Marked;
    TitleLower(doc.name);
  }

  lemma TitleLower(name: string)
    ensures SameLetters(name, "title") <==> Lower(name) == "title"
  {
    hide Lower, SameLetters;
    SameLower(name, "title");
    assert Small("title");
    SmallStays("title");
  }

  /** Going on after a text that holds one unwanted tag. */
  lemma SeekOn(a: string, s: string, w: Want, t: Tag)
    requires Next(a + s) == Some(t) && !Accepts(w, t) && t.end <= |a + s| && After(a + s, t) == |a|
    ensures Seek(a + s, w) == Moved(Seek(s, w), |a|)
  {
    hide Next, After;
    assert (a + s)[|a|..] == s;
  }

  /** Text without tags is passed over. */
  lemma SeekPast(a: string, s: string, w: Want)
    requires Next(a + s) == Moved(Next(s), |a|)
    ensures Seek(a + s, w) == Moved(Seek(s, w), |a|)
  {
    hide Next, After;
    if Next(s).Some? {
      var t := Next(s).value;
      var m := Moved(Next(s), |a|).value;
      assert (a + s)[|a|..] == s;
      AfterMoved(a + s, |a|, t);
      MovedTwice(Seek(s[After(s, t)..], w), After(s, t), |a|);
    }
  }

  lemma SeekClose(e: Ending, name: string, s: string, w: Want)
    requires EndingOk(e, name) && TagNameOk(name)
    ensures Seek(CloseTag(e) + s, w) == Moved(Seek(s, w), |CloseTag(e)|)
  {
    hide Next;
    NextClose(e, name, s);
    SeekOn(CloseTag(e), s, w, Tag(Lower(name), 0, |CloseTag(e)|, End));
  }

  lemma OpenOk(doc: Doc)
    requires DocOk(doc) && IsElem(doc)
    ensures TagNameOk(doc.name) && AttrsOk(doc.attrs) && (doc.Closed? ==> !EndsOpen(doc.attrs))
  {
  }

  lemma VoidsNotRaw(name: string)
    ensures IsVoid(name) ==> !IsRawText(name)
  {
  }

  lemma NotRaw(doc: Doc)
    requires DocOk(doc)
    ensures doc.Raw? ==> IsRawText(Lower(doc.name))
    ensures doc.Elem? || doc.Void? ==> !IsRawText(Lower(doc.name))
    ensures doc.Elem? ==> !IsVoid(Lower(doc.name))
    ensures doc.Void? ==> IsVoid(Lower(doc.name))
  {
    hide Lower, NamedAmong, IsRawText;
    if IsElem(doc) {
      RawNames(doc.name);
      VoidNames(doc.name);
      VoidsNotRaw(Lower(doc.name));
    }
  }

  /** Past the start tag of an unwanted element that is not raw text. */
  lemma SeekOpened(doc: Doc, s: string, w: Want)
    requires DocOk(doc) && IsElem(doc) && !doc.Raw? && !Wanted(doc, w)
    ensures var a := TagText(doc.name, doc.attrs, doc.Closed?); Seek(a + s, w) == Moved(Seek(s, w), |a|)
  {
    hide Next, TagText, Lower, Marked, Wanted, Accepts;
    NotRaw(doc);
    OpenOk(doc);
    NextOpen(doc.name, doc.attrs, doc.Closed?, s);
    WantedAccepted(doc, w);
    SeekOn(TagText(doc.name, doc.attrs, doc.Closed?), s, w, TagOf(doc));
  }

  /** Past an unwanted raw-text element. */
  lemma SeekRaw(doc: Doc, s: string, w: Want)
    requires DocOk(doc) && doc.Raw? && !Wanted(doc, w)
    ensures Seek(Print(doc) + s, w) == Moved(Seek(s, w), |Print(doc)|)
  {
    hide Seek, Next, TagText, Lower, Marked, RawLength, CloseTag, DocOk, EndingOk, LacksEnd, TagNameOk, AttrsOk, Print,
         Wanted, Accepts, After, IsRawText;
    var a, rest := TagText(doc.name, doc.attrs, false), CloseTag(doc.ending) + s;
    RawParts(doc);
    NextOpen(doc.name, doc.attrs, false, doc.text + rest);
    RawEnds(doc.ending, doc.name, doc.text, s);
    WantedAccepted(doc, w);
    AfterRaw(a, doc.text, rest, TagOf(doc));
    SeekOn(a + doc.text, rest, w, TagOf(doc));
    SeekClose(doc.ending, doc.name, s, w);
    RawPrinted(doc, s);
    MovedTwice(Seek(s, w), |CloseTag(doc.ending)|, |a + doc.text|);
  }

  lemma RawParts(doc: Doc)
    requires DocOk(doc) && doc.Raw?
    ensures TagNameOk(doc.name) && AttrsOk(doc.attrs) && EndingOk(doc.ending, doc.name)
            && LacksEnd(doc.text, doc.name) && IsRawText(Lower(doc.name))
  {
    hide Lower, IsRawText, LacksEnd;
    NotRaw(doc);
  }

  /** Going on behind a raw text. */
  lemma AfterRaw(a: string, text: string, rest: string, t: Tag)
    requires t.kind.Start? && !t.kind.selfClosing && IsRawText(t.name) && t.end == |a|
    requires RawLength(text + rest, t.name) == |text|
    ensures a + text + rest == a + (text + rest) && After(a + text + rest, t) == |a + text|
  {
    hide RawLength;
    assert a + text + rest == a + (text + rest);
    assert (a + (text + rest))[|a|..] == text + rest;
  }

  lemma RawPrinted(doc: Doc, s: string)
    requires doc.Raw?
    ensures Print(doc) + s == TagText(doc.name, doc.attrs, false) + doc.text + (CloseTag(doc.ending) + s)
    ensures |Print(doc)| == |CloseTag(doc.ending)| + |TagText(doc.name, doc.attrs, false) + doc.text|
  {
  }

  /** The scan finds the first wanted element, or passes over the whole tree. */
  lemma {:induction false} SeekOne(doc: Doc, s: string, w: Want)
    requires DocOk(doc)
    ensures Seek(Print(doc) + s, w) ==
            match FirstIn(doc, w)
            case Some(site) => Some(TagOf(site.doc).(start := |site.before|,
                                                     end := |site.before| + TagOf(site.doc).end))
            case None => Moved(Seek(s, w), |Print(doc)|)
    decreases Size(doc), 0
  {
    hide Seek, Next, TagText, Lower, Marked, Lacks;
    if Wanted(doc, w) {
      SeekHere(doc, s, w);
    } else {
      match doc {
        case Plain(text) =>
          NextPast(text, s);
          SeekPast(text, s, w);
        case Stray(text) =>
          NextStray(text, s);
          SeekPast(Print(doc), s, w);
        case Remark(text) =>
          NextRemark(text, s);
          assert "<!--" + text + "-->" + s == Print(doc) + s;
          SeekPast(Print(doc), s, w);
        case Declaration(text) =>
          NextDecl(text, s);
          SeekPast(Print(doc), s, w);
        case Instruction(text) =>
          NextInstruction(text, s);
          SeekPast(Print(doc), s, w);
        case Elem(_, _, _, _) =>
          SeekElem(doc, s, w);
        case Raw(_, _, _, _) =>
          SeekRaw(doc, s, w);
        case Void(name, attrs) =>
          TagTextIs(name, attrs);
          SeekOpened(doc, s, w);
        case Closed(name, attrs) =>
          TagTextIs(name, attrs);
          SeekOpened(doc, s, w);
      }
    }
  }

  lemma TagTextIs(name: string, attrs: seq<Attr>)
    ensures TagText(name, attrs, false) == OpenTag(name, attrs)
    ensures TagText(name, attrs, true) == "<" + name + PrintAttrs(attrs) + "/>"
  {
  }

  lemma SeekHere(doc: Doc, s: string, w: Want)
    requires DocOk(doc) && Wanted(doc, w)
    ensures Seek(Print(doc) + s, w) == Some(TagOf(doc))
  {
    hide Next, TagText, Lower, Marked;
    var rest := ElemRest(doc, s);
    OpenOk(doc);
    NextOpen(doc.name, doc.attrs, doc.Closed?, rest);
    WantedAccepted(doc, w);
  }

  /** What follows the start tag of an element. */
  lemma ElemRest(doc: Doc, s: string) returns (rest: string)
    requires IsElem(doc)
    ensures Print(doc) + s == TagText(doc.name, doc.attrs, doc.Closed?) + rest
    ensures rest == (match doc
                     case Elem(_, _, kids, ending) => PrintAll(kids) + (CloseTag(ending) + s)
                     case Raw(_, _, text, ending) => text + (CloseTag(ending) + s)
                     case _ => s)
  {
    TagTextIs(doc.name, doc.attrs);
    match doc
    case Elem(name, attrs, kids, ending) =>
      rest := PrintAll(kids) + (CloseTag(ending) + s);
      Regroup(OpenTag(name, attrs), PrintAll(kids), CloseTag(ending), s);
    case Raw(name, attrs, text, ending) =>
      rest := text + (CloseTag(ending) + s);
      Regroup(OpenTag(name, attrs), text, CloseTag(ending), s);
    case _ =>
      rest := s;
  }

  lemma Regroup(a: string, b: string, c: string, d: string)
    ensures a + b + c + d == a + (b + (c + d))
  {
  }

  lemma SeekElem(doc: Doc, s: string, w: Want)
    requires DocOk(doc) && doc.Elem? && !Wanted(doc, w)
    ensures Seek(Print(doc) + s, w) ==
            match FirstIn(doc, w)
            case Some(site) => Some(TagOf(site.doc).(start := |site.before|,
                                                     end := |site.before| + TagOf(site.doc).end))
            case None => Moved(Seek(s, w), |Print(doc)|)
    decreases Size(doc), 0, 0
  {
    hide Seek, Next, TagText, Lower, Marked, CloseTag, OpenTag, PrintAll;
    var rest := ElemRest(doc, s);
    var a := TagText(doc.name, doc.attrs, false);
    TagTextIs(doc.name, doc.attrs);
    SeekOpened(doc, rest, w);
    SeekAll(doc.kids, CloseTag(doc.ending) + s, w);
    SeekClose(doc.ending, doc.name, s, w);
    MovedTwice(Seek(s, w), |CloseTag(doc.ending)|, |PrintAll(doc.kids)|);
    MovedTwice(Seek(s, w), |CloseTag(doc.ending)| + |PrintAll(doc.kids)|, |a|);
    assert |Print(doc)| == |a| + |PrintAll(doc.kids)| + |CloseTag(doc.ending)|;
  }

  lemma {:induction false} SeekAll(docs: seq<Doc>, s: string, w: Want)
    requires AllOk(docs)
    ensures Seek(PrintAll(docs) + s, w) ==
            match FirstWanted(docs, w)
            case Some(site) => Some(TagOf(site.doc).(start := |site.before|,
                                                     end := |site.before| + TagOf(site.doc).end))
            case None => Moved(Seek(s, w), |PrintAll(docs)|)
    decreases SizeAll(docs), 1
  {
    hide Seek, Print, TagOf, FirstIn, Moved, DocOk, FirstWanted, PrintAll;
    FirstUnfolded(docs, w);
    if docs == [] {
      assert PrintAll(docs) + s == s;
      Moved0(Seek(s, w));
    } else {
      var rest := PrintAll(docs[1..]) + s;
      assert PrintAll(docs) + s == Print(docs[0]) + rest;
      SeekOne(docs[0], rest, w);
      if FirstIn(docs[0], w).None? {
        SeekAll(docs[1..], s, w);
        MovedTwice(Seek(s, w), |PrintAll(docs[1..])|, |Print(docs[0])|);
        if FirstWanted(docs[1..], w).Some? {
          var site := FirstWanted(docs[1..], w).value;
          MovedSome(TagOf(site.doc).(start := |site.before|, end := |site.before| + TagOf(site.doc).end),
                    |Print(docs[0])|);
        }
      }
    }
  }

  /** The first wanted element of a list is in its head, or else in its tail. */
  lemma FirstUnfolded(docs: seq<Doc>, w: Want)
    ensures docs == [] ==> PrintAll(docs) == "" && FirstWanted(docs, w) == None
    ensures docs != [] ==> PrintAll(docs) == Print(docs[0]) + PrintAll(docs[1..])
    ensures docs != [] ==>
              match FirstIn(docs[0], w)
              case Some(site) =>
                FirstWanted(docs, w) == Some(Site(site.doc, site.before, site.after + PrintAll(docs[1..])))
              case None =>
                match FirstWanted(docs[1..], w)
                case Some(site) =>
                  FirstWanted(docs, w) == Some(Site(site.doc, Print(docs[0]) + site.before, site.after))
                case None => FirstWanted(docs, w) == None
  {
    hide Print, FirstIn;
  }

  lemma MovedSome(t: Tag, n: nat)
    ensures Moved(Some(t), n) == Some(t.(start := t.start + n, end := t.end + n))
  {
  }
}
