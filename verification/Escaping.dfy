/** The server's text escape and the client's decoder, which undoes it. */
module Escaping {
  import opened Prelude
  import opened Html

  // --- Escaping: four replacements, one after the other ---

  /** `s` with every `c` replaced by `into`. */
  function Replace(s: string, c: char, into: string): string {
    if s == [] then [] else (if s[0] == c then into else [s[0]]) + Replace(s[1..], c, into)
  }

  function HtmlEscape(s: string): string {
    Replace(Replace(Replace(Replace(s, '&', "&amp;"), '<', "&lt;"), '>', "&gt;"), '"', "&quot;")
  }

  function EscapedChar(c: char): string {
    match c
    case '&' => "&amp;"
    case '<' => "&lt;"
    case '>' => "&gt;"
    case '"' => "&quot;"
    case _ => [c]
  }

  /** Every character escaped on its own. */
  function Escaped(s: string): (r: string)
    ensures '<' !in r && '>' !in r && '"' !in r
  {
    if s == [] then [] else EscapedChar(s[0]) + Escaped(s[1..])
  }

  lemma {:induction false} ReplaceConcat(a: string, b: string, c: char, into: string)
    ensures Replace(a + b, c, into) == Replace(a, c, into) + Replace(b, c, into)
  {
    if a == [] {
      assert a + b == b;
    } else {
      assert (a + b)[1..] == a[1..] + b && (a + b)[0] == a[0];
      ReplaceConcat(a[1..], b, c, into);
      var head := if a[0] == c then into else [a[0]];
      assert Replace(a + b, c, into) == head + Replace(a[1..] + b, c, into);
      assert head + (Replace(a[1..], c, into) + Replace(b, c, into))
          == (head + Replace(a[1..], c, into)) + Replace(b, c, into);
    }
  }

  lemma {:induction false} ReplaceAbsent(s: string, c: char, into: string)
    requires c !in s
    ensures Replace(s, c, into) == s
  {
    if s != [] {
      ReplaceAbsent(s[1..], c, into);
    }
  }

  lemma ReplaceOne(x: char, c: char, into: string)
    ensures Replace([x], c, into) == if x == c then into else [x]
  {
    assert [x][1..] == [];
  }

  lemma EscapeConcat(a: string, b: string)
    ensures HtmlEscape(a + b) == HtmlEscape(a) + HtmlEscape(b)
  {
    hide Replace;
    ReplaceConcat(a, b, '&', "&amp;");
    var a1, b1 := Replace(a, '&', "&amp;"), Replace(b, '&', "&amp;");
    ReplaceConcat(a1, b1, '<', "&lt;");
    var a2, b2 := Replace(a1, '<', "&lt;"), Replace(b1, '<', "&lt;");
    ReplaceConcat(a2, b2, '>', "&gt;");
    ReplaceConcat(Replace(a2, '>', "&gt;"), Replace(b2, '>', "&gt;"), '"', "&quot;");
  }

  lemma EscapeOne(c: char)
    ensures HtmlEscape([c]) == EscapedChar(c)
  {
    hide Replace;
    ReplaceOne(c, '&', "&amp;");
    ReplaceOne(c, '<', "&lt;");
    ReplaceOne(c, '>', "&gt;");
    ReplaceOne(c, '"', "&quot;");
    ReplaceAbsent("&amp;", '<', "&lt;");
    ReplaceAbsent("&amp;", '>', "&gt;");
    ReplaceAbsent("&amp;", '"', "&quot;");
    ReplaceAbsent("&lt;", '>', "&gt;");
    ReplaceAbsent("&lt;", '"', "&quot;");
    ReplaceAbsent("&gt;", '"', "&quot;");
  }

  /** The chain never escapes what an earlier step produced. */
  lemma {:induction false} ChainEscapesEach(s: string)
    ensures HtmlEscape(s) == Escaped(s)
  {
    hide EscapedChar;
    if s != [] {
      assert s == [s[0]] + s[1..];
      EscapeConcat([s[0]], s[1..]);
      EscapeOne(s[0]);
      ChainEscapesEach(s[1..]);
    }
  }

  // --- Decoding ---

  function Digit(c: char, radix: nat): (r: Option<nat>)
    requires radix == 10 || radix == 16
    ensures r.Some? ==> r.value < radix
  {
    if '0' <= c <= '9' then Some((c - '0') as nat)
    else if radix == 16 && 'a' <= c <= 'f' then Some((c - 'a') as nat + 10)
    else if radix == 16 && 'A' <= c <= 'F' then Some((c - 'A') as nat + 10)
    else None
  }

  function Digits(s: string, radix: nat, sofar: nat): Option<nat>
    requires radix == 10 || radix == 16
  {
    if s == [] then Some(sofar)
    else
      match Digit(s[0], radix)
      case Some(d) => Digits(s[1..], radix, sofar * radix + d)
      case None => None
  }

  /** An unsigned 32-bit number, as the standard parser reads it: a leading `+` is allowed. */
  function ParseU32(s: string, radix: nat): (r: Option<nat>)
    requires radix == 10 || radix == 16
    ensures r.Some? ==> r.value < 0x1_0000_0000
  {
    var digits := if s != [] && s[0] == '+' then s[1..] else s;
    if digits == [] then None
    else
      var r := Digits(digits, radix, 0);
      if r.Some? && r.value < 0x1_0000_0000 then r else None
  }

  /** A scalar value, unless it is a surrogate or out of range. */
  function FromU32(code: nat): Option<char> {
    if code < 0xD800 || 0xE000 <= code < 0x11_0000 then Some(code as char) else None
  }

  function DecodeEntity(name: string): Option<char> {
    if name == "amp" then Some('&')
    else if name == "lt" then Some('<')
    else if name == "gt" then Some('>')
    else if name == "quot" then Some('"')
    else if name == "apos" then Some('\'')
    else if name == "nbsp" then Some('\U{a0}')
    else if name == [] || name[0] != '#' then None
    else
      var digits := name[1..];
      var code := if digits != [] && (digits[0] == 'x' || digits[0] == 'X') then ParseU32(digits[1..], 16)
                  else ParseU32(digits, 10);
      match code
      case Some(c) => FromU32(c)
      case None => None
  }

  /** What the reference after an `&` stands for, and how much of the text it takes. */
  function Reference(after: string): (r: Option<(char, nat)>)
    ensures r.Some? ==> 0 < r.value.1 <= |after|
  {
    match FindChar(after, ';')
    case Some(end) =>
      if end <= 8 then
        match DecodeEntity(after[..end])
        case Some(c) => Some((c, end + 1))
        case None => None
      else None
    case None => None
  }

  function Decoded(s: string): string
    decreases |s|
  {
    if s == [] then []
    else if s[0] != '&' then [s[0]] + Decoded(s[1..])
    else
      match Reference(s[1..])
      case Some((c, n)) => [c] + Decoded(s[1 + n..])
      case None => "&" + Decoded(s[1..])
  }

  lemma {:induction false} DecodedPast(a: string, s: string)
    requires '&' !in a
    ensures Decoded(a + s) == a + Decoded(s)
  {
    if a == [] {
      assert a + s == s;
    } else {
      assert (a + s)[1..] == a[1..] + s && (a + s)[0] == a[0];
      DecodedPast(a[1..], s);
    }
  }

  /** One step of the decoder: up to and including the reference, or stray `&`, at `at`. */
  lemma DecodedStep(text: string, pos: nat, at: nat)
    requires pos <= at < |text| && FindChar(text[pos..], '&') == Some(at - pos)
    ensures Decoded(text[pos..]) ==
            match Reference(text[at + 1..])
            case Some((c, n)) => text[pos..at] + [c] + Decoded(text[at + 1 + n..])
            case None => text[pos..at] + "&" + Decoded(text[at + 1..])
  {
    hide Reference, FindChar, Decoded;
    var rest := text[at..];
    assert text[pos..] == text[pos..at] + rest;
    Slices(text, pos, 0, at - pos);
    assert text[pos..][at - pos] == rest[0];
    DecodedPast(text[pos..at], rest);
    Slices(text, at, 1, 1);
    DecodedMark(rest);
    if Reference(text[at + 1..]).Some? {
      Slices(text, at, 1 + Reference(text[at + 1..]).value.1, 1 + Reference(text[at + 1..]).value.1);
    }
  }

  lemma DecodedMark(s: string)
    requires s != [] && s[0] == '&'
    ensures match Reference(s[1..])
            case Some((c, n)) => 1 + n <= |s| && Decoded(s) == [c] + Decoded(s[1 + n..])
            case None => Decoded(s) == "&" + Decoded(s[1..])
  {
    hide Reference;
  }

  /** Decodes every reference of `text`, copying what stands between them. */
  method DecodeHtmlEntities(text: string) returns (out: string)
    ensures out == Decoded(text)
  {
    hide Reference, FindChar, Decoded;
    out := [];
    var pos := 0;
    assert text[0..] == text;
    while true
      invariant pos <= |text| && Decoded(text) == out + Decoded(text[pos..])
      decreases |text| - pos
    {
      var amp := FindCharFrom(text, '&', pos);
      if amp.None? {
        NothingDecoded(text[pos..]);
        out := out + text[pos..];
        return;
      }
      var at := amp.value;
      DecodedStep(text, pos, at);
      var step := DecodeReference(text[at + 1..]);
      match step {
        case Some((c, n)) =>
          out, pos := out + text[pos..at] + [c], at + 1 + n;
        case None =>
          out, pos := out + text[pos..at] + "&", at + 1;
      }
    }
  }

  lemma EmptyDecoded()
    ensures Decoded("") == ""
  {
  }

  lemma NothingDecoded(s: string)
    requires FindChar(s, '&').None?
    ensures Decoded(s) == s
  {
    DecodedPast(s, "");
    assert s + "" == s;
  }

  method DecodeReference(after: string) returns (r: Option<(char, nat)>)
    ensures r == Reference(after)
  {
    var end := FindCharFrom(after, ';', 0);
    assert after[0..] == after;
    if end.None? || end.value > 8 {
      return None;
    }
    var c := DecodeEntity(after[..end.value]);
    r := if c.Some? then Some((c.value, end.value + 1)) else None;
  }

  // --- Decoding undoes escaping ---

  lemma NamedReference(name: string, c: char, s: string)
    requires ';' !in name && |name| <= 8 && DecodeEntity(name) == Some(c)
    ensures Decoded("&" + name + ";" + s) == [c] + Decoded(s)
  {
    hide DecodeEntity, FindChar;
    var t := "&" + name + ";" + s;
    assert t[1..] == name + ([';'] + s);
    SemicolonAt(name, s);
    assert t[1..][..|name|] == name;
    assert t[1 + |name| + 1..] == s;
  }

  lemma {:induction false} SemicolonAt(name: string, s: string)
    requires ';' !in name
    ensures FindChar(name + ([';'] + s), ';') == Some(|name|)
  {
    if name != [] {
      assert (name + ([';'] + s))[1..] == name[1..] + ([';'] + s);
      SemicolonAt(name[1..], s);
    }
  }

  /** For every text, decoding the four-step escape gives the text back. */
  lemma {:induction false} DecodeUndoesEscape(t: string)
    ensures Decoded(HtmlEscape(t)) == t
  {
    ChainEscapesEach(t);
    DecodeUndoesEach(t);
  }

  lemma {:induction false} DecodeUndoesEach(t: string)
    ensures Decoded(Escaped(t)) == t
  {
    hide Decoded, EscapedChar;
    EmptyDecoded();
    if t != [] {
      var s := Escaped(t[1..]);
      DecodeUndoesEach(t[1..]);
      EscapedCharDecodes(t[0], s);
      assert t == [t[0]] + t[1..];
    }
  }

  /** One escaped character decodes to itself. */
  lemma EscapedCharDecodes(c: char, s: string)
    ensures Decoded(EscapedChar(c) + s) == [c] + Decoded(s)
  {
    hide Decoded;
    match c {
      case '&' =>
        assert "&amp;" + s == "&" + "amp" + ";" + s;
        NamedReference("amp", '&', s);
      case '<' =>
        assert "&lt;" + s == "&" + "lt" + ";" + s;
        NamedReference("lt", '<', s);
      case '>' =>
        assert "&gt;" + s == "&" + "gt" + ";" + s;
        NamedReference("gt", '>', s);
      case '"' =>
        assert "&quot;" + s == "&" + "quot" + ";" + s;
        NamedReference("quot", '"', s);
      case _ =>
        DecodedPast([c], s);
    }
  }
}
