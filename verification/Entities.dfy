/** What references stand for: the named ones, and every scalar value by its number. */
module Entities {
  import opened Prelude
  import opened Html
  import opened Escaping

  const LOWER_DIGITS := "0123456789abcdef"
  const UPPER_DIGITS := "0123456789ABCDEF"

  // --- Digits ---

  /** `text` shows the digits `ds`, each in either case. */
  predicate ShowsDigits(text: string, ds: seq<nat>, radix: nat)
    requires radix <= 16
  {
    && |text| == |ds|
    && forall i :: 0 <= i < |ds| ==>
         ds[i] < radix && (text[i] == LOWER_DIGITS[ds[i]] || text[i] == UPPER_DIGITS[ds[i]])
  }

  lemma DigitShown(c: char, d: nat, radix: nat)
    requires radix == 10 || radix == 16
    requires d < radix && (c == LOWER_DIGITS[d] || c == UPPER_DIGITS[d])
    ensures Digit(c, radix) == Some(d) && c != '+' && c != ';' && (radix == 10 ==> c != 'x' && c != 'X')
  {
    if d < 10 {
      assert LOWER_DIGITS[d] == '0' + d as char;
      assert UPPER_DIGITS[d] == '0' + d as char;
    } else {
      assert LOWER_DIGITS[d] == 'a' + (d - 10) as char;
      assert UPPER_DIGITS[d] == 'A' + (d - 10) as char;
    }
  }

  /** The digit loop computes the positional value. */
  lemma {:induction false} DigitsPositional(text: string, ds: seq<nat>, radix: nat, sofar: nat)
    requires radix == 10 || radix == 16
    requires ShowsDigits(text, ds, radix)
    ensures Digits(text, radix, sofar) == Some(sofar * Power(radix, |ds|) + Positional(ds, radix))
  {
    if ds != [] {
      DigitShown(text[0], ds[0], radix);
      DigitsPositional(text[1..], ds[1..], radix, sofar * radix + ds[0]);
      Weights(sofar, ds[0], radix, |ds|);
      hide Power;
    }
  }

  lemma Weights(sofar: nat, d: nat, radix: nat, n: nat)
    requires n > 0
    ensures (sofar * radix + d) * Power(radix, n - 1) == sofar * Power(radix, n) + d * Power(radix, n - 1)
  {
    var w := Power(radix, n - 1);
    assert (sofar * radix + d) * w == sofar * radix * w + d * w;
    assert sofar * radix * w == sofar * (radix * w);
  }

  lemma ParsePositional(text: string, ds: seq<nat>, radix: nat)
    requires radix == 10 || radix == 16
    requires ds != [] && ShowsDigits(text, ds, radix)
    ensures ParseU32(text, radix) ==
            if Positional(ds, radix) < 0x1_0000_0000 then Some(Positional(ds, radix)) else None
    ensures ParseU32("+" + text, radix) == ParseU32(text, radix)
  {
    hide Digits, Positional;
    assert ("+" + text)[1..] == text;
    DigitShown(text[0], ds[0], radix);
    DigitsPositional(text, ds, radix, 0);
  }

  // --- Numeric references ---

  predicate ScalarValue(code: nat) {
    code < 0xD800 || 0xE000 <= code < 0x11_0000
  }

  /** The digits are decimal, or hexadecimal after an `x` in either case. */
  predicate Marks(mark: string, radix: nat) {
    (mark == "" && radix == 10) || (mark in {"x", "X"} && radix == 16)
  }

  lemma EntityValue(mark: string, text: string, ds: seq<nat>, radix: nat)
    requires Marks(mark, radix) && ds != [] && ShowsDigits(text, ds, radix)
    ensures var code := Positional(ds, radix);
            DecodeEntity("#" + mark + text) == if ScalarValue(code) then Some(code as char) else None
  {
    hide ParseU32, Positional;
    var name := "#" + mark + text;
    DigitShown(text[0], ds[0], radix);
    ParsePositional(text, ds, radix);
    NameParts(mark, text);
    assert name[0] == '#';
  }

  lemma NameParts(mark: string, text: string)
    requires mark == "" || mark == "x" || mark == "X"
    ensures ("#" + mark + text)[1..] == mark + text && (mark != "" ==> (mark + text)[1..] == text && mark + text != [])
    ensures mark == "" ==> mark + text == text
  {
  }

  lemma {:induction false} NoSemicolon(mark: string, text: string, ds: seq<nat>, radix: nat)
    requires Marks(mark, radix) && ShowsDigits(text, ds, radix)
    ensures ';' !in "#" + mark + text
  {
    forall i | 0 <= i < |text| ensures text[i] != ';' {
      DigitShown(text[i], ds[i], radix);
    }
  }

  /**
   * A numeric reference within the length limit decodes to the character with the positional value
   * of its digits, leading zeros and both cases of hexadecimal digits included, if there is one;
   * otherwise the ampersand stands for itself.
   */
  lemma NumericReference(mark: string, text: string, ds: seq<nat>, radix: nat, s: string)
    requires Marks(mark, radix) && ds != [] && ShowsDigits(text, ds, radix) && |mark| + |text| <= 7
    ensures var code, name := Positional(ds, radix), "#" + mark + text;
            Decoded("&" + name + ";" + s) ==
              if ScalarValue(code) then [code as char] + Decoded(s) else "&" + Decoded(name + ";" + s)
  {
    hide Positional, Decoded, DecodeEntity, FindChar;
    var code, name := Positional(ds, radix), "#" + mark + text;
    EntityValue(mark, text, ds, radix);
    NoSemicolon(mark, text, ds, radix);
    if ScalarValue(code) {
      NamedReference(name, code as char, s);
    } else {
      NoReference(name, s);
    }
  }

  lemma NoReference(name: string, s: string)
    requires ';' !in name && DecodeEntity(name) == None
    ensures Decoded("&" + name + ";" + s) == "&" + Decoded(name + ";" + s)
  {
    hide DecodeEntity, FindChar, Decoded;
    var t := "&" + name + ";" + s;
    assert t[1..] == name + ([';'] + s) == name + ";" + s;
    SemicolonAt(name, s);
    assert t[1..][..|name|] == name;
    DecodedMark(t);
  }

  /** A reference longer than that is left as it stands, whatever it says. */
  lemma LongReference(name: string, s: string)
    requires ';' !in name && |name| > 8
    ensures Decoded("&" + name + ";" + s) == "&" + Decoded(name + ";" + s)
  {
    hide DecodeEntity, FindChar, Decoded;
    var t := "&" + name + ";" + s;
    assert t[1..] == name + ([';'] + s) == name + ";" + s;
    SemicolonAt(name, s);
    DecodedMark(t);
  }

  /** The references by name. */
  lemma NamedReferences(s: string)
    ensures Decoded("&amp;" + s) == "&" + Decoded(s) && Decoded("&lt;" + s) == "<" + Decoded(s)
    ensures Decoded("&gt;" + s) == ">" + Decoded(s) && Decoded("&quot;" + s) == "\"" + Decoded(s)
    ensures Decoded("&apos;" + s) == "'" + Decoded(s) && Decoded("&nbsp;" + s) == ['\U{a0}'] + Decoded(s)
  {
    hide Decoded;
    NamedReference("amp", '&', s);
    NamedReference("lt", '<', s);
    NamedReference("gt", '>', s);
    NamedReference("quot", '"', s);
    NamedReference("apos", '\'', s);
    NamedReference("nbsp", '\U{a0}', s);
    assert "&" + "amp" + ";" + s == "&amp;" + s && "&" + "lt" + ";" + s == "&lt;" + s;
    assert "&" + "gt" + ";" + s == "&gt;" + s && "&" + "quot" + ";" + s == "&quot;" + s;
    assert "&" + "apos" + ";" + s == "&apos;" + s && "&" + "nbsp" + ";" + s == "&nbsp;" + s;
  }

  /** No other name stands for anything. */
  lemma UnknownName(name: string, s: string)
    requires name !in {"amp", "lt", "gt", "quot", "apos", "nbsp"} && (name == "" || name[0] != '#') && ';' !in name
    ensures Decoded("&" + name + ";" + s) == "&" + Decoded(name + ";" + s)
  {
    hide Decoded;
    NoReference(name, s);
  }

  /** An ampersand that no semicolon follows stands for itself. */
  lemma StrayAmpersand(s: string)
    requires ';' !in s
    ensures Decoded("&" + s) == "&" + Decoded(s)
  {
    hide FindChar, Decoded;
    var t := "&" + s;
    assert t[1..] == s;
    DecodedMark(t);
  }

  lemma DigitOnly(c: char, radix: nat)
    requires radix == 10 || radix == 16
    ensures Digit(c, radix).Some? ==> c in LOWER_DIGITS[..radix] + UPPER_DIGITS[..radix]
  {
    var r := Digit(c, radix);
    if r.Some? {
      var d := r.value;
      if '0' <= c <= '9' {
        assert LOWER_DIGITS[d] == '0' + d as char;
      } else if 'a' <= c <= 'f' {
        assert LOWER_DIGITS[d] == 'a' + (d - 10) as char;
      } else {
        assert UPPER_DIGITS[d] == 'A' + (d - 10) as char;
      }
      var shown := LOWER_DIGITS[..radix] + UPPER_DIGITS[..radix];
      assert shown[d] == LOWER_DIGITS[d] && shown[radix + d] == UPPER_DIGITS[d];
    }
  }

  lemma {:induction false} DigitsReject(text: string, radix: nat, sofar: nat, i: nat)
    requires (radix == 10 || radix == 16) && i < |text|
    requires text[i] !in LOWER_DIGITS[..radix] + UPPER_DIGITS[..radix]
    ensures Digits(text, radix, sofar) == None
  {
    hide Digit;
    DigitOnly(text[i], radix);
    if i > 0 {
      var d := Digit(text[0], radix);
      if d.Some? {
        DigitsReject(text[1..], radix, sofar * radix + d.value, i - 1);
      }
    }
  }

  lemma ParseReject(text: string, radix: nat, i: nat)
    requires (radix == 10 || radix == 16) && i < |text| && (i > 0 || text[0] != '+')
    requires text[i] !in LOWER_DIGITS[..radix] + UPPER_DIGITS[..radix]
    ensures ParseU32(text, radix) == None
  {
    hide Digits;
    DigitsReject(text, radix, 0, i);
    if text[0] == '+' {
      DigitsReject(text[1..], radix, 0, i - 1);
    }
  }

  lemma BadEntity(mark: string, text: string, radix: nat)
    requires Marks(mark, radix) && text != [] && ParseU32(text, radix) == None
    requires mark == "" ==> text[0] != 'x' && text[0] != 'X'
    ensures DecodeEntity("#" + mark + text) == None
  {
    hide ParseU32;
    NameParts(mark, text);
    var name := "#" + mark + text;
    assert name[0] == '#';
  }

  /** One character that is no digit, and the reference stands for itself. */
  lemma BadNumber(mark: string, text: string, radix: nat, i: nat, s: string)
    requires Marks(mark, radix) && i < |text| && ';' !in text && (i > 0 || text[0] != '+')
    requires text[i] !in LOWER_DIGITS[..radix] + UPPER_DIGITS[..radix]
             && (mark == "" ==> text[0] != 'x' && text[0] != 'X')
    ensures var name := "#" + mark + text; Decoded("&" + name + ";" + s) == "&" + Decoded(name + ";" + s)
  {
    hide Decoded, ParseU32, DecodeEntity;
    ParseReject(text, radix, i);
    BadEntity(mark, text, radix);
    NoReference("#" + mark + text, s);
  }

  // --- Every character by its number ---

  lemma Quotient(n: nat, radix: nat)
    requires radix == 10 || radix == 16
    ensures n % radix < radix && n / radix * radix + n % radix == n
    ensures n >= radix ==> n / radix < n
    ensures forall w: nat :: n < radix * w ==> n / radix < w
  {
    if radix == 10 {
    } else {
    }
  }

  /** The shortest numeral of `n`. */
  function Numeral(n: nat, radix: nat, digits: string): string
    requires (radix == 10 || radix == 16) && |digits| == 16
  {
    Quotient(n, radix);
    if n < radix then [digits[n]] else Numeral(n / radix, radix, digits) + [digits[n % radix]]
  }

  lemma {:induction false} NumeralReads(n: nat, radix: nat, digits: string) returns (ds: seq<nat>)
    requires (radix == 10 || radix == 16) && digits in {LOWER_DIGITS, UPPER_DIGITS}
    ensures ds != [] && ShowsDigits(Numeral(n, radix, digits), ds, radix) && Positional(ds, radix) == n
  {
    if n < radix {
      ds := [n];
      assert Positional(ds[1..], radix) == 0 && Power(radix, 0) == 1;
    } else {
      Quotient(n, radix);
      var before := NumeralReads(n / radix, radix, digits);
      PositionalSnoc(before, n % radix, radix);
      ds := ShownSnoc(Numeral(n / radix, radix, digits), before, n % radix, radix, digits);
    }
  }

  lemma ShownSnoc(text: string, before: seq<nat>, d: nat, radix: nat, digits: string) returns (ds: seq<nat>)
    requires d < radix <= 16 && digits in {LOWER_DIGITS, UPPER_DIGITS} && ShowsDigits(text, before, radix)
    ensures ds == before + [d] && ShowsDigits(text + [digits[d]], ds, radix)
  {
    ds := before + [d];
  }

  lemma {:induction false} NumeralShort(n: nat, radix: nat, digits: string, k: nat)
    requires (radix == 10 || radix == 16) && |digits| == 16 && k > 0 && n < Power(radix, k)
    ensures |Numeral(n, radix, digits)| <= k
  {
    Quotient(n, radix);
    var w := Power(radix, k - 1);
    if n >= radix {
      assert k > 1;
      NumeralShort(n / radix, radix, digits, k - 1);
    }
  }

  lemma PowersReach()
    ensures Power(10, 7) == 1_000_0000 && Power(16, 6) == 0x100_0000
  {
    assert Power(10, 1) == 10 && Power(10, 2) == 100 && Power(10, 3) == 1000 && Power(10, 4) == 1_0000;
    assert Power(10, 5) == 10_0000 && Power(10, 6) == 100_0000;
    assert Power(16, 1) == 16 && Power(16, 2) == 0x100 && Power(16, 3) == 0x1000 && Power(16, 4) == 0x1_0000;
    assert Power(16, 5) == 0x10_0000;
  }

  /** Every character, written by its number in decimal or in hexadecimal of either case, comes back. */
  lemma CharacterByNumber(c: char, mark: string, radix: nat, digits: string, s: string)
    requires Marks(mark, radix) && digits in {LOWER_DIGITS, UPPER_DIGITS}
    ensures Decoded("&" + ("#" + mark + Numeral(c as nat, radix, digits)) + ";" + s) == [c] + Decoded(s)
  {
    hide Decoded, Numeral, Positional, ShowsDigits, Power;
    var ds := NumeralReads(c as nat, radix, digits);
    PowersReach();
    NumeralShort(c as nat, radix, digits, if radix == 10 then 7 else 6);
    NumericReference(mark, Numeral(c as nat, radix, digits), ds, radix, s);
  }
}
