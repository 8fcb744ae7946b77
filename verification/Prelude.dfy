/** Optional values and the few facts about sequences every other module uses. */
module Prelude {

  datatype Option<+T> = None | Some(value: T)

  ghost predicate Distinct<T>(s: seq<T>) {
    forall i, j :: 0 <= i < j < |s| ==> s[i] != s[j]
  }

  /** The first position of `x`. */
  function IndexOf<T(==)>(s: seq<T>, x: T): (i: nat)
    requires x in s
    ensures i < |s| && s[i] == x && x !in s[..i]
  {
    if s[0] == x then 0
    else
      var i := 1 + IndexOf(s[1..], x);
      assert s[..i] == [s[0]] + s[1..][..i - 1];
      i
  }

  /** `s` with every occurrence of `x` dropped. */
  function Without<T(==, !new)>(s: seq<T>, x: T): (r: seq<T>)
    ensures forall y :: y in r <==> y in s && y != x
  {
    if s == [] then [] else (if s[0] == x then [] else [s[0]]) + Without(s[1..], x)
  }

  /** `xs` spliced into `s` before `at`, or at the end. */
  function Spliced<T(==, !new)>(s: seq<T>, xs: seq<T>, at: Option<T>): (r: seq<T>)
    requires at.Some? ==> at.value in s
    ensures forall y :: y in r <==> y in s || y in xs
  {
    match at
    case None => s + xs
    case Some(a) =>
      var i := IndexOf(s, a);
      assert s == s[..i] + s[i..];
      s[..i] + xs + s[i..]
  }

  lemma {:induction false} IndexOfAfter<T>(a: seq<T>, x: T, b: seq<T>)
    requires x !in a
    ensures IndexOf(a + [x] + b, x) == |a|
  {
    if a != [] {
      assert (a + [x] + b)[1..] == a[1..] + [x] + b;
      IndexOfAfter(a[1..], x, b);
    }
  }

  lemma {:induction false} WithoutAbsent<T(!new)>(s: seq<T>, x: T)
    requires x !in s
    ensures Without(s, x) == s
  {
    if s != [] {
      WithoutAbsent(s[1..], x);
    }
  }

  lemma {:induction false} WithoutConcat<T(!new)>(a: seq<T>, b: seq<T>, x: T)
    ensures Without(a + b, x) == Without(a, x) + Without(b, x)
  {
    if a == [] {
      assert a + b == b;
    } else {
      assert (a + b)[1..] == a[1..] + b;
      WithoutConcat(a[1..], b, x);
    }
  }

  lemma WithoutMiddle<T(!new)>(a: seq<T>, x: T, b: seq<T>)
    requires x !in a && x !in b
    ensures Without(a + [x] + b, x) == a + b
  {
    WithoutSelf(x);
    hide Without;
    WithoutConcat(a + [x], b, x);
    WithoutConcat(a, [x], x);
    WithoutAbsent(a, x);
    WithoutAbsent(b, x);
    assert a + [] == a;
  }

  lemma WithoutSelf<T(!new)>(x: T)
    ensures Without([x], x) == []
  {
  }

  lemma {:induction false} WithoutDistinct<T(!new)>(s: seq<T>, x: T)
    requires Distinct(s)
    ensures Distinct(Without(s, x))
  {
    if x in s {
      var i := IndexOf(s, x);
      assert s == s[..i] + [x] + s[i + 1..];
      WithoutMiddle(s[..i], x, s[i + 1..]);
    } else {
      WithoutAbsent(s, x);
    }
  }

  lemma DistinctParts<T>(a: seq<T>, b: seq<T>)
    requires Distinct(a + b)
    ensures Distinct(a) && Distinct(b)
    ensures forall x :: x in a ==> x !in b
  {
    forall i, j | 0 <= i < j < |a| ensures a[i] != a[j] {
      assert (a + b)[i] == a[i] && (a + b)[j] == a[j];
    }
    forall i, j | 0 <= i < j < |b| ensures b[i] != b[j] {
      assert (a + b)[|a| + i] == b[i] && (a + b)[|a| + j] == b[j];
    }
    forall x | x in a ensures x !in b {
      var i := IndexOf(a, x);
      assert (a + b)[i] == x;
      assert forall j :: 0 <= j < |b| ==> (a + b)[|a| + j] == b[j];
    }
  }

  lemma DistinctConcat<T>(a: seq<T>, b: seq<T>)
    requires Distinct(a) && Distinct(b)
    requires forall x :: x in a ==> x !in b
    ensures Distinct(a + b)
  {
    var r := a + b;
    forall i, j | 0 <= i < j < |r| ensures r[i] != r[j] {
      assert r[i] == if i < |a| then a[i] else b[i - |a|];
      assert r[j] == if j < |a| then a[j] else b[j - |a|];
      assert i < |a| ==> a[i] in a;
      assert j >= |a| ==> b[j - |a|] in b;
    }
  }

  lemma SplicedDistinct<T(!new)>(s: seq<T>, xs: seq<T>, at: Option<T>)
    requires at.Some? ==> at.value in s
    requires Distinct(s) && Distinct(xs)
    requires forall x :: x in xs ==> x !in s
    ensures Distinct(Spliced(s, xs, at))
  {
    var i := match at case None => |s| case Some(a) => IndexOf(s, a);
    assert s[..i] + s[i..] == s;
    DistinctParts(s[..i], s[i..]);
    DistinctConcat(s[..i], xs);
    DistinctConcat(s[..i] + xs, s[i..]);
    assert Spliced(s, xs, at) == s[..i] + xs + s[i..];
  }

  // --- ASCII case ---

  function ToLower(c: char): char {
    if 'A' <= c <= 'Z' then c - 'A' + 'a' else c
  }

  function Lower(s: string): string {
    seq(|s|, i requires 0 <= i < |s| => ToLower(s[i]))
  }

  lemma LowerTwice(s: string)
    ensures Lower(Lower(s)) == Lower(s)
  {
  }

  // --- Numerals ---

  /** Decimal digits of `n`. */
  function Decimal(n: nat): string {
    if n < 10 then ['0' + n as char] else Decimal(n / 10) + ['0' + (n % 10) as char]
  }

  function Power(radix: nat, n: nat): nat {
    if n == 0 then 1 else radix * Power(radix, n - 1)
  }

  /** The number that `ds` stand for: each digit times the weight of its position. */
  function Positional(ds: seq<nat>, radix: nat): nat {
    if ds == [] then 0 else ds[0] * Power(radix, |ds| - 1) + Positional(ds[1..], radix)
  }

  lemma {:induction false} PositionalSnoc(ds: seq<nat>, d: nat, radix: nat)
    ensures Positional(ds + [d], radix) == Positional(ds, radix) * radix + d
  {
    if ds == [] {
      assert [] + [d] == [d] && [d][1..] == [];
    } else {
      assert (ds + [d])[1..] == ds[1..] + [d] && (ds + [d])[0] == ds[0];
      PositionalSnoc(ds[1..], d, radix);
      var w := Power(radix, |ds| - 1);
      assert Power(radix, |ds|) == radix * w;
      assert ds[0] * (radix * w) == ds[0] * w * radix;
    }
  }

  /** `text` shows the digits `ds`, in decimal. */
  predicate ShowsDecimal(text: string, ds: seq<nat>) {
    |text| == |ds| && forall i :: 0 <= i < |ds| ==> ds[i] < 10 && text[i] == "0123456789"[ds[i]]
  }

  lemma SameDigits(text: string, ds: seq<nat>, es: seq<nat>)
    requires ShowsDecimal(text, ds) && ShowsDecimal(text, es)
    ensures ds == es
  {
    forall i | 0 <= i < |ds| ensures ds[i] == es[i] {
      assert "0123456789"[ds[i]] == '0' + ds[i] as char && "0123456789"[es[i]] == '0' + es[i] as char;
    }
  }

  /** Different numbers have different numerals. */
  lemma DecimalInjective(m: nat, n: nat)
    requires Decimal(m) == Decimal(n)
    ensures m == n
  {
    var ds := DecimalReads(m);
    var es := DecimalReads(n);
    SameDigits(Decimal(m), ds, es);
  }

  lemma DigitOf(d: nat)
    requires d < 10
    ensures "0123456789"[d] == '0' + d as char
  {
  }

  lemma ShownSnoc(text: string, ds: seq<nat>, d: nat)
    requires d < 10 && ShowsDecimal(text, ds)
    ensures ShowsDecimal(text + ['0' + d as char], ds + [d])
  {
    DigitOf(d);
  }

  lemma OneDigit(n: nat)
    requires n < 10
    ensures Decimal(n) == [] + ['0' + n as char] && Positional([n], 10) == n
  {
    assert [n][1..] == [] && Power(10, 0) == 1;
  }

  /** The digits of `n` read back give `n`; there is no leading zero but in `0` itself. */
  lemma {:induction false} DecimalReads(n: nat) returns (ds: seq<nat>)
    ensures ShowsDecimal(Decimal(n), ds) && Positional(ds, 10) == n
    ensures ds != [] && (n > 0 ==> ds[0] > 0)
  {
    hide ShowsDecimal, Positional;
    if n < 10 {
      ds := [n];
      assert [] + [n] == ds;
      NoDigits();
      ShownSnoc("", [], n);
      OneDigit(n);
    } else {
      var before := DecimalReads(n / 10);
      ds := before + [n % 10];
      ShownSnoc(Decimal(n / 10), before, n % 10);
      PositionalSnoc(before, n % 10, 10);
    }
  }

  lemma NoDigits()
    ensures ShowsDecimal("", [])
  {
  }
}
