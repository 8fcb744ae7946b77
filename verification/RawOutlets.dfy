/**
 * An outlet that is itself a raw-text element. The router measures it as if its text were markup;
 * this is exactly when that gives the text.
 */
module RawOutlets {
  import opened Prelude
  import opened Html
  import opened Printing

  /**
   * Reading tags from the start of `s`, one comes to a tag at offset `n` without opening another
   * element `name` before it and without anything reaching past it.
   */
  predicate Reaches(s: string, n: nat, name: string)
    decreases |s|
  {
    match Next(s)
    case None => false
    case Some(t) =>
      if t.start >= n then t.start == n
      else
        var m := Onward(s, t, name);
        m <= n && !Opens(t, name) && Reaches(s[m..], n - m, name)
  }

  predicate Opens(t: Tag, name: string) {
    t.name == name && t.kind.Start? && !t.kind.selfClosing
  }

  /** A tag found is the one its `<` begins. */
  lemma {:induction false} NextParses(s: string)
    ensures Next(s).Some? ==>
              var t := Next(s).value;
              t.end <= |s| && s[t.start] == '<' && Parse(s[t.start..]) == Some(t.(start := 0, end := t.end - t.start))
    decreases |s|, 1
  {
    hide Parse, AtMark;
    if FindChar(s, '<').Some? {
      var at := FindChar(s, '<').value;
      MarkParses(s[at..]);
      MovedParses(s, at, AtMark(s[at..]));
    }
  }

  lemma {:induction false} MarkParses(s: string)
    requires s != [] && s[0] == '<'
    ensures AtMark(s).Some? ==>
              var t := AtMark(s).value;
              t.end <= |s| && s[t.start] == '<' && Parse(s[t.start..]) == Some(t.(start := 0, end := t.end - t.start))
    decreases |s|, 0
  {
    hide Parse, Next, AtMark;
    var n := MarkCases(s);
    if n > 0 {
      NextParses(s[n..]);
      MovedParses(s, n, Next(s[n..]));
    } else {
      assert s[0..] == s;
      ParseStarts(s);
    }
  }

  /** A `<` begins a tag, or reading goes on behind it, or there is no tag. */
  lemma MarkCases(s: string) returns (n: nat)
    requires s != [] && s[0] == '<'
    ensures n <= |s| && if n == 0 then AtMark(s).None? || AtMark(s) == Parse(s) else AtMark(s) == Moved(Next(s[n..]), n)
  {
    hide Parse, Next, Find, FindChar;
    if StartsWith(s, "<!--") {
      var k := Find(s[4..], "-->");
      n := if k.Some? then 4 + k.value + 3 else 0;
      FoundFits(s[4..], "-->");
    } else if StartsWith(s, "<!") || StartsWith(s, "<?") {
      var k := FindChar(s, '>');
      n := if k.Some? then k.value + 1 else 0;
    } else {
      n := if Parse(s).Some? then 0 else 1;
    }
  }

  lemma FoundFits(s: string, needle: string)
    ensures Find(s, needle).Some? ==> Find(s, needle).value + |needle| <= |s|
  {
    hide Find;
    if Find(s, needle).Some? {
      assert |s[Find(s, needle).value..]| == |s| - Find(s, needle).value;
    }
  }

  lemma ParseStarts(s: string)
    requires s != [] && s[0] == '<'
    ensures Parse(s).Some? ==> Parse(s).value.start == 0 && Parse(s).value.end <= |s|
  {
  }

  lemma MovedParses(s: string, n: nat, r: Option<Tag>)
    requires n <= |s|
    requires r.Some? ==>
               var t := r.value;
               && t.start < t.end <= |s| - n && s[n..][t.start] == '<'
               && Parse(s[n..][t.start..]) == Some(t.(start := 0, end := t.end - t.start))
    ensures Moved(r, n).Some? ==>
              var t := Moved(r, n).value;
              t.end <= |s| && s[t.start] == '<' && Parse(s[t.start..]) == Some(t.(start := 0, end := t.end - t.start))
  {
    hide Parse;
    if r.Some? {
      assert s[n..][r.value.start..] == s[n + r.value.start..];
    }
  }

  /** An end tag spells out its name after `</`. */
  lemma EndSpelled(s: string, i: nat)
    requires i < |s| && s[i] == '<' && Parse(s[i..]).Some? && Parse(s[i..]).value.kind.End?
    ensures var name := Parse(s[i..]).value.name;
            && i + 2 + |name| <= |s| && s[i + 1] == '/' && Lower(s[i + 2..i + 2 + |name|]) == name
            && forall k :: i + 2 <= k < i + 2 + |name| ==> IsNameChar(s[k])
  {
    hide Scan, Lower;
    var r := s[i..];
    var n := TagNameRun(r[2..]);
    assert forall k :: i + 2 <= k < i + 2 + n ==> s[k] == r[2..][k - i - 2];
    assert r[2..2 + n] == s[i + 2..i + 2 + n];
    LowerLength(r[2..2 + n]);
  }

  /** A text without `</name` holds no end tag called `name`, not even one that starts in it and ends later. */
  lemma NoOwnEnd(u: string, tail: string, name: string, t: Tag)
    requires Lacks(Lower(u), "</" + name) && tail != [] && tail[0] == '<'
    requires Next(u + tail) == Some(t) && t.start < |u|
    ensures !(t.kind.End? && t.name == name)
  {
    hide Next, Parse, Lower, Lacks, IsNameChar;
    var s := u + tail;
    NextParses(s);
    if t.kind.End? && t.name == name {
      EndSpelled(s, t.start);
      var e := t.start + 2 + |name|;
      StopsBefore(s, t.start + 1, e, |u|);
      assert s[t.start + 2..e] == u[t.start + 2..e];
      Spelled(u, t.start, e, name);
      assert false;
    }
  }

  lemma StopsBefore(s: string, i: nat, e: nat, n: nat)
    requires i < e <= |s| && i <= n < |s| && s[i] == '/' && s[n] == '<'
    requires forall k :: i < k < e ==> IsNameChar(s[k])
    ensures e <= n
  {
  }

  lemma Spelled(u: string, i: nat, e: nat, name: string)
    requires e == i + 2 + |name| <= |u| && u[i] == '<' && u[i + 1] == '/' && Lower(u[i + 2..e]) == name
    ensures !Lacks(Lower(u), "</" + name)
  {
    hide Find;
    var low, needle := Lower(u), "</" + name;
    assert |low| == |u|;
    assert low[i..][..|needle|] == needle by {
      forall k | 0 <= k < |needle| ensures low[i + k] == needle[k] {
        if k >= 2 {
          assert Lower(u[i + 2..e])[k - 2] == ToLower(u[i + k]);
        }
      }
    }
    assert StartsWith(low[i..], needle);
  }

  lemma LacksTail(u: string, m: nat, needle: string)
    requires m <= |u| && Lacks(Lower(u), needle)
    ensures Lacks(Lower(u[m..]), needle)
  {
    hide Find;
    var low := Lower(u);
    assert Lower(u[m..]) == low[m..];
    forall k | 0 <= k <= |low[m..]| ensures !StartsWith(low[m..][k..], needle) {
      assert low[m..][k..] == low[m + k..];
    }
    var r := Find(low[m..], needle);
  }

  /** The end tag of `name` at the head of `tail` closes one element. */
  predicate OwnClose(tail: string, name: string) {
    tail != [] && tail[0] == '<' && Parse(tail).Some? && Parse(tail).value.kind.End? && Parse(tail).value.name == name
  }

  /** With two elements open, the first end tag is not the one. */
  lemma {:induction false} DeepEndsLater(u: string, tail: string, name: string, depth: nat)
    requires depth > 1 && Lacks(Lower(u), "</" + name) && OwnClose(tail, name)
    ensures Extent(u + tail, name, depth) != Some(|u|)
    decreases |u + tail|
  {
    hide Next, Parse, Find, Lower, Onward;
    var s := u + tail;
    if Next(s).Some? {
      var t := Next(s).value;
      var m := Onward(s, t, name);
      if t.start < |u| {
        NoOwnEnd(u, tail, name, t);
        if m <= |u| {
          LacksTail(u, m, "</" + name);
          assert s[m..] == u[m..] + tail;
          DeepEndsLater(u[m..], tail, name, DepthAfter(t, name, depth));
        }
      } else if t.start == |u| {
        OwnTag(u, tail, name, t);
      }
    }
  }

  lemma OwnTag(u: string, tail: string, name: string, t: Tag)
    requires OwnClose(tail, name) && Next(u + tail) == Some(t) && t.start == |u|
    ensures t.kind.End? && t.name == name
  {
    hide Next, Parse;
    NextParses(u + tail);
    assert (u + tail)[|u|..] == tail;
  }

  /** The element ends where its text does exactly when reading the text as markup gets there. */
  lemma {:induction false} EndsExactly(u: string, tail: string, name: string)
    requires Lacks(Lower(u), "</" + name) && OwnClose(tail, name)
    ensures Extent(u + tail, name, 1) == Some(|u|) <==> Reaches(u + tail, |u|, name)
    decreases |u + tail|
  {
    hide Next, Parse, Find, Lower, Onward;
    var s := u + tail;
    if Next(s).Some? {
      var t := Next(s).value;
      var m := Onward(s, t, name);
      if t.start < |u| {
        NoOwnEnd(u, tail, name, t);
        if m <= |u| {
          LacksTail(u, m, "</" + name);
          assert s[m..] == u[m..] + tail;
          if Opens(t, name) {
            DeepEndsLater(u[m..], tail, name, 2);
          } else {
            EndsExactly(u[m..], tail, name);
          }
        }
      } else if t.start == |u| {
        OwnTag(u, tail, name, t);
      }
    }
  }

  /** A text without `<` is always read past. */
  lemma NoTagReaches(u: string, tail: string, name: string)
    requires '<' !in u && OwnClose(tail, name)
    ensures Reaches(u + tail, |u|, name)
  {
    hide Parse, Next;
    NextPast(u, tail);
    CloseFirst(tail, name);
    MovedTag(Next(tail), |u|);
  }

  lemma MovedTag(r: Option<Tag>, n: nat)
    ensures r.Some? ==> Moved(r, n).Some? && Moved(r, n).value.start == r.value.start + n
  {
  }

  lemma CloseFirst(tail: string, name: string)
    requires OwnClose(tail, name)
    ensures Next(tail).Some? && Next(tail).value.start == 0
  {
    hide Scan, Find;
    assert tail[0..] == tail;
  }
}
