/** The router reads a printed document as its tree says: its outlet, and its title. */
module Extraction {
  import opened Prelude
  import opened Html
  import opened Escaping
  import opened Printing
  import opened RawOutlets

  // --- The extent of an element ---

  lemma ExtentPast(a: string, s: string, name: string, depth: nat)
    requires depth > 0 && Next(a + s) == Moved(Next(s), |a|)
    ensures Extent(a + s, name, depth) == Ahead(Extent(s, name, depth), |a|)
  {
    hide Next, Onward, DepthAfter, Ahead;
    NoneAhead(|a|);
    assert (a + s)[|a|..] == s;
    if Next(s).Some? {
      var t := Next(s).value;
      OnwardMoved(a + s, |a|, t, name);
      SameDepth(t, |a|, name, depth);
      SomeAhead(t.start, |a|);
      var d := DepthAfter(t, name, depth);
      if d > 0 {
        AheadTwice(Extent(s[Onward(s, t, name)..], name, d), Onward(s, t, name), |a|);
      }
    }
  }

  lemma AheadNone(r: Option<nat>)
    ensures Ahead(r, 0) == r
  {
  }

  /** Past a text that holds one tag which does not change the depth. */
  lemma ExtentOn(a: string, s: string, name: string, depth: nat, t: Tag)
    requires depth > 0 && Next(a + s) == Some(t) && t.end <= |a + s|
    requires (t.kind.Start? && t.kind.selfClosing && t.end == |a|)
          || (t.kind.Start? && !t.kind.selfClosing && t.name != name && After(a + s, t) == |a|)
          || (t.kind.End? && t.name != name && t.end == |a|)
    ensures Extent(a + s, name, depth) == Ahead(Extent(s, name, depth), |a|)
  {
    hide Next, RawLength;
    assert (a + s)[|a|..] == s;
  }

  /** What stands for a tree in front of `s` does not change where the element ends. */
  lemma {:induction false} ExtentOne(doc: Doc, s: string, name: string, depth: nat)
    requires DocOk(doc) && depth > 0 && !IsRawText(name) && !IsVoid(name)
    ensures Extent(Print(doc) + s, name, depth) == Ahead(Extent(s, name, depth), |Print(doc)|)
    decreases Size(doc), 0
  {
    hide Extent, Next, TagText, Lower, Marked, Lacks;
    match doc {
      case Plain(text) =>
        NextPast(text, s);
        ExtentPast(text, s, name, depth);
      case Stray(text) =>
        NextStray(text, s);
        ExtentPast(Print(doc), s, name, depth);
      case Remark(text) =>
        NextRemark(text, s);
        assert "<!--" + text + "-->" + s == Print(doc) + s;
        ExtentPast(Print(doc), s, name, depth);
      case Declaration(text) =>
        NextDecl(text, s);
        ExtentPast(Print(doc), s, name, depth);
      case Instruction(text) =>
        NextInstruction(text, s);
        ExtentPast(Print(doc), s, name, depth);
      case Elem(_, _, _, _) =>
        ExtentElem(doc, s, name, depth);
      case Raw(_, _, _, _) =>
        ExtentRaw(doc, s, name, depth);
      case Void(other, attrs) =>
        TagTextIs(other, attrs);
        NotRaw(doc);
        NextOpen(other, attrs, false, s);
        ExtentOn(Print(doc), s, name, depth, TagOf(doc));
      case Closed(other, attrs) =>
        TagTextIs(other, attrs);
        NextOpen(other, attrs, true, s);
        ExtentOn(Print(doc), s, name, depth, TagOf(doc));
    }
  }

  lemma ExtentClose(e: Ending, other: string, s: string, name: string, depth: nat)
    requires EndingOk(e, other) && TagNameOk(other) && depth > 0 && Lower(other) != name
    ensures Extent(CloseTag(e) + s, name, depth) == Ahead(Extent(s, name, depth), |CloseTag(e)|)
  {
    hide Extent, Next, Lower, CloseTag, EndingOk;
    NextClose(e, other, s);
    ExtentOn(CloseTag(e), s, name, depth, Tag(Lower(other), 0, |CloseTag(e)|, End));
  }

  /** The close tag of the element itself. */
  lemma ExtentOwnClose(e: Ending, other: string, s: string, depth: nat)
    requires EndingOk(e, other) && TagNameOk(other) && depth > 0
    ensures Extent(CloseTag(e) + s, Lower(other), depth) ==
            if depth == 1 then Some(0) else Ahead(Extent(s, Lower(other), depth - 1), |CloseTag(e)|)
  {
    hide Next, Lower, CloseTag, EndingOk;
    NextClose(e, other, s);
    assert (CloseTag(e) + s)[|CloseTag(e)|..] == s;
  }

  lemma ExtentRaw(doc: Doc, s: string, name: string, depth: nat)
    requires DocOk(doc) && doc.Raw? && depth > 0 && !IsRawText(name)
    ensures Extent(Print(doc) + s, name, depth) == Ahead(Extent(s, name, depth), |Print(doc)|)
  {
    hide Extent, Next, TagText, Lower, Marked, RawLength, CloseTag;
    var a, rest := TagText(doc.name, doc.attrs, false), CloseTag(doc.ending) + s;
    NotRaw(doc);
    NextOpen(doc.name, doc.attrs, false, doc.text + rest);
    RawEnds(doc.ending, doc.name, doc.text, s);
    assert (a + (doc.text + rest))[|a|..] == doc.text + rest;
    assert a + (doc.text + rest) == (a + doc.text) + rest;
    ExtentOn(a + doc.text, rest, name, depth, TagOf(doc));
    ExtentClose(doc.ending, doc.name, s, name, depth);
    RawPrinted(doc, s);
    AheadTwice(Extent(s, name, depth), |CloseTag(doc.ending)|, |a + doc.text|);
  }

  lemma ExtentElem(doc: Doc, s: string, name: string, depth: nat)
    requires DocOk(doc) && doc.Elem? && depth > 0 && !IsRawText(name) && !IsVoid(name)
    ensures Extent(Print(doc) + s, name, depth) == Ahead(Extent(s, name, depth), |Print(doc)|)
    decreases Size(doc), 0, 0
  {
    hide Next, TagText, Lower, Marked, CloseTag, OpenTag, PrintAll, Extent;
    var rest := ElemRest(doc, s);
    var a, kids, close := TagText(doc.name, doc.attrs, false), PrintAll(doc.kids), CloseTag(doc.ending);
    TagTextIs(doc.name, doc.attrs);
    NotRaw(doc);
    NextOpen(doc.name, doc.attrs, false, rest);
    assert |Print(doc)| == |a| + |kids| + |close|;
    if Lower(doc.name) == name {
      NestedOpen(a, rest, name, depth, TagOf(doc));
      ExtentAll(doc.kids, close + s, name, depth + 1);
      ExtentOwnClose(doc.ending, doc.name, s, depth + 1);
    } else {
      ExtentOn(a, rest, name, depth, TagOf(doc));
      ExtentAll(doc.kids, close + s, name, depth);
      ExtentClose(doc.ending, doc.name, s, name, depth);
    }
    AheadTwice(Extent(s, name, depth), |close|, |kids|);
    AheadTwice(Extent(s, name, depth), |close| + |kids|, |a|);
  }

  /** A nested element of the same name is one level deeper. */
  lemma NestedOpen(a: string, s: string, name: string, depth: nat, t: Tag)
    requires depth > 0 && Next(a + s) == Some(t) && t.end == |a| && t.kind.Start? && !t.kind.selfClosing
             && t.name == name
    ensures Extent(a + s, name, depth) == Ahead(Extent(s, name, depth + 1), |a|)
  {
    hide Next, After;
    assert (a + s)[|a|..] == s;
  }

  lemma {:induction false} ExtentAll(docs: seq<Doc>, s: string, name: string, depth: nat)
    requires AllOk(docs) && depth > 0 && !IsRawText(name) && !IsVoid(name)
    ensures Extent(PrintAll(docs) + s, name, depth) == Ahead(Extent(s, name, depth), |PrintAll(docs)|)
    decreases SizeAll(docs), 1
  {
    hide Extent, Print;
    if docs == [] {
      assert PrintAll(docs) + s == s;
      AheadNone(Extent(s, name, depth));
    } else {
      var rest := PrintAll(docs[1..]) + s;
      assert PrintAll(docs) + s == Print(docs[0]) + rest;
      ExtentOne(docs[0], rest, name, depth);
      ExtentAll(docs[1..], s, name, depth);
      AheadTwice(Extent(s, name, depth), |PrintAll(docs[1..])|, |Print(docs[0])|);
    }
  }

  // --- The outlet ---

  /** The first wanted element of a well-formed tree is well formed. */
  lemma {:induction false} SiteOk(docs: seq<Doc>, w: Want)
    requires AllOk(docs)
    ensures FirstWanted(docs, w).Some? ==> DocOk(FirstWanted(docs, w).value.doc)
    decreases SizeAll(docs)
  {
    hide Lower, Marked, Lacks;
    if docs != [] {
      SiteOk(docs[1..], w);
      if docs[0].Elem? {
        assert Size(docs[0]) == 1 + SizeAll(docs[0].kids);
        SiteOk(docs[0].kids, w);
      }
    }
  }

  /** No end tag called `name` closes anything in `s`. */
  ghost predicate NeverEnds(s: string, name: string) {
    forall depth: nat :: depth > 0 ==> Extent(s, name, depth) == None
  }

  lemma NeverEndsOn(a: string, s: string, name: string, depth: nat, t: Tag)
    requires depth > 0 && NeverEnds(s, name) && Next(a + s) == Some(t) && t.end <= |a + s|
    requires t.kind.Start? || t.name != name
    requires if t.kind.Start? && !t.kind.selfClosing && t.name != name then After(a + s, t) == |a| else t.end == |a|
    ensures Extent(a + s, name, depth) == None
  {
    hide Next, RawLength;
    assert (a + s)[|a|..] == s;
  }

  lemma {:induction false} NeverEndsOne(doc: Doc, s: string, name: string, depth: nat)
    requires DocOk(doc) && depth > 0 && IsVoid(name) && NeverEnds(s, name)
    ensures Extent(Print(doc) + s, name, depth) == None
    decreases Size(doc), 0
  {
    hide Extent, Next, TagText, Lower, Marked, Lacks, PrintAll, NeverEnds, CloseTag, OpenTag;
    assert Extent(s, name, depth) == None by {
      Never(s, name, depth);
    }
    match doc {
      case Plain(text) =>
        NextPast(text, s);
        ExtentPast(text, s, name, depth);
      case Stray(text) =>
        NextStray(text, s);
        ExtentPast(Print(doc), s, name, depth);
      case Remark(text) =>
        NextRemark(text, s);
        assert "<!--" + text + "-->" + s == Print(doc) + s;
        ExtentPast(Print(doc), s, name, depth);
      case Declaration(text) =>
        NextDecl(text, s);
        ExtentPast(Print(doc), s, name, depth);
      case Instruction(text) =>
        NextInstruction(text, s);
        ExtentPast(Print(doc), s, name, depth);
      case Elem(other, attrs, kids, ending) =>
        var rest := ElemRest(doc, s);
        TagTextIs(other, attrs);
        NotRaw(doc);
        NextOpen(other, attrs, false, rest);
        NeverEndsClose(ending, other, s, name);
        NeverEndsAll(kids, CloseTag(ending) + s, name);
        NeverEndsOn(TagText(other, attrs, false), rest, name, depth, TagOf(doc));
      case Raw(_, _, _, _) =>
        VoidsNotRaw(name);
        ExtentRaw(doc, s, name, depth);
      case Void(other, attrs) =>
        TagTextIs(other, attrs);
        NotRaw(doc);
        NextOpen(other, attrs, false, s);
        NeverEndsOn(Print(doc), s, name, depth, TagOf(doc));
      case Closed(other, attrs) =>
        TagTextIs(other, attrs);
        NextOpen(other, attrs, true, s);
        NeverEndsOn(Print(doc), s, name, depth, TagOf(doc));
    }
  }

  lemma Never(s: string, name: string, depth: nat)
    requires NeverEnds(s, name) && depth > 0
    ensures Extent(s, name, depth) == None
  {
  }

  lemma NeverEndsClose(e: Ending, other: string, s: string, name: string)
    requires EndingOk(e, other) && TagNameOk(other) && Lower(other) != name && NeverEnds(s, name)
    ensures NeverEnds(CloseTag(e) + s, name)
  {
    hide Extent, Lower;
    forall depth: nat | depth > 0 ensures Extent(CloseTag(e) + s, name, depth) == None {
      ExtentClose(e, other, s, name, depth);
    }
  }

  lemma {:induction false} NeverEndsAll(docs: seq<Doc>, s: string, name: string)
    requires AllOk(docs) && IsVoid(name) && NeverEnds(s, name)
    ensures NeverEnds(PrintAll(docs) + s, name)
    decreases SizeAll(docs), 1
  {
    hide Extent, Print;
    if docs == [] {
      assert PrintAll(docs) + s == s;
    } else {
      var rest := PrintAll(docs[1..]) + s;
      assert PrintAll(docs) + s == Print(docs[0]) + rest;
      NeverEndsAll(docs[1..], s, name);
      forall depth: nat | depth > 0 ensures Extent(Print(docs[0]) + rest, name, depth) == None {
        NeverEndsOne(docs[0], rest, name, depth);
      }
    }
  }

  /** Nothing after the element closes a void element either. */
  lemma {:induction false} AfterSite(docs: seq<Doc>, w: Want, s: string, name: string)
    requires AllOk(docs) && FirstWanted(docs, w).Some? && IsVoid(name) && NeverEnds(s, name)
    ensures NeverEnds(FirstWanted(docs, w).value.after + s, name)
    decreases SizeAll(docs)
  {
    hide NeverEnds, Print, PrintAll, CloseTag, OpenTag, Lower, Marked, Lacks;
    var rest := PrintAll(docs[1..]) + s;
    if FirstIn(docs[0], w).Some? {
      NeverEndsAll(docs[1..], s, name);
      if Wanted(docs[0], w) {
        assert "" + PrintAll(docs[1..]) + s == rest;
      } else {
        var inner := FirstWanted(docs[0].kids, w).value.after;
        NotRaw(docs[0]);
        NeverEndsClose(docs[0].ending, docs[0].name, rest, name);
        assert Size(docs[0]) == 1 + SizeAll(docs[0].kids);
        AfterSite(docs[0].kids, w, CloseTag(docs[0].ending) + rest, name);
        assert inner + CloseTag(docs[0].ending) + PrintAll(docs[1..]) + s == inner + (CloseTag(docs[0].ending) + rest);
      }
    } else {
      AfterSite(docs[1..], w, s, name);
    }
  }

  lemma EmptyNeverEnds(name: string)
    ensures NeverEnds("", name)
  {
  }

  /** What the router should read as the outlet's content. */
  function Content(doc: Doc): Option<string>
    requires IsElem(doc)
  {
    match doc
    case Elem(_, _, kids, _) => Some(PrintAll(kids))
    case Raw(_, _, text, _) => Some(text)
    case Closed(_, _) => Some("")
    case Void(_, _) => None
  }

  /**
   * The outlet of a printed document is exactly what is printed inside the first element that
   * carries the marker; a void element has no extent, and a document without the marker no outlet.
   * A raw-text element is measured as if its text were markup, so its text is found exactly when
   * reading on from its start tag gets to its end tag.
   */
  lemma OutletOfPrinted(docs: seq<Doc>)
    requires AllOk(docs)
    ensures match FirstWanted(docs, Want.Outlet)
            case None => OutletHtml(PrintAll(docs)) == None
            case Some(site) =>
              OutletHtml(PrintAll(docs)) == Content(site.doc) <==>
                (site.doc.Raw? ==>
                   Reaches(site.doc.text + CloseTag(site.doc.ending) + site.after, |site.doc.text|,
                           Lower(site.doc.name)))
  {
    hide Seek, Print, PrintAll, Lower, Marked, FirstWanted, OutletHtml, Content;
    var html := PrintAll(docs);
    assert html + "" == html;
    SeekAll(docs, "", Want.Outlet);
    NothingThere(Want.Outlet);
    SiteOk(docs, Want.Outlet);
    match FirstWanted(docs, Want.Outlet)
    case None =>
      assert OutletHtml(html) == None by {
        NoOutlet(html);
      }
    case Some(site) =>
      if site.doc.Raw? {
        RawRead(docs, site, html);
      } else {
        SiteRead(docs, site, html);
      }
  }

  lemma NoOutlet(html: string)
    requires Seek(html, Want.Outlet) == None
    ensures OutletHtml(html) == None
  {
  }

  /** Reading the outlet once its start tag and its extent are known. */
  lemma OutletAt(html: string, t: Tag, rest: string)
    requires Seek(html, Want.Outlet) == Some(t) && html[t.end..] == rest
    ensures t.kind.Start? && t.end <= |html|
    ensures OutletHtml(html) == if t.kind.selfClosing then Some("")
                                else
                                  match Extent(rest, t.name, 1)
                                  case None => None
                                  case Some(k) => if k <= |rest| then Some(rest[..k]) else None
  {
    hide Seek, Extent;
    if !t.kind.selfClosing && Extent(rest, t.name, 1).Some? {
      var k := Extent(rest, t.name, 1).value;
      assert html[t.end..t.end + k] == rest[..k];
    }
  }

  /** What the printed document holds after the start tag of the element found. */
  lemma SiteCut(docs: seq<Doc>, w: Want, site: Site) returns (rest: string)
    requires FirstWanted(docs, w) == Some(site)
    ensures IsElem(site.doc) && |site.before| + TagOf(site.doc).end <= |PrintAll(docs)|
    ensures PrintAll(docs)[|site.before| + TagOf(site.doc).end..] == rest
    ensures rest == (match site.doc
                     case Elem(_, _, kids, ending) => PrintAll(kids) + (CloseTag(ending) + site.after)
                     case Raw(_, _, text, ending) => text + (CloseTag(ending) + site.after)
                     case _ => site.after)
  {
    hide Print, PrintAll, Lower, Marked, TagText, FirstWanted, CloseTag;
    FoundSite(docs, w);
    rest := ElemRest(site.doc, site.after);
    var text := TagText(site.doc.name, site.doc.attrs, site.doc.Closed?);
    Regroup3(site.before, Print(site.doc), site.after);
    CutAt(site.before, text, rest);
  }

  lemma Regroup3(a: string, b: string, c: string)
    ensures a + b + c == a + (b + c)
  {
  }

  lemma SiteRead(docs: seq<Doc>, site: Site, html: string)
    requires AllOk(docs) && FirstWanted(docs, Want.Outlet) == Some(site) && DocOk(site.doc) && html == PrintAll(docs)
    requires Seek(html, Want.Outlet) == Some(TagOf(site.doc).(start := |site.before|,
                                                              end := |site.before| + TagOf(site.doc).end))
    requires !site.doc.Raw?
    ensures OutletHtml(html) == Content(site.doc)
  {
    hide Seek, Extent, Print, PrintAll, Lower, Marked, TagText, FirstWanted, OutletHtml, DocOk, AllOk, CloseTag;
    var rest := SiteCut(docs, Want.Outlet, site);
    OutletAt(html, TagOf(site.doc).(start := |site.before|, end := |site.before| + TagOf(site.doc).end), rest);
    if !site.doc.Closed? {
      ContentEnds(docs, site, rest);
    }
  }

  lemma RawRead(docs: seq<Doc>, site: Site, html: string)
    requires FirstWanted(docs, Want.Outlet) == Some(site) && DocOk(site.doc) && html == PrintAll(docs)
    requires Seek(html, Want.Outlet) == Some(TagOf(site.doc).(start := |site.before|,
                                                              end := |site.before| + TagOf(site.doc).end))
    requires site.doc.Raw?
    ensures OutletHtml(html) == Content(site.doc) <==>
            Reaches(site.doc.text + CloseTag(site.doc.ending) + site.after, |site.doc.text|, Lower(site.doc.name))
  {
    hide Seek, Extent, Print, PrintAll, Lower, Marked, TagText, FirstWanted, OutletHtml, CloseTag, Reaches, OwnClose,
         Lacks;
    var rest := SiteCut(docs, Want.Outlet, site);
    OutletAt(html, TagOf(site.doc).(start := |site.before|, end := |site.before| + TagOf(site.doc).end), rest);
    var text, name := site.doc.text, site.doc.name;
    var ending := site.doc.ending;
    var tail := CloseTag(ending) + site.after;
    assert text + CloseTag(ending) + site.after == text + tail;
    ClosesItself(ending, name, site.after);
    LacksLower(text, name);
    EndsExactly(text, tail, Lower(name));
    assert rest[..|text|] == text;
  }

  /** A raw-text outlet whose text holds no `<` is found. */
  lemma PlainRawReaches(ending: Ending, name: string, text: string, after: string)
    requires TagNameOk(name) && EndingOk(ending, name) && '<' !in text
    ensures Reaches(text + CloseTag(ending) + after, |text|, Lower(name))
  {
    hide Reaches, OwnClose, CloseTag, Lower, EndingOk;
    assert text + CloseTag(ending) + after == text + (CloseTag(ending) + after);
    ClosesItself(ending, name, after);
    NoTagReaches(text, CloseTag(ending) + after, Lower(name));
  }

  lemma ClosesItself(ending: Ending, name: string, s: string)
    requires TagNameOk(name) && EndingOk(ending, name)
    ensures OwnClose(CloseTag(ending) + s, Lower(name))
  {
    hide Parse, Lower, EndingOk, TagNameOk;
    ParseClose(ending, name, s);
  }

  lemma FoundSite(docs: seq<Doc>, w: Want)
    ensures FirstWanted(docs, w).Some? ==>
              var site := FirstWanted(docs, w).value;
              PrintAll(docs) == site.before + Print(site.doc) + site.after
  {
    hide Print, PrintAll;
  }

  lemma CutAt(a: string, b: string, c: string)
    ensures (a + (b + c))[|a| + |b|..] == c
  {
  }

  lemma NothingThere(w: Want)
    ensures Seek("", w) == None && forall n: nat :: Moved(None, n) == None
  {
  }

  /** Where the content of the element ends in what follows its start tag. */
  lemma ContentEnds(docs: seq<Doc>, site: Site, rest: string)
    requires AllOk(docs) && FirstWanted(docs, Want.Outlet) == Some(site) && DocOk(site.doc)
    requires site.doc.Elem? || site.doc.Void?
    requires rest == match site.doc
                     case Elem(_, _, kids, ending) => PrintAll(kids) + (CloseTag(ending) + site.after)
                     case _ => site.after
    ensures Extent(rest, Lower(site.doc.name), 1) ==
            match Content(site.doc)
            case Some(content) => Some(|content|)
            case None => None
    ensures Content(site.doc).Some? ==>
              |Content(site.doc).value| <= |rest| && rest[..|Content(site.doc).value|] == Content(site.doc).value
  {
    hide Extent, Next, PrintAll, CloseTag, Lower, FirstWanted, NeverEnds;
    NoneAhead(0);
    match site.doc
    case Elem(name, _, kids, ending) =>
      NotRaw(site.doc);
      ExtentAll(kids, CloseTag(ending) + site.after, Lower(name), 1);
      ExtentOwnClose(ending, name, site.after, 1);
      NoneAhead(|PrintAll(kids)|);
    case Void(name, _) =>
      NotRaw(site.doc);
      EmptyNeverEnds(Lower(name));
      AfterSite(docs, Want.Outlet, "", Lower(name));
      assert site.after + "" == site.after;
      Never(site.after, Lower(name), 1);
  }

  /**
   * A raw-text element is measured as if its text were markup, so a marked one whose text holds
   * its own start tag is not found.
   */
  lemma RawOutletLost(name: string, attrs: seq<Attr>, ending: Ending)
    requires TagNameOk(name) && NamedAmong(name, RAW_TEXT) && AttrsOk(attrs) && Marked(attrs) && EndingOk(ending, name)
    ensures var doc := Raw(name, attrs, OpenTag(name, []), ending);
            DocOk(doc) && FirstWanted([doc], Want.Outlet) == Some(Site(doc, "", ""))
              && OutletHtml(PrintAll([doc])) == None
  {
    hide Seek, Next, Extent, Lower, Marked, TagText, CloseTag, OpenTag, LacksEnd, OutletHtml, PrintAll, Print,
         NamedAmong, EndingOk, TagNameOk;
    var doc := Raw(name, attrs, OpenTag(name, []), ending);
    OwnStartTag(name);
    OneRaw(doc);
    var close := CloseTag(ending) + "";
    var rest := OpenTag(name, []) + close;
    var a := TagText(name, attrs, false);
    var r := ElemRest(doc, "");
    NextOpen(name, attrs, false, rest);
    assert (a + rest)[|a|..] == rest;
    SeekFound(a + rest, TagOf(doc));
    OutletAt(a + rest, TagOf(doc), rest);
    TagTextIs(name, []);
    NextOpen(name, [], false, close);
    NestedOpen(OpenTag(name, []), close, Lower(name), 1,
               Tag(Lower(name), 0, |OpenTag(name, [])|, Start(false, Marked([]))));
    ExtentOwnClose(ending, name, "", 2);
    EmptyNeverEnds(Lower(name));
    Never("", Lower(name), 1);
  }

  lemma OneRaw(doc: Doc)
    requires doc.Raw? && Wanted(doc, Want.Outlet)
    ensures PrintAll([doc]) == Print(doc) + "" && FirstWanted([doc], Want.Outlet) == Some(Site(doc, "", ""))
  {
    hide Print, Marked;
    assert [doc][1..] == [];
    assert "" + PrintAll([]) == "";
  }

  lemma SeekFound(s: string, t: Tag)
    requires Next(s) == Some(t) && Accepts(Want.Outlet, t)
    ensures Seek(s, Want.Outlet) == Some(t)
  {
    hide Next;
  }

  lemma OwnStartTag(name: string)
    requires TagNameOk(name)
    ensures LacksEnd(OpenTag(name, []), name)
  {
    assert PrintAttrs([]) == "";
    assert OpenTag(name, [])[1] == name[0];
  }

  // --- The title ---

  predicate IsWhite(c: char) {
    || '\U{9}' <= c <= '\U{d}' || c == ' ' || c == '\U{85}' || c == '\U{a0}' || c == '\U{1680}'
    || '\U{2000}' <= c <= '\U{200a}' || c == '\U{2028}' || c == '\U{2029}'
    || c == '\U{202f}' || c == '\U{205f}' || c == '\U{3000}'
  }

  function TrimStart(s: string): string {
    if s != [] && IsWhite(s[0]) then TrimStart(s[1..]) else s
  }

  function TrimEnd(s: string): string {
    if s != [] && IsWhite(s[|s| - 1]) then TrimEnd(s[..|s| - 1]) else s
  }

  function Trim(s: string): string {
    TrimEnd(TrimStart(s))
  }

  /** The decoded text of the document's title. */
  function TitleText(s: string): Option<string> {
    match Seek(s, Title)
    case None => None
    case Some(t) =>
      match Find(Lower(s[t.end..]), "</title")
      case None => None
      case Some(k) => Some(Decoded(Trim(s[t.end..t.end + k])))
  }

  method ExtractTitle(s: string) returns (r: Option<string>)
    ensures r == TitleText(s)
  {
    hide Seek, Find, Trim, Decoded;
    var opening := ScanFor(s, Title);
    if opening.None? {
      return None;
    }
    var from := opening.value.end;
    LowerSlice(s, from);
    var end := FindFrom(Lower(s), "</title", from);
    if end.None? {
      return None;
    }
    var text := DecodeHtmlEntities(Trim(s[from..end.value]));
    r := Some(text);
  }

  lemma {:induction false} EscapedConcat(a: string, b: string)
    ensures Escaped(a + b) == Escaped(a) + Escaped(b)
  {
    hide EscapedChar;
    if a == [] {
      assert a + b == b;
    } else {
      assert (a + b)[1..] == a[1..] + b && (a + b)[0] == a[0];
      EscapedConcat(a[1..], b);
      assert EscapedChar(a[0]) + (Escaped(a[1..]) + Escaped(b)) == (EscapedChar(a[0]) + Escaped(a[1..])) + Escaped(b);
    }
  }

  lemma EscapedEnds(c: char)
    ensures EscapedChar(c) != []
    ensures IsWhite(c) ==> EscapedChar(c) == [c]
    ensures !IsWhite(c) ==> !IsWhite(EscapedChar(c)[0]) && !IsWhite(EscapedChar(c)[|EscapedChar(c)| - 1])
  {
  }

  /** Escaping leaves the space around a text alone. */
  lemma {:induction false} TrimStartEscaped(t: string)
    ensures TrimStart(Escaped(t)) == Escaped(TrimStart(t))
  {
    hide EscapedChar, IsWhite;
    if t != [] {
      EscapedEnds(t[0]);
      TrimStartEscaped(t[1..]);
      assert (EscapedChar(t[0]) + Escaped(t[1..]))[0] == EscapedChar(t[0])[0];
      assert IsWhite(t[0]) ==> Escaped(t)[1..] == Escaped(t[1..]);
    }
  }

  lemma {:induction false} TrimEndEscaped(t: string)
    ensures TrimEnd(Escaped(t)) == Escaped(TrimEnd(t))
  {
    hide EscapedChar, IsWhite;
    if t != [] {
      var a, c := t[..|t| - 1], t[|t| - 1];
      assert t == a + [c];
      EscapedConcat(a, [c]);
      assert [c][1..] == [];
      assert Escaped([c]) == EscapedChar(c);
      EscapedEnds(c);
      TrimEndEscaped(a);
      var e := Escaped(t);
      assert e[|e| - 1] == EscapedChar(c)[|EscapedChar(c)| - 1];
      assert IsWhite(c) ==> e[..|e| - 1] == Escaped(a);
    }
  }

  /** The characters with the Unicode property `White_Space`. */
  const WHITE_SPACE: set<char> := {
    '\U{9}', '\U{a}', '\U{b}', '\U{c}', '\U{d}', ' ', '\U{85}', '\U{a0}', '\U{1680}', '\U{2000}', '\U{2001}',
    '\U{2002}', '\U{2003}', '\U{2004}', '\U{2005}', '\U{2006}', '\U{2007}', '\U{2008}', '\U{2009}', '\U{200a}',
    '\U{2028}', '\U{2029}', '\U{202f}', '\U{205f}', '\U{3000}'}

  predicate White(s: string) {
    forall i :: 0 <= i < |s| ==> s[i] in WHITE_SPACE
  }

  lemma WhiteSpace(c: char)
    ensures IsWhite(c) <==> c in WHITE_SPACE
  {
    if IsWhite(c) {
      assert c as int in {9, 10, 11, 12, 13, 32, 0x85, 0xa0, 0x1680, 0x2000, 0x2001, 0x2002, 0x2003, 0x2004, 0x2005,
                          0x2006, 0x2007, 0x2008, 0x2009, 0x200a, 0x2028, 0x2029, 0x202f, 0x205f, 0x3000};
    }
  }

  lemma EmptyTrimmed()
    ensures TrimEnd("") == ""
  {
  }

  lemma {:induction false} LeadTrimmed(a: string, t: string)
    requires White(a) && (t != [] ==> !IsWhite(t[0]))
    ensures TrimStart(a + t) == t
  {
    hide IsWhite;
    if a == [] {
      assert a + t == t;
    } else {
      WhiteSpace(a[0]);
      assert (a + t)[1..] == a[1..] + t;
      LeadTrimmed(a[1..], t);
    }
  }

  lemma {:induction false} TrailTrimmed(t: string, b: string)
    requires White(b) && (t != [] ==> !IsWhite(t[|t| - 1]))
    ensures TrimEnd(t + b) == t
  {
    hide IsWhite;
    if b == [] {
      assert t + b == t;
    } else {
      var c := b[..|b| - 1];
      WhiteSpace(b[|b| - 1]);
      assert (t + b)[..|t + b| - 1] == t + c && (t + b)[|t + b| - 1] == b[|b| - 1];
      TrailTrimmed(t, c);
    }
  }

  /** Trimming takes away exactly the space around a text. */
  lemma TrimmedExactly(a: string, t: string, b: string)
    requires White(a) && White(b) && (t != [] ==> t[0] !in WHITE_SPACE && t[|t| - 1] !in WHITE_SPACE)
    ensures Trim(a + t + b) == t
  {
    hide IsWhite, TrimStart, TrimEnd, WHITE_SPACE;
    if t != [] {
      WhiteSpace(t[0]);
      WhiteSpace(t[|t| - 1]);
    }
    if t == [] {
      assert White(a + b) && a + t + b == (a + b) + [];
      LeadTrimmed(a + b, []);
      EmptyTrimmed();
    } else {
      assert a + t + b == a + (t + b);
      LeadTrimmed(a, t + b);
      TrailTrimmed(t, b);
    }
  }

  /**
   * The title of a printed document is the text in its first `<title>`, trimmed and decoded; if
   * that is an escaped text, it is that text, trimmed.
   */
  lemma TitleOfPrinted(docs: seq<Doc>, t: string)
    requires AllOk(docs)
    ensures match FirstWanted(docs, Title)
            case None => TitleText(PrintAll(docs)) == None
            case Some(site) =>
              site.doc.Raw? ==>
                && TitleText(PrintAll(docs)) == Some(Decoded(Trim(site.doc.text)))
                && (site.doc.text == HtmlEscape(t) ==> TitleText(PrintAll(docs)) == Some(Trim(t)))
  {
    hide Seek, Print, PrintAll, Lower, Marked, FirstWanted, HtmlEscape, Trim, TitleText, DocOk, Decoded;
    var html := PrintAll(docs);
    assert html + "" == html;
    SeekAll(docs, "", Title);
    NothingThere(Title);
    SiteOk(docs, Title);
    match FirstWanted(docs, Title)
    case None =>
      assert TitleText(html) == None by {
        NoTitle(html);
      }
    case Some(site) =>
      if site.doc.Raw? {
        TitleRead(docs, site, html);
        TitleDecoded(t);
      }
  }

  lemma NoTitle(html: string)
    requires Seek(html, Title) == None
    ensures TitleText(html) == None
  {
  }

  lemma TitleRead(docs: seq<Doc>, site: Site, html: string)
    requires FirstWanted(docs, Title) == Some(site) && DocOk(site.doc) && html == PrintAll(docs)
    requires Seek(html, Title) == Some(TagOf(site.doc).(start := |site.before|,
                                                        end := |site.before| + TagOf(site.doc).end))
    requires site.doc.Raw?
    ensures TitleText(html) == Some(Decoded(Trim(site.doc.text)))
  {
    hide Seek, Print, PrintAll, Lower, Marked, TagText, FirstWanted, DocOk, CloseTag, HtmlEscape, Trim, Find, Decoded;
    var rest := SiteCut(docs, Title, site);
    TitleEnds(site.doc, site.after, rest);
    TitleAt(html, TagOf(site.doc).(start := |site.before|, end := |site.before| + TagOf(site.doc).end), rest,
            site.doc.text, CloseTag(site.doc.ending) + site.after);
  }

  /** Reading the title once its start tag and its end are known. */
  lemma TitleAt(html: string, t: Tag, rest: string, text: string, tail: string)
    requires Seek(html, Title) == Some(t) && html[t.end..] == rest && rest == text + tail
    requires Find(Lower(rest), "</title") == Some(|text|)
    ensures TitleText(html) == Some(Decoded(Trim(text)))
  {
    hide Seek, Find, Lower, Trim, Decoded;
    assert html[t.end..t.end + |text|] == rest[..|text|] == text;
  }

  lemma TitleDecoded(t: string)
    ensures Decoded(Trim(HtmlEscape(t))) == Trim(t)
  {
    hide Decoded, Escaped, TrimStart, TrimEnd, HtmlEscape;
    ChainEscapesEach(t);
    TrimStartEscaped(t);
    TrimEndEscaped(TrimStart(t));
    DecodeUndoesEach(Trim(t));
  }

  lemma TitleEnds(doc: Doc, s: string, rest: string)
    requires DocOk(doc) && doc.Raw? && SameLetters(doc.name, "title") && rest == doc.text + (CloseTag(doc.ending) + s)
    ensures Find(Lower(rest), "</title") == Some(|doc.text|)
  {
    hide Find, LacksEnd, Lower, CloseTag, SameLetters;
    RawTextEnds(doc.ending, doc.name, doc.text, s);
    TitleLower(doc.name);
    assert "</" + Lower(doc.name) == "</title";
  }
}
