// What stands in the document a feed is written as, found by the names of the elements alone.
module RssFields {
  import opened Common
  import opened Feed
  import opened Decode
  import opened Namespaces
  import opened RoundTrip
  import opened Rss
  import opened RssDocument
  import opened RssItems
  import opened RssReads
  import opened RssScan
  import opened WriterReads
  import opened Xml
  import Text

  // ---- the elements of one name, in order ----

  function Named(els: seq<Element>, space: string, local: string): seq<Element> {
    if els == [] then []
    else (if els[0].name == Name(space, local) then [els[0]] else []) + Named(els[1..], space, local)
  }

  lemma InFront<T>(first: seq<T>, a: seq<T>, b: seq<T>)
    ensures first + (a + b) == first + a + b
  {}

  lemma {:induction false} NamedAppend(a: seq<Element>, b: seq<Element>, space: string, local: string)
    ensures Named(a + b, space, local) == Named(a, space, local) + Named(b, space, local)
  {
    if a == [] {
      assert a + b == b;
    } else {
      assert (a + b)[0] == a[0] && (a + b)[1..] == a[1..] + b;
      NamedAppend(a[1..], b, space, local);
      InFront(if a[0].name == Name(space, local) then [a[0]] else [], Named(a[1..], space, local), Named(b, space, local));
    }
  }

  lemma {:induction false} NamedAll(els: seq<Element>, space: string, local: string)
    ensures (forall el <- els :: el.name == Name(space, local)) ==> Named(els, space, local) == els
    ensures (forall el <- els :: el.name != Name(space, local)) ==> Named(els, space, local) == []
  {
    if els != [] {
      NamedAll(els[1..], space, local);
      assert els == [els[0]] + els[1..];
    }
  }

  // A block of elements that all have one name.
  predicate IsBlock(els: seq<Element>, own: Name) { forall el <- els :: el.name == own }

  function Picked(els: seq<Element>, own: Name, space: string, local: string): seq<Element> {
    if own == Name(space, local) then NormAll(els) else []
  }

  lemma BlockNamed(els: seq<Element>, own: Name, space: string, local: string)
    requires IsBlock(els, own) && NameCurrent(own)
    ensures Named(NormAll(els), space, local) == Picked(els, own, space, local)
  {
    forall el | el in NormAll(els) ensures el.name == own {
      var i :| 0 <= i < |els| && NormAll(els)[i] == el;
      assert els[i] in els;
    }
    NamedAll(NormAll(els), space, local);
  }

  lemma NormNamedAppend(a: seq<Element>, b: seq<Element>, space: string, local: string)
    ensures Named(NormAll(a + b), space, local) == Named(NormAll(a), space, local) + Named(NormAll(b), space, local)
  {
    NormAllAppend(a, b);
    NamedAppend(NormAll(a), NormAll(b), space, local);
  }

  lemma {:induction false} ForeignNamed(els: seq<Element>, space: string, local: string)
    requires AllForeign(els) && (space == "" || Scan.Consumed(Name(space, local)))
    ensures Named(NormAll(els), space, local) == []
  {
    forall el | el in NormAll(els) ensures el.name != Name(space, local) {
      var i :| 0 <= i < |els| && NormAll(els)[i] == el;
      assert Foreign(els[i]);
    }
    NamedAll(NormAll(els), space, local);
  }

  // ---- what an item says ----

  // A text as it is read: trimmed, and what XML cannot carry replaced.
  function Shown(text: string): string { Text.TrimSpace(Clean(text)) }

  // An element with a text, or none when the text is empty.
  function Says(space: string, local: string, text: string): seq<Element> {
    if text == "" then [] else [Element(Name(space, local), [], Shown(text), [])]
  }

  function Plainly(local: string, value: string): Attr { Attr(Name("", local), value) }

  function EnclosureSaid(e: Enclosure): Element {
    Element(Name("", "enclosure"),
            [Plainly("url", Clean(e.url)), Plainly("length", Text.Itoa(e.length)), Plainly("type", Clean(e.kind))], "", [])
  }

  function EnclosuresSaid(list: seq<Enclosure>): (r: seq<Element>)
    ensures |r| == |list| && forall i :: 0 <= i < |r| ==> r[i] == EnclosureSaid(list[i])
  {
    seq(|list|, i requires 0 <= i < |list| => EnclosureSaid(list[i]))
  }

  predicate HeadSays(clock: Clock, els: seq<Element>, it: Item) {
    && Named(els, "", "title") == Says("", "title", it.title)
    && Named(els, "", "description") == Says("", "description", it.html)
    && Named(els, "", "pubDate") == Says("", "pubDate", if it.published.Some? then clock.rfc822(it.published.value) else "")
    && Named(els, "", "author") == Says("", "author", it.author)
    && Named(els, "", "comments") == Says("", "comments", it.commentsPage)
    && Named(els, "", "enclosure") == EnclosuresSaid(it.enclosures)
  }

  predicate LinksSay(els: seq<Element>, it: Item) {
    && Named(els, "", "guid") == (if it.guid == "" then [] else
         [Element(Name("", "guid"), if it.guidIsPermalink then [] else [Plainly("isPermaLink", "false")], Shown(it.guid), [])])
    && Named(els, "", "link") == (if it.link == it.guid then [] else Says("", "link", it.link))
    && Named(els, "", "source") == (if it.source.None? || it.source.value == Origin("", "") then [] else
         [Element(Name("", "source"), if it.source.value.url == "" then [] else [Plainly("url", Clean(it.source.value.url))],
                  Shown(it.source.value.name), [])])
  }

  predicate SourceSays(clock: Clock, els: seq<Element>, it: Item) {
    && Named(els, "https://source.scripting.com/", "markdown") == Says("https://source.scripting.com/", "markdown", it.markdown)
    && Named(els, "https://source.scripting.com/", "inReplyTo") == Says("https://source.scripting.com/", "inReplyTo", it.inReplyTo)
    && Named(els, "http://purl.org/syndication/thread/1.0", "in-reply-to") == (if it.inReplyTo == "" then [] else
         [Element(Name("http://purl.org/syndication/thread/1.0", "in-reply-to"), [Plainly("ref", Clean(it.inReplyTo))], "", [])])
    && Named(els, "https://source.scripting.com/", "comments") == (if it.comments.None? || it.comments.value.feedURL == "" then [] else
         [Element(Name("https://source.scripting.com/", "comments"),
                  [Plainly("count", Text.Itoa(it.comments.value.count)), Plainly("feedUrl", Clean(it.comments.value.feedURL))], "", [])])
    && Named(els, "http://www.w3.org/2005/Atom", "updated") == (if it.updated.None? || it.updated == it.published then [] else
         [Element(Name("http://www.w3.org/2005/Atom", "updated"), [], Shown(clock.rfc3339(it.updated.value)), [])])
  }

  // Every field of the item stands under its own name, and nothing else does.
  predicate ItemSays(clock: Clock, els: seq<Element>, it: Item) {
    HeadSays(clock, els, it) && LinksSay(els, it) && SourceSays(clock, els, it)
  }

  lemma OptSays(local: string, text: string, space: string)
    requires space != NS_SOURCE_LEGACY
    ensures NormAll(Opt(In(space, local, [], text))) == Says(space, local, text)
    ensures IsBlock(Opt(In(space, local, [], text)), Name(space, local))
  {
    if text != "" {
      OwnNorm(In(space, local, [], text));
      hide Norm;
      assert [In(space, local, [], text)][1..] == [];
    }
  }

  // ---- an item's elements, name by name ----

  lemma OptBlock(local: string, text: string)
    ensures NormAll(Opt(Plain(local, text))) == Says("", local, text) && IsBlock(Opt(Plain(local, text)), Name("", local))
  {
    OptSays(local, text, "");
  }

  lemma EightNamed(a: seq<Element>, b: seq<Element>, c: seq<Element>, d: seq<Element>, e: seq<Element>, g: seq<Element>,
                   h: seq<Element>, i: seq<Element>, space: string, local: string)
    ensures Named(NormAll(a + b + c + d + e + g + h + i), space, local)
         == Named(NormAll(a), space, local) + Named(NormAll(b), space, local) + Named(NormAll(c), space, local)
          + Named(NormAll(d), space, local) + Named(NormAll(e), space, local) + Named(NormAll(g), space, local)
          + Named(NormAll(h), space, local) + Named(NormAll(i), space, local)
  {
    hide Named, NormAll;
    NormNamedAppend(a, b, space, local); NormNamedAppend(a + b, c, space, local); NormNamedAppend(a + b + c, d, space, local);
    NormNamedAppend(a + b + c + d, e, space, local); NormNamedAppend(a + b + c + d + e, g, space, local);
    NormNamedAppend(a + b + c + d + e + g, h, space, local); NormNamedAppend(a + b + c + d + e + g + h, i, space, local);
  }

  lemma OptNamed(name: string, text: string, space: string, local: string)
    ensures Named(NormAll(Opt(Plain(name, text))), space, local)
         == if space == "" && local == name then Says("", name, text) else []
  {
    OptBlock(name, text);
    BlockNamed(Opt(Plain(name, text)), Name("", name), space, local);
    hide Named, NormAll, Opt, Plain, Says;
  }

  lemma PlainBlockNamed(els: seq<Element>, name: string, space: string, local: string)
    requires IsBlock(els, Name("", name))
    ensures Named(NormAll(els), space, local) == if space == "" && local == name then NormAll(els) else []
  {
    BlockNamed(els, Name("", name), space, local);
    hide Named, NormAll;
  }

  lemma HeadBlocks(it: Item)
    ensures IsBlock(GuidElements(it), Name("", "guid")) && IsBlock(LinkElements(it), Name("", "link"))
    ensures IsBlock(OriginElements(it), Name("", "source")) && IsBlock(EnclosureElements(it.enclosures), Name("", "enclosure"))
  {}

  function Only(here: bool, els: seq<Element>): seq<Element> { if here then els else [] }

  lemma HeadNamed(clock: Clock, it: Item, space: string, local: string)
    ensures Named(NormAll(HeadElements(clock, it)), space, local) ==
      Only(space == "" && local == "title", Says("", "title", it.title))
      + Only(space == "" && local == "description", Says("", "description", it.html))
      + Only(space == "" && local == "pubDate", Says("", "pubDate", Rfc822(clock, it.published)))
      + Only(space == "" && local == "guid", NormAll(GuidElements(it)))
      + Only(space == "" && local == "link", NormAll(LinkElements(it)))
      + Only(space == "" && local == "source", NormAll(OriginElements(it)))
      + Only(space == "" && local == "author", Says("", "author", it.author))
      + Only(space == "" && local == "comments", Says("", "comments", it.commentsPage))
      + Only(space == "" && local == "enclosure", NormAll(EnclosureElements(it.enclosures)))
  {
    hide Named, NormAll, Says, Rfc822, IsBlock, Opt, Plain, GuidElements, LinkElements, OriginElements, EnclosureElements;
    HeadBlocks(it);
    OptNamed("title", it.title, space, local);
    OptNamed("description", it.html, space, local);
    OptNamed("pubDate", Rfc822(clock, it.published), space, local);
    PlainBlockNamed(GuidElements(it), "guid", space, local);
    PlainBlockNamed(LinkElements(it), "link", space, local);
    PlainBlockNamed(OriginElements(it), "source", space, local);
    OptNamed("author", it.author, space, local);
    OptNamed("comments", it.commentsPage, space, local);
    PlainBlockNamed(EnclosureElements(it.enclosures), "enclosure", space, local);
    EightNamed(Opt(Plain("title", it.title)), Opt(Plain("description", it.html)), Opt(Plain("pubDate", Rfc822(clock, it.published))),
               GuidElements(it), LinkElements(it), OriginElements(it), Opt(Plain("author", it.author)),
               Opt(Plain("comments", it.commentsPage)), space, local);
    NormNamedAppend(Opt(Plain("title", it.title)) + Opt(Plain("description", it.html)) + Opt(Plain("pubDate", Rfc822(clock, it.published)))
                    + GuidElements(it) + LinkElements(it) + OriginElements(it) + Opt(Plain("author", it.author))
                    + Opt(Plain("comments", it.commentsPage)), EnclosureElements(it.enclosures), space, local);
  }

  lemma SourceBlocks(clock: Clock, byURI: map<string, string>, it: Item)
    ensures IsBlock(ThreadElements(byURI, it), Name(NS_THREAD, "in-reply-to"))
    ensures IsBlock(CommentsElements(byURI, it), Name(NS_SOURCE, "comments"))
    ensures IsBlock(UpdatedElements(clock, byURI, it), Name(NS_ATOM, "updated"))
  {}

  lemma SpacesCurrent()
    ensures NS_SOURCE != NS_SOURCE_LEGACY && NS_THREAD != NS_SOURCE_LEGACY && NS_ATOM != NS_SOURCE_LEGACY
    ensures NS_SOURCE != NS_THREAD && NS_SOURCE != NS_ATOM && NS_THREAD != NS_ATOM
    ensures NS_SOURCE != "" && NS_THREAD != "" && NS_ATOM != ""
  {
    assert NS_SOURCE[4] == 's' && NS_SOURCE_LEGACY[4] == ':' && NS_THREAD[4] == ':' && NS_ATOM[4] == ':';
    assert NS_SOURCE_LEGACY[7] == 's' && NS_THREAD[7] == 'p' && NS_ATOM[7] == 'w';
  }

  lemma SpacedNamed(space0: string, name: string, text: string, space: string, local: string)
    requires space0 != NS_SOURCE_LEGACY
    ensures Named(NormAll(Opt(In(space0, name, [], text))), space, local)
         == if space == space0 && local == name then Says(space0, name, text) else []
  {
    OptSays(name, text, space0);
    BlockNamed(Opt(In(space0, name, [], text)), Name(space0, name), space, local);
    hide Named, NormAll, Opt, In, Says;
  }

  lemma FiveNamed(a: seq<Element>, b: seq<Element>, c: seq<Element>, d: seq<Element>, e: seq<Element>, space: string, local: string)
    ensures Named(NormAll(a + b + c + d + e), space, local)
         == Named(NormAll(a), space, local) + Named(NormAll(b), space, local) + Named(NormAll(c), space, local)
          + Named(NormAll(d), space, local) + Named(NormAll(e), space, local)
  {
    hide Named, NormAll;
    NormNamedAppend(a, b, space, local); NormNamedAppend(a + b, c, space, local);
    NormNamedAppend(a + b + c, d, space, local); NormNamedAppend(a + b + c + d, e, space, local);
  }

  // Without the prefix the two texts are both empty, so it makes no difference.
  lemma MarkdownSplit(byURI: map<string, string>, it: Item)
    requires Carries(byURI, it)
    ensures MarkdownElements(byURI, it)
         == Opt(In(NS_SOURCE, "markdown", [], it.markdown)) + Opt(In(NS_SOURCE, "inReplyTo", [], it.inReplyTo))
  {}

  lemma SourceNamed(clock: Clock, byURI: map<string, string>, it: Item, space: string, local: string)
    requires Carries(byURI, it)
    ensures Named(NormAll(SourceElements(clock, byURI, it)), space, local) ==
      Only(space == NS_SOURCE && local == "markdown", Says(NS_SOURCE, "markdown", it.markdown))
      + Only(space == NS_SOURCE && local == "inReplyTo", Says(NS_SOURCE, "inReplyTo", it.inReplyTo))
      + Only(space == NS_THREAD && local == "in-reply-to", NormAll(ThreadElements(byURI, it)))
      + Only(space == NS_SOURCE && local == "comments", NormAll(CommentsElements(byURI, it)))
      + Only(space == NS_ATOM && local == "updated", NormAll(UpdatedElements(clock, byURI, it)))
  {
    hide Named, NormAll, Says, IsBlock, Opt, In, ThreadElements, CommentsElements, UpdatedElements, MarkdownElements, Carries;
    SpacesCurrent();
    MarkdownSplit(byURI, it);
    SourceBlocks(clock, byURI, it);
    SpacedNamed(NS_SOURCE, "markdown", it.markdown, space, local);
    SpacedNamed(NS_SOURCE, "inReplyTo", it.inReplyTo, space, local);
    BlockNamed(ThreadElements(byURI, it), Name(NS_THREAD, "in-reply-to"), space, local);
    BlockNamed(CommentsElements(byURI, it), Name(NS_SOURCE, "comments"), space, local);
    BlockNamed(UpdatedElements(clock, byURI, it), Name(NS_ATOM, "updated"), space, local);
    FiveNamed(Opt(In(NS_SOURCE, "markdown", [], it.markdown)), Opt(In(NS_SOURCE, "inReplyTo", [], it.inReplyTo)),
              ThreadElements(byURI, it), CommentsElements(byURI, it), UpdatedElements(clock, byURI, it), space, local);
  }

  // The elements of a plain name come from the head, those the scanner knows from the rest.
  lemma ItemNamed(clock: Clock, byURI: map<string, string>, it: Item, space: string, local: string)
    requires AllForeign(it.unknown) && Carries(byURI, it)
    ensures var all := Named(NormAll(ItemChildren(clock, byURI, it)), space, local);
            && (space == "" ==> all == Named(NormAll(HeadElements(clock, it)), space, local))
            && (space != "" && Scan.Consumed(Name(space, local)) ==>
                  all == Named(NormAll(SourceElements(clock, byURI, it)), space, local))
  {
    hide Named, NormAll, HeadElements, SourceElements, Says, AllForeign, Carries, ThreadElements, CommentsElements,
      UpdatedElements, GuidElements, LinkElements, OriginElements, EnclosureElements, Rfc822;
    hide Scan.Consumed;
    NormNamedAppend(HeadElements(clock, it), SourceElements(clock, byURI, it), space, local);
    NormNamedAppend(HeadElements(clock, it) + SourceElements(clock, byURI, it), it.unknown, space, local);
    SpacesCurrent();
    if space == "" {
      SourceNamed(clock, byURI, it, space, local);
      ForeignNamed(it.unknown, space, local);
    } else if Scan.Consumed(Name(space, local)) {
      HeadNamed(clock, it, space, local);
      ForeignNamed(it.unknown, space, local);
    }
  }

  lemma LinksNorm(it: Item)
    ensures NormAll(GuidElements(it)) == (if it.guid == "" then [] else
         [Element(Name("", "guid"), if it.guidIsPermalink then [] else [Plainly("isPermaLink", "false")], Shown(it.guid), [])])
    ensures NormAll(LinkElements(it)) == (if it.link == it.guid then [] else Says("", "link", it.link))
  {
    if it.guid != "" {
      OwnNorm(GuidElements(it)[0]);
      NormOne("isPermaLink", "false");
      FalseIsClean();
    }
    if it.link != "" && it.link != it.guid { OwnNorm(LinkElements(it)[0]); }
    hide Norm, Clean;
  }

  lemma FalseIsClean()
    ensures Clean("false") == "false"
  {
    hide Clean;
    CleanFixed("false");
  }

  lemma OriginNorm(it: Item)
    ensures NormAll(OriginElements(it)) == (if it.source.None? || it.source.value == Origin("", "") then [] else
         [Element(Name("", "source"), if it.source.value.url == "" then [] else [Plainly("url", Clean(it.source.value.url))],
                  Shown(it.source.value.name), [])])
  {
    if OriginElements(it) != [] {
      OwnNorm(OriginElements(it)[0]);
      NormOne("url", it.source.value.url);
      hide Norm, Clean;
    }
  }

  lemma NumberIsClean(n: int)
    ensures Clean(Text.Itoa(n)) == Text.Itoa(n)
  {
    hide Clean;
    CleanFixed(Text.Itoa(n));
  }

  lemma EnclosureNorm(e: Enclosure)
    ensures Norm(EnclosureElement(e)) == EnclosureSaid(e)
  {
    OwnNorm(EnclosureElement(e));
    NumberIsClean(e.length);
    hide Clean, Norm;
    hide Text.Itoa;
    var a, b, c := Unqualified("url", e.url), Unqualified("length", Text.Itoa(e.length)), Unqualified("type", e.kind);
    assert NormAttrs([a, b, c]) == [NormAttr(a), NormAttr(b), NormAttr(c)];
    assert Shown("") == "";
  }

  lemma EnclosuresNorm(list: seq<Enclosure>)
    ensures NormAll(EnclosureElements(list)) == EnclosuresSaid(list)
  {
    forall i | 0 <= i < |list| ensures NormAll(EnclosureElements(list))[i] == EnclosureSaid(list[i]) { EnclosureNorm(list[i]); }
    hide NormAll, EnclosureElements, EnclosureSaid, Norm, EnclosuresSaid;
  }

  lemma TextsSaid(clock: Clock, byURI: map<string, string>, it: Item)
    requires AllForeign(it.unknown) && Carries(byURI, it)
    ensures HeadSays(clock, NormAll(ItemChildren(clock, byURI, it)), it)
  {
    hide Named, NormAll, HeadElements, ItemChildren, Says, AllForeign, Carries, EnclosuresSaid, GuidElements, LinkElements,
      OriginElements, EnclosureElements;
    EnclosuresNorm(it.enclosures);
    HeadPart(clock, byURI, it, "title"); HeadPart(clock, byURI, it, "description"); HeadPart(clock, byURI, it, "pubDate");
    HeadPart(clock, byURI, it, "author"); HeadPart(clock, byURI, it, "comments"); HeadPart(clock, byURI, it, "enclosure");
  }

  lemma LinksSaid(clock: Clock, byURI: map<string, string>, it: Item)
    requires AllForeign(it.unknown) && Carries(byURI, it)
    ensures LinksSay(NormAll(ItemChildren(clock, byURI, it)), it)
  {
    LinksNorm(it);
    OriginNorm(it);
    hide Named, NormAll, HeadElements, ItemChildren, Says, AllForeign, Carries, GuidElements, LinkElements, OriginElements,
      EnclosureElements, Shown, Clean;
    HeadPart(clock, byURI, it, "guid"); HeadPart(clock, byURI, it, "link"); HeadPart(clock, byURI, it, "source");
  }

  lemma HeadPart(clock: Clock, byURI: map<string, string>, it: Item, local: string)
    requires AllForeign(it.unknown) && Carries(byURI, it)
    ensures Named(NormAll(ItemChildren(clock, byURI, it)), "", local) ==
      if local == "title" then Says("", "title", it.title)
      else if local == "description" then Says("", "description", it.html)
      else if local == "pubDate" then Says("", "pubDate", Rfc822(clock, it.published))
      else if local == "guid" then NormAll(GuidElements(it))
      else if local == "link" then NormAll(LinkElements(it))
      else if local == "source" then NormAll(OriginElements(it))
      else if local == "author" then Says("", "author", it.author)
      else if local == "comments" then Says("", "comments", it.commentsPage)
      else if local == "enclosure" then NormAll(EnclosureElements(it.enclosures))
      else []
  {
    hide Named, NormAll, HeadElements, ItemChildren, Says, AllForeign, Carries, GuidElements, LinkElements,
      OriginElements, EnclosureElements, Rfc822;
    ItemNamed(clock, byURI, it, "", local);
    HeadNamed(clock, it, "", local);
  }

  lemma SourceNorm(clock: Clock, byURI: map<string, string>, it: Item)
    requires Carries(byURI, it) && (ShowsUpdated(it) ==> NS_ATOM in byURI)
    ensures NormAll(ThreadElements(byURI, it)) == (if it.inReplyTo == "" then [] else
         [Element(Name(NS_THREAD, "in-reply-to"), [Plainly("ref", Clean(it.inReplyTo))], "", [])])
    ensures NormAll(UpdatedElements(clock, byURI, it)) == (if it.updated.None? || it.updated == it.published then [] else
         [Element(Name(NS_ATOM, "updated"), [], Shown(clock.rfc3339(it.updated.value)), [])])
  {
    SpacesCurrent();
    assert Shown("") == "";
    if it.inReplyTo != "" {
      OwnNorm(ThreadElements(byURI, it)[0]);
      NormOne("ref", it.inReplyTo);
    }
    if ShowsUpdated(it) { OwnNorm(UpdatedElements(clock, byURI, it)[0]); }
    hide Norm, Clean;
  }

  lemma CommentsNorm(byURI: map<string, string>, it: Item)
    requires Carries(byURI, it)
    ensures NormAll(CommentsElements(byURI, it)) == (if it.comments.None? || it.comments.value.feedURL == "" then [] else
         [Element(Name(NS_SOURCE, "comments"),
                  [Plainly("count", Text.Itoa(it.comments.value.count)), Plainly("feedUrl", Clean(it.comments.value.feedURL))], "", [])])
  {
    SpacesCurrent();
    assert Shown("") == "";
    if CommentsElements(byURI, it) != [] {
      OwnNorm(CommentsElements(byURI, it)[0]);
      NumberIsClean(it.comments.value.count);
      hide Norm, Clean;
      hide Text.Itoa;
      var a, b := Unqualified("count", Text.Itoa(it.comments.value.count)), Unqualified("feedUrl", it.comments.value.feedURL);
      assert NormAttrs([a, b]) == [NormAttr(a), NormAttr(b)];
    }
  }

  lemma OwnPart(clock: Clock, byURI: map<string, string>, it: Item, local: string)
    requires AllForeign(it.unknown) && Carries(byURI, it) && Scan.Consumed(Name(NS_SOURCE, local))
    ensures Named(NormAll(ItemChildren(clock, byURI, it)), NS_SOURCE, local) ==
      Only(local == "markdown", Says(NS_SOURCE, "markdown", it.markdown))
      + Only(local == "inReplyTo", Says(NS_SOURCE, "inReplyTo", it.inReplyTo))
      + Only(local == "comments", NormAll(CommentsElements(byURI, it)))
  {
    hide Named, NormAll, SourceElements, ItemChildren, Says, AllForeign, Carries, ThreadElements, CommentsElements, UpdatedElements;
    SpacesCurrent();
    ItemNamed(clock, byURI, it, NS_SOURCE, local);
    SourceNamed(clock, byURI, it, NS_SOURCE, local);
    hide Scan.Consumed;
  }

  lemma MarkdownSaid(clock: Clock, byURI: map<string, string>, it: Item)
    requires AllForeign(it.unknown) && Carries(byURI, it)
    ensures var els := NormAll(ItemChildren(clock, byURI, it));
            && Named(els, NS_SOURCE, "markdown") == Says(NS_SOURCE, "markdown", it.markdown)
            && Named(els, NS_SOURCE, "inReplyTo") == Says(NS_SOURCE, "inReplyTo", it.inReplyTo)
            && Named(els, NS_SOURCE, "comments") == NormAll(CommentsElements(byURI, it))
  {
    hide Named, NormAll, SourceElements, ItemChildren, Says, AllForeign, Carries, ThreadElements, CommentsElements, UpdatedElements;
    OwnPart(clock, byURI, it, "markdown"); OwnPart(clock, byURI, it, "inReplyTo"); OwnPart(clock, byURI, it, "comments");
  }

  lemma ThreadSaid(clock: Clock, byURI: map<string, string>, it: Item)
    requires AllForeign(it.unknown) && Carries(byURI, it)
    ensures Named(NormAll(ItemChildren(clock, byURI, it)), NS_THREAD, "in-reply-to") == NormAll(ThreadElements(byURI, it))
  {
    hide Named, NormAll, SourceElements, ItemChildren, Says, AllForeign, Carries, ThreadElements, CommentsElements, UpdatedElements;
    SpacesCurrent();
    ItemNamed(clock, byURI, it, NS_THREAD, "in-reply-to");
    SourceNamed(clock, byURI, it, NS_THREAD, "in-reply-to");
  }

  lemma UpdatedSaid(clock: Clock, byURI: map<string, string>, it: Item)
    requires AllForeign(it.unknown) && Carries(byURI, it)
    ensures Named(NormAll(ItemChildren(clock, byURI, it)), NS_ATOM, "updated") == NormAll(UpdatedElements(clock, byURI, it))
  {
    hide Named, NormAll, SourceElements, ItemChildren, Says, AllForeign, Carries, ThreadElements, CommentsElements, UpdatedElements;
    SpacesCurrent();
    ItemNamed(clock, byURI, it, NS_ATOM, "updated");
    SourceNamed(clock, byURI, it, NS_ATOM, "updated");
  }

  lemma SourceSaid(clock: Clock, byURI: map<string, string>, it: Item)
    requires AllForeign(it.unknown) && Carries(byURI, it) && (ShowsUpdated(it) ==> NS_ATOM in byURI)
    ensures SourceSays(clock, NormAll(ItemChildren(clock, byURI, it)), it)
  {
    hide Named, NormAll, ItemChildren, Says, AllForeign, Carries, ThreadElements, CommentsElements, UpdatedElements, Shown, Clean;
    hide Text.Itoa;
    SourceNorm(clock, byURI, it);
    CommentsNorm(byURI, it);
    MarkdownSaid(clock, byURI, it);
    ThreadSaid(clock, byURI, it);
    UpdatedSaid(clock, byURI, it);
  }

  lemma ItemSaid(clock: Clock, byURI: map<string, string>, it: Item)
    requires AllForeign(it.unknown) && Carries(byURI, it) && (ShowsUpdated(it) ==> NS_ATOM in byURI)
    ensures ItemSays(clock, NormAll(ItemChildren(clock, byURI, it)), it)
  {
    hide HeadSays, LinksSay, SourceSays, NormAll, ItemChildren, AllForeign, Carries;
    TextsSaid(clock, byURI, it);
    LinksSaid(clock, byURI, it);
    SourceSaid(clock, byURI, it);
  }

  // ---- what the channel says ----

  function AccountsSaid(accounts: seq<Account>): seq<Element> {
    if accounts == [] then []
    else
      (if accounts[0].handle == "" then []
       else [Element(Name("https://source.scripting.com/", "account"),
                     if accounts[0].service == "" then [] else [Plainly("service", Clean(accounts[0].service))],
                     Shown(accounts[0].handle), [])])
      + AccountsSaid(accounts[1..])
  }

  function LinksSaidAtom(self: string, hub: string): seq<Element> {
    (if hub == "" then [] else
       [Element(Name("http://www.w3.org/2005/Atom", "link"), [Plainly("rel", "hub"), Plainly("href", Clean(hub))], "", [])])
    + (if self == "" then [] else
         [Element(Name("http://www.w3.org/2005/Atom", "link"),
                  [Plainly("rel", "self"), Plainly("href", Clean(self)), Plainly("type", "application/rss+xml")], "", [])])
  }

  predicate TitlesSay(clock: Clock, els: seq<Element>, f: Feed, o: Options) {
    && Named(els, "", "title") == Says("", "title", f.title)
    && Named(els, "", "link") == Says("", "link", f.link)
    && Named(els, "", "description") == Says("", "description", f.description)
    && Named(els, "", "language") == Says("", "language", f.language)
    && Named(els, "", "pubDate") == Says("", "pubDate", if f.updated.Some? then clock.rfc822(f.updated.value) else "")
    && Named(els, "", "lastBuildDate") == Says("", "lastBuildDate", if o.buildTime.Some? then clock.rfc822(o.buildTime.value) else "")
    && Named(els, "", "generator") == Says("", "generator", o.generator)
    && Named(els, "", "docs") == Says("", "docs", o.docs)
  }

  predicate CloudSays(els: seq<Element>, o: Options) {
    Named(els, "", "cloud") == match o.cloud
      case None => []
      case Some(c) =>
        [Element(Name("", "cloud"),
                 [Plainly("domain", Clean(c.domain)), Plainly("port", Text.Itoa(c.port)), Plainly("path", Clean(c.path)),
                  Plainly("registerProcedure", Clean(c.registerProcedure)), Plainly("protocol", Clean(c.protocol))], "", [])]
  }

  // The feed's own links come first, before links among its unknown elements.
  predicate AddressesSay(els: seq<Element>, f: Feed, o: Options) {
    && Named(els, "https://source.scripting.com/", "self") == Says("https://source.scripting.com/", "self", f.self)
    && Named(els, "https://source.scripting.com/", "account") == AccountsSaid(f.accounts)
    && LinksSaidAtom(f.self, o.hub) <= Named(els, "http://www.w3.org/2005/Atom", "link")
  }

  ghost predicate ItemsSay(clock: Clock, els: seq<Element>, items: seq<Item>) {
    var found := Named(els, "", "item");
    |found| == |items| && forall i :: 0 <= i < |items| ==> ItemSays(clock, found[i].children, items[i])
  }

  ghost predicate ChannelSays(clock: Clock, els: seq<Element>, f: Feed, o: Options) {
    TitlesSay(clock, els, f, o) && CloudSays(els, o) && AddressesSay(els, f, o) && ItemsSay(clock, els, f.items)
  }

  lemma TitlesNamed(clock: Clock, f: Feed, o: Options, space: string, local: string)
    ensures Named(NormAll(TitleElements(clock, f, o)), space, local) ==
      Only(space == "" && local == "title", Says("", "title", f.title))
      + Only(space == "" && local == "link", Says("", "link", f.link))
      + Only(space == "" && local == "description", Says("", "description", f.description))
      + Only(space == "" && local == "language", Says("", "language", f.language))
      + Only(space == "" && local == "pubDate", Says("", "pubDate", Rfc822(clock, f.updated)))
      + Only(space == "" && local == "lastBuildDate", Says("", "lastBuildDate", Rfc822(clock, o.buildTime)))
      + Only(space == "" && local == "generator", Says("", "generator", o.generator))
      + Only(space == "" && local == "docs", Says("", "docs", o.docs))
  {
    hide Named, NormAll, Says, Rfc822, Opt, Plain;
    OptNamed("title", f.title, space, local);
    OptNamed("link", f.link, space, local);
    OptNamed("description", f.description, space, local);
    OptNamed("language", f.language, space, local);
    OptNamed("pubDate", Rfc822(clock, f.updated), space, local);
    OptNamed("lastBuildDate", Rfc822(clock, o.buildTime), space, local);
    OptNamed("generator", o.generator, space, local);
    OptNamed("docs", o.docs, space, local);
    EightNamed(Opt(Plain("title", f.title)), Opt(Plain("link", f.link)), Opt(Plain("description", f.description)),
               Opt(Plain("language", f.language)), Opt(Plain("pubDate", Rfc822(clock, f.updated))),
               Opt(Plain("lastBuildDate", Rfc822(clock, o.buildTime))), Opt(Plain("generator", o.generator)),
               Opt(Plain("docs", o.docs)), space, local);
  }

  lemma LinksNormAtom(byURI: map<string, string>, f: Feed, o: Options)
    requires o.hub != "" || f.self != "" ==> NS_ATOM in byURI
    ensures NormAll(AtomLinks(byURI, f, o)) == LinksSaidAtom(f.self, o.hub)
    ensures IsBlock(AtomLinks(byURI, f, o), Name(NS_ATOM, "link"))
  {
    var hub := LinkTo("hub", o.hub, []);
    var self := LinkTo("self", f.self, [Unqualified("type", "application/rss+xml")]);
    HubNorm(o.hub);
    SelfNorm(f.self);
    assert AtomLinks(byURI, f, o) == (if o.hub == "" then [] else [hub]) + (if f.self == "" then [] else [self]);
    NormAllAppend(if o.hub == "" then [] else [hub], if f.self == "" then [] else [self]);
    assert NormAll([hub]) == [Norm(hub)] && NormAll([self]) == [Norm(self)];
    hide Norm, Clean;
  }

  lemma WordsAreClean()
    ensures Clean("hub") == "hub" && Clean("self") == "self" && Clean("application/rss+xml") == "application/rss+xml"
  {
    hide Clean;
    CleanFixed("hub");
    CleanFixed("self");
    CleanFixed("application/rss+xml");
  }

  lemma EmptyShown()
    ensures Shown("") == "" && Seen("") == ""
  {}

  lemma HubNorm(hub: string)
    ensures Norm(LinkTo("hub", hub, []))
         == Element(Name(NS_ATOM, "link"), [Plainly("rel", "hub"), Plainly("href", Clean(hub))], "", [])
  {
    SpacesCurrent();
    WordsAreClean();
    EmptyShown();
    hide Clean, Norm, Shown;
    var a, b := Unqualified("rel", "hub"), Unqualified("href", hub);
    OwnNorm(LinkTo("hub", hub, []));
    assert [a, b] + [] == [a, b];
    assert NormAttrs([a, b]) == [NormAttr(a), NormAttr(b)];
  }

  lemma SelfNorm(self: string)
    ensures Norm(LinkTo("self", self, [Unqualified("type", "application/rss+xml")]))
         == Element(Name(NS_ATOM, "link"),
                    [Plainly("rel", "self"), Plainly("href", Clean(self)), Plainly("type", "application/rss+xml")], "", [])
  {
    SpacesCurrent();
    var a, b, c := Unqualified("rel", "self"), Unqualified("href", self), Unqualified("type", "application/rss+xml");
    WordsAreClean();
    EmptyShown();
    hide Clean, Norm, Shown;
    OwnNorm(LinkTo("self", self, [c]));
    assert [a, b] + [c] == [a, b, c];
    assert NormAttrs([a, b, c]) == [NormAttr(a), NormAttr(b), NormAttr(c)];
  }

  lemma CloudNorm(o: Options)
    ensures IsBlock(CloudElements(o), Name("", "cloud"))
    ensures NormAll(CloudElements(o)) == match o.cloud
      case None => []
      case Some(c) =>
        [Element(Name("", "cloud"),
                 [Plainly("domain", Clean(c.domain)), Plainly("port", Text.Itoa(c.port)), Plainly("path", Clean(c.path)),
                  Plainly("registerProcedure", Clean(c.registerProcedure)), Plainly("protocol", Clean(c.protocol))], "", [])]
  {
    if o.cloud.Some? {
      var k := o.cloud.value;
      NumberIsClean(k.port);
      OwnNorm(CloudElements(o)[0]);
      assert Shown("") == "";
      hide Clean, Norm;
      hide Text.Itoa;
      var a, b, c := Unqualified("domain", k.domain), Unqualified("port", Text.Itoa(k.port)), Unqualified("path", k.path);
      var d, e := Unqualified("registerProcedure", k.registerProcedure), Unqualified("protocol", k.protocol);
      assert NormAttrs([a, b, c, d, e]) == [NormAttr(a), NormAttr(b), NormAttr(c), NormAttr(d), NormAttr(e)];
    }
  }

  lemma {:induction false} AccountsNorm(accounts: seq<Account>)
    ensures NormAll(AccountElements(accounts)) == AccountsSaid(accounts)
    ensures IsBlock(AccountElements(accounts), Name(NS_SOURCE, "account"))
  {
    if accounts != [] {
      AccountsNorm(accounts[1..]);
      SpacesCurrent();
      if accounts[0].handle != "" {
        var el := AccountElements(accounts)[0];
        NormOne("service", accounts[0].service);
        OwnNorm(el);
        assert AccountElements(accounts) == [el] + AccountElements(accounts[1..]);
        assert AccountElements(accounts)[1..] == AccountElements(accounts[1..]);
        hide Clean, Norm;
      }
    }
  }

  // The prefixes the channel's own elements need are there.
  predicate ChannelCarried(byURI: map<string, string>, f: Feed, o: Options) {
    && (f.self != "" || |f.accounts| > 0 ==> NS_SOURCE in byURI)
    && (o.hub != "" || f.self != "" ==> NS_ATOM in byURI)
  }

  lemma SelfSplit(byURI: map<string, string>, f: Feed, o: Options)
    requires ChannelCarried(byURI, f, o)
    ensures SelfElements(byURI, f) == Opt(In(NS_SOURCE, "self", [], f.self)) + AccountElements(f.accounts)
  {}

  lemma SelfNamed(byURI: map<string, string>, f: Feed, o: Options, space: string, local: string)
    requires ChannelCarried(byURI, f, o)
    ensures Named(NormAll(SelfElements(byURI, f)), space, local)
         == Only(space == NS_SOURCE && local == "self", Says(NS_SOURCE, "self", f.self))
          + Only(space == NS_SOURCE && local == "account", AccountsSaid(f.accounts))
  {
    hide Named, NormAll, Says, Opt, In, IsBlock, AccountElements, AccountsSaid, SelfElements, ChannelCarried;
    SpacesCurrent();
    SelfSplit(byURI, f, o);
    AccountsNorm(f.accounts);
    SpacedNamed(NS_SOURCE, "self", f.self, space, local);
    BlockNamed(AccountElements(f.accounts), Name(NS_SOURCE, "account"), space, local);
    NormNamedAppend(Opt(In(NS_SOURCE, "self", [], f.self)), AccountElements(f.accounts), space, local);
  }

  lemma LinksNamed(byURI: map<string, string>, f: Feed, o: Options, space: string, local: string)
    requires ChannelCarried(byURI, f, o)
    ensures Named(NormAll(AtomLinks(byURI, f, o)), space, local)
         == Only(space == NS_ATOM && local == "link", LinksSaidAtom(f.self, o.hub))
  {
    LinksNormAtom(byURI, f, o);
    hide Named, NormAll, AtomLinks, LinksSaidAtom, IsBlock;
    SpacesCurrent();
    BlockNamed(AtomLinks(byURI, f, o), Name(NS_ATOM, "link"), space, local);
  }

  lemma TreesNamed(clock: Clock, byURI: map<string, string>, items: seq<Item>, space: string, local: string)
    ensures Named(ItemTrees(clock, byURI, items), space, local)
         == Only(space == "" && local == "item", ItemTrees(clock, byURI, items))
  {
    hide ItemChildren, NormAll, Named;
    var trees := ItemTrees(clock, byURI, items);
    forall el | el in trees ensures el.name == Name("", "item") {
      var i :| 0 <= i < |trees| && trees[i] == el;
    }
    NamedAll(trees, space, local);
  }

  lemma ChannelNamed(clock: Clock, byURI: map<string, string>, f: Feed, o: Options, space: string, local: string)
    requires ChannelCarried(byURI, f, o)
    ensures Named(ChannelChildren(clock, byURI, f, o), space, local) ==
      Named(NormAll(TitleElements(clock, f, o)), space, local)
      + Only(space == NS_ATOM && local == "link", LinksSaidAtom(f.self, o.hub))
      + Only(space == "" && local == "cloud", NormAll(CloudElements(o)))
      + (Only(space == NS_SOURCE && local == "self", Says(NS_SOURCE, "self", f.self))
         + Only(space == NS_SOURCE && local == "account", AccountsSaid(f.accounts)))
      + Named(NormAll(f.unknown), space, local)
      + Only(space == "" && local == "item", ItemTrees(clock, byURI, f.items))
  {
    CloudNorm(o);
    hide Named, NormAll, Says, AccountsSaid, LinksSaidAtom, TitleElements, AtomLinks, CloudElements, SelfElements, ItemTrees,
      ChannelCarried, IsBlock;
    hide Text.Itoa;
    LinksNamed(byURI, f, o, space, local);
    PlainBlockNamed(CloudElements(o), "cloud", space, local);
    SelfNamed(byURI, f, o, space, local);
    TreesNamed(clock, byURI, f.items, space, local);
    FiveNamed(TitleElements(clock, f, o), AtomLinks(byURI, f, o), CloudElements(o), SelfElements(byURI, f), f.unknown, space, local);
    NamedAppend(NormAll(ChannelHead(clock, byURI, f, o)), ItemTrees(clock, byURI, f.items), space, local);
  }

  lemma PlainChannelPart(clock: Clock, byURI: map<string, string>, f: Feed, o: Options, local: string)
    requires ChannelCarried(byURI, f, o) && AllForeign(f.unknown)
    ensures Named(ChannelChildren(clock, byURI, f, o), "", local) ==
      if local == "title" then Says("", "title", f.title)
      else if local == "link" then Says("", "link", f.link)
      else if local == "description" then Says("", "description", f.description)
      else if local == "language" then Says("", "language", f.language)
      else if local == "pubDate" then Says("", "pubDate", Rfc822(clock, f.updated))
      else if local == "lastBuildDate" then Says("", "lastBuildDate", Rfc822(clock, o.buildTime))
      else if local == "generator" then Says("", "generator", o.generator)
      else if local == "docs" then Says("", "docs", o.docs)
      else if local == "cloud" then NormAll(CloudElements(o))
      else if local == "item" then ItemTrees(clock, byURI, f.items)
      else []
  {
    hide Named, NormAll, Says, AccountsSaid, LinksSaidAtom, TitleElements, CloudElements, ItemTrees, ChannelCarried,
      ChannelChildren, Rfc822, AllForeign;
    SpacesCurrent();
    ChannelNamed(clock, byURI, f, o, "", local);
    TitlesNamed(clock, f, o, "", local);
    ForeignNamed(f.unknown, "", local);
  }

  lemma TitlesSaid(clock: Clock, byURI: map<string, string>, f: Feed, o: Options)
    requires ChannelCarried(byURI, f, o) && AllForeign(f.unknown)
    ensures TitlesSay(clock, ChannelChildren(clock, byURI, f, o), f, o)
  {
    hide Named, NormAll, Says, CloudElements, ItemTrees, ChannelCarried, ChannelChildren, AllForeign;
    PlainChannelPart(clock, byURI, f, o, "title"); PlainChannelPart(clock, byURI, f, o, "link");
    PlainChannelPart(clock, byURI, f, o, "description"); PlainChannelPart(clock, byURI, f, o, "language");
    PlainChannelPart(clock, byURI, f, o, "pubDate"); PlainChannelPart(clock, byURI, f, o, "lastBuildDate");
    PlainChannelPart(clock, byURI, f, o, "generator"); PlainChannelPart(clock, byURI, f, o, "docs");
  }

  lemma CloudSaid(clock: Clock, byURI: map<string, string>, f: Feed, o: Options)
    requires ChannelCarried(byURI, f, o) && AllForeign(f.unknown)
    ensures CloudSays(ChannelChildren(clock, byURI, f, o), o)
  {
    hide Named, NormAll, Says, CloudElements, ItemTrees, ChannelCarried, ChannelChildren, AllForeign, Clean, IsBlock;
    hide Text.Itoa;
    CloudNorm(o);
    PlainChannelPart(clock, byURI, f, o, "cloud");
  }

  lemma AddressPart(clock: Clock, byURI: map<string, string>, f: Feed, o: Options, space: string, local: string)
    requires ChannelCarried(byURI, f, o) && AllForeign(f.unknown) && space != ""
    ensures var all := Named(ChannelChildren(clock, byURI, f, o), space, local);
            && (space == NS_ATOM && local == "link" ==> LinksSaidAtom(f.self, o.hub) <= all)
            && (space == NS_SOURCE && local == "self" ==> all == Says(NS_SOURCE, "self", f.self))
            && (space == NS_SOURCE && local == "account" ==> all == AccountsSaid(f.accounts))
  {
    hide Named, NormAll, Says, AccountsSaid, LinksSaidAtom, TitleElements, CloudElements, ItemTrees, ChannelCarried,
      ChannelChildren, Rfc822, AllForeign;
    SpacesCurrent();
    ChannelNamed(clock, byURI, f, o, space, local);
    TitlesNamed(clock, f, o, space, local);
    if space == NS_SOURCE && (local == "self" || local == "account") { ForeignNamed(f.unknown, space, local); }
  }

  lemma AddressesSaid(clock: Clock, byURI: map<string, string>, f: Feed, o: Options)
    requires ChannelCarried(byURI, f, o) && AllForeign(f.unknown)
    ensures AddressesSay(ChannelChildren(clock, byURI, f, o), f, o)
  {
    hide Named, Says, AccountsSaid, LinksSaidAtom, ChannelCarried, ChannelChildren, AllForeign;
    SpacesCurrent();
    AddressPart(clock, byURI, f, o, NS_ATOM, "link");
    AddressPart(clock, byURI, f, o, NS_SOURCE, "self");
    AddressPart(clock, byURI, f, o, NS_SOURCE, "account");
  }

  lemma ItemsSaid(clock: Clock, byURI: map<string, string>, f: Feed, o: Options)
    requires ChannelCarried(byURI, f, o) && AllForeign(f.unknown)
    requires forall it <- f.items :: AllForeign(it.unknown) && Carries(byURI, it) && (ShowsUpdated(it) ==> NS_ATOM in byURI)
    ensures ItemsSay(clock, ChannelChildren(clock, byURI, f, o), f.items)
  {
    hide Named, NormAll, ItemSays, ItemChildren, ChannelCarried, ChannelChildren, AllForeign, Carries, ShowsUpdated, Says,
      CloudElements, Rfc822;
    PlainChannelPart(clock, byURI, f, o, "item");
    forall i | 0 <= i < |f.items|
      ensures ItemSays(clock, ItemTrees(clock, byURI, f.items)[i].children, f.items[i])
    {
      assert f.items[i] in f.items;
      ItemSaid(clock, byURI, f.items[i]);
    }
  }

  // ---- the document ----

  lemma VersionKept(t: Table)
    ensures AttrIn(DecodedAttrs(RootScope(t), CleanAttrs(RootAttrs(t))), "version") == "2.0"
  {
    var more := CleanAttrs(Declarations(t.order));
    assert CleanAttrs(RootAttrs(t)) == [("version", Clean("2.0"))] + more;
    CleanFixed("2.0");
    hide Clean, RootScope, CleanAttrs, Declarations;
    AttrNames();
    SplitPlain("version");
    assert ([("version", "2.0")] + more)[1..] == more;
  }

  lemma EveryItemDated(byURI: map<string, string>, items: seq<Item>)
    requires UsesAtom(items) ==> NS_ATOM in byURI
    ensures forall it <- items :: ShowsUpdated(it) ==> NS_ATOM in byURI
  {
    hide ShowsUpdated;
  }

  lemma ChannelSaid(clock: Clock, f: Feed, o: Options)
    requires ShapedFeed(f) && ForeignFeed(f)
    ensures ChannelSays(clock, ChannelChildren(clock, TableFor(f, o).byURI, f, o), f, o)
  {
    hide ShapedFeed, Valid, PrintableTable, AllWellnamed, UsesSource, UsesThreading, UsesAtom, TableFor, ChannelChildren,
      TitlesSay, CloudSays, AddressesSay, ItemsSay, Carries, ShowsUpdated, AllForeign;
    var byURI := TableFor(f, o).byURI;
    TableForFeed(f, o);
    EveryItemCarried(byURI, f.items);
    EveryItemDated(byURI, f.items);
    TitlesSaid(clock, byURI, f, o);
    CloudSaid(clock, byURI, f, o);
    AddressesSaid(clock, byURI, f, o);
    ItemsSaid(clock, byURI, f, o);
  }

  // Every field of the feed and of its items, read off the document it is written as by the
  // names of the elements alone.
  lemma DocumentSays(clock: Clock, f: Feed, o: Options)
    requires ShapedFeed(f) && ForeignFeed(f)
    ensures var doc := DecodeDocument(RssText(clock, f, o));
            && doc.Ok?
            && doc.value.name == Name("", "rss") && AttrOf(doc.value, "version") == "2.0"
            && |doc.value.children| == 1
            && doc.value.children[0].name == Name("", "channel")
            && ChannelSays(clock, doc.value.children[0].children, f, o)
  {
    hide ShapedFeed, ForeignFeed, TableFor, RssText, DecodeDocument, ChannelChildren, ChannelSays, AttrIn, RootScope, RootAttrs,
      CleanAttrs, DecodedAttrs;
    VersionKept(TableFor(f, o));
    ChannelSaid(clock, f, o);
    DocumentDecodes(clock, f, o);
  }
}
