// What scanning a written item finds in it.
module RssItems {
  import opened Common
  import opened Feed
  import opened Decode
  import opened RoundTrip
  import opened Rss
  import opened RssDocument
  import opened Scan
  import opened Xml
  import Text

  // A text as it is seen after being written and read.
  function Seen(s: string): string { Text.TrimSpace(Clean(s)) }

  // An element that is nobody else's: namespaced, not an item, not one of the elements the
  // scanner reads into a field.
  predicate Foreign(el: Element) {
    && NormName(el.name).space != "" && !IsItemName(el.name.local) && !Consumed(NormName(el.name))
  }

  predicate AllForeign(els: seq<Element>) { forall el <- els :: Foreign(el) }

  // ---- looking an element up in what was written ----

  function Seek(els: seq<Element>, name: Name): Option<Element> {
    ChildIn(NormAll(els), name.space, name.local)
  }

  function OrElse<T>(a: Option<T>, b: Option<T>): Option<T> { if a.Some? then a else b }

  lemma NormAllAppend(a: seq<Element>, b: seq<Element>)
    ensures NormAll(a + b) == NormAll(a) + NormAll(b)
  {
    hide NormAll, Norm;
    assert forall i :: 0 <= i < |a + b| ==> NormAll(a + b)[i] == (NormAll(a) + NormAll(b))[i];
  }

  lemma {:induction false} ChildInAppend(a: seq<Element>, b: seq<Element>, name: Name)
    ensures ChildIn(a + b, name.space, name.local)
         == OrElse(ChildIn(a, name.space, name.local), ChildIn(b, name.space, name.local))
  {
    if a == [] {
      assert a + b == b;
    } else {
      assert (a + b)[1..] == a[1..] + b;
      ChildInAppend(a[1..], b, name);
    }
  }

  lemma SeekAppend(a: seq<Element>, b: seq<Element>, name: Name)
    ensures Seek(a + b, name) == OrElse(Seek(a, name), Seek(b, name))
  {
    NormAllAppend(a, b);
    ChildInAppend(NormAll(a), NormAll(b), name);
  }

  predicate Lacks(els: seq<Element>, name: Name) {
    forall el <- els :: NormName(el.name) != name
  }

  lemma {:induction false} SeekLacking(els: seq<Element>, name: Name)
    requires Lacks(els, name)
    ensures Seek(els, name) == None
  {
    if els != [] {
      assert NormAll(els) == [Norm(els[0])] + NormAll(els[1..]);
      assert els[0] in els;
      SeekLacking(els[1..], name);
    }
  }

  lemma SeekOne(el: Element)
    ensures Seek([el], NormName(el.name)) == Some(Norm(el))
  {}

  // What a leaf the feed writes itself looks like when it is read.
  lemma OwnNorm(el: Element)
    requires el.children == [] && NameCurrent(el.name)
    ensures Norm(el) == Element(el.name, NormAttrs(el.attrs), Seen(el.text), [])
  {}

  lemma OwnSeek(el: Element)
    requires el.children == [] && NameCurrent(el.name)
    ensures Seek([el], el.name) == Some(Element(el.name, NormAttrs(el.attrs), Seen(el.text), []))
  {
    OwnNorm(el);
    SeekOne(el);
  }

  lemma NormOne(local: string, value: string)
    ensures NormAttrs([Unqualified(local, value)]) == [Unqualified(local, Clean(value))]
  {
    assert [Unqualified(local, value)][1..] == [];
  }

  lemma SeekOpt(el: Element)
    requires el.children == [] && el.attrs == [] && NameCurrent(el.name)
    ensures Seek(Opt(el), el.name) == if el.text == "" then None else Some(Element(el.name, [], Seen(el.text), []))
  {
    OwnNorm(el);
    SeekOne(el);
  }

  // ---- the two kinds of element an item carries before its unknown ones ----

  lemma HeadLacks(clock: Clock, it: Item, name: Name)
    requires name.local in ["guid", "link", "source", "comments"] || name.space != ""
    ensures Seek(Opt(Plain("title", it.title)), name) == None && Seek(Opt(Plain("description", it.html)), name) == None
    ensures Seek(Opt(Plain("pubDate", Rfc822(clock, it.published))), name) == None
    ensures Seek(Opt(Plain("author", it.author)), name) == None && Seek(EnclosureElements(it.enclosures), name) == None
    ensures name != Name("", "guid") ==> Seek(GuidElements(it), name) == None
    ensures name != Name("", "link") ==> Seek(LinkElements(it), name) == None
    ensures name != Name("", "source") ==> Seek(OriginElements(it), name) == None
    ensures name != Name("", "comments") ==> Seek(Opt(Plain("comments", it.commentsPage)), name) == None
  {
    hide Seek, Rfc822;
    SeekLacking(Opt(Plain("title", it.title)), name);
    SeekLacking(Opt(Plain("description", it.html)), name);
    SeekLacking(Opt(Plain("pubDate", Rfc822(clock, it.published))), name);
    SeekLacking(Opt(Plain("author", it.author)), name);
    SeekLacking(EnclosureElements(it.enclosures), name);
    if name != Name("", "guid") { SeekLacking(GuidElements(it), name); }
    if name != Name("", "link") { SeekLacking(LinkElements(it), name); }
    if name != Name("", "source") { SeekLacking(OriginElements(it), name); }
    if name != Name("", "comments") { SeekLacking(Opt(Plain("comments", it.commentsPage)), name); }
  }

  lemma HeadSeek(clock: Clock, it: Item, name: Name)
    requires name.local in ["guid", "link", "source", "comments"] || name.space != ""
    ensures Seek(HeadElements(clock, it), name) ==
      if name == Name("", "guid") then Seek(GuidElements(it), name)
      else if name == Name("", "link") then Seek(LinkElements(it), name)
      else if name == Name("", "source") then Seek(OriginElements(it), name)
      else if name == Name("", "comments") then Seek(Opt(Plain("comments", it.commentsPage)), name)
      else None
  {
    var a, b, c := Opt(Plain("title", it.title)), Opt(Plain("description", it.html)), Opt(Plain("pubDate", Rfc822(clock, it.published)));
    var d, e, g := GuidElements(it), LinkElements(it), OriginElements(it);
    var h, i, k := Opt(Plain("author", it.author)), Opt(Plain("comments", it.commentsPage)), EnclosureElements(it.enclosures);
    HeadLacks(clock, it, name);
    hide Seek, Plain, Opt, GuidElements, LinkElements, OriginElements, EnclosureElements;
    SeekAppend(a, b, name); SeekAppend(a + b, c, name); SeekAppend(a + b + c, d, name);
    SeekAppend(a + b + c + d, e, name); SeekAppend(a + b + c + d + e, g, name);
    SeekAppend(a + b + c + d + e + g, h, name); SeekAppend(a + b + c + d + e + g + h, i, name);
    SeekAppend(a + b + c + d + e + g + h + i, k, name);
  }

  lemma SourceSeek(clock: Clock, byURI: map<string, string>, it: Item, name: Name)
    ensures Seek(SourceElements(clock, byURI, it), name) ==
      if name == Name(NS_SOURCE, "markdown") || name == Name(NS_SOURCE, "inReplyTo") then Seek(MarkdownElements(byURI, it), name)
      else if name == Name(NS_THREAD, "in-reply-to") then Seek(ThreadElements(byURI, it), name)
      else if name == Name(NS_SOURCE, "comments") then Seek(CommentsElements(byURI, it), name)
      else if name == Name(NS_ATOM, "updated") then Seek(UpdatedElements(clock, byURI, it), name)
      else None
  {
    var a, b := MarkdownElements(byURI, it), ThreadElements(byURI, it);
    var c, d := CommentsElements(byURI, it), UpdatedElements(clock, byURI, it);
    if name != Name(NS_SOURCE, "markdown") && name != Name(NS_SOURCE, "inReplyTo") { SeekLacking(a, name); }
    if name != Name(NS_THREAD, "in-reply-to") { SeekLacking(b, name); }
    if name != Name(NS_SOURCE, "comments") { SeekLacking(c, name); }
    if name != Name(NS_ATOM, "updated") { SeekLacking(d, name); }
    hide Seek, MarkdownElements, ThreadElements, CommentsElements, UpdatedElements;
    SeekAppend(a, b, name); SeekAppend(a + b, c, name); SeekAppend(a + b + c, d, name);
  }

  lemma ItemSeek(clock: Clock, byURI: map<string, string>, it: Item, name: Name)
    ensures Seek(ItemChildren(clock, byURI, it), name)
         == OrElse(OrElse(Seek(HeadElements(clock, it), name), Seek(SourceElements(clock, byURI, it), name)),
                   Seek(it.unknown, name))
  {
    hide Seek, HeadElements, SourceElements;
    SeekAppend(HeadElements(clock, it), SourceElements(clock, byURI, it), name);
    SeekAppend(HeadElements(clock, it) + SourceElements(clock, byURI, it), it.unknown, name);
  }

  // An unknown element never hides a field.
  lemma ForeignLacks(els: seq<Element>, name: Name)
    requires AllForeign(els) && (name.space == "" || Consumed(name))
    ensures Seek(els, name) == None
  {
    SeekLacking(els, name);
  }

  // ---- field by field ----

  // The prefixes this item's elements need are there.
  predicate Carries(byURI: map<string, string>, it: Item) {
    && (it.markdown != "" || it.inReplyTo != "" || it.comments.Some? ==> NS_SOURCE in byURI)
    && (it.inReplyTo != "" ==> NS_THREAD in byURI)
  }

  lemma FieldIs(clock: Clock, byURI: map<string, string>, it: Item, name: Name)
    requires AllForeign(it.unknown)
    requires name.local in ["guid", "link", "source", "comments"] || name.space != ""
    ensures name.space == "" ==> Seek(ItemChildren(clock, byURI, it), name) == Seek(HeadElements(clock, it), name)
    ensures Consumed(name) ==> Seek(ItemChildren(clock, byURI, it), name) == Seek(SourceElements(clock, byURI, it), name)
    ensures name.space != "" && !Consumed(name) ==> Seek(ItemChildren(clock, byURI, it), name) == Seek(it.unknown, name)
  {
    HeadSeek(clock, it, name);
    SourceSeek(clock, byURI, it, name);
    if name.space == "" || Consumed(name) { ForeignLacks(it.unknown, name); }
    hide Seek, HeadElements, SourceElements, AllForeign;
    ItemSeek(clock, byURI, it, name);
  }

  // ---- what each of those elements says ----

  // guid, then a foreign atom:id, then link, then a foreign link's address.
  function SeenKey(it: Item): string {
    if Seen(it.guid) != "" then Seen(it.guid)
    else if IdText(it) != "" then IdText(it)
    else if Seen(it.link) != "" then Seen(it.link)
    else FirstHref(NormAll(it.unknown))
  }

  function IdText(it: Item): string {
    match Seek(it.unknown, Name(NS_ATOM, "id")) case Some(e) => e.text case None => ""
  }

  // The element is tried first, and its trimmed text; the attribute keeps its white space.
  function SeenReply(it: Item): string {
    if Seen(it.inReplyTo) != "" then Seen(it.inReplyTo) else Clean(it.inReplyTo)
  }

  function SeenOrigin(it: Item): Option<Origin> {
    match it.source
    case None => None
    case Some(s) => if s.url == "" && Seen(s.name) == "" then None else Some(Origin(Clean(s.url), Seen(s.name)))
  }

  function SeenComments(it: Item): Option<Comments> {
    match it.comments
    case None => None
    case Some(c) => if c.feedURL == "" then None else Some(Comments(c.count, Clean(c.feedURL)))
  }

  // An item as it comes back.
  function SeenItem(it: Item): ItemScan {
    ItemScan(SeenKey(it), it.guid == "" || it.guidIsPermalink, Seen(it.markdown), SeenReply(it), Seen(it.commentsPage),
             SeenComments(it), SeenOrigin(it), NormAll(it.unknown))
  }

  lemma SeenEmpty()
    ensures Seen("") == ""
  {
    Text.TrimSpaceUnique("", "", "");
    assert "" + "" + "" == "";
  }

  lemma SeenTwice(s: string)
    ensures Text.TrimSpace(Seen(s)) == Seen(s)
  {
    var l, r := Text.TrimSpaceSpec(Clean(s));
    Text.TrimSpaceFixed(Seen(s));
  }

  lemma OptText(el: Element)
    requires el.children == [] && el.attrs == [] && NameCurrent(el.name)
    ensures (match Seek(Opt(el), el.name) case Some(c) => c.text case None => "") == Seen(el.text)
  {
    SeekOpt(el);
    SeenEmpty();
  }

  lemma MarkdownSeek(byURI: map<string, string>, it: Item, local: string)
    requires Carries(byURI, it) && local in ["markdown", "inReplyTo"]
    ensures var text := if local == "markdown" then it.markdown else it.inReplyTo;
            (match Seek(MarkdownElements(byURI, it), Name(NS_SOURCE, local)) case Some(c) => c.text case None => "") == Seen(text)
  {
    var a, b := In(NS_SOURCE, "markdown", [], it.markdown), In(NS_SOURCE, "inReplyTo", [], it.inReplyTo);
    var name := Name(NS_SOURCE, local);
    OptText(a);
    OptText(b);
    SeenEmpty();
    if NS_SOURCE in byURI {
      if local == "markdown" { SeekLacking(Opt(b), name); } else { SeekLacking(Opt(a), name); }
      hide Seek, Opt;
      SeekAppend(Opt(a), Opt(b), name);
    }
  }

  lemma ThreadSeek(byURI: map<string, string>, it: Item)
    requires Carries(byURI, it)
    ensures Seek(ThreadElements(byURI, it), Name(NS_THREAD, "in-reply-to"))
         == if it.inReplyTo == "" then None else Some(In(NS_THREAD, "in-reply-to", [Unqualified("ref", Clean(it.inReplyTo))], ""))
  {
    var el := In(NS_THREAD, "in-reply-to", [Unqualified("ref", it.inReplyTo)], "");
    SeekLacking([], el.name);
    SeenEmpty();
    NormOne("ref", it.inReplyTo);
    OwnSeek(el);
    hide Seek, NormAttrs, Seen, Clean;
  }

  lemma CommentsSeek(byURI: map<string, string>, it: Item)
    requires Carries(byURI, it)
    ensures Seek(CommentsElements(byURI, it), Name(NS_SOURCE, "comments"))
         == if it.comments.None? || it.comments.value.feedURL == "" then None
            else Some(In(NS_SOURCE, "comments", [Unqualified("count", Text.Itoa(it.comments.value.count)),
                                                 Unqualified("feedUrl", Clean(it.comments.value.feedURL))], ""))
  {
    SeekLacking([], Name(NS_SOURCE, "comments"));
    SeenEmpty();
    hide Seek, Seen;
    if it.comments.Some? && it.comments.value.feedURL != "" {
      var count := Unqualified("count", Text.Itoa(it.comments.value.count));
      var feed := Unqualified("feedUrl", it.comments.value.feedURL);
      CleanFixed(count.value);
      assert NormAttrs([count, feed]) == [count, Unqualified("feedUrl", Clean(feed.value))];
      OwnSeek(In(NS_SOURCE, "comments", [count, feed], ""));
    }
  }

  lemma OriginSeek(it: Item)
    ensures Seek(OriginElements(it), Name("", "source"))
         == if it.source.None? || it.source.value == Origin("", "") then None
            else Some(Element(Name("", "source"),
                              if it.source.value.url == "" then [] else [Unqualified("url", Clean(it.source.value.url))],
                              Seen(it.source.value.name), []))
  {
    SeekLacking([], Name("", "source"));
    hide Seek, Seen;
    if it.source.Some? && it.source.value != Origin("", "") {
      NormOne("url", it.source.value.url);
      OwnSeek(OriginElements(it)[0]);
    }
  }

  lemma GuidSeek(it: Item)
    ensures Seek(GuidElements(it), Name("", "guid"))
         == if it.guid == "" then None
            else Some(Element(Name("", "guid"), if it.guidIsPermalink then [] else [Unqualified("isPermaLink", "false")],
                              Seen(it.guid), []))
  {
    SeekLacking([], Name("", "guid"));
    hide Seek, Seen;
    if it.guid != "" {
      CleanFixed("false");
      NormOne("isPermaLink", "false");
      OwnSeek(GuidElements(it)[0]);
    }
  }

  lemma LinkSeek(it: Item)
    ensures Seek(LinkElements(it), Name("", "link"))
         == if it.link == "" || it.link == it.guid then None else Some(Plain("link", Seen(it.link)))
  {
    SeekLacking([], Name("", "link"));
    hide Seek, Seen;
    if it.link != "" && it.link != it.guid {
      OwnSeek(Plain("link", it.link));
    }
  }

  // ---- the fields of the scan ----

  lemma TreeSeek(clock: Clock, byURI: map<string, string>, it: Item, name: Name)
    ensures Child(ItemTree(clock, byURI, it), name.space, name.local) == Seek(ItemChildren(clock, byURI, it), name)
  {}

  lemma TextsRead(clock: Clock, byURI: map<string, string>, it: Item)
    requires AllForeign(it.unknown) && Carries(byURI, it)
    ensures var el := ItemTree(clock, byURI, it);
            && ChildText(el, NS_SOURCE, "markdown") == Seen(it.markdown)
            && ChildText(el, NS_SOURCE, "inReplyTo") == Seen(it.inReplyTo)
            && ChildText(el, "", "comments") == Seen(it.commentsPage)
  {
    hide ItemTree, ItemChildren, Child, Seek, MarkdownElements, HeadElements, SourceElements, AllForeign, Seen, Carries;
    FieldIs(clock, byURI, it, Name(NS_SOURCE, "markdown"));
    FieldIs(clock, byURI, it, Name(NS_SOURCE, "inReplyTo"));
    FieldIs(clock, byURI, it, Name("", "comments"));
    SourceSeek(clock, byURI, it, Name(NS_SOURCE, "markdown"));
    SourceSeek(clock, byURI, it, Name(NS_SOURCE, "inReplyTo"));
    HeadSeek(clock, it, Name("", "comments"));
    TreeSeek(clock, byURI, it, Name(NS_SOURCE, "markdown"));
    TreeSeek(clock, byURI, it, Name(NS_SOURCE, "inReplyTo"));
    TreeSeek(clock, byURI, it, Name("", "comments"));
    MarkdownSeek(byURI, it, "markdown");
    MarkdownSeek(byURI, it, "inReplyTo");
    OptText(Plain("comments", it.commentsPage));
  }

  lemma ReplyRead(clock: Clock, byURI: map<string, string>, it: Item)
    requires AllForeign(it.unknown) && Carries(byURI, it)
    ensures ReplyOf(ItemTree(clock, byURI, it)) == SeenReply(it)
  {
    hide ItemTree, ItemChildren, Child, ChildText, Seek, ThreadElements, HeadElements, SourceElements, AllForeign, Seen, Carries;
    var name := Name(NS_THREAD, "in-reply-to");
    TextsRead(clock, byURI, it);
    FieldIs(clock, byURI, it, name);
    SourceSeek(clock, byURI, it, name);
    TreeSeek(clock, byURI, it, name);
    ThreadSeek(byURI, it);
    SeenEmpty();
    assert Clean("") == "";
  }

  lemma CommentsRead(clock: Clock, byURI: map<string, string>, it: Item)
    requires AllForeign(it.unknown) && Carries(byURI, it)
    ensures CommentsOf(ItemTree(clock, byURI, it)) == SeenComments(it)
  {
    hide ItemTree, ItemChildren, Child, ChildText, Seek, CommentsElements, HeadElements, SourceElements, AllForeign, Carries;
    hide Text.Itoa, Text.Atoi, Text.TrimSpace;
    var name := Name(NS_SOURCE, "comments");
    FieldIs(clock, byURI, it, name);
    SourceSeek(clock, byURI, it, name);
    TreeSeek(clock, byURI, it, name);
    CommentsSeek(byURI, it);
    if it.comments.Some? && it.comments.value.feedURL != "" {
      var c, feed := it.comments.value, Clean(it.comments.value.feedURL);
      var attrs := [Unqualified("count", Text.Itoa(c.count)), Unqualified("feedUrl", feed)];
      assert AttrIn(attrs, "count") == Text.Itoa(c.count);
      assert attrs[1..] == [Unqualified("feedUrl", feed)];
      assert AttrIn(attrs, "feedUrl") == feed;
      assert FirstNonEmpty([feed, AttrIn(attrs, "feedurl"), ""]) == feed;
      Text.ItoaVisible(it.comments.value.count);
      Text.TrimSpaceFixed(Text.Itoa(it.comments.value.count));
      Text.AtoiInverse(it.comments.value.count);
    }
  }

  lemma OriginRead(clock: Clock, byURI: map<string, string>, it: Item)
    requires AllForeign(it.unknown)
    ensures OriginOf(ItemTree(clock, byURI, it)) == SeenOrigin(it)
  {
    hide ItemTree, ItemChildren, Child, Seek, OriginElements, HeadElements, SourceElements, AllForeign, Seen;
    var name := Name("", "source");
    FieldIs(clock, byURI, it, name);
    HeadSeek(clock, it, name);
    TreeSeek(clock, byURI, it, name);
    OriginSeek(it);
    SeenEmpty();
    if it.source.Some? { SeenTwice(it.source.value.name); }
  }

  lemma PermalinkRead(clock: Clock, byURI: map<string, string>, it: Item)
    requires AllForeign(it.unknown)
    ensures PermalinkOf(ItemTree(clock, byURI, it)) == (it.guid == "" || it.guidIsPermalink)
  {
    hide ItemTree, ItemChildren, Child, Seek, GuidElements, HeadElements, SourceElements, AllForeign, Seen;
    var name := Name("", "guid");
    FieldIs(clock, byURI, it, name);
    HeadSeek(clock, it, name);
    TreeSeek(clock, byURI, it, name);
    GuidSeek(it);
    Text.TrimSpaceFixed("false");
  }

  lemma {:induction false} FirstHrefAppend(a: seq<Element>, b: seq<Element>)
    ensures FirstHref(a + b) == if FirstHref(a) != "" then FirstHref(a) else FirstHref(b)
  {
    if a == [] {
      assert a + b == b;
    } else {
      assert (a + b)[1..] == a[1..] + b;
      FirstHrefAppend(a[1..], b);
    }
  }

  lemma {:induction false} NoHref(els: seq<Element>)
    requires forall el <- els :: el.name.local == "link" ==> el.attrs == []
    ensures FirstHref(NormAll(els)) == ""
  {
    if els != [] {
      assert NormAll(els) == [Norm(els[0])] + NormAll(els[1..]);
      assert els[0] in els;
      NoHref(els[1..]);
    }
  }

  // What the scanner does not report as unknown.
  predicate Known(el: Element) {
    NormName(el.name).space == "" || IsItemName(el.name.local) || Consumed(NormName(el.name))
  }

  // The elements a feed adds itself: known, and any link among them has no attributes.
  predicate AllOwn(els: seq<Element>) {
    forall el <- els :: Known(el) && (el.name.local == "link" ==> el.attrs == [])
  }

  lemma OwnTogether(a: seq<Element>, b: seq<Element>)
    requires AllOwn(a) && AllOwn(b)
    ensures AllOwn(a + b)
  {
    hide Known;
  }

  lemma HeadOwn(clock: Clock, it: Item)
    ensures AllOwn(HeadElements(clock, it))
  {
    var a, b, c := Opt(Plain("title", it.title)), Opt(Plain("description", it.html)), Opt(Plain("pubDate", Rfc822(clock, it.published)));
    var d, e, g := GuidElements(it), LinkElements(it), OriginElements(it);
    var h, i, k := Opt(Plain("author", it.author)), Opt(Plain("comments", it.commentsPage)), EnclosureElements(it.enclosures);
    assert AllOwn(a) && AllOwn(b) && AllOwn(c) && AllOwn(h) && AllOwn(i);
    assert AllOwn(d) && AllOwn(e) && AllOwn(g) && AllOwn(k);
    hide AllOwn, Plain, Opt, GuidElements, LinkElements, OriginElements, EnclosureElements;
    OwnTogether(a, b); OwnTogether(a + b, c); OwnTogether(a + b + c, d);
    OwnTogether(a + b + c + d, e); OwnTogether(a + b + c + d + e, g);
    OwnTogether(a + b + c + d + e + g, h); OwnTogether(a + b + c + d + e + g + h, i);
    OwnTogether(a + b + c + d + e + g + h + i, k);
  }

  lemma SourceOwn(clock: Clock, byURI: map<string, string>, it: Item)
    ensures AllOwn(SourceElements(clock, byURI, it))
  {
    var a, b := MarkdownElements(byURI, it), ThreadElements(byURI, it);
    var c, d := CommentsElements(byURI, it), UpdatedElements(clock, byURI, it);
    assert AllOwn(a) && AllOwn(b) && AllOwn(c) && AllOwn(d);
    hide AllOwn, MarkdownElements, ThreadElements, CommentsElements, UpdatedElements;
    OwnTogether(a, b); OwnTogether(a + b, c); OwnTogether(a + b + c, d);
  }

  lemma HrefRead(clock: Clock, byURI: map<string, string>, it: Item)
    ensures FirstHref(ItemTree(clock, byURI, it).children) == FirstHref(NormAll(it.unknown))
  {
    HeadOwn(clock, it);
    SourceOwn(clock, byURI, it);
    hide HeadElements, SourceElements, FirstHref, NormAll;
    var h, s := HeadElements(clock, it), SourceElements(clock, byURI, it);
    NoHref(h);
    NoHref(s);
    NormAllAppend(h + s, it.unknown);
    NormAllAppend(h, s);
    FirstHrefAppend(NormAll(h) + NormAll(s), NormAll(it.unknown));
    FirstHrefAppend(NormAll(h), NormAll(s));
  }

  lemma KeyRead(clock: Clock, byURI: map<string, string>, it: Item)
    requires AllForeign(it.unknown)
    ensures KeyOf(ItemTree(clock, byURI, it)) == SeenKey(it)
  {
    HrefRead(clock, byURI, it);
    hide ItemTree, ItemChildren, Child, Seek, GuidElements, LinkElements, HeadElements, SourceElements, AllForeign, Seen, FirstHref;
    FieldIs(clock, byURI, it, Name("", "guid"));
    FieldIs(clock, byURI, it, Name("", "link"));
    FieldIs(clock, byURI, it, Name(NS_ATOM, "id"));
    HeadSeek(clock, it, Name("", "guid"));
    HeadSeek(clock, it, Name("", "link"));
    TreeSeek(clock, byURI, it, Name("", "guid"));
    TreeSeek(clock, byURI, it, Name("", "link"));
    TreeSeek(clock, byURI, it, Name(NS_ATOM, "id"));
    GuidSeek(it);
    LinkSeek(it);
    SeenEmpty();
  }

  lemma {:induction false} UnknownInAppend(a: seq<Element>, b: seq<Element>)
    ensures UnknownIn(a + b) == UnknownIn(a) + UnknownIn(b)
  {
    if a == [] {
      assert a + b == b;
    } else {
      assert (a + b)[1..] == a[1..] + b;
      UnknownInAppend(a[1..], b);
    }
  }

  lemma {:induction false} KnownNotUnknown(els: seq<Element>)
    requires AllOwn(els)
    ensures UnknownIn(NormAll(els)) == []
  {
    if els != [] {
      assert NormAll(els) == [Norm(els[0])] + NormAll(els[1..]);
      assert els[0] in els;
      KnownNotUnknown(els[1..]);
    }
  }

  lemma {:induction false} ForeignUnknown(els: seq<Element>)
    requires AllForeign(els)
    ensures UnknownIn(NormAll(els)) == NormAll(els)
  {
    if els != [] {
      assert NormAll(els) == [Norm(els[0])] + NormAll(els[1..]);
      assert els[0] in els;
      ForeignUnknown(els[1..]);
    }
  }

  lemma UnknownRead(clock: Clock, byURI: map<string, string>, it: Item)
    requires AllForeign(it.unknown)
    ensures UnknownIn(ItemTree(clock, byURI, it).children) == NormAll(it.unknown)
  {
    HeadOwn(clock, it);
    SourceOwn(clock, byURI, it);
    hide HeadElements, SourceElements, UnknownIn, NormAll, AllOwn, AllForeign;
    var h, s := HeadElements(clock, it), SourceElements(clock, byURI, it);
    KnownNotUnknown(h);
    KnownNotUnknown(s);
    ForeignUnknown(it.unknown);
    NormAllAppend(h + s, it.unknown);
    NormAllAppend(h, s);
    UnknownInAppend(NormAll(h) + NormAll(s), NormAll(it.unknown));
    UnknownInAppend(NormAll(h), NormAll(s));
    assert [] + [] + NormAll(it.unknown) == NormAll(it.unknown);
  }

  // Everything the scanner reads from a written item, for every item whose unknown elements
  // are foreign.
  lemma ItemReadsBack(clock: Clock, byURI: map<string, string>, it: Item)
    requires AllForeign(it.unknown) && Carries(byURI, it)
    ensures ScanItem(ItemTree(clock, byURI, it)) == SeenItem(it)
  {
    hide ItemTree, KeyOf, PermalinkOf, ReplyOf, CommentsOf, OriginOf, UnknownIn, ChildText, NormAll, AllForeign, Carries,
      SeenKey, SeenReply, SeenComments, SeenOrigin, Seen;
    KeyRead(clock, byURI, it);
    PermalinkRead(clock, byURI, it);
    TextsRead(clock, byURI, it);
    ReplyRead(clock, byURI, it);
    CommentsRead(clock, byURI, it);
    OriginRead(clock, byURI, it);
    UnknownRead(clock, byURI, it);
  }

  // ---- items that come back exactly ----

  predicate Still(s: string) { Text.Trimmed(s) && AllPrintable(s) }

  // Text without surrounding white space or unprintable characters, and nothing the document
  // has no place for: an origin or comments feed without any address.
  ghost predicate Settled(it: Item) {
    && Still(it.guid) && Still(it.link) && Still(it.markdown) && Still(it.inReplyTo) && Still(it.commentsPage)
    && (it.source.Some? ==> it.source.value != Origin("", "") && AllPrintable(it.source.value.url) && Still(it.source.value.name))
    && (it.comments.Some? ==> it.comments.value.feedURL != "" && AllPrintable(it.comments.value.feedURL))
    && (forall el <- it.unknown :: Canonical(el))
  }

  lemma SeenIffStill(s: string)
    ensures Seen(s) == s <==> Still(s)
  {
    CleanIffPrintable(s);
    Text.TrimSpaceFixed(s);
    if Seen(s) == s { TrimmedCleanFixed(s); }
  }

  lemma SettledSeen(it: Item)
    requires Settled(it)
    ensures SeenItem(it) == ItemScan(SeenKey(it), it.guid == "" || it.guidIsPermalink, it.markdown, it.inReplyTo,
                                     it.commentsPage, it.comments, it.source, it.unknown)
  {
    hide Seen, SeenKey, Still, AllPrintable, Canonical, Clean;
    SeenIffStill(it.markdown); SeenIffStill(it.inReplyTo); SeenIffStill(it.commentsPage);
    SeenEmpty();
    if it.source.Some? {
      CleanIffPrintable(it.source.value.url);
      SeenIffStill(it.source.value.name);
    }
    if it.comments.Some? { CleanIffPrintable(it.comments.value.feedURL); }
    forall el | el in it.unknown ensures Norm(el) == el { CanonicalUnchanged(el); }
    assert NormAll(it.unknown) == it.unknown;
  }

  // The key comes back unless an unknown element supplies one where the item has no guid: an
  // atom:id always, a link's address only if the item has no link either.
  lemma KeyComesBack(it: Item)
    requires Still(it.guid) && Still(it.link)
    ensures SeenKey(it) == ItemKey(it) <==>
      it.guid != ""
      || (if IdText(it) != "" then IdText(it) == it.link
          else it.link != "" || FirstHref(NormAll(it.unknown)) == "")
  {
    SeenIffStill(it.guid);
    SeenIffStill(it.link);
  }

  const ATOM_ID := Element(Name(NS_ATOM, "id"), [], "urn:1", [])

  lemma AtomIdKept()
    ensures Foreign(ATOM_ID) && Norm(ATOM_ID) == ATOM_ID
  {
    assert CanonicalSpace(NS_ATOM) == NS_ATOM;
    CleanIffPrintable("urn:1");
    Text.TrimSpaceFixed("urn:1");
    hide Clean;
    hide Text.TrimSpace;
  }

  // An item known by its link, which came with an unknown atom:id, is known by that id after
  // one trip.
  lemma AtomIdTakesOver(clock: Clock, byURI: map<string, string>)
    ensures var it := Item("", false, "http://a/1", "", "", "", "", None, None, "", "", None, None, [], [ATOM_ID]);
            ItemKey(it) == "http://a/1" && ScanItem(ItemTree(clock, byURI, it)).key == "urn:1"
  {
    var it := Item("", false, "http://a/1", "", "", "", "", None, None, "", "", None, None, [], [ATOM_ID]);
    AtomIdKept();
    SeenEmpty();
    hide ItemTree, Norm, Foreign;
    ItemReadsBack(clock, byURI, it);
    assert NormAll([ATOM_ID]) == [ATOM_ID];
    assert IdText(it) == "urn:1";
  }
}
