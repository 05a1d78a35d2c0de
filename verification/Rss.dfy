// internal/feedout: a feed as an RSS 2.0 document.
module Rss {
  import opened Common
  import opened Feed
  import opened Writer
  import opened Namespaces
  import Text

  datatype Cloud = Cloud(domain: string, port: int, path: string, registerProcedure: string, protocol: string)

  datatype Options = Options(generator: string, docs: string, hub: string, cloud: Option<Cloud>, buildTime: Option<int>)

  // How a time is written in each of the two styles the document uses.
  datatype Clock = Clock(rfc822: int -> string, rfc3339: int -> string)

  function Rfc822(clock: Clock, t: Option<int>): string {
    match t case Some(s) => clock.rfc822(s) case None => ""
  }

  // xml.Header
  const DECLARATION := "xml version=\"1.0\" encoding=\"UTF-8\""
  const HEADER := "<?" + DECLARATION + "?>" + "\n"

  // ---- the elements a feed is written as ----

  function Plain(local: string, text: string): Element {
    Element(Name("", local), [], text, [])
  }

  // w.optional: nothing at all for an empty text.
  function Opt(el: Element): seq<Element> {
    if el.text == "" then [] else [el]
  }

  function Unqualified(local: string, value: string): Attr {
    Attr(Name("", local), value)
  }

  function GuidElements(it: Item): seq<Element> {
    if it.guid == "" then []
    else [Element(Name("", "guid"), if it.guidIsPermalink then [] else [Unqualified("isPermaLink", "false")], it.guid, [])]
  }

  function LinkElements(it: Item): seq<Element> {
    if it.link != "" && it.link != it.guid then [Plain("link", it.link)] else []
  }

  function OriginElements(it: Item): seq<Element> {
    match it.source
    case None => []
    case Some(s) =>
      if s.url == "" && s.name == "" then []
      else [Element(Name("", "source"), if s.url == "" then [] else [Unqualified("url", s.url)], s.name, [])]
  }

  function EnclosureElement(e: Enclosure): Element {
    Element(Name("", "enclosure"),
            [Unqualified("url", e.url), Unqualified("length", Text.Itoa(e.length)), Unqualified("type", e.kind)], "", [])
  }

  function EnclosureElements(list: seq<Enclosure>): (r: seq<Element>)
    ensures |r| == |list| && forall i :: 0 <= i < |r| ==> r[i] == EnclosureElement(list[i])
  {
    if list == [] then [] else [EnclosureElement(list[0])] + EnclosureElements(list[1..])
  }

  function HeadElements(clock: Clock, it: Item): seq<Element> {
    Opt(Plain("title", it.title)) + Opt(Plain("description", it.html))
    + Opt(Plain("pubDate", Rfc822(clock, it.published)))
    + GuidElements(it) + LinkElements(it) + OriginElements(it)
    + Opt(Plain("author", it.author)) + Opt(Plain("comments", it.commentsPage))
    + EnclosureElements(it.enclosures)
  }

  function In(space: string, local: string, attrs: seq<Attr>, text: string): Element {
    Element(Name(space, local), attrs, text, [])
  }

  function MarkdownElements(byURI: map<string, string>, it: Item): seq<Element> {
    if NS_SOURCE in byURI then
      Opt(In(NS_SOURCE, "markdown", [], it.markdown)) + Opt(In(NS_SOURCE, "inReplyTo", [], it.inReplyTo))
    else []
  }

  function ThreadElements(byURI: map<string, string>, it: Item): seq<Element> {
    if NS_THREAD in byURI && it.inReplyTo != "" then
      [In(NS_THREAD, "in-reply-to", [Unqualified("ref", it.inReplyTo)], "")]
    else []
  }

  function CommentsElements(byURI: map<string, string>, it: Item): seq<Element> {
    match it.comments
    case None => []
    case Some(c) =>
      if NS_SOURCE in byURI && c.feedURL != "" then
        [In(NS_SOURCE, "comments", [Unqualified("count", Text.Itoa(c.count)), Unqualified("feedUrl", c.feedURL)], "")]
      else []
  }

  function UpdatedElements(clock: Clock, byURI: map<string, string>, it: Item): seq<Element> {
    if NS_ATOM in byURI && ShowsUpdated(it) then
      [In(NS_ATOM, "updated", [], clock.rfc3339(it.updated.value))]
    else []
  }

  function SourceElements(clock: Clock, byURI: map<string, string>, it: Item): seq<Element> {
    MarkdownElements(byURI, it) + ThreadElements(byURI, it)
    + CommentsElements(byURI, it) + UpdatedElements(clock, byURI, it)
  }

  function ItemChildren(clock: Clock, byURI: map<string, string>, it: Item): seq<Element> {
    HeadElements(clock, it) + SourceElements(clock, byURI, it) + it.unknown
  }

  function LinkTo(rel: string, href: string, more: seq<Attr>): Element {
    In(NS_ATOM, "link", [Unqualified("rel", rel), Unqualified("href", href)] + more, "")
  }

  function AtomLinks(byURI: map<string, string>, f: Feed, o: Options): seq<Element> {
    if NS_ATOM !in byURI then []
    else
      (if o.hub == "" then [] else [LinkTo("hub", o.hub, [])])
      + (if f.self == "" then [] else [LinkTo("self", f.self, [Unqualified("type", "application/rss+xml")])])
  }

  function CloudElements(o: Options): seq<Element> {
    match o.cloud
    case None => []
    case Some(c) =>
      [Element(Name("", "cloud"),
               [Unqualified("domain", c.domain), Unqualified("port", Text.Itoa(c.port)), Unqualified("path", c.path),
                Unqualified("registerProcedure", c.registerProcedure), Unqualified("protocol", c.protocol)], "", [])]
  }

  function AccountElements(accounts: seq<Account>): seq<Element> {
    if accounts == [] then []
    else
      (if accounts[0].handle == "" then []
       else [In(NS_SOURCE, "account",
                if accounts[0].service == "" then [] else [Unqualified("service", accounts[0].service)],
                accounts[0].handle)])
      + AccountElements(accounts[1..])
  }

  function SelfElements(byURI: map<string, string>, f: Feed): seq<Element> {
    if NS_SOURCE in byURI then Opt(In(NS_SOURCE, "self", [], f.self)) + AccountElements(f.accounts) else []
  }

  function TitleElements(clock: Clock, f: Feed, o: Options): seq<Element> {
    Opt(Plain("title", f.title)) + Opt(Plain("link", f.link)) + Opt(Plain("description", f.description))
    + Opt(Plain("language", f.language)) + Opt(Plain("pubDate", Rfc822(clock, f.updated)))
    + Opt(Plain("lastBuildDate", Rfc822(clock, o.buildTime)))
    + Opt(Plain("generator", o.generator)) + Opt(Plain("docs", o.docs))
  }

  function ChannelHead(clock: Clock, byURI: map<string, string>, f: Feed, o: Options): seq<Element> {
    TitleElements(clock, f, o) + AtomLinks(byURI, f, o) + CloudElements(o) + SelfElements(byURI, f) + f.unknown
  }

  // ---- the text ----

  function ItemText(clock: Clock, byURI: map<string, string>, it: Item, depth: nat): string {
    OpenText(depth, "item", []) + ForestText(byURI, ItemChildren(clock, byURI, it), depth + 1) + CloseText(depth, "item")
  }

  function ItemsText(clock: Clock, byURI: map<string, string>, items: seq<Item>, depth: nat): string
    decreases |items|
  {
    if items == [] then ""
    else ItemText(clock, byURI, items[0], depth) + ItemsText(clock, byURI, items[1..], depth)
  }

  function ChannelText(clock: Clock, byURI: map<string, string>, f: Feed, o: Options, depth: nat): string {
    OpenText(depth, "channel", [])
    + ForestText(byURI, ChannelHead(clock, byURI, f, o), depth + 1)
    + ItemsText(clock, byURI, f.items, depth + 1)
    + CloseText(depth, "channel")
  }

  function Declarations(order: seq<Binding>): (r: seq<(string, string)>)
    ensures |r| == |order| && forall i :: 0 <= i < |r| ==> r[i] == ("xmlns:" + order[i].prefix, order[i].uri)
  {
    if order == [] then [] else [("xmlns:" + order[0].prefix, order[0].uri)] + Declarations(order[1..])
  }

  function RootAttrs(t: Table): seq<(string, string)> {
    [("version", "2.0")] + Declarations(t.order)
  }

  function TableFor(f: Feed, o: Options): Table {
    UseIf(Collected(f), o.hub != "" || f.self != "", NS_ATOM)
  }

  function RssText(clock: Clock, f: Feed, o: Options): string {
    var t := TableFor(f, o);
    HEADER + OpenText(0, "rss", RootAttrs(t)) + ChannelText(clock, t.byURI, f, o, 1) + CloseText(0, "rss")
  }

  // ---- writing it ----

  lemma LeafIsElement(byURI: map<string, string>, el: Element, depth: nat)
    requires el.children == []
    ensures ForestText(byURI, [el], depth)
         == LeafText(depth, Qualify(byURI, el.name), el.text, QualifyAttrs(byURI, el.attrs))
  {
    assert [el][1..] == [] && ForestText(byURI, [], depth) == "";
    assert ForestText(byURI, [el], depth) == ElementText(byURI, el, depth) + "";
  }

  // Writes a leaf element, with its name and attributes already in prefixed form.
  method Leaf(w: Printer, byURI: map<string, string>, name: string, text: string, list: seq<(string, string)>, ghost el: Element)
    requires el.children == [] && text == el.text
    requires name == Qualify(byURI, el.name) && list == QualifyAttrs(byURI, el.attrs)
    modifies w`buf
    ensures w.buf == old(w.buf) + ForestText(byURI, [el], w.depth)
  {
    LeafIsElement(byURI, el, w.depth);
    w.Leaf(name, text, list);
  }

  method Optional(w: Printer, byURI: map<string, string>, name: string, text: string, ghost el: Element)
    requires el.children == [] && el.attrs == [] && text == el.text && name == Qualify(byURI, el.name)
    modifies w`buf
    ensures w.buf == old(w.buf) + ForestText(byURI, Opt(el), w.depth)
  {
    if el.text != "" { LeafIsElement(byURI, el, w.depth); }
    assert QualifyAttrs(byURI, []) == [];
    w.Optional(name, text);
  }

  // Two pieces written one after the other are one forest.
  lemma Joined(start: string, byURI: map<string, string>, a: seq<Element>, b: seq<Element>, depth: nat)
    ensures start + ForestText(byURI, a, depth) + ForestText(byURI, b, depth) == start + ForestText(byURI, a + b, depth)
  {
    hide ForestText;
    ForestAppend(byURI, a, b, depth);
    Assoc(start, ForestText(byURI, a, depth), ForestText(byURI, b, depth));
  }

  lemma Prefixed(byURI: map<string, string>, space: string, local: string)
    requires space in byURI && space != "" && space != NS_XML
    ensures Qualify(byURI, Name(space, local)) == byURI[space] + (":" + local)
  {
    Assoc(byURI[space], ":", local);
  }

  method WriteTitles(w: Printer, clock: Clock, byURI: map<string, string>, f: Feed, o: Options)
    modifies w`buf
    ensures w.buf == old(w.buf) + ForestText(byURI, TitleElements(clock, f, o), w.depth)
  {
    hide ForestText, Opt;
    hide Rfc822;
    ghost var start, d := w.buf, w.depth;
    Optional(w, byURI, "title", f.title, Plain("title", f.title));
    Optional(w, byURI, "link", f.link, Plain("link", f.link));
    ghost var a := Opt(Plain("title", f.title)); ghost var b := Opt(Plain("link", f.link));
    Joined(start, byURI, a, b, d);
    Optional(w, byURI, "description", f.description, Plain("description", f.description));
    ghost var c := Opt(Plain("description", f.description));
    Joined(start, byURI, a + b, c, d);
    Optional(w, byURI, "language", f.language, Plain("language", f.language));
    ghost var e := Opt(Plain("language", f.language));
    Joined(start, byURI, a + b + c, e, d);
    Optional(w, byURI, "pubDate", Rfc822(clock, f.updated), Plain("pubDate", Rfc822(clock, f.updated)));
    ghost var g := Opt(Plain("pubDate", Rfc822(clock, f.updated)));
    Joined(start, byURI, a + b + c + e, g, d);
    Optional(w, byURI, "lastBuildDate", Rfc822(clock, o.buildTime), Plain("lastBuildDate", Rfc822(clock, o.buildTime)));
    ghost var h := Opt(Plain("lastBuildDate", Rfc822(clock, o.buildTime)));
    Joined(start, byURI, a + b + c + e + g, h, d);
    Optional(w, byURI, "generator", o.generator, Plain("generator", o.generator));
    ghost var i := Opt(Plain("generator", o.generator));
    Joined(start, byURI, a + b + c + e + g + h, i, d);
    Optional(w, byURI, "docs", o.docs, Plain("docs", o.docs));
    Joined(start, byURI, a + b + c + e + g + h + i, Opt(Plain("docs", o.docs)), d);
  }

  method WriteGuidAndLinks(w: Printer, byURI: map<string, string>, it: Item)
    modifies w`buf
    ensures w.buf == old(w.buf) + ForestText(byURI, GuidElements(it) + LinkElements(it) + OriginElements(it), w.depth)
  {
    hide ForestText;
    ghost var start, d := w.buf, w.depth;
    Nothing(start, byURI, d);
    if it.guid != "" {
      var list: seq<(string, string)> := [];
      if !it.guidIsPermalink {
        list := list + [("isPermaLink", "false")];
      }
      Leaf(w, byURI, "guid", it.guid, list, GuidElements(it)[0]);
    }
    assert w.buf == start + ForestText(byURI, GuidElements(it), d);
    Nothing(w.buf, byURI, d);
    if it.link != "" && it.link != it.guid {
      assert QualifyAttrs(byURI, []) == [];
      Leaf(w, byURI, "link", it.link, [], Plain("link", it.link));
    }
    Joined(start, byURI, GuidElements(it), LinkElements(it), d);
    Nothing(w.buf, byURI, d);
    if it.source.Some? && (it.source.value.url != "" || it.source.value.name != "") {
      var list: seq<(string, string)> := [];
      if it.source.value.url != "" {
        list := list + [("url", it.source.value.url)];
      }
      Leaf(w, byURI, "source", it.source.value.name, list, OriginElements(it)[0]);
    }
    Joined(start, byURI, GuidElements(it) + LinkElements(it), OriginElements(it), d);
  }

  lemma Nothing(start: string, byURI: map<string, string>, depth: nat)
    ensures start == start + ForestText(byURI, [], depth)
  {
    assert ForestText(byURI, [], depth) == "";
  }

  method WriteEnclosure(w: Printer, byURI: map<string, string>, e: Enclosure)
    modifies w`buf
    ensures w.buf == old(w.buf) + ForestText(byURI, [EnclosureElement(e)], w.depth)
  {
    hide ForestText;
    Leaf(w, byURI, "enclosure", "", [("url", e.url), ("length", Text.Itoa(e.length)), ("type", e.kind)], EnclosureElement(e));
  }

  method WriteEnclosures(w: Printer, byURI: map<string, string>, list: seq<Enclosure>)
    modifies w`buf
    ensures w.buf == old(w.buf) + ForestText(byURI, EnclosureElements(list), w.depth)
  {
    hide ForestText, EnclosureElement;
    ghost var start, d := w.buf, w.depth;
    Nothing(start, byURI, d);
    ghost var els := EnclosureElements(list);
    assert els[..0] == [];
    for i := 0 to |list|
      invariant w.buf == start + ForestText(byURI, els[..i], d)
    {
      WriteEnclosure(w, byURI, list[i]);
      Joined(start, byURI, els[..i], [els[i]], d);
      assert els[..i] + [els[i]] == els[..i + 1];
    }
    assert els[..|list|] == els;
  }

  method WriteHead(w: Printer, clock: Clock, byURI: map<string, string>, it: Item)
    modifies w`buf
    ensures w.buf == old(w.buf) + ForestText(byURI, HeadElements(clock, it), w.depth)
  {
    hide ForestText, Opt;
    hide Rfc822;
    hide GuidElements, LinkElements, OriginElements;
    ghost var start, d := w.buf, w.depth;
    ghost var a, b := Opt(Plain("title", it.title)), Opt(Plain("description", it.html));
    Optional(w, byURI, "title", it.title, Plain("title", it.title));
    Optional(w, byURI, "description", it.html, Plain("description", it.html));
    Joined(start, byURI, a, b, d);
    ghost var c := Opt(Plain("pubDate", Rfc822(clock, it.published)));
    Optional(w, byURI, "pubDate", Rfc822(clock, it.published), Plain("pubDate", Rfc822(clock, it.published)));
    Joined(start, byURI, a + b, c, d);
    ghost var g := GuidElements(it) + LinkElements(it) + OriginElements(it);
    WriteGuidAndLinks(w, byURI, it);
    Joined(start, byURI, a + b + c, g, d);
    ghost var h, i := Opt(Plain("author", it.author)), Opt(Plain("comments", it.commentsPage));
    Optional(w, byURI, "author", it.author, Plain("author", it.author));
    Joined(start, byURI, a + b + c + g, h, d);
    Optional(w, byURI, "comments", it.commentsPage, Plain("comments", it.commentsPage));
    Joined(start, byURI, a + b + c + g + h, i, d);
    WriteEnclosures(w, byURI, it.enclosures);
    Joined(start, byURI, a + b + c + g + h + i, EnclosureElements(it.enclosures), d);
    HeadRegroup(a, b, c, GuidElements(it), LinkElements(it), OriginElements(it), h, i, EnclosureElements(it.enclosures));
  }

  lemma HeadRegroup<T>(a: seq<T>, b: seq<T>, c: seq<T>, g: seq<T>, l: seq<T>, o: seq<T>, h: seq<T>, i: seq<T>, e: seq<T>)
    ensures a + b + c + (g + l + o) + h + i + e == a + b + c + g + l + o + h + i + e
  {
    assert a + b + c + (g + l + o) == a + b + c + g + l + o;
  }

  method WriteSourceElements(w: Printer, clock: Clock, byURI: map<string, string>, it: Item)
    requires NS_SOURCE != "" && NS_THREAD != "" && NS_ATOM != ""
    modifies w`buf
    ensures w.buf == old(w.buf) + ForestText(byURI, SourceElements(clock, byURI, it), w.depth)
  {
    hide ForestText;
    ghost var start, d := w.buf, w.depth;
    Nothing(start, byURI, d);
    if NS_SOURCE in byURI {
      Prefixed(byURI, NS_SOURCE, "markdown");
      Prefixed(byURI, NS_SOURCE, "inReplyTo");
      Optional(w, byURI, byURI[NS_SOURCE] + ":markdown", it.markdown, In(NS_SOURCE, "markdown", [], it.markdown));
      Optional(w, byURI, byURI[NS_SOURCE] + ":inReplyTo", it.inReplyTo, In(NS_SOURCE, "inReplyTo", [], it.inReplyTo));
      Joined(start, byURI, Opt(In(NS_SOURCE, "markdown", [], it.markdown)), Opt(In(NS_SOURCE, "inReplyTo", [], it.inReplyTo)), d);
    }
    assert w.buf == start + ForestText(byURI, MarkdownElements(byURI, it), d);
    Nothing(w.buf, byURI, d);
    WriteThread(w, byURI, it);
    Joined(start, byURI, MarkdownElements(byURI, it), ThreadElements(byURI, it), d);
    WriteComments(w, byURI, it);
    Joined(start, byURI, MarkdownElements(byURI, it) + ThreadElements(byURI, it), CommentsElements(byURI, it), d);
    WriteUpdated(w, clock, byURI, it);
    Joined(start, byURI, MarkdownElements(byURI, it) + ThreadElements(byURI, it) + CommentsElements(byURI, it),
           UpdatedElements(clock, byURI, it), d);
  }

  method WriteThread(w: Printer, byURI: map<string, string>, it: Item)
    modifies w`buf
    ensures w.buf == old(w.buf) + ForestText(byURI, ThreadElements(byURI, it), w.depth)
  {
    hide ForestText;
    Nothing(w.buf, byURI, w.depth);
    if NS_THREAD in byURI && it.inReplyTo != "" {
      Prefixed(byURI, NS_THREAD, "in-reply-to");
      Leaf(w, byURI, byURI[NS_THREAD] + ":in-reply-to", "", [("ref", it.inReplyTo)], ThreadElements(byURI, it)[0]);
    }
  }

  method WriteComments(w: Printer, byURI: map<string, string>, it: Item)
    modifies w`buf
    ensures w.buf == old(w.buf) + ForestText(byURI, CommentsElements(byURI, it), w.depth)
  {
    hide ForestText;
    Nothing(w.buf, byURI, w.depth);
    if NS_SOURCE in byURI && it.comments.Some? && it.comments.value.feedURL != "" {
      Prefixed(byURI, NS_SOURCE, "comments");
      Leaf(w, byURI, byURI[NS_SOURCE] + ":comments", "",
           [("count", Text.Itoa(it.comments.value.count)), ("feedUrl", it.comments.value.feedURL)],
           CommentsElements(byURI, it)[0]);
    }
  }

  method WriteUpdated(w: Printer, clock: Clock, byURI: map<string, string>, it: Item)
    modifies w`buf
    ensures w.buf == old(w.buf) + ForestText(byURI, UpdatedElements(clock, byURI, it), w.depth)
  {
    hide ForestText;
    Nothing(w.buf, byURI, w.depth);
    if NS_ATOM in byURI && it.updated.Some? && it.updated != it.published {
      Prefixed(byURI, NS_ATOM, "updated");
      assert QualifyAttrs(byURI, []) == [];
      Leaf(w, byURI, byURI[NS_ATOM] + ":updated", clock.rfc3339(it.updated.value), [], UpdatedElements(clock, byURI, it)[0]);
    }
  }

  method WriteForest(w: Printer, byURI: map<string, string>, els: seq<Element>)
    modifies w
    ensures w.depth == old(w.depth) && w.buf == old(w.buf) + ForestText(byURI, els, w.depth)
  {
    hide ForestText;
    ghost var start, d := w.buf, w.depth;
    Nothing(start, byURI, d);
    assert els[..0] == [];
    for i := 0 to |els|
      invariant w.depth == d && w.buf == start + ForestText(byURI, els[..i], d)
    {
      w.Element(byURI, els[i]);
      ForestStep(start, byURI, els, i, d);
    }
    assert els[..|els|] == els;
  }

  method WriteItem(w: Printer, clock: Clock, byURI: map<string, string>, it: Item)
    modifies w
    ensures w.depth == old(w.depth) && w.buf == old(w.buf) + ItemText(clock, byURI, it, w.depth)
  {
    hide ForestText, HeadElements, SourceElements, OpenText, CloseText;
    w.Open("item", []);
    ghost var start, d := w.buf, w.depth;
    WriteHead(w, clock, byURI, it);
    WriteSourceElements(w, clock, byURI, it);
    Joined(start, byURI, HeadElements(clock, it), SourceElements(clock, byURI, it), d);
    WriteForest(w, byURI, it.unknown);
    Joined(start, byURI, HeadElements(clock, it) + SourceElements(clock, byURI, it), it.unknown, d);
    w.Close("item");
  }

  method WriteAtomLinks(w: Printer, byURI: map<string, string>, f: Feed, o: Options)
    modifies w`buf
    ensures w.buf == old(w.buf) + ForestText(byURI, AtomLinks(byURI, f, o), w.depth)
  {
    hide ForestText;
    ghost var start, d := w.buf, w.depth;
    Nothing(start, byURI, d);
    if NS_ATOM in byURI {
      Prefixed(byURI, NS_ATOM, "link");
      ghost var hub := if o.hub == "" then [] else [LinkTo("hub", o.hub, [])];
      if o.hub != "" {
        Leaf(w, byURI, byURI[NS_ATOM] + ":link", "", [("rel", "hub"), ("href", o.hub)], hub[0]);
      }
      assert w.buf == start + ForestText(byURI, hub, d);
      Nothing(w.buf, byURI, d);
      if f.self != "" {
        Leaf(w, byURI, byURI[NS_ATOM] + ":link", "",
             [("rel", "self"), ("href", f.self), ("type", "application/rss+xml")],
             LinkTo("self", f.self, [Unqualified("type", "application/rss+xml")]));
      }
      Joined(start, byURI, hub, if f.self == "" then [] else [LinkTo("self", f.self, [Unqualified("type", "application/rss+xml")])], d);
    }
  }

  method WriteCloud(w: Printer, byURI: map<string, string>, o: Options)
    modifies w`buf
    ensures w.buf == old(w.buf) + ForestText(byURI, CloudElements(o), w.depth)
  {
    hide ForestText;
    Nothing(w.buf, byURI, w.depth);
    if o.cloud.Some? {
      var c := o.cloud.value;
      Leaf(w, byURI, "cloud", "",
           [("domain", c.domain), ("port", Text.Itoa(c.port)), ("path", c.path),
            ("registerProcedure", c.registerProcedure), ("protocol", c.protocol)], CloudElements(o)[0]);
    }
  }

  lemma AccountsSnoc(accounts: seq<Account>, a: Account)
    ensures AccountElements(accounts + [a]) == AccountElements(accounts) + AccountElements([a])
  {
    if accounts == [] {
      assert accounts + [a] == [a];
    } else {
      assert (accounts + [a])[1..] == accounts[1..] + [a];
      AccountsSnoc(accounts[1..], a);
    }
  }

  method WriteSelf(w: Printer, byURI: map<string, string>, f: Feed)
    modifies w`buf
    ensures w.buf == old(w.buf) + ForestText(byURI, SelfElements(byURI, f), w.depth)
  {
    hide ForestText;
    ghost var start, d := w.buf, w.depth;
    Nothing(start, byURI, d);
    if NS_SOURCE in byURI {
      Prefixed(byURI, NS_SOURCE, "self");
      Optional(w, byURI, byURI[NS_SOURCE] + ":self", f.self, In(NS_SOURCE, "self", [], f.self));
      WriteAccounts(w, byURI, f.accounts);
      Joined(start, byURI, Opt(In(NS_SOURCE, "self", [], f.self)), AccountElements(f.accounts), d);
    }
  }

  method WriteAccounts(w: Printer, byURI: map<string, string>, accounts: seq<Account>)
    requires NS_SOURCE in byURI
    modifies w`buf
    ensures w.buf == old(w.buf) + ForestText(byURI, AccountElements(accounts), w.depth)
  {
    hide ForestText;
    ghost var start, d := w.buf, w.depth;
    Nothing(start, byURI, d);
    assert accounts[..0] == [];
    for i := 0 to |accounts|
      invariant w.buf == start + ForestText(byURI, AccountElements(accounts[..i]), d)
    {
      WriteAccount(w, byURI, accounts[i]);
      Joined(start, byURI, AccountElements(accounts[..i]), AccountElements([accounts[i]]), d);
      AccountsSnoc(accounts[..i], accounts[i]);
      assert accounts[..i] + [accounts[i]] == accounts[..i + 1];
    }
    assert accounts[..|accounts|] == accounts;
  }

  method WriteAccount(w: Printer, byURI: map<string, string>, a: Account)
    requires NS_SOURCE in byURI
    modifies w`buf
    ensures w.buf == old(w.buf) + ForestText(byURI, AccountElements([a]), w.depth)
  {
    hide ForestText;
    Nothing(w.buf, byURI, w.depth);
    assert AccountElements([a]) == (if a.handle == "" then [] else [AccountElements([a])[0]]);
    if a.handle != "" {
      var list: seq<(string, string)> := [];
      if a.service != "" {
        list := list + [("service", a.service)];
      }
      Prefixed(byURI, NS_SOURCE, "account");
      Leaf(w, byURI, byURI[NS_SOURCE] + ":account", a.handle, list, AccountElements([a])[0]);
    }
  }

  lemma ItemsTextSnoc(clock: Clock, byURI: map<string, string>, items: seq<Item>, it: Item, depth: nat)
    ensures ItemsText(clock, byURI, items + [it], depth)
         == ItemsText(clock, byURI, items, depth) + ItemText(clock, byURI, it, depth)
    decreases |items|
  {
    hide ItemText;
    if items == [] {
      assert items + [it] == [it];
      assert ItemText(clock, byURI, it, depth) + "" == "" + ItemText(clock, byURI, it, depth);
    } else {
      assert (items + [it])[1..] == items[1..] + [it];
      ItemsTextSnoc(clock, byURI, items[1..], it, depth);
    }
  }

  method WriteItems(w: Printer, clock: Clock, byURI: map<string, string>, items: seq<Item>)
    modifies w
    ensures w.depth == old(w.depth) && w.buf == old(w.buf) + ItemsText(clock, byURI, items, w.depth)
  {
    hide ItemText;
    ghost var start, d := w.buf, w.depth;
    assert items[..0] == [];
    for i := 0 to |items|
      invariant w.depth == d && w.buf == start + ItemsText(clock, byURI, items[..i], d)
    {
      WriteItem(w, clock, byURI, items[i]);
      ItemsTextSnoc(clock, byURI, items[..i], items[i], d);
      Assoc(start, ItemsText(clock, byURI, items[..i], d), ItemText(clock, byURI, items[i], d));
      assert items[..i] + [items[i]] == items[..i + 1];
    }
    assert items[..|items|] == items;
  }

  method WriteChannel(w: Printer, clock: Clock, byURI: map<string, string>, f: Feed, o: Options)
    modifies w
    ensures w.depth == old(w.depth) && w.buf == old(w.buf) + ChannelText(clock, byURI, f, o, w.depth)
  {
    hide ForestText, TitleElements, AtomLinks, CloudElements, SelfElements, OpenText, CloseText, ItemsText;
    w.Open("channel", []);
    ghost var start, d := w.buf, w.depth;
    WriteTitles(w, clock, byURI, f, o);
    WriteAtomLinks(w, byURI, f, o);
    ghost var a, b, c, e := TitleElements(clock, f, o), AtomLinks(byURI, f, o), CloudElements(o), SelfElements(byURI, f);
    Joined(start, byURI, a, b, d);
    WriteCloud(w, byURI, o);
    Joined(start, byURI, a + b, c, d);
    WriteSelf(w, byURI, f);
    Joined(start, byURI, a + b + c, e, d);
    WriteForest(w, byURI, f.unknown);
    Joined(start, byURI, a + b + c + e, f.unknown, d);
    WriteItems(w, clock, byURI, f.items);
    w.Close("channel");
  }

  method RSS(clock: Clock, f: Feed, o: Options) returns (data: string)
    ensures data == RssText(clock, f, o)
  {
    hide ChannelText, OpenText, CloseText, Collected, RootAttrs, UseStep;
    var ns := new Prefixes();
    ns.Collect(f);
    if o.hub != "" || f.self != "" {
      var _ := ns.Use(NS_ATOM);
    }
    var root := Root(ns);
    var w := new Printer();
    w.buf := HEADER;
    w.Open("rss", root);
    WriteChannel(w, clock, ns.byURI, f, o);
    w.Close("rss");
    data := w.buf;
  }

  method Root(ns: Prefixes) returns (root: seq<(string, string)>)
    ensures root == RootAttrs(ns.State())
  {
    hide Declarations;
    root := [("version", "2.0")];
    ghost var all := Declarations(ns.order);
    assert all[..0] == [];
    for i := 0 to |ns.order|
      invariant root == [("version", "2.0")] + all[..i]
    {
      root := root + [("xmlns:" + ns.order[i].prefix, ns.order[i].uri)];
      assert all[..i + 1] == all[..i] + [all[i]];
    }
    assert all[..|ns.order|] == all;
  }
}
