// The characters, names and prefixes feeds are written and read with, spelled out.
module FeedWords {
  import opened Common
  import opened Feed
  import opened Decode
  import opened Namespaces
  import opened RssFields
  import opened Scan
  import opened Writer
  import opened Xml
  import Text

  // ---- characters ----

  predicate Carried(c: char) {
    var n := c as int;
    n == 9 || n == 10 || n == 13 || 0x20 <= n <= 0xD7FF || 0xE000 <= n <= 0xFFFD || n >= 0x10000
  }

  // The eight characters written as references.
  lemma QuotesTell()
    ensures EscapeChar('"') == "&#34;" && EscapeChar('\'') == "&#39;"
  {
    hide CleanChar;
  }

  lemma MarkupTells()
    ensures EscapeChar('&') == "&amp;" && EscapeChar('<') == "&lt;" && EscapeChar('>') == "&gt;"
  {
    hide CleanChar;
  }

  lemma SpacesTell()
    ensures EscapeChar('\t') == "&#x9;" && EscapeChar('\n') == "&#xA;" && EscapeChar('\r') == "&#xD;"
  {
    hide CleanChar;
  }

  // Everything else stands for itself, unless XML cannot carry it.
  lemma CharactersTell(c: char)
    requires c != '"' && c != '\'' && c != '&' && c != '<' && c != '>' && c != '\t' && c != '\n' && c != '\r'
    ensures EscapeChar(c) == [if Carried(c) then c else '\U{FFFD}']
  {
    CleanTells(c);
    hide CleanChar, Carried;
  }

  lemma CleanTells(c: char)
    ensures CleanChar(c) == if Carried(c) then c else '\U{FFFD}'
  {}

  // ---- prefixes ----

  // The prefixes of the namespaces that have one of their own.
  lemma WellKnownTells()
    ensures WellKnown("https://source.scripting.com/") == Some("source")
    ensures WellKnown("http://purl.org/syndication/thread/1.0") == Some("thr")
    ensures WellKnown("http://www.w3.org/2005/Atom") == Some("atom")
    ensures WellKnown("http://purl.org/rss/1.0/modules/content/") == Some("content")
    ensures WellKnown("http://purl.org/dc/elements/1.1/") == Some("dc")
    ensures WellKnown("http://search.yahoo.com/mrss/") == Some("media")
    ensures WellKnown("http://www.itunes.com/dtds/podcast-1.0.dtd") == Some("itunes")
    ensures WellKnown("http://purl.org/rss/1.0/modules/slash/") == Some("slash")
    ensures WellKnown("http://purl.org/rss/1.0/modules/syndication/") == Some("sy")
    ensures WellKnown("http://wellformedweb.org/CommentAPI/") == Some("wfw")
    ensures CanonicalSpace("http://source.scripting.com/") == "https://source.scripting.com/"
  {}

  // ---- what a reader takes from any item ----

  function TextOf(found: seq<Element>): string { if found == [] then "" else found[0].text }

  function AttrOfFirst(found: seq<Element>, local: string): string { if found == [] then "" else AttrOf(found[0], local) }

  function Or(a: string, b: string): string { if a != "" then a else b }

  lemma {:induction false} FirstNamed(els: seq<Element>, space: string, local: string)
    ensures ChildIn(els, space, local) == if Named(els, space, local) == [] then None else Some(Named(els, space, local)[0])
  {
    if els != [] {
      FirstNamed(els[1..], space, local);
      if els[0].name != Name(space, local) { assert [] + Named(els[1..], space, local) == Named(els[1..], space, local); }
    }
  }

  lemma TextNamed(el: Element, space: string, local: string)
    ensures ChildText(el, space, local) == TextOf(Named(el.children, space, local))
  {
    FirstNamed(el.children, space, local);
    hide ChildIn, Named;
  }

  predicate SaysFalse(v: string) {
    |v| == 5 && v[0] in "fF" && v[1] in "aA" && v[2] in "lL" && v[3] in "sS\U{17F}" && v[4] in "eE"
  }

  lemma FoldsToFalse(v: string)
    ensures EqualFold(v, "false") <==> SaysFalse(v)
  {}

  // Texts and addresses: the item's own, then what else may stand for them.
  lemma KeyTells(el: Element)
    ensures var cs, key := el.children, ScanItem(el).key;
            key == Or(TextOf(Named(cs, "", "guid")),
                      Or(TextOf(Named(cs, "http://www.w3.org/2005/Atom", "id")),
                         Or(TextOf(Named(cs, "", "link")), FirstHref(cs))))
  {
    TextNamed(el, "", "guid");
    TextNamed(el, NS_ATOM, "id");
    TextNamed(el, "", "link");
    hide Named, ChildText, FirstHref, PermalinkOf, ReplyOf, OriginOf, CommentsOf, UnknownIn;
  }

  lemma TextsTell(el: Element)
    ensures var cs, item := el.children, ScanItem(el);
            && item.markdown == TextOf(Named(cs, "https://source.scripting.com/", "markdown"))
            && item.commentsPage == TextOf(Named(cs, "", "comments"))
            && item.inReplyTo == Or(TextOf(Named(cs, "https://source.scripting.com/", "inReplyTo")),
                                    Or(AttrOfFirst(Named(cs, "http://purl.org/syndication/thread/1.0", "in-reply-to"), "ref"),
                                       AttrOfFirst(Named(cs, "http://purl.org/syndication/thread/1.0", "in-reply-to"), "href")))
  {
    TextNamed(el, NS_SOURCE, "markdown");
    TextNamed(el, "", "comments");
    TextNamed(el, NS_SOURCE, "inReplyTo");
    FirstNamed(el.children, NS_THREAD, "in-reply-to");
    hide Named, ChildText, ChildIn, KeyOf, PermalinkOf, OriginOf, CommentsOf, UnknownIn, AttrOf;
    ReplyTells(el);
  }

  lemma TwoChoices(a: string, b: string)
    ensures FirstNonEmpty([a, b]) == Or(a, b)
  {
    assert [a, b][1..] == [b] && [b][1..] == [];
    assert FirstNonEmpty([]) == "" && FirstNonEmpty([b]) == b;
  }

  lemma ReplyTells(el: Element)
    ensures var thread := Child(el, NS_THREAD, "in-reply-to");
            ReplyOf(el) == Or(ChildText(el, NS_SOURCE, "inReplyTo"),
                              if thread.None? then "" else Or(AttrOf(thread.value, "ref"), AttrOf(thread.value, "href")))
  {
    var thread := Child(el, NS_THREAD, "in-reply-to");
    if thread.Some? { TwoChoices(AttrOf(thread.value, "ref"), AttrOf(thread.value, "href")); }
    hide ChildIn, AttrOf, ChildText, FirstNonEmpty;
  }

  lemma ThreeChoices(a: string, b: string, c: string)
    ensures FirstNonEmpty([a, b, c]) == Or(a, Or(b, c))
  {
    TwoChoices(b, c);
    assert [a, b, c][1..] == [b, c];
  }

  // The flag of the key, where the item came from, and its comments.
  lemma ExtrasTell(el: Element)
    ensures var cs, item := el.children, ScanItem(el);
            var guid, source, comments := Named(cs, "", "guid"), Named(cs, "", "source"),
                                          Named(cs, "https://source.scripting.com/", "comments");
            && (item.guidPermalink <==> !SaysFalse(Text.TrimSpace(AttrOfFirst(guid, "isPermaLink"))))
            && item.source == (if AttrOfFirst(source, "url") == "" && Text.TrimSpace(TextOf(source)) == "" then None
                               else Some(Origin(AttrOfFirst(source, "url"), Text.TrimSpace(TextOf(source)))))
            && (item.comments.None? <==> comments == [])
            && (comments != [] ==>
                  item.comments == Some(Comments(
                    match Text.Atoi(Text.TrimSpace(AttrOfFirst(comments, "count"))) case Some(n) => n case None => 0,
                    Or(AttrOfFirst(comments, "feedUrl"), Or(AttrOfFirst(comments, "feedurl"), TextOf(comments))))))
  {
    PermalinkTells(el);
    OriginTells(el);
    CommentsTell(el);
    hide Named, KeyOf, PermalinkOf, ReplyOf, OriginOf, CommentsOf, UnknownIn, ChildText, SaysFalse, AttrOf, Or;
    hide Text.TrimSpace, Text.Atoi;
  }

  lemma PermalinkTells(el: Element)
    ensures PermalinkOf(el) <==> !SaysFalse(Text.TrimSpace(AttrOfFirst(Named(el.children, "", "guid"), "isPermaLink")))
  {
    var guid := Named(el.children, "", "guid");
    FirstNamed(el.children, "", "guid");
    BlankNotFalse();
    FoldsToFalse(Text.TrimSpace(AttrOfFirst(guid, "isPermaLink")));
    hide ChildIn, Named, AttrOf, SaysFalse, EqualFold;
    hide Text.TrimSpace;
  }

  lemma BlankNotFalse()
    ensures !SaysFalse(Text.TrimSpace(""))
  {}

  lemma OriginTells(el: Element)
    ensures var source := Named(el.children, "", "source");
            OriginOf(el) == if AttrOfFirst(source, "url") == "" && Text.TrimSpace(TextOf(source)) == "" then None
                            else Some(Origin(AttrOfFirst(source, "url"), Text.TrimSpace(TextOf(source))))
  {
    FirstNamed(el.children, "", "source");
    assert Text.TrimSpace("") == "";
    hide ChildIn, Named, AttrOf;
    hide Text.TrimSpace;
  }

  lemma CommentsTell(el: Element)
    ensures var found := Named(el.children, NS_SOURCE, "comments");
            CommentsOf(el) == if found == [] then None else Some(Comments(
              match Text.Atoi(Text.TrimSpace(AttrOfFirst(found, "count"))) case Some(n) => n case None => 0,
              Or(AttrOfFirst(found, "feedUrl"), Or(AttrOfFirst(found, "feedurl"), TextOf(found)))))
  {
    var found := Named(el.children, NS_SOURCE, "comments");
    FirstNamed(el.children, NS_SOURCE, "comments");
    ThreeChoices(AttrOfFirst(found, "feedUrl"), AttrOfFirst(found, "feedurl"), TextOf(found));
    hide ChildIn, Named, AttrOf, FirstNonEmpty, Or;
    hide Text.TrimSpace, Text.Atoi;
  }

  // ---- a whole document ----

  // The channel's own address and accounts, and the items: the direct ones, or else those further
  // down, by either name.
  lemma DocumentTells(root: Element)
    ensures var boxes := Named(root.children, "", "channel");
            var box := if boxes == [] then root else boxes[0];
            var scan := ScanRoot(root);
            && scan.self == TextOf(Named(box.children, "https://source.scripting.com/", "self"))
            && scan.accounts == AccountsOf(Named(box.children, "https://source.scripting.com/", "account"))
            && scan.items == ScanItems(if DirectItems(box.children) != [] then DirectItems(box.children)
                                       else if Descendants(root, "item") != [] then Descendants(root, "item")
                                       else Descendants(root, "entry"))
  {
    FirstNamed(root.children, "", "channel");
    var box := Container(root);
    TextNamed(box, NS_SOURCE, "self");
    AccountsNamed(box.children);
    ItemsDirect(box.children);
    hide ChildIn, Named, ChildText, AccountsIn, ItemsIn, UnknownIn, ScanItems, AccountsOf, DirectItems, Descendants;
  }

  function AccountsOf(found: seq<Element>): seq<Account> {
    if found == [] then []
    else if Text.TrimSpace(found[0].text) == "" then AccountsOf(found[1..])
    else [Account(AttrOf(found[0], "service"), Text.TrimSpace(found[0].text))] + AccountsOf(found[1..])
  }

  lemma {:induction false} AccountsNamed(children: seq<Element>)
    ensures AccountsIn(children) == AccountsOf(Named(children, NS_SOURCE, "account"))
  {
    hide AttrOf;
    hide Text.TrimSpace;
    if children != [] {
      AccountsNamed(children[1..]);
      var more := Named(children[1..], NS_SOURCE, "account");
      assert ([children[0]] + more)[1..] == more && [] + more == more;
    }
  }

  function DirectItems(children: seq<Element>): seq<Element> {
    if children == [] then []
    else if children[0].name.local in ["item", "entry"] then [children[0]] + DirectItems(children[1..])
    else DirectItems(children[1..])
  }

  lemma {:induction false} ItemsDirect(children: seq<Element>)
    ensures ItemsIn(children) == DirectItems(children)
  {
    if children != [] { ItemsDirect(children[1..]); }
  }

  // ---- the look of it ----

  const LEAF := Element(Name("", "c"), [], "x", [])
  const BARE := Element(Name("", "d"), [], "", [])
  const TREE := Element(Name("", "a"), [Attr(Name("", "b"), "1")], "", [LEAF, BARE])

  lemma LeafLooks()
    ensures ElementText(map[], LEAF, 1) == "\t<c>x</c>\n" && ElementText(map[], BARE, 1) == "\t<d/>\n"
  {
    assert Tabs(1) == "\t";
    assert Escape("x") == "x" by { assert EscapeChar('x') == "x"; assert "x"[1..] == ""; }
    assert QualifyAttrs(map[], []) == [];
  }

  // An element of two, with an attribute: a line each, indented by a tab, closed in itself when
  // it is empty.
  lemma TreeLooks()
    ensures ElementText(map[], TREE, 0) == "<a b=\"1\">\n" + "\t<c>x</c>\n" + "\t<d/>\n" + "</a>\n"
  {
    LeafLooks();
    assert Tabs(0) == "";
    assert Escape("1") == "1" by { assert EscapeChar('1') == "1"; assert "1"[1..] == ""; }
    var list := QualifyAttrs(map[], TREE.attrs);
    assert list == [("b", "1")];
    assert AttrText(list) == " b=\"1\"" by { assert list[1..] == []; assert AttrText([]) == ""; }
    assert OpenText(0, "a", list) == "<a b=\"1\">\n";
    hide Escape;
    var els := [LEAF, BARE];
    assert els[1..] == [BARE] && [BARE][1..] == [];
    assert ForestText(map[], [BARE], 1) == "\t<d/>\n" + "";
    assert ForestText(map[], els, 1) == "\t<c>x</c>\n" + "\t<d/>\n";
  }
}
