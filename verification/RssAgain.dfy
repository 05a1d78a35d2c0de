// What a second trip through a document changes: reading what was written, putting it on top of
// what a generic parser makes of the document, writing that and reading it again.
module RssAgain {
  import opened Common
  import opened Feed
  import opened Namespaces
  import opened RoundTrip
  import opened Rss
  import opened RssDocument
  import opened RssItems
  import opened RssReads
  import opened RssScan
  import opened Scan
  import opened Xml
  import Text

  // ---- overlaying a scan ----

  function Overlaid(it: Item, s: ItemScan): Item {
    it.(guidIsPermalink := s.guidPermalink, markdown := s.markdown, inReplyTo := s.inReplyTo,
        commentsPage := s.commentsPage, comments := s.comments, source := s.source, unknown := s.unknown)
  }

  // internal/feedin/parse.go: overlay, where every item has found its own scan.
  function Overlay(parsed: Feed, scan: ChannelScan): Feed
    requires |parsed.items| == |scan.items|
  {
    parsed.(self := scan.self, accounts := scan.accounts, unknown := scan.unknown,
            items := seq(|scan.items|, i requires 0 <= i < |scan.items| => Overlaid(parsed.items[i], scan.items[i])))
  }

  // ---- what was read once is read again ----

  lemma CleanPrintable(s: string)
    ensures AllPrintable(Clean(s))
  {
    forall c | c in Clean(s) ensures IsXmlChar(c) {
      var i :| 0 <= i < |s| && Clean(s)[i] == c;
    }
  }

  lemma SeenStill(s: string)
    ensures Still(Seen(s))
  {
    CleanPrintable(s);
    var left, right := Text.TrimSpaceSpec(Clean(s));
    var core := Text.TrimSpace(Clean(s));
    assert forall c <- core :: c in left + core + right;
  }

  lemma SeenTwice(s: string)
    ensures Seen(Seen(s)) == Seen(s) && Clean(Clean(s)) == Clean(s) && Clean(Seen(s)) == Seen(s)
  {
    SeenStill(s);
    SeenIffStill(Seen(s));
    CleanPrintable(s);
    CleanIffPrintable(Clean(s));
    CleanIffPrintable(Seen(s));
  }

  lemma {:induction false} NormCanonical(el: Element)
    ensures Canonical(Norm(el))
    decreases el
  {
    SeenStill(el.text);
    forall a | a in NormAttrs(el.attrs) ensures NameCurrent(a.name) && AllPrintable(a.value) {
      var i :| 0 <= i < |el.attrs| && NormAttrs(el.attrs)[i] == a;
      CleanPrintable(el.attrs[i].value);
    }
    forall c | c in NormAll(el.children) ensures Canonical(c) {
      var i :| 0 <= i < |el.children| && NormAll(el.children)[i] == c;
      NormCanonical(el.children[i]);
    }
  }

  lemma NormTwice(els: seq<Element>)
    ensures NormAll(NormAll(els)) == NormAll(els)
  {
    forall i | 0 <= i < |els| ensures Norm(NormAll(els)[i]) == NormAll(els)[i] {
      NormCanonical(els[i]);
      CanonicalUnchanged(Norm(els[i]));
    }
  }

  lemma NormForeign(els: seq<Element>)
    requires AllForeign(els)
    ensures AllForeign(NormAll(els))
  {
    forall el | el in NormAll(els) ensures Foreign(el) {
      var i :| 0 <= i < |els| && NormAll(els)[i] == el;
      assert Foreign(els[i]) && NormName(NormName(els[i].name)) == NormName(els[i].name);
    }
  }

  lemma NormAttrShaped(a: Attr)
    requires IsNCName(a.name.local) && PrintableURI(a.name.space) && !IsNamespaceDeclaration(a)
    ensures var n := NormAttr(a); IsNCName(n.name.local) && PrintableURI(n.name.space) && !IsNamespaceDeclaration(n)
  {
    OwnPrintable();
    hide Clean, IsNCName;
  }

  lemma {:induction false} NormShaped(el: Element)
    requires Shaped(el)
    ensures Shaped(Norm(el))
    decreases el
  {
    OwnPrintable();
    hide PrintableURI, IsNCName, IsNamespaceDeclaration, Clean;
    hide Text.TrimSpace;
    forall a | a in NormAttrs(el.attrs)
      ensures IsNCName(a.name.local) && PrintableURI(a.name.space) && !IsNamespaceDeclaration(a)
    {
      var i :| 0 <= i < |el.attrs| && NormAttrs(el.attrs)[i] == a;
      NormAttrShaped(el.attrs[i]);
    }
    forall c | c in NormAll(el.children) ensures Shaped(c) {
      var i :| 0 <= i < |el.children| && NormAll(el.children)[i] == c;
      NormShaped(el.children[i]);
    }
  }

  ghost predicate AllShaped(els: seq<Element>) { forall el <- els :: Shaped(el) }

  lemma NormAllShaped(els: seq<Element>)
    requires AllShaped(els)
    ensures AllShaped(NormAll(els))
  {
    forall el | el in NormAll(els) ensures Shaped(el) {
      var i :| 0 <= i < |els| && NormAll(els)[i] == el;
      NormShaped(els[i]);
    }
  }

  // ---- one item ----

  // Whatever the generic parser made of it, an item with its scan laid over it is scanned as
  // before; only its key and whether that is an address depend on the parsed guid and link.
  lemma ItemSeenAgain(it: Item, parsed: Item)
    ensures var again := Overlaid(parsed, SeenItem(it));
            SeenItem(again) == SeenItem(it).(key := SeenKey(again), guidPermalink := again.guid == "" || again.guidIsPermalink)
  {
    hide Seen, Clean, SeenKey, NormAll;
    SeenTwice(it.markdown);
    SeenTwice(it.inReplyTo);
    SeenTwice(it.commentsPage);
    NormTwice(it.unknown);
    if it.source.Some? {
      SeenTwice(it.source.value.url);
      SeenTwice(it.source.value.name);
      CleanEmptyIff(it.source.value.url);
    }
    if it.comments.Some? {
      SeenTwice(it.comments.value.feedURL);
      CleanEmptyIff(it.comments.value.feedURL);
    }
    ReplyTwice(it.inReplyTo);
  }

  lemma CleanEmptyIff(s: string)
    ensures Clean(s) == "" <==> s == ""
  {}

  lemma ReplyTwice(s: string)
    ensures var r := if Seen(s) != "" then Seen(s) else Clean(s);
            (if Seen(r) != "" then Seen(r) else Clean(r)) == r
  {
    SeenTwice(s);
  }

  // ---- the channel ----

  lemma {:induction false} AccountsTwice(accounts: seq<Account>)
    ensures SeenAccounts(SeenAccounts(accounts)) == SeenAccounts(accounts)
  {
    if accounts != [] {
      AccountsTwice(accounts[1..]);
      SeenTwice(accounts[0].handle);
      SeenTwice(accounts[0].service);
      hide Seen, Clean;
      var more := SeenAccounts(accounts[1..]);
      if Seen(accounts[0].handle) != "" {
        var first := Account(Clean(accounts[0].service), Seen(accounts[0].handle));
        assert SeenAccounts(accounts) == [first] + more && ([first] + more)[1..] == more;
        assert SeenAccounts([first] + more) == [first] + SeenAccounts(more);
      } else {
        assert SeenAccounts(accounts) == [] + more == more;
      }
    }
  }

  predicate FitAttr(a: Attr) {
    IsNCName(a.name.local) && PrintableURI(a.name.space) && !IsNamespaceDeclaration(a)
  }

  lemma RelFits(value: string)
    ensures FitAttr(Unqualified("rel", value)) && FitAttr(Unqualified("href", value)) && FitAttr(Unqualified("type", value))
  {
    assert Clean("") == "";
  }

  lemma LeafShaped(name: Name, attrs: seq<Attr>, text: string)
    requires IsNCName(name.local) && PrintableURI(name.space) && forall a <- attrs :: FitAttr(a)
    ensures Shaped(Element(name, attrs, text, []))
  {
    hide PrintableURI, IsNCName, IsNamespaceDeclaration;
  }

  lemma LinkName()
    ensures var name := Name(NS_ATOM, "link");
            && NormName(name).space != "" && !IsItemName("link") && !Consumed(NormName(name)) && IsNCName("link")
  {}

  lemma LinkFits(rel: string, href: string, more: seq<Attr>)
    requires forall a <- more :: FitAttr(a)
    ensures Foreign(LinkTo(rel, href, more)) && Shaped(LinkTo(rel, href, more))
  {
    hide PrintableURI, IsNCName, IsNamespaceDeclaration, FitAttr, Unqualified, NormName, Consumed, IsItemName, Shaped;
    LinkName();
    OwnPrintable();
    RelFits(rel);
    RelFits(href);
    LeafShaped(Name(NS_ATOM, "link"), [Unqualified("rel", rel), Unqualified("href", href)] + more, "");
  }

  ghost predicate Fit(els: seq<Element>) { AllForeign(els) && AllShaped(els) }

  lemma HubFits(o: Options)
    ensures Fit(if o.hub == "" then [] else [LinkTo("hub", o.hub, [])])
  {
    hide LinkTo, Foreign, Shaped, FitAttr;
    LinkFits("hub", o.hub, []);
  }

  lemma SelfFits(f: Feed)
    ensures Fit(if f.self == "" then [] else [LinkTo("self", f.self, [Unqualified("type", "application/rss+xml")])])
  {
    hide LinkTo, Foreign, Shaped, FitAttr, Unqualified;
    RelFits("application/rss+xml");
    LinkFits("self", f.self, [Unqualified("type", "application/rss+xml")]);
  }

  lemma FitTogether(a: seq<Element>, b: seq<Element>)
    requires Fit(a) && Fit(b)
    ensures Fit(a + b)
  {
    hide Foreign, Shaped;
  }

  lemma LinksFit(byURI: map<string, string>, f: Feed, o: Options)
    ensures Fit(AtomLinks(byURI, f, o))
  {
    hide LinkTo, Unqualified, Foreign, Shaped;
    var a := if o.hub == "" then [] else [LinkTo("hub", o.hub, [])];
    var b := if f.self == "" then [] else [LinkTo("self", f.self, [Unqualified("type", "application/rss+xml")])];
    HubFits(o);
    SelfFits(f);
    FitTogether(a, b);
  }

  // A hub and an address of the feed's own are each written as a link.
  lemma LinkCount(f: Feed, o: Options)
    requires ShapedFeed(f)
    ensures |AtomLinks(TableFor(f, o).byURI, f, o)| == (if o.hub == "" then 0 else 1) + (if f.self == "" then 0 else 1)
  {
    hide ShapedFeed, TableFor, Valid, PrintableTable, AllWellnamed, UsesSource, UsesThreading, UsesAtom;
    TableForFeed(f, o);
  }

  lemma OverlaySound(f: Feed, parsed: Feed, scan: ChannelScan, links: seq<Element>)
    requires ShapedFeed(f) && ForeignFeed(f) && |parsed.items| == |f.items| == |scan.items|
    requires AllForeign(links) && AllShaped(links) && scan.unknown == NormAll(links) + NormAll(f.unknown)
    requires scan.items == SeenItems(f.items)
    ensures ShapedFeed(Overlay(parsed, scan)) && ForeignFeed(Overlay(parsed, scan))
  {
    NormForeign(links);
    NormForeign(f.unknown);
    NormAllShaped(links);
    NormAllShaped(f.unknown);
    hide Foreign, Shaped, Norm;
    var g := Overlay(parsed, scan);
    forall it | it in g.items ensures AllForeign(it.unknown) && AllShaped(it.unknown) {
      var i :| 0 <= i < |g.items| && g.items[i] == it;
      assert f.items[i] in f.items && it.unknown == NormAll(f.items[i].unknown);
      NormForeign(f.items[i].unknown);
      NormAllShaped(f.items[i].unknown);
    }
  }

  // Read, written, read again: whatever the generic parser made of the document, the channel's
  // address, the accounts and everything scanned of the items stay; of the unknown elements none
  // is lost, but the links of the second writing are put before them.
  lemma SecondTrip(clock: Clock, f: Feed, o: Options, parsed: Feed, o': Options)
    requires ShapedFeed(f) && ForeignFeed(f) && f.items != [] && |parsed.items| == |f.items|
    ensures var first := ScanXML(RssText(clock, f, o));
            && first.Ok? && |first.value.items| == |parsed.items|
            && var g := Overlay(parsed, first.value);
               var second := ScanXML(RssText(clock, g, o'));
            && ShapedFeed(g) && ForeignFeed(g)
            && second.Ok? && second.value.self == first.value.self && second.value.accounts == first.value.accounts
            && second.value.unknown == NormAll(AtomLinks(TableFor(g, o').byURI, g, o')) + first.value.unknown
            && |second.value.items| == |f.items|
            && (forall i :: 0 <= i < |f.items| ==>
                 second.value.items[i] == first.value.items[i].(key := SeenKey(g.items[i]),
                   guidPermalink := g.items[i].guid == "" || g.items[i].guidIsPermalink))
            && (second.value.unknown == first.value.unknown <==> o'.hub == "" && first.value.self == "")
  {
    hide ShapedFeed, ForeignFeed, ScanXML, RssText, AtomLinks, TableFor, NormAll, Seen, SeenAccounts, SeenItem, SeenKey, AllForeign, AllShaped;
    FeedReadsBack(clock, f, o);
    var first := ScanXML(RssText(clock, f, o)).value;
    var links := AtomLinks(TableFor(f, o).byURI, f, o);
    LinksFit(TableFor(f, o).byURI, f, o);
    var g := Overlay(parsed, first);
    OverlaySound(f, parsed, first, links);
    FeedReadsBack(clock, g, o');
    SeenTwice(f.self);
    AccountsTwice(f.accounts);
    UnknownTwice(links, f.unknown);
    LinkCount(g, o');
    forall i | 0 <= i < |f.items|
      ensures SeenItem(g.items[i]) == SeenItem(f.items[i]).(key := SeenKey(g.items[i]),
                guidPermalink := g.items[i].guid == "" || g.items[i].guidIsPermalink)
    {
      ItemSeenAgain(f.items[i], parsed.items[i]);
    }
  }

  lemma UnknownTwice(links: seq<Element>, els: seq<Element>)
    ensures NormAll(NormAll(links) + NormAll(els)) == NormAll(links) + NormAll(els)
  {
    NormTwice(links);
    NormTwice(els);
    hide Norm;
    NormAllAppend(NormAll(links), NormAll(els));
  }

  function Links(o: Options, self: string): nat { (if o.hub == "" then 0 else 1) + (if self == "" then 0 else 1) }

  // How many unknown elements there are after one trip and after two.
  lemma UnknownGrow(clock: Clock, f: Feed, o: Options)
    requires ShapedFeed(f) && ForeignFeed(f) && f.items != []
    ensures var first := ScanXML(RssText(clock, f, o));
            && first.Ok? && |first.value.items| == |f.items| && |first.value.unknown| == |f.unknown| + Links(o, f.self)
            && var second := ScanXML(RssText(clock, Overlay(f, first.value), o));
            && second.Ok? && |second.value.unknown| == |first.value.unknown| + Links(o, Seen(f.self))
  {
    hide ScanXML, RssText, AtomLinks, TableFor, Seen, SeenKey, SeenItem, ShapedFeed, ForeignFeed;
    FeedReadsBack(clock, f, o);
    var first := ScanXML(RssText(clock, f, o)).value;
    SecondTrip(clock, f, o, f, o);
    LinkCount(f, o);
    LinkCount(Overlay(f, first), o);
  }

  const BARE := Options("", "", "", None, None)

  // A feed with an address and one item.
  function AddressedFeed(): (f: Feed)
    ensures ShapedFeed(f) && ForeignFeed(f) && f.items != [] && f.unknown == [] && f.self == "urn:f"
  {
    Feed("", "", "", "", None, "urn:f", [],
         [Item("1", false, "", "", "", "", "", None, None, "", "", None, None, [], [])], [])
  }

  lemma AddressSeen()
    ensures Seen("urn:f") == "urn:f" && Links(BARE, "urn:f") == 1
  {
    SeenIffStill("urn:f");
    assert Still("urn:f");
  }

  // Its own link is unknown to the scanner, and doubled by the second writing.
  lemma OwnLinkDoubles(clock: Clock)
    ensures var f := AddressedFeed();
            var first := ScanXML(RssText(clock, f, BARE));
            && first.Ok? && |first.value.unknown| == 1 && |first.value.items| == |f.items|
            && var second := ScanXML(RssText(clock, Overlay(f, first.value), BARE));
            && second.Ok? && |second.value.unknown| == 2
  {
    hide ScanXML, RssText, Overlay, Seen, Links, AddressedFeed, ShapedFeed, ForeignFeed;
    AddressSeen();
    UnknownGrow(clock, AddressedFeed(), BARE);
  }
}
