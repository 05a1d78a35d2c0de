// Scanning the document a feed is written as.
module RssScan {
  import opened Common
  import opened Feed
  import opened Decode
  import opened RoundTrip
  import opened Namespaces
  import opened Rss
  import opened RssReads
  import opened RssDocument
  import opened RssItems
  import opened Scan
  import opened Xml
  import Text

  function SeenAccounts(accounts: seq<Account>): seq<Account> {
    if accounts == [] then []
    else
      (if Seen(accounts[0].handle) == "" then [] else [Account(Clean(accounts[0].service), Seen(accounts[0].handle))])
      + SeenAccounts(accounts[1..])
  }

  function SeenItems(items: seq<Item>): (r: seq<ItemScan>)
    ensures |r| == |items| && forall i :: 0 <= i < |r| ==> r[i] == SeenItem(items[i])
  {
    seq(|items|, i requires 0 <= i < |items| => SeenItem(items[i]))
  }

  // ---- the children of the channel ----

  predicate IsItem(el: Element) { el.name == Name("", "item") }

  lemma {:induction false} ItemsStandApart(trees: seq<Element>, name: Name)
    requires forall el <- trees :: IsItem(el)
    requires name.space != ""
    ensures ChildIn(trees, name.space, name.local) == None
    ensures AccountsIn(trees) == [] && UnknownIn(trees) == [] && ItemsIn(trees) == trees
  {
    if trees != [] {
      assert trees[0] in trees;
      ItemsStandApart(trees[1..], name);
    }
  }

  lemma {:induction false} AccountsInAppend(a: seq<Element>, b: seq<Element>)
    ensures AccountsIn(a + b) == AccountsIn(a) + AccountsIn(b)
  {
    if a == [] {
      assert a + b == b;
    } else {
      assert (a + b)[1..] == a[1..] + b;
      AccountsInAppend(a[1..], b);
    }
  }

  lemma {:induction false} ItemsInAppend(a: seq<Element>, b: seq<Element>)
    ensures ItemsIn(a + b) == ItemsIn(a) + ItemsIn(b)
  {
    if a == [] {
      assert a + b == b;
    } else {
      assert (a + b)[1..] == a[1..] + b;
      ItemsInAppend(a[1..], b);
    }
  }

  predicate IsAccount(el: Element) { NormName(el.name) == Name(NS_SOURCE, "account") }

  lemma {:induction false} NoAccounts(els: seq<Element>)
    requires forall el <- els :: !IsAccount(el)
    ensures AccountsIn(NormAll(els)) == []
  {
    if els != [] {
      assert NormAll(els) == [Norm(els[0])] + NormAll(els[1..]);
      assert els[0] in els;
      NoAccounts(els[1..]);
    }
  }

  lemma {:induction false} NoItems(els: seq<Element>)
    requires forall el <- els :: !IsItemName(el.name.local)
    ensures ItemsIn(NormAll(els)) == []
  {
    if els != [] {
      assert NormAll(els) == [Norm(els[0])] + NormAll(els[1..]);
      assert els[0] in els;
      NoItems(els[1..]);
    }
  }

  lemma AccountRead(a: Account)
    ensures AccountsIn(NormAll(AccountElements([a]))) == SeenAccounts([a])
  {
    assert AccountElements([]) == [] && SeenAccounts([]) == [];
    SeenEmpty();
    if a.handle != "" {
      var attrs := if a.service == "" then [] else [Unqualified("service", a.service)];
      var el := In(NS_SOURCE, "account", attrs, a.handle);
      NormOne("service", a.service);
      OwnNorm(el);
      SeenTwice(a.handle);
      assert Clean("") == "";
      hide Seen, Clean;
      assert AccountElements([a]) == [el];
      assert NormAll([el]) == [Norm(el)];
      assert AttrOf(Norm(el), "service") == Clean(a.service);
      AccountsOne(Norm(el));
    }
  }

  lemma AccountsOne(el: Element)
    requires el.name == Name(NS_SOURCE, "account")
    ensures var handle := Text.TrimSpace(el.text);
            AccountsIn([el]) == if handle == "" then [] else [Account(AttrOf(el, "service"), handle)]
  {
    assert [el][1..] == [];
  }

  lemma {:induction false} AccountsRead(accounts: seq<Account>)
    ensures AccountsIn(NormAll(AccountElements(accounts))) == SeenAccounts(accounts)
  {
    hide AccountsIn, NormAll, Seen, Clean;
    if accounts == [] {
      assert NormAll([]) == [];
      NoAccounts([]);
    } else {
      AccountRead(accounts[0]);
      AccountsRead(accounts[1..]);
      var first, more := AccountElements([accounts[0]]), AccountElements(accounts[1..]);
      assert AccountElements([]) == [] && first + more == AccountElements(accounts);
      assert SeenAccounts([]) == [] && SeenAccounts([accounts[0]]) + SeenAccounts(accounts[1..]) == SeenAccounts(accounts);
      NormAllAppend(first, more);
      AccountsInAppend(NormAll(first), NormAll(more));
    }
  }

  // What one stretch of the channel's own elements holds for the scanner.
  datatype Stretch = Stretch(self: Option<Element>, accounts: seq<Account>, unknown: seq<Element>, items: seq<Element>)

  function StretchOf(els: seq<Element>): Stretch {
    Stretch(ChildIn(els, NS_SOURCE, "self"), AccountsIn(els), UnknownIn(els), ItemsIn(els))
  }

  function Both(a: Stretch, b: Stretch): Stretch {
    Stretch(OrElse(a.self, b.self), a.accounts + b.accounts, a.unknown + b.unknown, a.items + b.items)
  }

  const NOTHING := Stretch(None, [], [], [])

  lemma BothNothing(a: Stretch)
    ensures Both(NOTHING, a) == a == Both(a, NOTHING)
  {}

  lemma StretchAppend(a: seq<Element>, b: seq<Element>)
    ensures StretchOf(a + b) == Both(StretchOf(a), StretchOf(b))
  {
    hide ChildIn, AccountsIn, UnknownIn, ItemsIn;
    ChildInAppend(a, b, Name(NS_SOURCE, "self"));
    AccountsInAppend(a, b);
    UnknownInAppend(a, b);
    ItemsInAppend(a, b);
  }

  function Written(els: seq<Element>): Stretch { StretchOf(NormAll(els)) }

  lemma WrittenAppend(a: seq<Element>, b: seq<Element>)
    ensures Written(a + b) == Both(Written(a), Written(b))
  {
    hide StretchOf;
    NormAllAppend(a, b);
    StretchAppend(NormAll(a), NormAll(b));
  }

  predicate Unnoticed(els: seq<Element>) {
    forall el <- els :: NormName(el.name).space == "" && !IsItemName(el.name.local)
  }

  lemma UnnoticedNothing(els: seq<Element>)
    requires Unnoticed(els)
    ensures Written(els) == NOTHING
  {
    SeekLacking(els, Name(NS_SOURCE, "self"));
    NoAccounts(els);
    NoItems(els);
    PlainNotUnknown(els);
  }

  lemma {:induction false} PlainNotUnknown(els: seq<Element>)
    requires Unnoticed(els)
    ensures UnknownIn(NormAll(els)) == []
  {
    if els != [] {
      assert NormAll(els) == [Norm(els[0])] + NormAll(els[1..]);
      assert els[0] in els;
      PlainNotUnknown(els[1..]);
    }
  }

  lemma ForeignWritten(els: seq<Element>)
    requires AllForeign(els)
    ensures Written(els) == Stretch(None, [], NormAll(els), [])
  {
    ForeignLacks(els, Name(NS_SOURCE, "self"));
    NoAccounts(els);
    NoItems(els);
    ForeignUnknown(els);
  }

  lemma TitlesWritten(clock: Clock, f: Feed, o: Options)
    ensures Written(TitleElements(clock, f, o)) == NOTHING
  {
    var els := TitleElements(clock, f, o);
    assert Unnoticed(Opt(Plain("title", f.title))) && Unnoticed(Opt(Plain("link", f.link)));
    assert Unnoticed(Opt(Plain("description", f.description))) && Unnoticed(Opt(Plain("language", f.language)));
    assert Unnoticed(Opt(Plain("pubDate", Rfc822(clock, f.updated))));
    assert Unnoticed(Opt(Plain("lastBuildDate", Rfc822(clock, o.buildTime))));
    assert Unnoticed(Opt(Plain("generator", o.generator))) && Unnoticed(Opt(Plain("docs", o.docs)));
    hide Opt, Plain, Rfc822, Written;
    assert Unnoticed(els);
    UnnoticedNothing(els);
  }

  lemma SelfAlone(address: string)
    ensures var w := Written(Opt(In(NS_SOURCE, "self", [], address)));
            && (match w.self case Some(c) => c.text case None => "") == Seen(address)
            && w.accounts == [] && w.unknown == [] && w.items == []
  {
    var self := In(NS_SOURCE, "self", [], address);
    OptText(self);
    hide NormAll, ChildIn, AccountsIn, UnknownIn, ItemsIn, Seen;
    NoAccounts(Opt(self));
    NoItems(Opt(self));
    KnownNotUnknown(Opt(self));
  }

  lemma AccountsWritten(accounts: seq<Account>)
    ensures Written(AccountElements(accounts)) == Stretch(None, SeenAccounts(accounts), [], [])
  {
    hide NormAll, ChildIn, AccountsIn, UnknownIn, ItemsIn, Seen, AccountElements, SeenAccounts;
    var els := AccountElements(accounts);
    AccountsRead(accounts);
    AccountsAreAccounts(accounts);
    SeekLacking(els, Name(NS_SOURCE, "self"));
    NoItems(els);
    KnownNotUnknown(els);
  }

  lemma SelfWritten(byURI: map<string, string>, f: Feed)
    requires f.self != "" || |f.accounts| > 0 ==> NS_SOURCE in byURI
    ensures Written(SelfElements(byURI, f)).accounts == SeenAccounts(f.accounts)
    ensures Written(SelfElements(byURI, f)).unknown == [] && Written(SelfElements(byURI, f)).items == []
    ensures (match Written(SelfElements(byURI, f)).self case Some(c) => c.text case None => "") == Seen(f.self)
  {
    SeenEmpty();
    hide Seen, AccountElements, Opt, Written, In, Unnoticed;
    if NS_SOURCE in byURI {
      hide SeenAccounts;
      SelfAlone(f.self);
      AccountsWritten(f.accounts);
      WrittenAppend(Opt(In(NS_SOURCE, "self", [], f.self)), AccountElements(f.accounts));
    } else {
      NothingUnnoticed();
      UnnoticedNothing([]);
    }
  }

  lemma NothingUnnoticed()
    ensures Unnoticed([])
  {}

  lemma {:induction false} AccountsAreAccounts(accounts: seq<Account>)
    ensures forall el <- AccountElements(accounts) ::
              el.name == Name(NS_SOURCE, "account") && el.children == [] && Known(el) && el.name.local != "link"
    ensures AllOwn(AccountElements(accounts))
  {
    if accounts != [] { AccountsAreAccounts(accounts[1..]); }
  }

  lemma LinksAndCloudWritten(byURI: map<string, string>, f: Feed, o: Options)
    ensures Written(AtomLinks(byURI, f, o)) == Stretch(None, [], NormAll(AtomLinks(byURI, f, o)), [])
    ensures Written(CloudElements(o)) == NOTHING
  {
    assert AllForeign(AtomLinks(byURI, f, o));
    assert Unnoticed(CloudElements(o));
    hide Written, AtomLinks, CloudElements;
    ForeignWritten(AtomLinks(byURI, f, o));
    UnnoticedNothing(CloudElements(o));
  }

  lemma HeadWritten(clock: Clock, byURI: map<string, string>, f: Feed, o: Options)
    requires AllForeign(f.unknown)
    requires f.self != "" || |f.accounts| > 0 ==> NS_SOURCE in byURI
    ensures var head := Written(ChannelHead(clock, byURI, f, o));
            && (match head.self case Some(c) => c.text case None => "") == Seen(f.self)
            && head.accounts == SeenAccounts(f.accounts)
            && head.unknown == NormAll(AtomLinks(byURI, f, o)) + NormAll(f.unknown)
            && head.items == []
  {
    var a, b, c, d := TitleElements(clock, f, o), AtomLinks(byURI, f, o), CloudElements(o), SelfElements(byURI, f);
    hide Written, TitleElements, AtomLinks, CloudElements, SelfElements, NormAll, SeenAccounts, Seen, AllForeign;
    TitlesWritten(clock, f, o);
    LinksAndCloudWritten(byURI, f, o);
    SelfWritten(byURI, f);
    ForeignWritten(f.unknown);
    ThreeWritten(a, b, c);
    WrittenAppend(a + b + c, d);
    WrittenAppend(a + b + c + d, f.unknown);
    NormJoined(NormAll(b), [], NormAll(f.unknown));
  }

  lemma ThreeWritten(a: seq<Element>, b: seq<Element>, c: seq<Element>)
    requires Written(a) == NOTHING && Written(c) == NOTHING
    ensures Written(a + b + c) == Written(b)
  {
    hide Written, Both;
    WrittenAppend(a, b);
    WrittenAppend(a + b, c);
    BothNothing(Written(b));
  }

  lemma NormJoined(a: seq<Element>, b: seq<Element>, c: seq<Element>)
    requires b == []
    ensures a + b + c == a + c
  {}

  // ---- the channel ----

  lemma ChannelWritten(clock: Clock, byURI: map<string, string>, f: Feed, o: Options)
    requires AllForeign(f.unknown)
    requires f.self != "" || |f.accounts| > 0 ==> NS_SOURCE in byURI
    ensures var all := StretchOf(ChannelChildren(clock, byURI, f, o));
            && (match all.self case Some(c) => c.text case None => "") == Seen(f.self)
            && all.accounts == SeenAccounts(f.accounts)
            && all.unknown == NormAll(AtomLinks(byURI, f, o)) + NormAll(f.unknown)
            && all.items == ItemTrees(clock, byURI, f.items)
  {
    hide ChannelHead, ItemTrees, NormAll, AtomLinks, SeenAccounts, Seen, AllForeign, ChildIn, AccountsIn, UnknownIn, ItemsIn;
    var trees := ItemTrees(clock, byURI, f.items);
    HeadWritten(clock, byURI, f, o);
    TreesAreItems(clock, byURI, f.items);
    ItemsStandApart(trees, Name(NS_SOURCE, "self"));
    StretchAppend(NormAll(ChannelHead(clock, byURI, f, o)), trees);
  }

  lemma TreesAreItems(clock: Clock, byURI: map<string, string>, items: seq<Item>)
    ensures forall el <- ItemTrees(clock, byURI, items) :: IsItem(el)
  {
    var trees := ItemTrees(clock, byURI, items);
    forall el | el in trees ensures IsItem(el) {
      var i :| 0 <= i < |trees| && trees[i] == el;
    }
  }

  lemma ItemsScanned(clock: Clock, byURI: map<string, string>, items: seq<Item>)
    requires forall it <- items :: AllForeign(it.unknown) && Carries(byURI, it)
    ensures ScanItems(ItemTrees(clock, byURI, items)) == SeenItems(items)
  {
    hide AllForeign, Carries, ItemTree, ScanItem, SeenItem, ScanItems;
    var trees := ItemTrees(clock, byURI, items);
    forall i | 0 <= i < |items| ensures ScanItems(trees)[i] == SeenItem(items[i]) {
      assert items[i] in items;
      ItemReadsBack(clock, byURI, items[i]);
    }
  }

  ghost predicate ForeignFeed(f: Feed) {
    AllForeign(f.unknown) && forall it <- f.items :: AllForeign(it.unknown)
  }

  lemma EveryItemCarried(byURI: map<string, string>, items: seq<Item>)
    requires UsesSource(items) ==> NS_SOURCE in byURI
    requires UsesThreading(items) ==> NS_THREAD in byURI
    ensures forall it <- items :: Carries(byURI, it)
  {}

  lemma RootContainer(t: Table, channel: Element)
    requires channel.name == Name("", "channel")
    ensures Container(RootTree(t, channel)) == channel
  {
    hide RootScope;
  }

  // Everything a reader finds in the document a feed is written as, for every feed whose
  // unknown elements are well-formed and foreign, whatever its texts.
  lemma FeedReadsBack(clock: Clock, f: Feed, o: Options)
    requires ShapedFeed(f) && ForeignFeed(f) && f.items != []
    ensures var links := NormAll(AtomLinks(TableFor(f, o).byURI, f, o));
            ScanXML(RssText(clock, f, o))
              == Ok(ChannelScan(Seen(f.self), SeenAccounts(f.accounts), links + NormAll(f.unknown), SeenItems(f.items)))
  {
    hide ShapedFeed, RootTree, Valid, PrintableTable, AllWellnamed, UsesSource, UsesThreading, UsesAtom, TableFor, RssText,
      DecodeDocument, ChannelChildren, ItemTrees, SeenItems, ScanItems, NormAll, AtomLinks, SeenAccounts, Seen, Carries, AllForeign;
    hide ChildIn, AccountsIn, UnknownIn, ItemsIn, Container;
    var t := TableFor(f, o);
    var channel := RssDocument.Block("channel", ChannelChildren(clock, t.byURI, f, o));
    TableForFeed(f, o);
    DocumentDecodes(clock, f, o);
    RootContainer(t, channel);
    ChannelWritten(clock, t.byURI, f, o);
    EveryItemCarried(t.byURI, f.items);
    ItemsScanned(clock, t.byURI, f.items);
    TreesNotEmpty(clock, t.byURI, f.items);
  }

  lemma TreesNotEmpty(clock: Clock, byURI: map<string, string>, items: seq<Item>)
    ensures ItemTrees(clock, byURI, items) == [] <==> items == []
  {}

  // ---- feeds that come back exactly ----

  ghost predicate SettledFeed(f: Feed) {
    && Still(f.self)
    && (forall a <- f.accounts :: a.handle != "" && Still(a.handle) && AllPrintable(a.service))
    && (forall el <- f.unknown :: Canonical(el))
    && (forall it <- f.items :: Settled(it))
  }

  lemma {:induction false} SettledAccounts(accounts: seq<Account>)
    requires forall a <- accounts :: a.handle != "" && Still(a.handle) && AllPrintable(a.service)
    ensures SeenAccounts(accounts) == accounts
  {
    if accounts != [] {
      assert accounts[0] in accounts;
      SeenIffStill(accounts[0].handle);
      CleanIffPrintable(accounts[0].service);
      hide Seen, Clean, Still, AllPrintable;
      SettledAccounts(accounts[1..]);
    }
  }

  lemma LinksAreLinks(byURI: map<string, string>, f: Feed, o: Options)
    ensures forall el <- NormAll(AtomLinks(byURI, f, o)) :: el.name == Name(NS_ATOM, "link")
  {
    var links := AtomLinks(byURI, f, o);
    assert forall el <- links :: el.name == Name(NS_ATOM, "link");
    hide AtomLinks;
    forall el | el in NormAll(links) ensures el.name == Name(NS_ATOM, "link") {
      var i :| 0 <= i < |links| && NormAll(links)[i] == el;
      assert links[i] in links;
    }
  }

  // A settled feed: every field of every item, the accounts and the channel's address are
  // recovered as they were, and its unknown elements, in order, behind the links RSS itself
  // added, which the scanner does not recognise as its own.
  lemma SettledFeedReadsBack(clock: Clock, f: Feed, o: Options)
    requires ShapedFeed(f) && ForeignFeed(f) && SettledFeed(f) && f.items != []
    ensures var r := ScanXML(RssText(clock, f, o));
            && r.Ok? && r.value.self == f.self && r.value.accounts == f.accounts
            && |f.unknown| <= |r.value.unknown| && r.value.unknown[|r.value.unknown| - |f.unknown|..] == f.unknown
            && (forall el <- r.value.unknown[..|r.value.unknown| - |f.unknown|] :: el.name == Name(NS_ATOM, "link"))
            && |r.value.items| == |f.items|
            && forall i :: 0 <= i < |f.items| ==>
                 r.value.items[i] == ItemScan(SeenKey(f.items[i]), f.items[i].guid == "" || f.items[i].guidIsPermalink,
                   f.items[i].markdown, f.items[i].inReplyTo, f.items[i].commentsPage, f.items[i].comments,
                   f.items[i].source, f.items[i].unknown)
  {
    hide ShapedFeed, ForeignFeed, ScanXML, RssText, Settled, SeenKey, SeenItem, AtomLinks, Canonical, TableFor, Seen, Still,
      AllPrintable, SeenAccounts, Norm;
    FeedReadsBack(clock, f, o);
    SeenIffStill(f.self);
    SettledAccounts(f.accounts);
    LinksAreLinks(TableFor(f, o).byURI, f, o);
    forall el | el in f.unknown ensures Norm(el) == el { CanonicalUnchanged(el); }
    assert NormAll(f.unknown) == f.unknown;
    forall i | 0 <= i < |f.items|
      ensures SeenItem(f.items[i]) == ItemScan(SeenKey(f.items[i]), f.items[i].guid == "" || f.items[i].guidIsPermalink,
                f.items[i].markdown, f.items[i].inReplyTo, f.items[i].commentsPage, f.items[i].comments,
                f.items[i].source, f.items[i].unknown)
    {
      assert f.items[i] in f.items;
      SettledSeen(f.items[i]);
    }
  }

  // ---- a feed without items ----

  lemma {:induction false} DescendantsAppend(a: seq<Element>, b: seq<Element>, local: string)
    ensures DescendantsIn(a + b, local) == DescendantsIn(a, local) + DescendantsIn(b, local)
  {
    hide Descendants;
    if a == [] {
      assert a + b == b;
    } else {
      assert (a + b)[1..] == a[1..] + b;
      DescendantsAppend(a[1..], b, local);
    }
  }

  lemma {:induction false} DescendantsNorm(els: seq<Element>, local: string)
    ensures DescendantsIn(NormAll(els), local) == [] <==> DescendantsIn(els, local) == []
    decreases els
  {
    if els != [] {
      assert NormAll(els) == [Norm(els[0])] + NormAll(els[1..]);
      DescendantsNorm(els[0].children, local);
      DescendantsNorm(els[1..], local);
    }
  }

  lemma {:induction false} ChildlessDescendants(els: seq<Element>, local: string)
    requires forall el <- els :: el.children == [] && el.name.local != local
    ensures DescendantsIn(els, local) == []
  {
    if els != [] {
      assert els[0] in els;
      ChildlessDescendants(els[1..], local);
    }
  }

  predicate Childless(els: seq<Element>) {
    forall el <- els :: el.children == [] && !IsItemName(el.name.local)
  }

  lemma ChildlessTogether(a: seq<Element>, b: seq<Element>)
    requires Childless(a) && Childless(b)
    ensures Childless(a + b)
  {}

  lemma TitlesChildless(clock: Clock, f: Feed, o: Options)
    ensures Childless(TitleElements(clock, f, o))
  {
    assert Childless(Opt(Plain("title", f.title))) && Childless(Opt(Plain("link", f.link)));
    assert Childless(Opt(Plain("description", f.description))) && Childless(Opt(Plain("language", f.language)));
    assert Childless(Opt(Plain("pubDate", Rfc822(clock, f.updated))));
    assert Childless(Opt(Plain("lastBuildDate", Rfc822(clock, o.buildTime))));
    assert Childless(Opt(Plain("generator", o.generator))) && Childless(Opt(Plain("docs", o.docs)));
    hide Opt, Plain, Rfc822;
  }

  lemma {:induction false} AccountsChildless(accounts: seq<Account>)
    ensures Childless(AccountElements(accounts))
  {
    if accounts != [] { AccountsChildless(accounts[1..]); }
  }

  lemma OwnHeadChildless(clock: Clock, byURI: map<string, string>, f: Feed, o: Options)
    ensures Childless(TitleElements(clock, f, o) + AtomLinks(byURI, f, o) + CloudElements(o) + SelfElements(byURI, f))
  {
    var a, b, c, d := TitleElements(clock, f, o), AtomLinks(byURI, f, o), CloudElements(o), SelfElements(byURI, f);
    TitlesChildless(clock, f, o);
    AccountsChildless(f.accounts);
    assert Childless(b) && Childless(c);
    assert Childless(d);
    hide TitleElements, AtomLinks, CloudElements, SelfElements, Childless;
    ChildlessTogether(a, b); ChildlessTogether(a + b, c); ChildlessTogether(a + b + c, d);
  }

  // An item is found in a document that was written without any exactly when an unknown
  // element contains something called item or entry.
  predicate HidesItems(els: seq<Element>) {
    DescendantsIn(els, "item") != [] || DescendantsIn(els, "entry") != []
  }

  lemma HeadDescendants(clock: Clock, byURI: map<string, string>, f: Feed, o: Options, local: string)
    requires IsItemName(local)
    ensures DescendantsIn(NormAll(ChannelHead(clock, byURI, f, o)), local) == [] <==> DescendantsIn(f.unknown, local) == []
  {
    var own := TitleElements(clock, f, o) + AtomLinks(byURI, f, o) + CloudElements(o) + SelfElements(byURI, f);
    OwnHeadChildless(clock, byURI, f, o);
    hide TitleElements, AtomLinks, CloudElements, SelfElements, DescendantsIn, NormAll;
    ChildlessDescendants(own, local);
    DescendantsAppend(own, f.unknown, local);
    DescendantsNorm(own + f.unknown, local);
  }

  lemma RootDescendants(t: Table, channel: Element, local: string)
    requires channel.name == Name("", "channel") && IsItemName(local)
    ensures Descendants(RootTree(t, channel), local) == DescendantsIn(channel.children, local)
  {
    var root := RootTree(t, channel);
    assert root.children == [channel] && [channel][1..] == [];
    assert DescendantsIn([channel], local) == [] + Descendants(channel, local) + DescendantsIn([], local);
  }

  lemma EmptyFeedReadsBack(clock: Clock, f: Feed, o: Options)
    requires ShapedFeed(f) && ForeignFeed(f) && f.items == []
    ensures var r := ScanXML(RssText(clock, f, o));
            && r.Ok? && r.value.self == Seen(f.self) && r.value.accounts == SeenAccounts(f.accounts)
            && r.value.unknown == NormAll(AtomLinks(TableFor(f, o).byURI, f, o)) + NormAll(f.unknown)
            && (r.value.items == [] <==> !HidesItems(f.unknown))
  {
    hide ShapedFeed, RootTree, Valid, PrintableTable, AllWellnamed, UsesSource, UsesThreading, UsesAtom, TableFor, RssText,
      DecodeDocument, ItemTrees, SeenItems, ScanItems, NormAll, AtomLinks, SeenAccounts, Seen, Carries, AllForeign, ChannelHead;
    hide ChildIn, AccountsIn, UnknownIn, ItemsIn, Container, Descendants, DescendantsIn;
    var t := TableFor(f, o);
    var channel := RssDocument.Block("channel", ChannelChildren(clock, t.byURI, f, o));
    TableForFeed(f, o);
    DocumentDecodes(clock, f, o);
    RootContainer(t, channel);
    ChannelWritten(clock, t.byURI, f, o);
    TreesNotEmpty(clock, t.byURI, f.items);
    assert channel.children == NormAll(ChannelHead(clock, t.byURI, f, o)) + [];
    assert channel.children == NormAll(ChannelHead(clock, t.byURI, f, o));
    RootDescendants(t, channel, "item");
    RootDescendants(t, channel, "entry");
    HeadDescendants(clock, t.byURI, f, o, "item");
    HeadDescendants(clock, t.byURI, f, o, "entry");
  }

  const BOXED_ITEM := Element(Name("urn:n", "box"), [], "", [Element(Name("urn:n", "item"), [], "", [])])

  lemma BoxShaped()
    ensures Shaped(BOXED_ITEM) && Foreign(BOXED_ITEM) && HidesItems([BOXED_ITEM])
  {
    CleanIffPrintable("urn:n");
    assert CanonicalSpace("urn:n") == "urn:n";
    hide Clean;
    var inner := Element(Name("urn:n", "item"), [], "", []);
    assert Shaped(inner);
    assert [inner][1..] == [] && [BOXED_ITEM][1..] == [];
    assert DescendantsIn([inner], "item") == [inner] + Descendants(inner, "item") + DescendantsIn([], "item");
    assert DescendantsIn([BOXED_ITEM], "item") == [] + Descendants(BOXED_ITEM, "item") + DescendantsIn([], "item");
  }

  // A feed without items, but with an unknown element that holds something called item, comes
  // back with an item.
  lemma BoxBecomesItem(clock: Clock, o: Options)
    ensures var f := Feed("", "", "", "", None, "", [], [], [BOXED_ITEM]);
            var r := ScanXML(RssText(clock, f, o));
            r.Ok? && r.value.items != []
  {
    var f := Feed("", "", "", "", None, "", [], [], [BOXED_ITEM]);
    BoxShaped();
    hide Shaped, Foreign, HidesItems, ScanXML, RssText;
    EmptyFeedReadsBack(clock, f, o);
  }
}
