// The document a feed is written as, taken apart into elements again.
module RssReads {
  import opened Common
  import opened Feed
  import opened Xml
  import opened Writer
  import opened WriterReads
  import opened Decode
  import opened RoundTrip
  import opened Namespaces
  import opened Rss
  import Text

  // ---- what has to be asked of the trees a feed passes through ----

  predicate PrintableURI(space: string) { Clean(space) == space }

  // Names are XML names, no attribute looks like a namespace declaration, and the namespaces
  // contain no character XML cannot carry. Text and attribute values are free.
  ghost predicate Shaped(el: Element)
    decreases el
  {
    && IsNCName(el.name.local) && PrintableURI(el.name.space)
    && (forall a <- el.attrs :: IsNCName(a.name.local) && PrintableURI(a.name.space) && !IsNamespaceDeclaration(a))
    && (forall c <- el.children :: Shaped(c))
  }

  ghost predicate ShapedFeed(f: Feed) {
    && (forall el <- f.unknown :: Shaped(el))
    && (forall it <- f.items :: forall el <- it.unknown :: Shaped(el))
  }

  lemma {:induction false} CoveredWellnamed(t: Table, el: Element)
    requires Covers(t, el) && Shaped(el)
    ensures Wellnamed(t.byURI, el)
    decreases el
  {
    forall c | c in el.children ensures Wellnamed(t.byURI, c) { CoveredWellnamed(t, c); }
  }

  // ---- the scope the root element opens ----

  ghost predicate PrintableTable(t: Table) {
    forall b <- t.order :: PrintableURI(b.uri)
  }

  lemma ValidTableOk(t: Table)
    requires Valid(t)
    ensures TableOk(t.byURI)
  {
    forall uri | uri in t.byURI
      ensures uri != "" && uri != NS_XML
           && IsNCName(t.byURI[uri]) && t.byURI[uri] != "xml" && t.byURI[uri] != "xmlns"
    {
      var b := Binding(t.byURI[uri], uri);
      assert b in t.order;
      PrefixOk(b, t.generated);
    }
  }

  lemma PrefixOk(b: Binding, generated: nat)
    requires Sourced(b, generated)
    ensures IsNCName(b.prefix) && b.prefix != "xml" && b.prefix != "xmlns"
  {
    if WellKnown(b.uri) == Some(b.prefix) {
      KnownPrefix(b.uri);
    } else {
      var n: nat :| 1 <= n <= generated && b.prefix == Generated(n);
      GeneratedPrefix(n);
    }
  }

  lemma BindDeclaration(env: Env, b: Binding, more: seq<(string, string)>)
    requires IsNCName(b.prefix)
    ensures Bind(env, [("xmlns:" + b.prefix, Clean(b.uri))] + more) == Bind(env[b.prefix := Clean(b.uri)], more)
  {
    SplitJoined("xmlns", b.prefix);
    assert "xmlns:" + b.prefix == "xmlns" + ":" + b.prefix;
    assert ([("xmlns:" + b.prefix, Clean(b.uri))] + more)[1..] == more;
  }

  function Declared(env: Env, order: seq<Binding>): Env
    decreases |order|
  {
    if order == [] then env else Declared(env[order[0].prefix := Clean(order[0].uri)], order[1..])
  }

  lemma {:induction false} BindDeclarations(env: Env, order: seq<Binding>)
    requires forall b <- order :: IsNCName(b.prefix)
    ensures Bind(env, CleanAttrs(Declarations(order))) == Declared(env, order)
    decreases |order|
  {
    if order != [] {
      var b := order[0];
      assert CleanAttrs(Declarations(order))
          == [("xmlns:" + b.prefix, Clean(b.uri))] + CleanAttrs(Declarations(order[1..]));
      BindDeclaration(env, b, CleanAttrs(Declarations(order[1..])));
      hide Clean, IsNCName, Bind, CleanAttrs, Declarations;
      BindDeclarations(env[b.prefix := Clean(b.uri)], order[1..]);
    }
  }

  lemma {:induction false} NotRedeclared(env: Env, order: seq<Binding>, p: string)
    requires forall b <- order :: b.prefix != p
    ensures p in Declared(env, order) <==> p in env
    ensures p in env ==> Declared(env, order)[p] == env[p]
    decreases |order|
  {
    if order != [] {
      NotRedeclared(env[order[0].prefix := Clean(order[0].uri)], order[1..], p);
    }
  }

  lemma {:induction false} DeclaredLookup(env: Env, order: seq<Binding>, k: nat)
    requires k < |order|
    requires forall i, j :: 0 <= i < j < |order| ==> order[i].prefix != order[j].prefix
    ensures order[k].prefix in Declared(env, order)
    ensures Declared(env, order)[order[k].prefix] == Clean(order[k].uri)
    decreases |order|
  {
    var inner := env[order[0].prefix := Clean(order[0].uri)];
    if k == 0 {
      NotRedeclared(inner, order[1..], order[0].prefix);
    } else {
      DeclaredLookup(inner, order[1..], k - 1);
    }
  }

  function RootScope(t: Table): Env {
    Bind(map[], CleanAttrs(RootAttrs(t)))
  }

  lemma RootDeclares(t: Table)
    requires Valid(t) && PrintableTable(t)
    ensures TableOk(t.byURI) && Declares(RootScope(t), t.byURI)
    ensures Named(RootAttrs(t))
  {
    ValidTableOk(t);
    RootScopeSkipsVersion(t);
    PrefixesOk(t);
    BindDeclarations(map[], t.order);
    NotRedeclared(map[], t.order, "");
    RootNamed(t);
    hide IsNCName, Bind, CleanAttrs, Declarations, Sourced, Declared, Named, IsName, TableOk, PrintableURI;
    hide RootAttrs, Clean;
    forall uri | uri in t.byURI
      ensures t.byURI[uri] in RootScope(t) && RootScope(t)[t.byURI[uri]] == uri
    {
      ScopeLookup(t, uri);
    }
  }

  lemma PrefixesOk(t: Table)
    requires Valid(t)
    ensures forall b <- t.order :: IsNCName(b.prefix) && b.prefix != ""
  {
    forall b | b in t.order ensures IsNCName(b.prefix) && b.prefix != "" { PrefixOk(b, t.generated); }
  }

  lemma RootNamed(t: Table)
    requires Valid(t)
    ensures Named(RootAttrs(t))
  {
    PrefixesOk(t);
    DeclarationNames(t.order);
    AttrNames();
  }

  lemma ScopeLookup(t: Table, uri: string)
    requires Valid(t) && PrintableTable(t) && uri in t.byURI
    ensures var scope := Declared(map[], t.order);
            t.byURI[uri] in scope && scope[t.byURI[uri]] == uri
  {
    hide Sourced, Declared, Clean;
    var b := Binding(t.byURI[uri], uri);
    var k :| 0 <= k < |t.order| && t.order[k] == b;
    assert PrintableURI(b.uri);
    DeclaredLookup(map[], t.order, k);
  }

  lemma RootScopeSkipsVersion(t: Table)
    ensures RootScope(t) == Bind(map[], CleanAttrs(Declarations(t.order)))
  {
    var list := CleanAttrs(RootAttrs(t));
    assert list[0] == ("version", Clean("2.0"));
    assert list[1..] == CleanAttrs(Declarations(t.order));
    AttrNames();
    SplitPlain("version");
  }

  lemma DeclarationNames(order: seq<Binding>)
    requires forall b <- order :: IsNCName(b.prefix)
    ensures Named(Declarations(order))
  {
    forall a | a in Declarations(order) ensures IsName(a.0) {
      var i :| 0 <= i < |order| && a == Declarations(order)[i];
      assert order[i] in order;
      assert forall c :: c in a.0 ==> c in "xmlns:" || c in order[i].prefix;
    }
  }

  // ---- every element the feed itself adds has a proper name ----

  predicate IsLetter(c: char) { 'a' <= c <= 'z' || 'A' <= c <= 'Z' || c == '-' }

  lemma LettersAreNames(s: string)
    requires s != "" && s[0] != '-' && forall i :: 0 <= i < |s| ==> IsLetter(s[i])
    ensures IsNCName(s)
  {}

  lemma ElementNames()
    ensures IsNCName("title") && IsNCName("link") && IsNCName("description") && IsNCName("language")
    ensures IsNCName("pubDate") && IsNCName("lastBuildDate") && IsNCName("generator") && IsNCName("docs")
    ensures IsNCName("cloud") && IsNCName("guid") && IsNCName("source") && IsNCName("author")
    ensures IsNCName("comments") && IsNCName("enclosure") && IsNCName("markdown") && IsNCName("inReplyTo")
    ensures IsNCName("in-reply-to") && IsNCName("updated") && IsNCName("self") && IsNCName("account")
    ensures IsNCName("item") && IsNCName("channel") && IsNCName("rss")
  {
    hide IsNCName;
    LettersAreNames("title"); LettersAreNames("link"); LettersAreNames("description"); LettersAreNames("language");
    LettersAreNames("pubDate"); LettersAreNames("lastBuildDate"); LettersAreNames("generator"); LettersAreNames("docs");
    LettersAreNames("cloud"); LettersAreNames("guid"); LettersAreNames("source"); LettersAreNames("author");
    LettersAreNames("comments"); LettersAreNames("enclosure"); LettersAreNames("markdown"); LettersAreNames("inReplyTo");
    LettersAreNames("in-reply-to"); LettersAreNames("updated"); LettersAreNames("self"); LettersAreNames("account");
    LettersAreNames("item"); LettersAreNames("channel"); LettersAreNames("rss");
  }

  lemma AttrNames()
    ensures IsNCName("isPermaLink") && IsNCName("url") && IsNCName("length") && IsNCName("type") && IsNCName("ref")
    ensures IsNCName("count") && IsNCName("feedUrl") && IsNCName("rel") && IsNCName("href") && IsNCName("domain")
    ensures IsNCName("port") && IsNCName("path") && IsNCName("registerProcedure") && IsNCName("protocol")
    ensures IsNCName("service") && IsNCName("version")
  {
    hide IsNCName;
    LettersAreNames("isPermaLink"); LettersAreNames("url"); LettersAreNames("length"); LettersAreNames("type");
    LettersAreNames("ref"); LettersAreNames("count"); LettersAreNames("feedUrl"); LettersAreNames("rel");
    LettersAreNames("href"); LettersAreNames("domain"); LettersAreNames("port"); LettersAreNames("path");
    LettersAreNames("registerProcedure"); LettersAreNames("protocol"); LettersAreNames("service"); LettersAreNames("version");
  }

  ghost predicate AllWellnamed(byURI: map<string, string>, els: seq<Element>) {
    forall el <- els :: Wellnamed(byURI, el)
  }

  lemma Together(byURI: map<string, string>, a: seq<Element>, b: seq<Element>)
    requires AllWellnamed(byURI, a) && AllWellnamed(byURI, b)
    ensures AllWellnamed(byURI, a + b)
  {
    hide Wellnamed;
  }

  // An element the feed adds itself: a proper local name, plain attributes, no children.
  lemma OwnElement(byURI: map<string, string>, el: Element)
    requires el.children == [] && IsNCName(el.name.local)
    requires el.name.space == "" || el.name.space in byURI
    requires forall a <- el.attrs :: a.name.space == "" && IsNCName(a.name.local) && a.name.local != "xmlns"
    ensures AllWellnamed(byURI, [el]) && AllWellnamed(byURI, Opt(el)) && AllWellnamed(byURI, [])
  {
    forall a | a in el.attrs ensures !IsNamespaceDeclaration(a) { assert a.name.space == ""; }
    assert Wellnamed(byURI, el);
  }

  lemma PlainWellnamed(byURI: map<string, string>, local: string, text: string)
    requires IsNCName(local)
    ensures AllWellnamed(byURI, [Plain(local, text)]) && AllWellnamed(byURI, Opt(Plain(local, text)))
  {
    OwnElement(byURI, Plain(local, text));
  }

  lemma TitlesWellnamed(clock: Clock, byURI: map<string, string>, f: Feed, o: Options)
    ensures AllWellnamed(byURI, TitleElements(clock, f, o))
  {
    ElementNames();
    hide IsNCName, AllWellnamed, Opt, Plain;
    var a, b := Opt(Plain("title", f.title)), Opt(Plain("link", f.link));
    var c, d := Opt(Plain("description", f.description)), Opt(Plain("language", f.language));
    var e, g := Opt(Plain("pubDate", Rfc822(clock, f.updated))), Opt(Plain("lastBuildDate", Rfc822(clock, o.buildTime)));
    var h, i := Opt(Plain("generator", o.generator)), Opt(Plain("docs", o.docs));
    PlainWellnamed(byURI, "title", f.title); PlainWellnamed(byURI, "link", f.link);
    PlainWellnamed(byURI, "description", f.description); PlainWellnamed(byURI, "language", f.language);
    PlainWellnamed(byURI, "pubDate", Rfc822(clock, f.updated));
    PlainWellnamed(byURI, "lastBuildDate", Rfc822(clock, o.buildTime));
    PlainWellnamed(byURI, "generator", o.generator); PlainWellnamed(byURI, "docs", o.docs);
    Together(byURI, a, b); Together(byURI, a + b, c); Together(byURI, a + b + c, d);
    Together(byURI, a + b + c + d, e); Together(byURI, a + b + c + d + e, g);
    Together(byURI, a + b + c + d + e + g, h); Together(byURI, a + b + c + d + e + g + h, i);
  }

  lemma EnclosuresWellnamed(byURI: map<string, string>, list: seq<Enclosure>)
    ensures AllWellnamed(byURI, EnclosureElements(list))
  {
    hide IsNCName, EnclosureElement, AllWellnamed, Wellnamed;
    forall i | 0 <= i < |list| ensures Wellnamed(byURI, EnclosureElement(list[i])) {
      EnclosureWellnamed(byURI, list[i]);
    }
    AllByIndex(byURI, EnclosureElements(list));
  }

  lemma EnclosureWellnamed(byURI: map<string, string>, e: Enclosure)
    ensures Wellnamed(byURI, EnclosureElement(e))
  {
    ElementNames();
    AttrNames();
    hide IsNCName, Wellnamed;
    hide Text.Itoa;
    OwnElement(byURI, EnclosureElement(e));
    assert EnclosureElement(e) in [EnclosureElement(e)];
  }

  lemma AllByIndex(byURI: map<string, string>, els: seq<Element>)
    requires forall i :: 0 <= i < |els| ==> Wellnamed(byURI, els[i])
    ensures AllWellnamed(byURI, els)
  {
    hide Wellnamed;
  }

  lemma HeadWellnamed(clock: Clock, byURI: map<string, string>, it: Item)
    ensures AllWellnamed(byURI, HeadElements(clock, it))
  {
    ElementNames();
    AttrNames();
    hide IsNCName, AllWellnamed;
    var a, b, c := Opt(Plain("title", it.title)), Opt(Plain("description", it.html)), Opt(Plain("pubDate", Rfc822(clock, it.published)));
    var d, e, g := GuidElements(it), LinkElements(it), OriginElements(it);
    var h, i, k := Opt(Plain("author", it.author)), Opt(Plain("comments", it.commentsPage)), EnclosureElements(it.enclosures);
    PlainWellnamed(byURI, "title", it.title); PlainWellnamed(byURI, "description", it.html);
    PlainWellnamed(byURI, "pubDate", Rfc822(clock, it.published));
    PlainWellnamed(byURI, "author", it.author); PlainWellnamed(byURI, "comments", it.commentsPage);
    EnclosuresWellnamed(byURI, it.enclosures);
    OwnElement(byURI, Plain("link", it.link));
    if d != [] { OwnElement(byURI, d[0]); }
    if g != [] { OwnElement(byURI, g[0]); }
    hide Plain, Opt, GuidElements, LinkElements, OriginElements, EnclosureElements;
    assert AllWellnamed(byURI, d) && AllWellnamed(byURI, e) && AllWellnamed(byURI, g);
    Together(byURI, a, b); Together(byURI, a + b, c); Together(byURI, a + b + c, d);
    Together(byURI, a + b + c + d, e); Together(byURI, a + b + c + d + e, g);
    Together(byURI, a + b + c + d + e + g, h); Together(byURI, a + b + c + d + e + g + h, i);
    Together(byURI, a + b + c + d + e + g + h + i, k);
  }

  lemma SourceWellnamed(clock: Clock, byURI: map<string, string>, it: Item)
    ensures AllWellnamed(byURI, SourceElements(clock, byURI, it))
  {
    ElementNames();
    AttrNames();
    hide IsNCName;
    var a, b := MarkdownElements(byURI, it), ThreadElements(byURI, it);
    var c, d := CommentsElements(byURI, it), UpdatedElements(clock, byURI, it);
    OwnElement(byURI, Plain("title", ""));
    if NS_SOURCE in byURI {
      OwnElement(byURI, In(NS_SOURCE, "markdown", [], it.markdown));
      OwnElement(byURI, In(NS_SOURCE, "inReplyTo", [], it.inReplyTo));
      Together(byURI, Opt(In(NS_SOURCE, "markdown", [], it.markdown)), Opt(In(NS_SOURCE, "inReplyTo", [], it.inReplyTo)));
    }
    if b != [] { OwnElement(byURI, b[0]); }
    if c != [] { OwnElement(byURI, c[0]); }
    if d != [] { OwnElement(byURI, d[0]); }
    hide AllWellnamed;
    Together(byURI, a, b); Together(byURI, a + b, c); Together(byURI, a + b + c, d);
  }

  lemma SelfWellnamed(byURI: map<string, string>, f: Feed)
    ensures AllWellnamed(byURI, SelfElements(byURI, f))
  {
    OwnElement(byURI, Plain("a", "")) by { LettersAreNames("a"); }
    if NS_SOURCE in byURI {
      ElementNames();
      hide IsNCName;
      OwnElement(byURI, In(NS_SOURCE, "self", [], f.self));
      AccountsWellnamed(byURI, f.accounts);
      Together(byURI, Opt(In(NS_SOURCE, "self", [], f.self)), AccountElements(f.accounts));
    }
  }

  lemma {:induction false} AccountsWellnamed(byURI: map<string, string>, accounts: seq<Account>)
    requires NS_SOURCE in byURI
    ensures AllWellnamed(byURI, AccountElements(accounts))
  {
    if accounts != [] {
      AccountsWellnamed(byURI, accounts[1..]);
      ElementNames();
      AttrNames();
      hide IsNCName;
      var a := accounts[0];
      var el := In(NS_SOURCE, "account", if a.service == "" then [] else [Unqualified("service", a.service)], a.handle);
      OwnElement(byURI, el);
      Together(byURI, if a.handle == "" then [] else [el], AccountElements(accounts[1..]));
    }
  }

  lemma ChannelHeadWellnamed(clock: Clock, byURI: map<string, string>, f: Feed, o: Options)
    requires AllWellnamed(byURI, f.unknown)
    ensures AllWellnamed(byURI, ChannelHead(clock, byURI, f, o))
  {
    ElementNames();
    AttrNames();
    hide IsNCName;
    var a, b, c, d := TitleElements(clock, f, o), AtomLinks(byURI, f, o), CloudElements(o), SelfElements(byURI, f);
    TitlesWellnamed(clock, byURI, f, o);
    LinksWellnamed(byURI, f, o);
    SelfWellnamed(byURI, f);
    OwnElement(byURI, Plain("title", ""));
    if c != [] { OwnElement(byURI, c[0]); }
    hide AllWellnamed, TitleElements, AtomLinks, CloudElements, SelfElements;
    Together(byURI, a, b); Together(byURI, a + b, c); Together(byURI, a + b + c, d); Together(byURI, a + b + c + d, f.unknown);
  }

  lemma LinksWellnamed(byURI: map<string, string>, f: Feed, o: Options)
    ensures AllWellnamed(byURI, AtomLinks(byURI, f, o))
  {
    ElementNames();
    AttrNames();
    hide IsNCName;
    OwnElement(byURI, Plain("title", ""));
    if NS_ATOM in byURI {
      var hub, self := LinkTo("hub", o.hub, []), LinkTo("self", f.self, [Unqualified("type", "application/rss+xml")]);
      OwnElement(byURI, hub);
      OwnElement(byURI, self);
      Together(byURI, if o.hub == "" then [] else [hub], if f.self == "" then [] else [self]);
    }
  }

  lemma ItemWellnamed(clock: Clock, byURI: map<string, string>, it: Item)
    requires AllWellnamed(byURI, it.unknown)
    ensures AllWellnamed(byURI, ItemChildren(clock, byURI, it))
  {
    HeadWellnamed(clock, byURI, it);
    SourceWellnamed(clock, byURI, it);
    hide AllWellnamed, HeadElements, SourceElements;
    Together(byURI, HeadElements(clock, it), SourceElements(clock, byURI, it));
    Together(byURI, HeadElements(clock, it) + SourceElements(clock, byURI, it), it.unknown);
  }
}
