// Decoding the document a feed is written as gives the tree of that feed.
module RssDocument {
  import opened Common
  import opened Feed
  import opened Xml
  import opened Writer
  import opened WriterReads
  import opened Decode
  import opened RoundTrip
  import opened Namespaces
  import opened Rss
  import opened RssReads
  import Text

  function Block(local: string, children: seq<Element>): Element {
    Element(Name("", local), [], "", children)
  }

  function BlockTokens(depth: nat, local: string, inside: seq<Token>): seq<Token> {
    OpenTokens(depth, local, []) + inside + CloseTokens(depth, local)
  }

  lemma BlockReads(depth: nat, local: string, text: string, inside: seq<Token>)
    requires IsNCName(local) && Reads(text, inside)
    ensures Reads(OpenText(depth, local, []) + text + CloseText(depth, local), BlockTokens(depth, local, inside))
  {
    hide Reads, OpenText, CloseText, OpenTokens, CloseTokens;
    OpenReads(depth, local, []);
    CloseReads(depth, local);
    ReadsConcat(OpenText(depth, local, []), OpenTokens(depth, local, []), text, inside);
    ReadsConcat(OpenText(depth, local, []) + text, OpenTokens(depth, local, []) + inside,
                CloseText(depth, local), CloseTokens(depth, local));
  }

  lemma BlockGives(env: Env, depth: nat, local: string, inside: seq<Token>, blank: string, children: seq<Element>)
    requires IsNCName(local) && "" !in env && Text.Blank(blank) && Gives(env, inside, blank, children)
    ensures Gives(env, BlockTokens(depth, local, inside), Tabs(depth) + "" + "\n", [Block(local, children)])
  {
    SplitPlain(local);
    assert ElementName(env, local) == Name("", local);
    assert CleanAttrs([]) == [] && Bind(env, []) == env && DecodedAttrs(env, []) == [];
    Text.TrimSpaceUnique("", "", "");
    assert "" + "" + "" == "";
    hide Gives, Bind, DecodedAttrs, ElementName, OpenTokens, CloseTokens, IsNCName, Tabs;
    hide Text.TrimSpace, Text.Blank;
    BranchGives(env, depth, local, "", [], inside, blank, children);
    assert Clean("") == "";
    assert OpenTokens(depth, local, []) + CharTokens(InnerText(depth + 1, "")) == OpenTokens(depth, local, []);
  }

  function ItemTree(clock: Clock, byURI: map<string, string>, it: Item): Element {
    Block("item", NormAll(ItemChildren(clock, byURI, it)))
  }

  function ItemTrees(clock: Clock, byURI: map<string, string>, items: seq<Item>): (r: seq<Element>)
    ensures |r| == |items| && forall i :: 0 <= i < |r| ==> r[i] == ItemTree(clock, byURI, items[i])
  {
    seq(|items|, i requires 0 <= i < |items| => ItemTree(clock, byURI, items[i]))
  }

  function ItemTokens(clock: Clock, byURI: map<string, string>, it: Item, depth: nat): seq<Token> {
    BlockTokens(depth, "item", ForestTokens(byURI, ItemChildren(clock, byURI, it), depth + 1))
  }

  function ItemsTokens(clock: Clock, byURI: map<string, string>, items: seq<Item>, depth: nat): seq<Token>
    decreases |items|
  {
    if items == [] then []
    else ItemTokens(clock, byURI, items[0], depth) + ItemsTokens(clock, byURI, items[1..], depth)
  }

  lemma ForestPrints(byURI: map<string, string>, els: seq<Element>)
    requires TableOk(byURI) && AllWellnamed(byURI, els)
    ensures forall el <- els :: Printable(byURI, el)
  {
    forall el | el in els ensures Printable(byURI, el) { WellnamedPrints(byURI, el); }
  }

  lemma ItemHandled(env: Env, clock: Clock, byURI: map<string, string>, it: Item, depth: nat)
    requires TableOk(byURI) && Declares(env, byURI) && AllWellnamed(byURI, it.unknown)
    ensures Reads(ItemText(clock, byURI, it, depth), ItemTokens(clock, byURI, it, depth))
    ensures Gives(env, ItemTokens(clock, byURI, it, depth), Tabs(depth) + "" + "\n", [ItemTree(clock, byURI, it)])
  {
    var children := ItemChildren(clock, byURI, it);
    ItemWellnamed(clock, byURI, it);
    ForestPrints(byURI, children);
    ElementNames();
    hide Reads, Gives, ItemChildren, Printable, Wellnamed, TableOk, IsNCName, BlockTokens, NormAll, ForestText, ForestTokens;
    ForestReads(byURI, children, depth + 1);
    BlockReads(depth, "item", ForestText(byURI, children, depth + 1), ForestTokens(byURI, children, depth + 1));
    ForestGives(env, byURI, children, depth + 1);
    BlockGives(env, depth, "item", ForestTokens(byURI, children, depth + 1), Spacing(|children|, depth + 1), NormAll(children));
  }

  lemma {:induction false} ItemsHandled(env: Env, clock: Clock, byURI: map<string, string>, items: seq<Item>, depth: nat)
    requires TableOk(byURI) && Declares(env, byURI)
    requires forall it <- items :: AllWellnamed(byURI, it.unknown)
    ensures Reads(ItemsText(clock, byURI, items, depth), ItemsTokens(clock, byURI, items, depth))
    ensures Gives(env, ItemsTokens(clock, byURI, items, depth), Spacing(|items|, depth), ItemTrees(clock, byURI, items))
    decreases |items|
  {
    hide Reads, Gives, ItemText, ItemTokens, ItemTree, AllWellnamed, TableOk, Declares;
    if items == [] {
      ReadsNothing();
      GivesChars(env, "");
    } else {
      ItemHandled(env, clock, byURI, items[0], depth);
      ItemsHandled(env, clock, byURI, items[1..], depth);
      ReadsConcat(ItemText(clock, byURI, items[0], depth), ItemTokens(clock, byURI, items[0], depth),
                  ItemsText(clock, byURI, items[1..], depth), ItemsTokens(clock, byURI, items[1..], depth));
      assert ItemTrees(clock, byURI, items) == [ItemTree(clock, byURI, items[0])] + ItemTrees(clock, byURI, items[1..]);
      GivesConcat(env, ItemTokens(clock, byURI, items[0], depth), Tabs(depth) + "" + "\n", [ItemTree(clock, byURI, items[0])],
                  ItemsTokens(clock, byURI, items[1..], depth), Spacing(|items| - 1, depth), ItemTrees(clock, byURI, items[1..]));
    }
  }

  function ChannelChildren(clock: Clock, byURI: map<string, string>, f: Feed, o: Options): seq<Element> {
    NormAll(ChannelHead(clock, byURI, f, o)) + ItemTrees(clock, byURI, f.items)
  }

  function ChannelInside(clock: Clock, byURI: map<string, string>, f: Feed, o: Options, depth: nat): seq<Token> {
    ForestTokens(byURI, ChannelHead(clock, byURI, f, o), depth) + ItemsTokens(clock, byURI, f.items, depth)
  }

  function ChannelTokens(clock: Clock, byURI: map<string, string>, f: Feed, o: Options, depth: nat): seq<Token> {
    BlockTokens(depth, "channel", ChannelInside(clock, byURI, f, o, depth + 1))
  }

  lemma ChannelHandled(env: Env, clock: Clock, byURI: map<string, string>, f: Feed, o: Options, depth: nat)
    requires TableOk(byURI) && Declares(env, byURI)
    requires AllWellnamed(byURI, f.unknown) && forall it <- f.items :: AllWellnamed(byURI, it.unknown)
    ensures Reads(ChannelText(clock, byURI, f, o, depth), ChannelTokens(clock, byURI, f, o, depth))
    ensures Gives(env, ChannelTokens(clock, byURI, f, o, depth), Tabs(depth) + "" + "\n",
                  [Block("channel", ChannelChildren(clock, byURI, f, o))])
  {
    var head, d := ChannelHead(clock, byURI, f, o), depth + 1;
    ChannelHeadWellnamed(clock, byURI, f, o);
    ForestPrints(byURI, head);
    ElementNames();
    ItemsHandled(env, clock, byURI, f.items, d);
    BlankTogether(Spacing(|head|, d), Spacing(|f.items|, d));
    hide Reads, Gives, Printable, Wellnamed, TableOk, IsNCName, BlockTokens, NormAll, ForestText, ForestTokens, ChannelHead,
      ItemsText, ItemsTokens, ItemTrees, OpenText, CloseText, Spacing;
    hide Text.Blank;
    ForestReads(byURI, head, d);
    ForestGives(env, byURI, head, d);
    var headText, itemsText := ForestText(byURI, head, d), ItemsText(clock, byURI, f.items, d);
    ReadsConcat(headText, ForestTokens(byURI, head, d), itemsText, ItemsTokens(clock, byURI, f.items, d));
    GivesConcat(env, ForestTokens(byURI, head, d), Spacing(|head|, d), NormAll(head),
                ItemsTokens(clock, byURI, f.items, d), Spacing(|f.items|, d), ItemTrees(clock, byURI, f.items));
    BlockReads(depth, "channel", headText + itemsText, ChannelInside(clock, byURI, f, o, d));
    BlockGives(env, depth, "channel", ChannelInside(clock, byURI, f, o, d), Spacing(|head|, d) + Spacing(|f.items|, d),
               ChannelChildren(clock, byURI, f, o));
    Assoc(OpenText(depth, "channel", []), headText, itemsText);
  }

  // ---- the document ----

  lemma {:induction false} SkipsTo(p: string, rest: string)
    requires '?' !in p
    ensures SkipInstruction(p + "?>" + rest) == Some(rest)
  {
    if p == "" {
      assert ("" + "?>" + rest)[2..] == rest;
    } else {
      var s := p + "?>" + rest;
      assert s[0] == p[0] && p[0] in p;
      assert s[1..] == p[1..] + "?>" + rest;
      SkipsTo(p[1..], rest);
    }
  }

  lemma InstructionReads(p: string)
    requires '?' !in p
    ensures Reads("<?" + p + "?>", [Instruction])
  {
    forall rest ensures Lex("<?" + p + "?>" + rest) == Prepend([Instruction], Lex(rest)) {
      InstructionNext(p, rest);
      hide Next, SkipInstruction;
    }
  }

  lemma InstructionNext(p: string, rest: string)
    requires '?' !in p
    ensures Next("<?" + p + "?>" + rest) == Some(([Instruction], rest))
  {
    var s := "<?" + p + "?>" + rest;
    SkipsTo(p, rest);
    assert s[2..] == p + "?>" + rest;
  }

  lemma HeaderReads()
    ensures Reads(HEADER, [Instruction] + CharTokens("\n"))
  {
    hide Reads;
    InstructionReads(DECLARATION);
    ReadsPieces("", "\n", "a", [], false) by { LettersAreNames("a"); }
    ReadsConcat("<?" + DECLARATION + "?>", [Instruction], "\n", CharTokens("\n"));
  }

  function RootTree(t: Table, channel: Element): Element {
    Element(Name("", "rss"), DecodedAttrs(RootScope(t), CleanAttrs(RootAttrs(t))), "", [channel])
  }

  lemma RootDecodes(t: Table, inside: seq<Token>, blank: string, channel: Element)
    requires Valid(t) && PrintableTable(t) && Text.Blank(blank) && Gives(RootScope(t), inside, blank, [channel])
    ensures var tokens := [Instruction] + CharTokens("\n") + OpenTokens(0, "rss", RootAttrs(t)) + inside + CloseTokens(0, "rss");
            DecodeTokens(tokens) == Ok(RootTree(t, channel))
  {
    hide Valid, PrintableTable, Gives, CharTokens, OpenTokens, CloseTokens, RootAttrs, CleanAttrs, Declares, TableOk, Gather, IsNCName;
    hide Text.Blank, Text.TrimSpace;
    var attrs, scope := CleanAttrs(RootAttrs(t)), RootScope(t);
    var body := CharTokens("\n") + inside + ([End("rss")] + CharTokens("\n"));
    var start := [Start("rss", attrs)] + body;
    RootTokens(t, inside);
    DecodeSkips(start);
    assert start[1..] == body;
    RootGathers(scope, inside, blank, channel);
    RootName(t);
  }

  lemma RootName(t: Table)
    requires Valid(t) && PrintableTable(t)
    ensures ElementName(RootScope(t), "rss") == Name("", "rss")
  {
    RootDeclares(t);
    ElementNames();
    SplitPlain("rss");
    hide Bind, IsNCName, RootScope;
  }

  lemma RootTokens(t: Table, inside: seq<Token>)
    ensures [Instruction] + CharTokens("\n") + OpenTokens(0, "rss", RootAttrs(t)) + inside + CloseTokens(0, "rss")
         == [Instruction] + (CharTokens("\n") + ([Start("rss", CleanAttrs(RootAttrs(t)))]
              + (CharTokens("\n") + inside + ([End("rss")] + CharTokens("\n")))))
  {
    assert Tabs(0) == "" && CharTokens("") == [];
  }

  lemma DecodeSkips(start: seq<Token>)
    ensures DecodeTokens([Instruction] + (CharTokens("\n") + start)) == DecodeTokens(start)
  {
    var line := CharTokens("\n") + start;
    assert ([Instruction] + line)[1..] == line;
    assert line[0] == Chars('\n') && line[1..] == start;
  }

  lemma RootGathers(scope: Env, inside: seq<Token>, blank: string, channel: Element)
    requires Text.Blank(blank) && Gives(scope, inside, blank, [channel])
    ensures var g := Gather(scope, CharTokens("\n") + inside + ([End("rss")] + CharTokens("\n")));
            g.children == [channel] && Text.TrimSpace(g.text) == ""
  {
    var tail := [End("rss")] + CharTokens("\n");
    GivesChars(scope, "\n");
    GivesConcat(scope, CharTokens("\n"), "\n", [], inside, blank, [channel]);
    assert [] + [channel] == [channel];
    var body := CharTokens("\n") + inside;
    assert tail[1..] == CharTokens("\n");
    assert Gather(scope, tail) == Gathered("", [], CharTokens("\n"));
    assert Gather(scope, body + tail) == Added(Gathered("", [], CharTokens("\n")), "\n" + blank, [channel]);
    BlankTogether("\n", blank);
    Text.TrimSpaceUnique("\n" + blank, "", "");
    assert "\n" + blank + "" == "\n" + blank + "" + "";
    assert [channel] + [] == [channel];
  }

  // The table a document is written with: everything it needs, and printable.
  lemma TableForFeed(f: Feed, o: Options)
    requires ShapedFeed(f)
    ensures var t := TableFor(f, o);
            && Valid(t) && PrintableTable(t)
            && AllWellnamed(t.byURI, f.unknown) && (forall it <- f.items :: AllWellnamed(t.byURI, it.unknown))
            && (f.self != "" || |f.accounts| > 0 || UsesSource(f.items) ==> NS_SOURCE in t.byURI)
            && (UsesThreading(f.items) ==> NS_THREAD in t.byURI)
            && (UsesAtom(f.items) || o.hub != "" || f.self != "" ==> NS_ATOM in t.byURI)
  {
    hide Valid, Collected, UseStep, Shaped, Covers, Wellnamed, PrintableTable, UsesSource, UsesThreading, UsesAtom, AllWellnamed;
    var t0, t := Collected(f), TableFor(f, o);
    CollectedCovers(f);
    UseKeepsValid(t0, NS_ATOM);
    FeedTablePrintable(f, o);
    AllCovered(t0, t, f.unknown);
    forall it | it in f.items ensures AllWellnamed(t.byURI, it.unknown) {
      AllCovered(t0, t, it.unknown);
    }
  }

  lemma AllCovered(t0: Table, t: Table, els: seq<Element>)
    requires t0.byURI.Keys <= t.byURI.Keys
    requires forall el <- els :: Covers(t0, el) && Shaped(el)
    ensures AllWellnamed(t.byURI, els)
  {
    hide Shaped, Covers, Wellnamed;
    forall el | el in els ensures Wellnamed(t.byURI, el) {
      CoversGrows(t0, t, el);
      CoveredWellnamed(t, el);
    }
  }

  lemma UsePrintable(t: Table, uri: string)
    requires PrintableTable(t) && PrintableURI(uri)
    ensures PrintableTable(UseStep(t, uri).0)
  {
    hide PrintableURI;
  }

  lemma {:induction false} UseAttrsPrintable(t: Table, attrs: seq<Attr>)
    requires PrintableTable(t) && forall a <- attrs :: PrintableURI(a.name.space)
    ensures PrintableTable(UseAttrs(t, attrs))
    decreases |attrs|
  {
    hide PrintableTable, PrintableURI, UseStep;
    if attrs != [] {
      var n := |attrs| - 1;
      UseAttrsPrintable(t, attrs[..n]);
      UsePrintable(UseAttrs(t, attrs[..n]), attrs[n].name.space);
    }
  }

  lemma {:induction false} RegisterPrintable(t: Table, el: Element)
    requires PrintableTable(t) && Shaped(el)
    ensures PrintableTable(Register(t, el))
    decreases el, 1
  {
    UsePrintable(t, el.name.space);
    UseAttrsPrintable(UseStep(t, el.name.space).0, el.attrs);
    RegisterAllPrintable(UseAttrs(UseStep(t, el.name.space).0, el.attrs), el.children);
  }

  lemma {:induction false} RegisterAllPrintable(t: Table, els: seq<Element>)
    requires PrintableTable(t) && forall el <- els :: Shaped(el)
    ensures PrintableTable(RegisterAll(t, els))
    decreases els, 0
  {
    if els != [] {
      hide PrintableTable, Register, Shaped;
      RegisterPrintable(t, els[0]);
      RegisterAllPrintable(Register(t, els[0]), els[1..]);
    }
  }

  lemma {:induction false} RegisterItemsPrintable(t: Table, items: seq<Item>)
    requires PrintableTable(t) && forall it <- items :: forall el <- it.unknown :: Shaped(el)
    ensures PrintableTable(RegisterItems(t, items))
    decreases |items|
  {
    if items != [] {
      hide PrintableTable, RegisterAll, Shaped;
      RegisterAllPrintable(t, items[0].unknown);
      RegisterItemsPrintable(RegisterAll(t, items[0].unknown), items[1..]);
    }
  }

  lemma OwnPrintable()
    ensures PrintableURI(NS_SOURCE) && PrintableURI(NS_THREAD) && PrintableURI(NS_ATOM)
  {
    hide Clean;
    CleanFixed(NS_SOURCE);
    CleanFixed(NS_THREAD);
    CleanFixed(NS_ATOM);
  }

  lemma FeedTablePrintable(f: Feed, o: Options)
    requires ShapedFeed(f)
    ensures PrintableTable(TableFor(f, o))
  {
    hide PrintableTable, PrintableURI, UseStep, UseIf, RegisterAll, RegisterItems, Shaped, UsesSource, UsesThreading, UsesAtom;
    OwnPrintable();
    NoPrefixesPrintable();
    var t1 := UseIf(NO_PREFIXES, f.self != "" || |f.accounts| > 0 || UsesSource(f.items), NS_SOURCE);
    UseIfPrintable(NO_PREFIXES, f.self != "" || |f.accounts| > 0 || UsesSource(f.items), NS_SOURCE);
    var t2 := UseIf(t1, UsesThreading(f.items), NS_THREAD);
    UseIfPrintable(t1, UsesThreading(f.items), NS_THREAD);
    var t3 := UseIf(t2, UsesAtom(f.items), NS_ATOM);
    UseIfPrintable(t2, UsesAtom(f.items), NS_ATOM);
    RegisterAllPrintable(t3, f.unknown);
    RegisterItemsPrintable(RegisterAll(t3, f.unknown), f.items);
    UseIfPrintable(Collected(f), o.hub != "" || f.self != "", NS_ATOM);
  }

  lemma NoPrefixesPrintable()
    ensures PrintableTable(NO_PREFIXES)
  {}

  lemma UseIfPrintable(t: Table, wanted: bool, uri: string)
    requires PrintableTable(t) && PrintableURI(uri)
    ensures PrintableTable(UseIf(t, wanted, uri))
  {
    hide PrintableTable, PrintableURI, UseStep;
    UsePrintable(t, uri);
  }

  // Decoding what RSS wrote gives the feed's tree, every text trimmed, nothing lost.
  lemma DocumentDecodes(clock: Clock, f: Feed, o: Options)
    requires ShapedFeed(f)
    ensures var t := TableFor(f, o);
            DecodeDocument(RssText(clock, f, o))
              == Ok(RootTree(t, Block("channel", ChannelChildren(clock, t.byURI, f, o))))
  {
    hide Reads, Gives, IsNCName, Valid, PrintableTable, ChannelText, ChannelTokens, OpenText, CloseText, OpenTokens, CloseTokens,
      TableFor, ChannelChildren, DecodeTokens, RootTree, AllWellnamed, TableOk, Declares, ShapedFeed, RootScope, RootAttrs,
      Named, UsesSource, UsesThreading, UsesAtom;
    hide Text.Blank;
    var t := TableFor(f, o);
    TableForFeed(f, o);
    RootDeclares(t);
    ChannelHandled(RootScope(t), clock, t.byURI, f, o, 1);
    ElementNames();
    LineBlank(1);
    RootDecodes(t, ChannelTokens(clock, t.byURI, f, o, 1), Tabs(1) + "" + "\n",
                Block("channel", ChannelChildren(clock, t.byURI, f, o)));
    DocumentReads(clock, t, f, o);
    ReadsAlone(RssText(clock, f, o), DocumentTokens(clock, t, f, o));
  }

  lemma LineBlank(depth: nat)
    ensures Text.Blank(Tabs(depth) + "" + "\n")
  {
    assert Text.Blank(Tabs(depth)) && Text.Blank("");
    BlankTogether(Tabs(depth), "");
    BlankTogether(Tabs(depth) + "", "\n");
  }

  function DocumentTokens(clock: Clock, t: Table, f: Feed, o: Options): seq<Token> {
    [Instruction] + CharTokens("\n") + OpenTokens(0, "rss", RootAttrs(t)) + ChannelTokens(clock, t.byURI, f, o, 1)
    + CloseTokens(0, "rss")
  }

  lemma DocumentReads(clock: Clock, t: Table, f: Feed, o: Options)
    requires t == TableFor(f, o) && Named(RootAttrs(t)) && IsNCName("rss")
    requires Reads(ChannelText(clock, t.byURI, f, o, 1), ChannelTokens(clock, t.byURI, f, o, 1))
    ensures Reads(RssText(clock, f, o), DocumentTokens(clock, t, f, o))
  {
    HeaderReads();
    OpenReads(0, "rss", RootAttrs(t));
    CloseReads(0, "rss");
    hide Reads, ChannelText, ChannelTokens, OpenText, CloseText, OpenTokens, CloseTokens, TableFor, RootAttrs, CharTokens;
    var a, b, c := HEADER, OpenText(0, "rss", RootAttrs(t)), ChannelText(clock, t.byURI, f, o, 1);
    var x, y := [Instruction] + CharTokens("\n"), OpenTokens(0, "rss", RootAttrs(t));
    ReadsConcat(a, x, b, y);
    ReadsConcat(a + b, x + y, c, ChannelTokens(clock, t.byURI, f, o, 1));
    ReadsConcat(a + b + c, x + y + ChannelTokens(clock, t.byURI, f, o, 1), CloseText(0, "rss"), CloseTokens(0, "rss"));
  }
}
