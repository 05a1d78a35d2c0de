// internal/feedin: what the reader takes from a feed document beyond what a generic parser does.
module Scan {
  import opened Common
  import opened Feed
  import opened Decode
  import Text

  // Elements read into a field of their own.
  predicate Consumed(name: Name) {
    || (name.space == NS_SOURCE && name.local in ["markdown", "inReplyTo", "comments", "account", "self"])
    || name == Name(NS_THREAD, "in-reply-to")
    || name == Name(NS_ATOM, "updated")
  }

  datatype ItemScan = ItemScan(
    key: string, guidPermalink: bool, markdown: string, inReplyTo: string, commentsPage: string,
    comments: Option<Comments>, source: Option<Origin>, unknown: seq<Element>)

  datatype ChannelScan = ChannelScan(self: string, accounts: seq<Account>, unknown: seq<Element>, items: seq<ItemScan>)

  function FirstNonEmpty(values: seq<string>): string {
    if values == [] then "" else if values[0] != "" then values[0] else FirstNonEmpty(values[1..])
  }

  // Simple case folding of the characters that fold to an ASCII letter.
  function FoldChar(c: char): char {
    if c == '\U{17F}' then 's' else if c == '\U{212A}' then 'k' else Text.LowerChar(c)
  }

  predicate EqualFold(a: string, b: string) {
    |a| == |b| && forall i :: 0 <= i < |a| ==> FoldChar(a[i]) == FoldChar(b[i])
  }

  predicate IsItemName(local: string) {
    local == "item" || local == "entry"
  }

  function AccountsIn(children: seq<Element>): seq<Account> {
    if children == [] then []
    else
      var c := children[0];
      var handle := Text.TrimSpace(c.text);
      (if c.name == Name(NS_SOURCE, "account") && handle != "" then [Account(AttrOf(c, "service"), handle)] else [])
      + AccountsIn(children[1..])
  }

  function UnknownIn(children: seq<Element>): seq<Element> {
    if children == [] then []
    else
      var c := children[0];
      (if c.name.space == "" || IsItemName(c.name.local) || Consumed(c.name) then [] else [c])
      + UnknownIn(children[1..])
  }

  function ItemsIn(children: seq<Element>): seq<Element> {
    if children == [] then []
    else (if IsItemName(children[0].name.local) then [children[0]] else []) + ItemsIn(children[1..])
  }

  function ItemElements(root: Element, container: Element): seq<Element> {
    var direct := ItemsIn(container.children);
    if direct != [] then direct
    else if Descendants(root, "item") != [] then Descendants(root, "item")
    else Descendants(root, "entry")
  }

  // The first link with an address that is the item's own.
  function FirstHref(children: seq<Element>): string {
    if children == [] then ""
    else
      var c := children[0];
      if c.name.local == "link" && AttrOf(c, "href") != "" && AttrOf(c, "rel") in ["", "alternate"]
      then AttrOf(c, "href")
      else FirstHref(children[1..])
  }

  function KeyOf(el: Element): string {
    if ChildText(el, "", "guid") != "" then ChildText(el, "", "guid")
    else if ChildText(el, NS_ATOM, "id") != "" then ChildText(el, NS_ATOM, "id")
    else if ChildText(el, "", "link") != "" then ChildText(el, "", "link")
    else FirstHref(el.children)
  }

  function PermalinkOf(el: Element): bool {
    match Child(el, "", "guid")
    case None => true
    case Some(g) =>
      var v := AttrOf(g, "isPermaLink");
      v == "" || !EqualFold(Text.TrimSpace(v), "false")
  }

  function ReplyOf(el: Element): string {
    var direct := ChildText(el, NS_SOURCE, "inReplyTo");
    if direct != "" then direct
    else
      match Child(el, NS_THREAD, "in-reply-to")
      case None => ""
      case Some(t) => FirstNonEmpty([AttrOf(t, "ref"), AttrOf(t, "href")])
  }

  function OriginOf(el: Element): Option<Origin> {
    match Child(el, "", "source")
    case None => None
    case Some(s) =>
      var url, name := AttrOf(s, "url"), Text.TrimSpace(s.text);
      if url != "" || name != "" then Some(Origin(url, name)) else None
  }

  function CommentsOf(el: Element): Option<Comments> {
    match Child(el, NS_SOURCE, "comments")
    case None => None
    case Some(c) =>
      var count := match Text.Atoi(Text.TrimSpace(AttrOf(c, "count"))) case Some(n) => n case None => 0;
      Some(Comments(count, FirstNonEmpty([AttrOf(c, "feedUrl"), AttrOf(c, "feedurl"), c.text])))
  }

  function ScanItem(el: Element): ItemScan {
    ItemScan(KeyOf(el), PermalinkOf(el), ChildText(el, NS_SOURCE, "markdown"), ReplyOf(el),
             ChildText(el, "", "comments"), CommentsOf(el), OriginOf(el), UnknownIn(el.children))
  }

  function ScanItems(els: seq<Element>): (r: seq<ItemScan>)
    ensures |r| == |els| && forall i :: 0 <= i < |r| ==> r[i] == ScanItem(els[i])
  {
    if els == [] then [] else [ScanItem(els[0])] + ScanItems(els[1..])
  }

  function Container(root: Element): Element {
    match Child(root, "", "channel") case Some(c) => c case None => root
  }

  function ScanRoot(root: Element): ChannelScan {
    var container := Container(root);
    ChannelScan(ChildText(container, NS_SOURCE, "self"), AccountsIn(container.children), UnknownIn(container.children),
                ScanItems(ItemElements(root, container)))
  }

  function ScanXML(data: string): Result<ChannelScan, Error> {
    match DecodeDocument(data)
    case Err(e) => Err(e)
    case Ok(root) => Ok(ScanRoot(root))
  }

  // ---- the loops ----

  method CollectAccounts(container: Element) returns (out: seq<Account>)
    ensures out == AccountsIn(container.children)
  {
    hide AttrOf;
    hide Text.TrimSpace;
    out := [];
    var cs := container.children;
    assert cs[0..] == cs;
    for i := 0 to |cs|
      invariant AccountsIn(cs) == out + AccountsIn(cs[i..])
    {
      assert cs[i..][0] == cs[i] && cs[i..][1..] == cs[i + 1..];
      var handle := Text.TrimSpace(cs[i].text);
      if cs[i].name.space == NS_SOURCE && cs[i].name.local == "account" && handle != "" {
        out := out + [Account(AttrOf(cs[i], "service"), handle)];
      }
    }
  }

  method CollectUnknown(el: Element) returns (out: seq<Element>)
    ensures out == UnknownIn(el.children)
  {
    out := [];
    var cs := el.children;
    assert cs[0..] == cs;
    for i := 0 to |cs|
      invariant UnknownIn(cs) == out + UnknownIn(cs[i..])
    {
      assert cs[i..][0] == cs[i] && cs[i..][1..] == cs[i + 1..];
      if !(cs[i].name.space == "" || IsItemName(cs[i].name.local)) && !Consumed(cs[i].name) {
        out := out + [cs[i]];
      }
    }
  }

  method CollectItems(root: Element, container: Element) returns (out: seq<Element>)
    ensures out == ItemElements(root, container)
  {
    out := [];
    var cs := container.children;
    assert cs[0..] == cs;
    for i := 0 to |cs|
      invariant ItemsIn(cs) == out + ItemsIn(cs[i..])
    {
      assert cs[i..][0] == cs[i] && cs[i..][1..] == cs[i + 1..];
      if IsItemName(cs[i].name.local) {
        out := out + [cs[i]];
      }
    }
    if |out| > 0 { return; }
    out := Descendants(root, "item");
    if |out| > 0 { return; }
    out := Descendants(root, "entry");
  }

  method ScanEach(els: seq<Element>) returns (items: seq<ItemScan>)
    ensures items == ScanItems(els)
  {
    hide ScanItem, ScanItems;
    items := [];
    for i := 0 to |els|
      invariant |items| == i && forall j :: 0 <= j < i ==> items[j] == ScanItem(els[j])
    {
      items := items + [ScanItem(els[i])];
    }
    assert items == ScanItems(els);
  }

  method ScanDocument(data: string) returns (r: Result<ChannelScan, Error>)
    ensures r == ScanXML(data)
  {
    hide DecodeDocument, ItemElements, ScanItems, UnknownIn, AccountsIn;
    hide ChildText;
    var decoded := ReadDocument(data);
    if decoded.Err? { return Err(decoded.error); }
    var root := decoded.value;
    var container := Container(root);
    var accounts := CollectAccounts(container);
    var unknown := CollectUnknown(container);
    var els := CollectItems(root, container);
    var items := ScanEach(els);
    r := Ok(ChannelScan(ChildText(container, NS_SOURCE, "self"), accounts, unknown, items));
  }
}
