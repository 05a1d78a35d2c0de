// internal/feed: the neutral feed model every other component reads or produces. Times are
// whole seconds, None where the source has the zero time.
module Feed {
  import opened Common

  const NS_SOURCE := "https://source.scripting.com/"
  const NS_SOURCE_LEGACY := "http://source.scripting.com/"
  const NS_THREAD := "http://purl.org/syndication/thread/1.0"
  const NS_ATOM := "http://www.w3.org/2005/Atom"
  const NS_CONTENT := "http://purl.org/rss/1.0/modules/content/"
  const NS_DUBLIN_CORE := "http://purl.org/dc/elements/1.1/"
  const NS_MEDIA_RSS := "http://search.yahoo.com/mrss/"
  const NS_ITUNES := "http://www.itunes.com/dtds/podcast-1.0.dtd"
  const NS_XMLNS := "http://www.w3.org/2000/xmlns/"
  const NS_XML := "http://www.w3.org/XML/1998/namespace"
  const NS_WELL_FORMED := "http://wellformedweb.org/CommentAPI/"
  const NS_SLASH := "http://purl.org/rss/1.0/modules/slash/"
  const NS_SYNDICATION := "http://purl.org/rss/1.0/modules/syndication/"

  datatype Name = Name(space: string, local: string)

  datatype Attr = Attr(name: Name, value: string)

  datatype Element = Element(name: Name, attrs: seq<Attr>, text: string, children: seq<Element>)

  datatype Account = Account(service: string, handle: string)

  datatype Origin = Origin(url: string, name: string)

  datatype Comments = Comments(count: int, feedURL: string)

  datatype Enclosure = Enclosure(url: string, kind: string, length: int)

  datatype Item = Item(
    guid: string,
    guidIsPermalink: bool,
    link: string,
    title: string,
    html: string,
    markdown: string,
    author: string,
    published: Option<int>,
    updated: Option<int>,
    inReplyTo: string,
    commentsPage: string,
    comments: Option<Comments>,
    source: Option<Origin>,
    enclosures: seq<Enclosure>,
    unknown: seq<Element>)

  datatype Feed = Feed(
    title: string,
    link: string,
    description: string,
    language: string,
    updated: Option<int>,
    self: string,
    accounts: seq<Account>,
    items: seq<Item>,
    unknown: seq<Element>)

  // internal/feed: an item's identity, its guid or else its link.
  function ItemKey(item: Item): string {
    if item.guid != "" then item.guid else item.link
  }

  // ---- element lookups ----

  function ChildIn(children: seq<Element>, space: string, local: string): Option<Element> {
    if children == [] then None
    else if children[0].name == Name(space, local) then Some(children[0])
    else ChildIn(children[1..], space, local)
  }

  function Child(e: Element, space: string, local: string): Option<Element> {
    ChildIn(e.children, space, local)
  }

  function ChildText(e: Element, space: string, local: string): string {
    match Child(e, space, local)
    case Some(c) => c.text
    case None => ""
  }

  function AttrIn(attrs: seq<Attr>, local: string): string {
    if attrs == [] then ""
    else if attrs[0].name == Name("", local) then attrs[0].value
    else AttrIn(attrs[1..], local)
  }

  function AttrOf(e: Element, local: string): string {
    AttrIn(e.attrs, local)
  }

  predicate IsNamespaceDeclaration(a: Attr) {
    || a.name.space == "xmlns"
    || a.name.space == NS_XMLNS
    || (a.name.space == "" && a.name.local == "xmlns")
  }

  // Every element below e with the given local name, in document order.
  function Descendants(e: Element, local: string): seq<Element>
    decreases e, 1
  {
    DescendantsIn(e.children, local)
  }

  function DescendantsIn(children: seq<Element>, local: string): seq<Element>
    decreases children, 0
  {
    if children == [] then []
    else
      (if children[0].name.local == local then [children[0]] else [])
      + Descendants(children[0], local)
      + DescendantsIn(children[1..], local)
  }
}
