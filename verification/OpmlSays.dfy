// What an outline says about a feed and how a list is laid out, field by field.
module OpmlSays {
  import opened Common
  import opened Opml
  import Text

  // ---- reading ----

  datatype Found = Found(outline: Outline, path: seq<string>)

  function Named(outline: Outline): string {
    if Text.TrimSpace(outline.title) != "" then Text.TrimSpace(outline.title) else Text.TrimSpace(outline.text)
  }

  // Every outline with an address, in document order, and the names of the outlines it is in,
  // leaving out those without a name. What is below an outline with an address is not looked at.
  function Feeds(items: seq<Outline>, path: seq<string>): seq<Found>
    decreases items
  {
    if items == [] then []
    else
      (if Text.TrimSpace(items[0].xmlURL) != "" then [Found(items[0], path)]
       else Feeds(items[0].outlines, if Named(items[0]) == "" then path else path + [Named(items[0])]))
      + Feeds(items[1..], path)
  }

  function Slashed(path: seq<string>): string {
    if path == [] then ""
    else if |path| == 1 then path[0]
    else Slashed(path[..|path| - 1]) + "/" + path[|path| - 1]
  }

  predicate AllNamed(path: seq<string>) { forall p <- path :: p != "" }

  predicate ReadAs(f: Found, s: Subscription) {
    && s.feedURL == Text.TrimSpace(f.outline.xmlURL)
    && s.siteURL == Text.TrimSpace(f.outline.htmlURL)
    && s.title == Named(f.outline)
    && s.category == Slashed(f.path)
  }

  predicate AllReadAs(found: seq<Found>, subs: seq<Subscription>) {
    |found| == |subs| && forall i :: 0 <= i < |subs| ==> ReadAs(found[i], subs[i])
  }

  lemma LabelNamed(item: Outline)
    ensures Label(item) == Named(item)
  {
    FirstOfTwo(item.title, item.text);
  }

  lemma SlashedSnoc(path: seq<string>, name: string)
    requires AllNamed(path) && name != ""
    ensures Slashed(path + [name]) == Nested(Slashed(path), name)
    ensures AllNamed(path + [name])
  {
    var longer := path + [name];
    assert longer[..|longer| - 1] == path;
    if path == [] {
      assert longer == [name];
    } else {
      assert path[|path| - 1] in path;
      assert Slashed(path) != "";
    }
  }

  lemma ReadTogether(a: seq<Found>, x: seq<Subscription>, b: seq<Found>, y: seq<Subscription>)
    requires AllReadAs(a, x) && AllReadAs(b, y)
    ensures AllReadAs(a + b, x + y)
  {
    hide ReadAs;
  }

  lemma {:induction false} WalkedReads(items: seq<Outline>, path: seq<string>)
    requires AllNamed(path)
    ensures AllReadAs(Feeds(items, path), Walked(items, Slashed(path)))
    decreases items
  {
    if items != [] {
      var item := items[0];
      LabelNamed(item);
      WalkedReads(items[1..], path);
      if Text.TrimSpace(item.xmlURL) != "" {
        assert AllReadAs([Found(item, path)], [Entry(item, Slashed(path))]);
        ReadTogether([Found(item, path)], [Entry(item, Slashed(path))], Feeds(items[1..], path), Walked(items[1..], Slashed(path)));
      } else {
        var name := Named(item);
        var inner := if name == "" then path else path + [name];
        if name != "" { SlashedSnoc(path, name); }
        assert Nested(Slashed(path), name) == Slashed(inner);
        WalkedReads(item.outlines, inner);
        ReadTogether(Feeds(item.outlines, inner), Walked(item.outlines, Slashed(inner)),
                     Feeds(items[1..], path), Walked(items[1..], Slashed(path)));
      }
    }
  }

  // A document is refused exactly when no outline in it has an address; otherwise there is one
  // subscription to each that has, in order, with its fields and its folders.
  lemma ParsedTells(items: seq<Outline>)
    ensures Parsed(items).Err? <==> Feeds(items, []) == []
    ensures Parsed(items).Ok? ==> AllReadAs(Feeds(items, []), Parsed(items).value)
  {
    WalkedReads(items, []);
    hide ReadAs;
  }

  // ---- writing ----

  // A line of a list: the address of the feed, that of its site, and a name for it.
  predicate IsLine(o: Outline, s: Subscription) {
    && o.xmlURL == s.feedURL && o.htmlURL == s.siteURL && o.kind == "rss" && o.outlines == []
    && o.text == o.title
    && o.title == (if Text.TrimSpace(s.title) != "" then Text.TrimSpace(s.title) else Text.TrimSpace(s.feedURL))
  }

  // Each line, in order, is that of one of the subscriptions.
  predicate AreLines(lines: seq<Outline>, subs: seq<Subscription>) {
    |lines| == |subs| && forall i :: 0 <= i < |lines| ==> IsLine(lines[i], subs[i])
  }

  predicate IsFolder(o: Outline, category: string) {
    o.text == category && o.title == category && o.kind == "" && o.xmlURL == "" && o.htmlURL == ""
  }

  function Of(subs: seq<Subscription>, category: string): seq<Subscription> {
    if subs == [] then []
    else if subs[0].category == category then [subs[0]] + Of(subs[1..], category)
    else Of(subs[1..], category)
  }

  lemma LinesAre(subs: seq<Subscription>)
    ensures AreLines(Lines(subs), subs)
  {
    forall i | 0 <= i < |subs| ensures IsLine(Lines(subs)[i], subs[i]) {
      FirstOfTwo(subs[i].title, subs[i].feedURL);
    }
    hide IsLine;
  }

  lemma {:induction false} OfGroup(subs: seq<Subscription>, category: string)
    ensures Group(subs, category) == Of(subs, category)
  {
    if subs != [] {
      OfGroup(subs[1..], category);
      assert [] + Group(subs[1..], category) == Group(subs[1..], category);
    }
  }

  // The categories in order, each once: those without a name as lines, the others as folders.
  ghost predicate LaidOut(outlines: seq<Outline>, order: seq<string>, subs: seq<Subscription>)
    decreases |order|
  {
    if order == [] then outlines == []
    else
      var own := Of(subs, order[0]);
      if order[0] == "" then
        |own| <= |outlines| && AreLines(outlines[..|own|], own) && LaidOut(outlines[|own|..], order[1..], subs)
      else
        && outlines != [] && IsFolder(outlines[0], order[0]) && AreLines(outlines[0].outlines, own)
        && LaidOut(outlines[1..], order[1..], subs)
  }

  lemma {:induction false} SectionsLaidOut(order: seq<string>, subs: seq<Subscription>)
    ensures LaidOut(Sections(order, subs), order, subs)
    decreases |order|
  {
    if order != [] {
      SectionsLaidOut(order[1..], subs);
      OfGroup(subs, order[0]);
      var own, more := Of(subs, order[0]), Sections(order[1..], subs);
      LinesAre(own);
      var all := Sections(order, subs);
      hide AreLines;
      if order[0] == "" {
        assert all == Lines(own) + more && all[..|own|] == Lines(own) && all[|own|..] == more;
      } else {
        assert all[0] == Outline(order[0], order[0], "", "", "", Lines(own)) && all[1..] == more;
      }
    }
  }

  // Each category of the list, once.
  predicate EachOnce(order: seq<string>, subs: seq<Subscription>) {
    && (forall i, j :: 0 <= i < j < |order| ==> order[i] != order[j])
    && (forall s <- subs :: s.category in order)
    && (forall c <- order :: exists s <- subs :: s.category == c)
  }

  lemma {:induction false} OrderOnce(subs: seq<Subscription>)
    ensures EachOnce(Order(subs), subs)
    decreases |subs|
  {
    if subs != [] {
      var rest := Without(subs[1..], subs[0].category);
      OrderOnce(rest);
      var order := Order(subs);
      assert order == [subs[0].category] + Order(rest);
      forall i, j | 0 <= i < j < |order| ensures order[i] != order[j] {
        if i == 0 { assert order[j] in Order(rest); }
      }
    }
  }

  // Every subscription has its line, in the folder of its category or, without one, at the top.
  lemma RenderedTells(subs: seq<Subscription>)
    ensures LaidOut(Rendered(subs), Order(subs), subs) && EachOnce(Order(subs), subs)
    ensures subs != [] ==> Order(subs)[0] == subs[0].category
  {
    SectionsLaidOut(Order(subs), subs);
    OrderOnce(subs);
    hide LaidOut, EachOnce;
  }
}
