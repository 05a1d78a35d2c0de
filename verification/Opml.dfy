// internal/opml: subscription lists as outlines. A document is its tree of outlines here; the
// XML around it is encoding/xml's.
module Opml {
  import opened Common
  import Text

  datatype Subscription = Subscription(title: string, feedURL: string, siteURL: string, category: string)

  datatype Outline = Outline(text: string, title: string, kind: string, xmlURL: string, htmlURL: string, outlines: seq<Outline>)

  datatype Failure = NotOPML

  function FirstNonEmpty(values: seq<string>): (r: string)
    ensures Text.TrimSpace(r) == r
  {
    if values == [] then
      TrimmedTwice("");
      ""
    else if Text.TrimSpace(values[0]) != "" then
      TrimmedTwice(values[0]);
      Text.TrimSpace(values[0])
    else FirstNonEmpty(values[1..])
  }

  lemma TrimmedTwice(s: string)
    ensures Text.TrimSpace(Text.TrimSpace(s)) == Text.TrimSpace(s) && Text.TrimSpace("") == ""
  {
    var l, r := Text.TrimSpaceSpec(s);
    Text.TrimSpaceFixed(Text.TrimSpace(s));
    Text.TrimSpaceFixed("");
  }

  function Label(item: Outline): string { FirstNonEmpty([item.title, item.text]) }

  function Nested(category: string, name: string): string {
    if name == "" then category else if category == "" then name else category + "/" + name
  }

  predicate IsFeed(item: Outline) { Text.TrimSpace(item.xmlURL) != "" }

  function Entry(item: Outline, category: string): Subscription {
    Subscription(Label(item), Text.TrimSpace(item.xmlURL), Text.TrimSpace(item.htmlURL), category)
  }

  // Every feed at or below these outlines, in document order.
  function Walked(items: seq<Outline>, category: string): seq<Subscription>
    decreases items
  {
    if items == [] then []
    else
      (if IsFeed(items[0]) then [Entry(items[0], category)]
       else Walked(items[0].outlines, Nested(category, Label(items[0]))))
      + Walked(items[1..], category)
  }

  function Parsed(items: seq<Outline>): Result<seq<Subscription>, Failure> {
    var out := Walked(items, "");
    if items == [] || out == [] then Err(NotOPML) else Ok(out)
  }

  // What one outline contributes.
  function Contribution(item: Outline, category: string): seq<Subscription> {
    if IsFeed(item) then [Entry(item, category)] else Walked(item.outlines, Nested(category, Label(item)))
  }

  lemma WalkedStep(items: seq<Outline>, i: nat, category: string)
    requires i < |items|
    ensures Walked(items[i..], category) == Contribution(items[i], category) + Walked(items[i + 1..], category)
  {
    assert items[i..][0] == items[i] && items[i..][1..] == items[i + 1..];
  }

  method Walk(items: seq<Outline>, category: string) returns (out: seq<Subscription>)
    ensures out == Walked(items, category)
    decreases items
  {
    hide FirstNonEmpty, Walked;
    hide Text.TrimSpace;
    out := [];
    assert items[0..] == items;
    for i := 0 to |items|
      invariant out + Walked(items[i..], category) == Walked(items, category)
    {
      var item := items[i];
      WalkedStep(items, i, category);
      Regroup(out, Contribution(item, category), Walked(items[i + 1..], category));
      assert item in items;
      var name := FirstNonEmpty([item.title, item.text]);
      if Text.TrimSpace(item.xmlURL) != "" {
        out := out + [Subscription(name, Text.TrimSpace(item.xmlURL), Text.TrimSpace(item.htmlURL), category)];
      } else {
        var nested := category;
        if name != "" {
          if nested == "" { nested := name; } else { nested := nested + "/" + name; }
        }
        var below := Walk(item.outlines, nested);
        out := out + below;
      }
    }
    NothingWalked(category);
    assert items[|items|..] == [] && out + [] == out;
  }

  lemma NothingWalked(category: string)
    ensures Walked([], category) == []
  {}

  lemma Regroup<T>(a: seq<T>, b: seq<T>, c: seq<T>)
    ensures a + (b + c) == a + b + c
  {}

  method Parse(items: seq<Outline>) returns (r: Result<seq<Subscription>, Failure>)
    ensures r == Parsed(items)
  {
    if |items| == 0 { return Err(NotOPML); }
    var out := Walk(items, "");
    if |out| == 0 { return Err(NotOPML); }
    r := Ok(out);
  }

  // ---- grouping ----

  function Group(subs: seq<Subscription>, category: string): seq<Subscription> {
    if subs == [] then []
    else (if subs[0].category == category then [subs[0]] else []) + Group(subs[1..], category)
  }

  function Without(subs: seq<Subscription>, category: string): (r: seq<Subscription>)
    ensures |r| <= |subs| && (forall s <- r :: s in subs && s.category != category)
  {
    if subs == [] then []
    else (if subs[0].category == category then [] else [subs[0]]) + Without(subs[1..], category)
  }

  // The categories in the order they are first seen.
  function Order(subs: seq<Subscription>): (r: seq<string>)
    ensures forall c :: c in r <==> exists s <- subs :: s.category == c
    decreases |subs|
  {
    if subs == [] then []
    else
      WithoutCategories(subs);
      [subs[0].category] + Order(Without(subs[1..], subs[0].category))
  }

  // The stable grouping: the subscriptions category by category.
  function Grouped(subs: seq<Subscription>): seq<Subscription>
    decreases |subs|
  {
    if subs == [] then []
    else Group(subs, subs[0].category) + Grouped(Without(subs[1..], subs[0].category))
  }

  lemma {:induction false} WithoutKeeps(subs: seq<Subscription>, category: string)
    ensures forall s <- subs :: s.category != category ==> s in Without(subs, category)
  {
    if subs != [] { WithoutKeeps(subs[1..], category); }
  }

  lemma WithoutCategories(subs: seq<Subscription>)
    requires subs != []
    ensures forall s <- subs :: s.category == subs[0].category || s in Without(subs[1..], subs[0].category)
  {
    WithoutKeeps(subs[1..], subs[0].category);
    assert subs == [subs[0]] + subs[1..];
  }

  // ---- rendering ----

  function Line(sub: Subscription): Outline {
    var name := FirstNonEmpty([sub.title, sub.feedURL]);
    Outline(name, name, "rss", sub.feedURL, sub.siteURL, [])
  }

  function Lines(subs: seq<Subscription>): (r: seq<Outline>)
    ensures |r| == |subs| && forall i :: 0 <= i < |r| ==> r[i] == Line(subs[i])
  {
    if subs == [] then [] else [Line(subs[0])] + Lines(subs[1..])
  }

  function Section(category: string, subs: seq<Subscription>): seq<Outline> {
    if category == "" then Lines(subs) else [Outline(category, category, "", "", "", Lines(subs))]
  }

  function Sections(order: seq<string>, subs: seq<Subscription>): seq<Outline> {
    if order == [] then [] else Section(order[0], Group(subs, order[0])) + Sections(order[1..], subs)
  }

  function Rendered(subs: seq<Subscription>): seq<Outline> { Sections(Order(subs), subs) }

  lemma GroupCons(s: Subscription, more: seq<Subscription>, category: string)
    ensures Group([s] + more, category) == (if s.category == category then [s] else []) + Group(more, category)
    ensures Without([s] + more, category) == (if s.category == category then [] else [s]) + Without(more, category)
  {
    assert ([s] + more)[1..] == more;
  }

  lemma {:induction false} GroupAppend(a: seq<Subscription>, b: seq<Subscription>, category: string)
    ensures Group(a + b, category) == Group(a, category) + Group(b, category)
    ensures Without(a + b, category) == Without(a, category) + Without(b, category)
  {
    if a == [] {
      assert a + b == b;
    } else {
      var s, more := a[0], a[1..];
      assert a + b == [s] + (more + b) && a == [s] + more;
      GroupAppend(more, b, category);
      hide Group, Without;
      GroupCons(s, more + b, category);
      GroupCons(s, more, category);
      Regroup(if s.category == category then [s] else [], Group(more, category), Group(b, category));
      Regroup(if s.category == category then [] else [s], Without(more, category), Without(b, category));
    }
  }

  lemma GroupSnoc(subs: seq<Subscription>, s: Subscription, category: string)
    ensures Group(subs + [s], category) == Group(subs, category) + (if s.category == category then [s] else [])
    ensures Without(subs + [s], category) == Without(subs, category) + (if s.category == category then [] else [s])
  {
    GroupAppend(subs, [s], category);
    GroupCons(s, [], category);
    assert [s] + [] == [s];
  }

  lemma {:induction false} OrderSnoc(subs: seq<Subscription>, s: Subscription)
    ensures Order(subs + [s]) == Order(subs) + (if s.category in Order(subs) then [] else [s.category])
    decreases |subs|
  {
    var all := subs + [s];
    if subs == [] {
      assert all == [s] && all[1..] == [];
      assert Without(all[1..], s.category) == [];
      assert Order(all) == [s.category] + Order([]);
    } else {
      var c := subs[0].category;
      assert all[1..] == subs[1..] + [s];
      GroupSnoc(subs[1..], s, c);
      if s.category == c {
        assert Without(all[1..], c) == Without(subs[1..], c);
      } else {
        OrderSnoc(Without(subs[1..], c), s);
      }
    }
  }

  method Tally(subs: seq<Subscription>) returns (grouped: map<string, seq<Subscription>>, order: seq<string>)
    ensures order == Order(subs)
    ensures forall c :: c in grouped <==> c in order
    ensures forall c <- grouped :: grouped[c] == Group(subs, c)
  {
    hide Order, Group;
    grouped, order := map[], [];
    NothingOrdered();
    for i := 0 to |subs|
      invariant order == Order(subs[..i])
      invariant forall c :: c in grouped <==> c in order
      invariant forall c <- grouped :: grouped[c] == Group(subs[..i], c)
    {
      var sub := subs[i];
      assert subs[..i + 1] == subs[..i] + [sub];
      OrderSnoc(subs[..i], sub);
      forall c ensures Group(subs[..i + 1], c) == Group(subs[..i], c) + (if sub.category == c then [sub] else []) {
        GroupSnoc(subs[..i], sub, c);
      }
      if sub.category !in grouped {
        UnseenEmpty(subs[..i], sub.category);
        order := order + [sub.category];
        grouped := grouped[sub.category := []];
      }
      grouped := grouped[sub.category := grouped[sub.category] + [sub]];
    }
    assert subs[..|subs|] == subs;
  }

  lemma NothingOrdered()
    ensures Order([]) == []
  {}

  method Render(subs: seq<Subscription>) returns (outlines: seq<Outline>)
    ensures outlines == Rendered(subs)
  {
    hide Order, Group, Lines;
    var grouped, order := Tally(subs);
    outlines := [];
    assert order[0..] == order;
    for i := 0 to |order|
      invariant outlines + Sections(order[i..], subs) == Sections(order, subs)
    {
      var category := order[i];
      assert order[i..][0] == category && order[i..][1..] == order[i + 1..];
      assert category in grouped;
      var items := RenderGroup(grouped[category]);
      Regroup(outlines, Section(category, Group(subs, category)), Sections(order[i + 1..], subs));
      if category == "" {
        outlines := outlines + items;
        continue;
      }
      outlines := outlines + [Outline(category, category, "", "", "", items)];
    }
    assert outlines + [] == outlines;
  }

  method RenderGroup(subs: seq<Subscription>) returns (items: seq<Outline>)
    ensures items == Lines(subs)
  {
    items := [];
    for i := 0 to |subs|
      invariant |items| == i && forall j :: 0 <= j < i ==> items[j] == Line(subs[j])
    {
      var name := FirstNonEmpty([subs[i].title, subs[i].feedURL]);
      items := items + [Outline(name, name, "rss", subs[i].feedURL, subs[i].siteURL, [])];
    }
  }

  lemma {:induction false} UnseenEmpty(subs: seq<Subscription>, category: string)
    requires category !in Order(subs)
    ensures Group(subs, category) == []
  {
    hide Order;
    NoneGrouped(subs, category);
  }

  lemma {:induction false} NoneGrouped(subs: seq<Subscription>, category: string)
    requires forall s <- subs :: s.category != category
    ensures Group(subs, category) == [] && Without(subs, category) == subs
  {
    if subs != [] {
      assert subs[0] in subs;
      NoneGrouped(subs[1..], category);
    }
  }

  // ---- what comes back ----

  // A subscription as the parser sees it: trimmed, its title defaulted to the address. One
  // without an address is taken for an empty folder.
  function Seen(sub: Subscription): Subscription {
    Subscription(FirstNonEmpty([sub.title, sub.feedURL]), Text.TrimSpace(sub.feedURL), Text.TrimSpace(sub.siteURL),
                 Text.TrimSpace(sub.category))
  }

  function SeenAll(subs: seq<Subscription>): seq<Subscription> {
    if subs == [] then []
    else (if Text.TrimSpace(subs[0].feedURL) == "" then [] else [Seen(subs[0])]) + SeenAll(subs[1..])
  }

  lemma FirstOfTwo(a: string, b: string)
    ensures FirstNonEmpty([a, b]) == if Text.TrimSpace(a) != "" then Text.TrimSpace(a) else Text.TrimSpace(b)
  {
    assert [a, b][1..] == [b] && [b][1..] == [];
    assert FirstNonEmpty([]) == "";
    assert FirstNonEmpty([b]) == Text.TrimSpace(b);
  }

  lemma WalkedCons(item: Outline, more: seq<Outline>, category: string)
    ensures Walked([item] + more, category) == Contribution(item, category) + Walked(more, category)
  {
    var all := [item] + more;
    assert all[0..] == all && all[1..] == more;
    WalkedStep(all, 0, category);
  }

  lemma {:induction false} WalkedAppend(a: seq<Outline>, b: seq<Outline>, category: string)
    ensures Walked(a + b, category) == Walked(a, category) + Walked(b, category)
  {
    hide Contribution, Walked;
    NothingWalked(category);
    if a == [] {
      assert a + b == b;
      assert [] + Walked(b, category) == Walked(b, category);
    } else {
      assert a + b == [a[0]] + (a[1..] + b) && a == [a[0]] + a[1..];
      WalkedCons(a[0], a[1..] + b, category);
      WalkedCons(a[0], a[1..], category);
      WalkedAppend(a[1..], b, category);
      Regroup(Contribution(a[0], category), Walked(a[1..], category), Walked(b, category));
    }
  }

  lemma LineWalked(sub: Subscription, category: string)
    ensures Contribution(Line(sub), category)
         == if Text.TrimSpace(sub.feedURL) == "" then []
            else [Subscription(FirstNonEmpty([sub.title, sub.feedURL]), Text.TrimSpace(sub.feedURL), Text.TrimSpace(sub.siteURL), category)]
  {
    var name := FirstNonEmpty([sub.title, sub.feedURL]);
    FirstOfTwo(name, name);
    hide FirstNonEmpty;
    hide Text.TrimSpace;
  }

  lemma {:induction false} LinesWalked(subs: seq<Subscription>, category: string)
    requires forall s <- subs :: Text.TrimSpace(s.category) == category
    ensures Walked(Lines(subs), category) == SeenAll(subs)
  {
    hide FirstNonEmpty, Contribution;
    hide Text.TrimSpace;
    if subs != [] {
      assert subs[0] in subs;
      LineWalked(subs[0], category);
      assert Lines(subs)[0..] == Lines(subs) && Lines(subs)[1..] == Lines(subs[1..]);
      WalkedStep(Lines(subs), 0, category);
      LinesWalked(subs[1..], category);
    }
  }

  lemma SectionWalked(category: string, subs: seq<Subscription>)
    requires forall s <- subs :: s.category == category
    ensures Walked(Section(category, subs), "") == SeenAll(subs)
  {
    var trimmed := Text.TrimSpace(category);
    TrimmedTwice(category);
    LinesWalked(subs, trimmed);
    if category != "" {
      var folder := Outline(category, category, "", "", "", Lines(subs));
      assert [folder][0..] == [folder] && [folder][1..] == [];
      WalkedStep([folder], 0, "");
      FirstOfTwo(category, category);
      assert Label(folder) == trimmed;
      hide FirstNonEmpty, SeenAll;
      assert !IsFeed(folder);
      assert Contribution(folder, "") == Walked(Lines(subs), trimmed);
      assert SeenAll(subs) + [] == SeenAll(subs);
    }
  }

  lemma {:induction false} SeenAppend(a: seq<Subscription>, b: seq<Subscription>)
    ensures SeenAll(a + b) == SeenAll(a) + SeenAll(b)
  {
    hide Seen;
    hide Text.TrimSpace;
    if a == [] {
      assert a + b == b;
    } else {
      assert (a + b)[1..] == a[1..] + b;
      SeenAppend(a[1..], b);
    }
  }

  lemma {:induction false} GroupIs(subs: seq<Subscription>, category: string)
    ensures forall s <- Group(subs, category) :: s in subs && s.category == category
  {
    if subs != [] { GroupIs(subs[1..], category); }
  }

  lemma {:induction false} GroupWithout(subs: seq<Subscription>, gone: string, category: string)
    requires gone != category
    ensures Group(Without(subs, gone), category) == Group(subs, category)
  {
    if subs != [] {
      var s, more := subs[0], subs[1..];
      assert subs == [s] + more;
      GroupWithout(more, gone, category);
      GroupCons(s, more, gone);
      GroupCons(s, more, category);
      GroupCons(s, Without(more, gone), category);
      hide Group, Without;
      if s.category == gone { assert [] + Without(more, gone) == Without(more, gone); assert [] + Group(more, category) == Group(more, category); }
    }
  }

  lemma {:induction false} SectionsWithout(order: seq<string>, subs: seq<Subscription>, gone: string)
    requires gone !in order
    ensures Sections(order, Without(subs, gone)) == Sections(order, subs)
  {
    hide Section;
    if order != [] {
      assert order[0] in order;
      GroupWithout(subs, gone, order[0]);
      SectionsWithout(order[1..], subs, gone);
    }
  }

  lemma RenderedStep(subs: seq<Subscription>)
    requires subs != []
    ensures var c := subs[0].category;
            Rendered(subs) == Section(c, Group(subs, c)) + Rendered(Without(subs[1..], c))
  {
    var c, more := subs[0].category, subs[1..];
    var rest := Without(more, c);
    assert subs == [subs[0]] + more;
    GroupCons(subs[0], more, c);
    assert [] + rest == rest;
    var order := [c] + Order(rest);
    assert Order(subs) == order;
    assert order[0] == c && order[1..] == Order(rest);
    hide Section, Group, Without, Order;
    SectionsWithout(Order(rest), subs, c);
  }

  // For every list: parsing what was rendered gives the stable grouping of what has an address,
  // and fails when nothing has one.
  lemma {:induction false} RenderedWalks(subs: seq<Subscription>)
    ensures Walked(Rendered(subs), "") == SeenAll(Grouped(subs))
    decreases |subs|
  {
    hide Section, SeenAll, Group;
    if subs == [] {
      assert SeenAll([]) == [] by { NothingSeen(); }
    } else {
      var c := subs[0].category;
      var rest := Without(subs[1..], c);
      RenderedStep(subs);
      WalkedAppend(Section(c, Group(subs, c)), Rendered(rest), "");
      GroupIs(subs, c);
      SectionWalked(c, Group(subs, c));
      RenderedWalks(rest);
      SeenAppend(Group(subs, c), Grouped(rest));
    }
  }

  lemma NothingSeen()
    ensures SeenAll([]) == []
  {}

  lemma ParseOfRender(subs: seq<Subscription>)
    ensures var out := SeenAll(Grouped(subs));
            Parsed(Rendered(subs)) == if out == [] then Err(NotOPML) else Ok(out)
  {
    RenderedWalks(subs);
    NothingWalked("");
  }

  // ---- the grouping is one ----

  lemma {:induction false} GroupSplits(subs: seq<Subscription>, category: string)
    ensures multiset(subs) == multiset(Group(subs, category)) + multiset(Without(subs, category))
  {
    if subs != [] {
      assert subs == [subs[0]] + subs[1..];
      GroupSplits(subs[1..], category);
    }
  }

  // Nothing is lost and nothing doubled.
  lemma {:induction false} GroupedSame(subs: seq<Subscription>)
    ensures multiset(Grouped(subs)) == multiset(subs)
    decreases |subs|
  {
    if subs != [] {
      var c := subs[0].category;
      GroupSplits(subs, c);
      assert Without(subs, c) == [] + Without(subs[1..], c);
      GroupedSame(Without(subs[1..], c));
    }
  }

  lemma {:induction false} AllGrouped(subs: seq<Subscription>, category: string)
    requires forall s <- subs :: s.category == category
    ensures Group(subs, category) == subs && Without(subs, category) == []
    ensures forall c :: c != category ==> Group(subs, c) == []
  {
    if subs != [] {
      assert subs[0] in subs;
      AllGrouped(subs[1..], category);
      assert subs == [subs[0]] + subs[1..];
    }
  }

  lemma {:induction false} GroupedIs(subs: seq<Subscription>)
    ensures forall s :: s in Grouped(subs) <==> s in subs
  {
    GroupedSame(subs);
    forall s ensures s in Grouped(subs) <==> s in subs {
      assert s in multiset(Grouped(subs)) <==> s in multiset(subs);
    }
  }

  // Each category's subscriptions keep their order.
  lemma {:induction false} GroupedStable(subs: seq<Subscription>, category: string)
    ensures Group(Grouped(subs), category) == Group(subs, category)
    decreases |subs|
  {
    if subs != [] {
      var c := subs[0].category;
      var group, rest := Group(subs, c), Without(subs[1..], c);
      assert subs == [subs[0]] + subs[1..];
      GroupCons(subs[0], subs[1..], c);
      assert [] + rest == rest;
      GroupIs(subs, c);
      GroupAppend(group, Grouped(rest), category);
      AllGrouped(group, c);
      GroupedIs(rest);
      hide Group, Without;
      if category == c {
        NoneGrouped(Grouped(rest), c);
        assert group + [] == group;
      } else {
        GroupedStable(rest, category);
        GroupWithout(subs, c, category);
        assert [] + Group(rest, category) == Group(rest, category);
      }
    }
  }

  // A run of one category in front of the others stays where it is.
  lemma RunFirst(run: seq<Subscription>, others: seq<Subscription>, category: string)
    requires run != [] && (forall s <- run :: s.category == category) && (forall s <- others :: s.category != category)
    ensures Grouped(run + others) == run + Grouped(others)
    ensures Order(run + others) == [category] + Order(others)
  {
    var all := run + others;
    assert run[0] in run && all[0] == run[0];
    assert all[1..] == run[1..] + others;
    GroupAppend(run, others, category);
    GroupAppend(run[1..], others, category);
    AllGrouped(run, category);
    AllGrouped(run[1..], category);
    NoneGrouped(others, category);
    assert run + [] == run && [] + others == others;
    hide Group, Without;
  }

  predicate CategoriesTrimmed(subs: seq<Subscription>) {
    forall s <- subs :: Text.TrimSpace(s.category) == s.category
  }

  lemma {:induction false} SeenKeepsCategory(subs: seq<Subscription>)
    requires CategoriesTrimmed(subs)
    ensures CategoriesTrimmed(SeenAll(subs))
    ensures forall t <- SeenAll(subs) :: exists s <- subs :: s.category == t.category
  {
    if subs != [] {
      assert subs[0] in subs;
      SeenKeepsCategory(subs[1..]);
    }
  }

  lemma {:induction false} SeenStaysGrouped(subs: seq<Subscription>)
    requires CategoriesTrimmed(subs)
    ensures Grouped(SeenAll(Grouped(subs))) == SeenAll(Grouped(subs))
    decreases |subs|
  {
    if subs == [] {
      NothingSeen();
    } else {
      var c := subs[0].category;
      var group, rest := Group(subs, c), Without(subs[1..], c);
      GroupIs(subs, c);
      GroupedIs(rest);
      SeenAppend(group, Grouped(rest));
      SeenKeepsCategory(group);
      SeenKeepsCategory(Grouped(rest));
      SeenStaysGrouped(rest);
      hide SeenAll, Group, Without;
      if SeenAll(group) == [] {
        assert [] + SeenAll(Grouped(rest)) == SeenAll(Grouped(rest));
      } else {
        RunFirst(SeenAll(group), SeenAll(Grouped(rest)), c);
      }
    }
  }

  lemma {:induction false} SeenTwice(subs: seq<Subscription>)
    ensures SeenAll(SeenAll(subs)) == SeenAll(subs)
    ensures CategoriesTrimmed(SeenAll(subs))
  {
    if subs == [] {
      NothingSeen();
    } else {
      SeenTwice(subs[1..]);
      SeenAgain(subs[0]);
      hide Seen;
      hide Text.TrimSpace;
      if Text.TrimSpace(subs[0].feedURL) != "" {
        var seen := [Seen(subs[0])] + SeenAll(subs[1..]);
        assert seen[1..] == SeenAll(subs[1..]);
      } else {
        assert [] + SeenAll(subs[1..]) == SeenAll(subs[1..]);
      }
    }
  }

  lemma SeenAgain(sub: Subscription)
    ensures Seen(Seen(sub)) == Seen(sub)
    ensures Text.TrimSpace(Seen(sub).feedURL) == Text.TrimSpace(sub.feedURL)
    ensures Text.TrimSpace(Seen(sub).category) == Seen(sub).category
  {
    TrimmedTwice(sub.feedURL);
    TrimmedTwice(sub.siteURL);
    TrimmedTwice(sub.category);
    FirstOfTwo(sub.title, sub.feedURL);
    FirstOfTwo(FirstNonEmpty([sub.title, sub.feedURL]), Text.TrimSpace(sub.feedURL));
    hide FirstNonEmpty;
    hide Text.TrimSpace;
  }

  // The second round trip changes nothing, when no two categories differ only in white space
  // around them.
  lemma SecondTripIsIdentity(subs: seq<Subscription>)
    requires CategoriesTrimmed(subs) && Parsed(Rendered(subs)).Ok?
    ensures var out := Parsed(Rendered(subs)).value; Parsed(Rendered(out)) == Ok(out)
  {
    ParseOfRender(subs);
    var out := SeenAll(Grouped(subs));
    ParseOfRender(out);
    SeenStaysGrouped(subs);
    SeenTwice(Grouped(subs));
  }

  // The third never does.
  lemma ThirdTripIsIdentity(subs: seq<Subscription>)
    requires Parsed(Rendered(subs)).Ok?
    ensures var once := Parsed(Rendered(subs)).value;
            && Parsed(Rendered(once)).Ok?
            && var twice := Parsed(Rendered(once)).value; Parsed(Rendered(twice)) == Ok(twice)
  {
    ParseOfRender(subs);
    var once := SeenAll(Grouped(subs));
    SeenTwice(Grouped(subs));
    ParseOfRender(once);
    GroupedSame(once);
    assert |once| > 0 && once[0] in multiset(once);
    AllHaveAddress(Grouped(subs));
    GroupedIs(once);
    SeenNotEmpty(Grouped(once), once[0]);
    SecondTripIsIdentity(once);
  }

  lemma {:induction false} AllHaveAddress(subs: seq<Subscription>)
    ensures forall s <- SeenAll(subs) :: Text.TrimSpace(s.feedURL) != ""
  {
    if subs != [] {
      AllHaveAddress(subs[1..]);
      SeenAgain(subs[0]);
    }
  }

  lemma {:induction false} SeenNotEmpty(subs: seq<Subscription>, s: Subscription)
    requires s in subs && Text.TrimSpace(s.feedURL) != ""
    ensures SeenAll(subs) != []
  {
    if subs[0] != s { SeenNotEmpty(subs[1..], s); }
  }

  // ---- subscriptions as they should be ----

  // Trimmed fields and an address.
  predicate Tidy(s: Subscription) {
    && s.feedURL != "" && Text.Trimmed(s.feedURL) && Text.Trimmed(s.title) && Text.Trimmed(s.siteURL) && Text.Trimmed(s.category)
  }

  function Titled(s: Subscription): Subscription { if s.title == "" then s.(title := s.feedURL) else s }

  function TitledAll(subs: seq<Subscription>): (r: seq<Subscription>)
    ensures |r| == |subs| && forall i :: 0 <= i < |r| ==> r[i] == Titled(subs[i])
  {
    if subs == [] then [] else [Titled(subs[0])] + TitledAll(subs[1..])
  }

  lemma {:induction false} TidySeen(subs: seq<Subscription>)
    requires forall s <- subs :: Tidy(s)
    ensures SeenAll(subs) == TitledAll(subs)
  {
    if subs != [] {
      assert subs[0] in subs;
      TidySeenOne(subs[0]);
      hide Seen, Titled, Tidy;
      hide Text.TrimSpace;
      TidySeen(subs[1..]);
    }
  }

  lemma TidySeenOne(s: Subscription)
    requires Tidy(s)
    ensures Seen(s) == Titled(s) && Text.TrimSpace(s.feedURL) != ""
  {
    Text.TrimSpaceFixed(s.feedURL);
    Text.TrimSpaceFixed(s.title);
    Text.TrimSpaceFixed(s.siteURL);
    Text.TrimSpaceFixed(s.category);
    FirstOfTwo(s.title, s.feedURL);
    TrimmedTwice("");
  }

  // Tidy subscriptions come back exactly, category by category, in order, a missing title
  // replaced by the address.
  lemma TidyRoundTrip(subs: seq<Subscription>)
    requires subs != [] && forall s <- subs :: Tidy(s)
    ensures Parsed(Rendered(subs)) == Ok(TitledAll(Grouped(subs)))
    ensures multiset(Grouped(subs)) == multiset(subs)
    ensures forall c :: Group(Grouped(subs), c) == Group(subs, c)
  {
    ParseOfRender(subs);
    GroupedSame(subs);
    GroupedIs(subs);
    TidySeen(Grouped(subs));
    assert subs[0] in Grouped(subs);
    forall c ensures Group(Grouped(subs), c) == Group(subs, c) { GroupedStable(subs, c); }
  }

  // ---- exactly what comes back as it was ----

  // A trimmed subscription with an address and a title.
  predicate Whole(s: Subscription) { Tidy(s) && s.title != "" }

  // No category comes in two places.
  predicate Together(subs: seq<Subscription>) {
    forall i, j, k :: 0 <= i <= j <= k < |subs| && subs[i].category == subs[k].category ==> subs[j].category == subs[i].category
  }

  function RunLength(subs: seq<Subscription>, category: string): (n: nat)
    ensures n <= |subs| && forall i :: 0 <= i < n ==> subs[i].category == category
    ensures n < |subs| ==> subs[n].category != category
  {
    if subs == [] || subs[0].category != category then 0 else 1 + RunLength(subs[1..], category)
  }

  lemma TogetherAt(subs: seq<Subscription>, i: nat, j: nat, k: nat)
    requires Together(subs) && i <= j <= k < |subs| && subs[i].category == subs[k].category
    ensures subs[j].category == subs[i].category
  {}

  lemma NoneLater(subs: seq<Subscription>, n: nat)
    requires Together(subs) && subs != [] && n == RunLength(subs, subs[0].category)
    ensures forall s <- subs[n..] :: s.category != subs[0].category
  {
    hide Together;
    forall k | n <= k < |subs| ensures subs[k].category != subs[0].category {
      if subs[k].category == subs[0].category { TogetherAt(subs, 0, n, k); }
    }
  }

  lemma TogetherSuffix(subs: seq<Subscription>, n: nat)
    requires Together(subs) && n <= |subs|
    ensures Together(subs[n..])
  {
    var others := subs[n..];
    assert forall i :: 0 <= i < |others| ==> others[i] == subs[n + i];
    forall i, j, k | 0 <= i <= j <= k < |others| && others[i].category == others[k].category
      ensures others[j].category == others[i].category
    {
      TogetherAt(subs, n + i, n + j, n + k);
    }
  }

  lemma {:induction false} TogetherGrouped(subs: seq<Subscription>)
    requires Together(subs)
    ensures Grouped(subs) == subs
    decreases |subs|
  {
    hide Together, Grouped, Order;
    if subs == [] {
      NothingGrouped();
    } else {
      var n := RunLength(subs, subs[0].category);
      NoneLater(subs, n);
      TogetherSuffix(subs, n);
      TogetherGrouped(subs[n..]);
      RunFirst(subs[..n], subs[n..], subs[0].category);
      assert subs[..n] + subs[n..] == subs;
    }
  }

  lemma NothingGrouped()
    ensures Grouped([]) == []
  {}

  lemma RunTogether(run: seq<Subscription>, others: seq<Subscription>, category: string)
    requires (forall s <- run :: s.category == category) && (forall s <- others :: s.category != category)
    requires Together(others)
    ensures Together(run + others)
  {
    var all := run + others;
    var n := |run|;
    forall m | 0 <= m < |all| ensures all[m].category == category <==> m < n {
      if m < n { assert all[m] in run; } else { assert all[m] == others[m - n] && others[m - n] in others; }
    }
    forall i, j, k | 0 <= i <= j <= k < |all| && all[i].category == all[k].category
      ensures all[j].category == all[i].category
    {
      if i >= n {
        assert others[i - n] == all[i] && others[j - n] == all[j] && others[k - n] == all[k];
      }
    }
  }

  lemma {:induction false} GroupedTogether(subs: seq<Subscription>)
    ensures Together(Grouped(subs))
    decreases |subs|
  {
    if subs != [] {
      var c := subs[0].category;
      var rest := Without(subs[1..], c);
      GroupIs(subs, c);
      GroupedIs(rest);
      GroupedTogether(rest);
      hide Together;
      RunTogether(Group(subs, c), Grouped(rest), c);
    }
  }

  lemma SeenWhole(s: Subscription)
    ensures Text.TrimSpace(s.feedURL) != "" ==> Whole(Seen(s))
    ensures Whole(s) ==> Text.TrimSpace(s.feedURL) != "" && Seen(s) == s
  {
    FirstOfTwo(s.title, s.feedURL);
    SeenTrimmed(s.title); SeenTrimmed(s.feedURL); SeenTrimmed(s.siteURL); SeenTrimmed(s.category);
    hide FirstNonEmpty;
    hide Text.TrimSpace, Text.Trimmed;
  }

  lemma SeenTrimmed(s: string)
    ensures Text.Trimmed(Text.TrimSpace(s)) && (Text.Trimmed(s) ==> Text.TrimSpace(s) == s)
  {
    var l, r := Text.TrimSpaceSpec(s);
    Text.TrimSpaceFixed(s);
  }

  lemma {:induction false} SeenAllWhole(subs: seq<Subscription>)
    ensures forall s <- SeenAll(subs) :: Whole(s)
    ensures (forall s <- subs :: Whole(s)) ==> SeenAll(subs) == subs
  {
    if subs != [] {
      SeenWhole(subs[0]);
      SeenAllWhole(subs[1..]);
      assert subs == [subs[0]] + subs[1..];
      hide Seen, Whole;
      hide Text.TrimSpace;
    }
  }

  // Exactly the lists of whole subscriptions in which every category stands together come back
  // from one trip as they were.
  lemma RoundTripExactIff(subs: seq<Subscription>)
    ensures Parsed(Rendered(subs)) == Ok(subs) <==> subs != [] && (forall s <- subs :: Whole(s)) && Together(subs)
  {
    hide Parsed, Rendered, Together, Whole, SeenAll, Grouped;
    ParseOfRender(subs);
    if subs != [] && (forall s <- subs :: Whole(s)) && Together(subs) {
      TogetherGrouped(subs);
      SeenAllWhole(subs);
    }
    if Parsed(Rendered(subs)) == Ok(subs) {
      SeenAllWhole(Grouped(subs));
      WholeTrimmed(subs);
      SeenStaysGrouped(subs);
      GroupedTogether(subs);
    }
  }

  lemma WholeTrimmed(subs: seq<Subscription>)
    requires forall s <- subs :: Whole(s)
    ensures CategoriesTrimmed(subs)
  {
    forall s | s in subs ensures Text.TrimSpace(s.category) == s.category { Text.TrimSpaceFixed(s.category); }
  }

  // So a second trip changes nothing if and only if the first one leaves every category together.
  lemma SecondTripIdentityIff(subs: seq<Subscription>)
    requires Parsed(Rendered(subs)).Ok?
    ensures var out := Parsed(Rendered(subs)).value; Parsed(Rendered(out)) == Ok(out) <==> Together(out)
  {
    hide Rendered, Together, Whole, SeenAll, Grouped;
    ParseOfRender(subs);
    var out := Parsed(Rendered(subs)).value;
    SeenAllWhole(Grouped(subs));
    RoundTripExactIff(out);
  }

  // Two categories that differ in white space alone, with a third between them, are a list the
  // second trip still changes.
  lemma SpacesComeTogether()
    ensures var subs := [Subscription("1", "1", "", "a"), Subscription("2", "2", "", "b"), Subscription("3", "3", "", "a ")];
            Parsed(Rendered(subs)).Ok? && var out := Parsed(Rendered(subs)).value; Parsed(Rendered(out)) != Ok(out)
  {
    var x, y, z := Subscription("1", "1", "", "a"), Subscription("2", "2", "", "b"), Subscription("3", "3", "", "a ");
    var subs := [x, y, z];
    assert subs[0] == x && subs[1] == y && subs[2] == z;
    assert Together(subs);
    TogetherGrouped(subs);
    SpacedSeen();
    var out := [x, y, z.(category := "a")];
    ParseOfRender(subs);
    assert out[0].category == out[2].category != out[1].category;
    assert !Together(out);
    SecondTripIdentityIff(subs);
  }

  lemma SpacedSeen()
    ensures SeenAll([Subscription("1", "1", "", "a"), Subscription("2", "2", "", "b"), Subscription("3", "3", "", "a ")])
         == [Subscription("1", "1", "", "a"), Subscription("2", "2", "", "b"), Subscription("3", "3", "", "a")]
  {
    var x, y, z := Subscription("1", "1", "", "a"), Subscription("2", "2", "", "b"), Subscription("3", "3", "", "a ");
    SeenWhole(x);
    SeenWhole(y);
    assert Whole(x) && Whole(y);
    Text.TrimSpaceUnique("", "a", " ");
    assert "" + "a" + " " == "a ";
    FirstOfTwo("3", "3");
    Text.TrimSpaceFixed("3");
    Text.TrimSpaceFixed("");
    hide Text.TrimSpace;
    assert Seen(z) == z.(category := "a");
    assert [x, y, z][1..] == [y, z] && [y, z][1..] == [z] && [z][1..] == [];
    assert SeenAll([z]) == [Seen(z)] + SeenAll([]);
    assert SeenAll([y, z]) == [Seen(y)] + SeenAll([z]);
    assert SeenAll([x, y, z]) == [Seen(x)] + SeenAll([y, z]);
  }
}
