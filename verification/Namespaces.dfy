// internal/feedout: which prefix each namespace of a feed is written with.
module Namespaces {
  import opened Common
  import opened Feed
  import Text
  import Xml

  datatype Binding = Binding(prefix: string, uri: string)

  datatype Table = Table(byURI: map<string, string>, order: seq<Binding>, generated: nat)

  const NO_PREFIXES := Table(map[], [], 0)

  function WellKnown(uri: string): Option<string> {
    if uri == NS_SOURCE then Some("source")
    else if uri == NS_THREAD then Some("thr")
    else if uri == NS_ATOM then Some("atom")
    else if uri == NS_CONTENT then Some("content")
    else if uri == NS_DUBLIN_CORE then Some("dc")
    else if uri == NS_MEDIA_RSS then Some("media")
    else if uri == NS_ITUNES then Some("itunes")
    else if uri == NS_SLASH then Some("slash")
    else if uri == NS_SYNDICATION then Some("sy")
    else if uri == NS_WELL_FORMED then Some("wfw")
    else if uri == NS_SOURCE_LEGACY then Some("source")
    else None
  }

  predicate PrefixTaken(order: seq<Binding>, prefix: string) {
    exists b <- order :: b.prefix == prefix
  }

  function Generated(n: nat): string {
    "ns" + Text.Itoa(n)
  }

  function UseStep(t: Table, uri: string): (Table, string) {
    if uri == "" || uri == NS_XML then (t, "")
    else if uri in t.byURI then (t, t.byURI[uri])
    else
      var known := WellKnown(uri);
      var numbered := known.None? || PrefixTaken(t.order, known.value);
      var generated := if numbered then t.generated + 1 else t.generated;
      var prefix := if numbered then Generated(generated) else known.value;
      (Table(t.byURI[uri := prefix], t.order + [Binding(prefix, uri)], generated), prefix)
  }

  function UseAttrs(t: Table, attrs: seq<Attr>): Table
    decreases |attrs|
  {
    if attrs == [] then t
    else UseStep(UseAttrs(t, attrs[..|attrs| - 1]), attrs[|attrs| - 1].name.space).0
  }

  function Register(t: Table, el: Element): Table
    decreases el, 1
  {
    RegisterAll(UseAttrs(UseStep(t, el.name.space).0, el.attrs), el.children)
  }

  function RegisterAll(t: Table, els: seq<Element>): Table
    decreases els, 0
  {
    if els == [] then t
    else RegisterAll(Register(t, els[0]), els[1..])
  }

  predicate UsesSource(items: seq<Item>) {
    exists it <- items :: it.markdown != "" || it.inReplyTo != "" || it.comments.Some?
  }

  predicate UsesThreading(items: seq<Item>) {
    exists it <- items :: it.inReplyTo != ""
  }

  predicate ShowsUpdated(it: Item) {
    it.updated.Some? && it.updated != it.published
  }

  predicate UsesAtom(items: seq<Item>) {
    exists it <- items :: ShowsUpdated(it)
  }

  function UseIf(t: Table, wanted: bool, uri: string): Table {
    if wanted then UseStep(t, uri).0 else t
  }

  function RegisterItems(t: Table, items: seq<Item>): Table
    decreases |items|
  {
    if items == [] then t else RegisterItems(RegisterAll(t, items[0].unknown), items[1..])
  }

  function Collected(f: Feed): Table {
    var t1 := UseIf(NO_PREFIXES, f.self != "" || |f.accounts| > 0 || UsesSource(f.items), NS_SOURCE);
    var t2 := UseIf(t1, UsesThreading(f.items), NS_THREAD);
    var t3 := UseIf(t2, UsesAtom(f.items), NS_ATOM);
    RegisterItems(RegisterAll(t3, f.unknown), f.items)
  }

  // ---- the table in use ----

  class Prefixes {
    var byURI: map<string, string>
    var order: seq<Binding>
    var generated: nat

    ghost function State(): Table
      reads this
    {
      Table(byURI, order, generated)
    }

    constructor ()
      ensures State() == NO_PREFIXES
    {
      byURI, order, generated := map[], [], 0;
    }

    method Use(uri: string) returns (prefix: string)
      modifies this
      ensures (State(), prefix) == UseStep(old(State()), uri)
    {
      if uri == "" || uri == NS_XML { return ""; }
      if uri in byURI { return byURI[uri]; }
      var known := WellKnown(uri);
      var taken := true;
      if known.Some? {
        taken := PrefixIsTaken(known.value);
      }
      if taken {
        generated := generated + 1;
        prefix := "ns" + Text.Itoa(generated);
      } else {
        prefix := known.value;
      }
      byURI := byURI[uri := prefix];
      order := order + [Binding(prefix, uri)];
    }

    method PrefixIsTaken(prefix: string) returns (taken: bool)
      ensures taken == PrefixTaken(order, prefix)
    {
      for i := 0 to |order|
        invariant forall j :: 0 <= j < i ==> order[j].prefix != prefix
      {
        if order[i].prefix == prefix { return true; }
      }
      return false;
    }

    method RegisterTree(el: Element)
      modifies this
      ensures State() == Register(old(State()), el)
      decreases el
    {
      var _ := Use(el.name.space);
      ghost var named := State();
      for i := 0 to |el.attrs|
        invariant State() == UseAttrs(named, el.attrs[..i])
      {
        assert el.attrs[..i + 1][..i] == el.attrs[..i];
        var _ := Use(el.attrs[i].name.space);
      }
      assert el.attrs[..|el.attrs|] == el.attrs;
      ghost var done := State();
      for i := 0 to |el.children|
        invariant RegisterAll(State(), el.children[i..]) == RegisterAll(done, el.children)
      {
        assert el.children[i..][0] == el.children[i] && el.children[i..][1..] == el.children[i + 1..];
        RegisterTree(el.children[i]);
      }
    }

    method RegisterForest(els: seq<Element>)
      modifies this
      ensures State() == RegisterAll(old(State()), els)
    {
      for i := 0 to |els|
        invariant RegisterAll(State(), els[i..]) == RegisterAll(old(State()), els)
      {
        assert els[i..][0] == els[i] && els[i..][1..] == els[i + 1..];
        RegisterTree(els[i]);
      }
    }

    method Collect(f: Feed)
      requires State() == NO_PREFIXES
      modifies this
      ensures State() == Collected(f)
    {
      if f.self != "" || |f.accounts| > 0 || UsesSource(f.items) {
        var _ := Use(NS_SOURCE);
      }
      if UsesThreading(f.items) {
        var _ := Use(NS_THREAD);
      }
      if UsesAtom(f.items) {
        var _ := Use(NS_ATOM);
      }
      RegisterForest(f.unknown);
      ghost var start := State();
      for i := 0 to |f.items|
        invariant RegisterItems(State(), f.items[i..]) == RegisterItems(start, f.items)
      {
        assert f.items[i..][0] == f.items[i] && f.items[i..][1..] == f.items[i + 1..];
        RegisterForest(f.items[i].unknown);
      }
    }
  }

  // ---- what the table promises ----

  // Where a binding's prefix may come from.
  ghost predicate Sourced(b: Binding, generated: nat) {
    || WellKnown(b.uri) == Some(b.prefix)
    || exists n: nat :: 1 <= n <= generated && b.prefix == Generated(n)
  }

  // One line per namespace, one namespace per prefix, and the map agrees with the list.
  ghost predicate Valid(t: Table) {
    && (forall uri <- t.byURI :: Binding(t.byURI[uri], uri) in t.order)
    && (forall b <- t.order :: b.uri in t.byURI && t.byURI[b.uri] == b.prefix)
    && (forall b <- t.order :: b.uri != "" && b.uri != NS_XML && Sourced(b, t.generated))
    && (forall i, j :: 0 <= i < j < |t.order| ==>
          t.order[i].uri != t.order[j].uri && t.order[i].prefix != t.order[j].prefix)
  }

  lemma KnownPrefix(uri: string)
    requires WellKnown(uri).Some?
    ensures var p := WellKnown(uri).value;
            Xml.IsNCName(p) && p[0] != 'n' && p != "xml" && p != "xmlns"
  {}

  lemma GeneratedPrefix(n: nat)
    ensures Xml.IsNCName(Generated(n)) && Generated(n)[0] == 'n' && Generated(n) != "xml" && Generated(n) != "xmlns"
  {
    var s := Text.Itoa(n);
    assert Generated(n)[0] == 'n';
    forall c | c in Generated(n) ensures Xml.IsNameChar(c) && c != ':' {
      assert c == 'n' || c == 's' || c in s;
    }
  }

  lemma GeneratedInjective(a: nat, b: nat)
    requires Generated(a) == Generated(b)
    ensures a == b
  {
    assert Generated(a)[2..] == Text.Itoa(a) && Generated(b)[2..] == Text.Itoa(b);
    Text.ItoaInjective(a, b);
  }

  // A freshly numbered prefix has never been used.
  lemma FreshPrefix(t: Table, b: Binding)
    requires Valid(t) && b in t.order
    ensures b.prefix != Generated(t.generated + 1)
  {
    GeneratedPrefix(t.generated + 1);
    if WellKnown(b.uri) == Some(b.prefix) {
      KnownPrefix(b.uri);
    } else {
      var n: nat :| 1 <= n <= t.generated && b.prefix == Generated(n);
      if Generated(n) == Generated(t.generated + 1) { GeneratedInjective(n, t.generated + 1); }
    }
  }

  lemma SourcedGrows(b: Binding, n: nat, m: nat)
    requires Sourced(b, n) && n <= m
    ensures Sourced(b, m)
  {}

  // The prefix a new namespace gets is properly sourced and not in use.
  lemma NewPrefix(t: Table, uri: string)
    requires Valid(t) && uri != "" && uri != NS_XML && uri !in t.byURI
    ensures var (after, prefix) := UseStep(t, uri);
            Sourced(Binding(prefix, uri), after.generated) && !PrefixTaken(t.order, prefix)
  {
    var (after, prefix) := UseStep(t, uri);
    if prefix == Generated(t.generated + 1) && after.generated == t.generated + 1 {
      forall b | b in t.order ensures b.prefix != prefix { FreshPrefix(t, b); }
    }
  }

  lemma UseKeepsValid(t: Table, uri: string)
    requires Valid(t)
    ensures Valid(UseStep(t, uri).0)
    ensures t.byURI.Keys <= UseStep(t, uri).0.byURI.Keys
    ensures uri == "" || uri == NS_XML || uri in UseStep(t, uri).0.byURI
  {
    if uri != "" && uri != NS_XML && uri !in t.byURI {
      NewPrefix(t, uri);
      var (after, prefix) := UseStep(t, uri);
      hide Sourced, Generated, WellKnown;
      var added := Binding(prefix, uri);
      assert after.order == t.order + [added];
      forall b | b in after.order
        ensures b.uri in after.byURI && after.byURI[b.uri] == b.prefix
        ensures b.uri != "" && b.uri != NS_XML && Sourced(b, after.generated)
      {
        if b in t.order { SourcedGrows(b, t.generated, after.generated); }
      }
      forall u | u in after.byURI ensures Binding(after.byURI[u], u) in after.order {
        assert u == uri || Binding(t.byURI[u], u) in t.order;
      }
    }
  }

  predicate Held(t: Table, space: string) {
    space == "" || space == NS_XML || space in t.byURI
  }

  // Every namespace in the tree has a prefix.
  ghost predicate Covers(t: Table, el: Element)
    decreases el
  {
    && Held(t, el.name.space)
    && (forall a <- el.attrs :: Held(t, a.name.space))
    && (forall c <- el.children :: Covers(t, c))
  }

  ghost predicate Grown(t: Table, after: Table) {
    Valid(after) && t.byURI.Keys <= after.byURI.Keys
  }

  lemma {:induction false} CoversGrows(t: Table, after: Table, el: Element)
    requires t.byURI.Keys <= after.byURI.Keys && Covers(t, el)
    ensures Covers(after, el)
    decreases el
  {
    forall c | c in el.children ensures Covers(after, c) { CoversGrows(t, after, c); }
  }

  lemma {:induction false} UseAttrsCovers(t: Table, attrs: seq<Attr>)
    requires Valid(t)
    ensures Grown(t, UseAttrs(t, attrs))
    ensures forall a <- attrs :: Held(UseAttrs(t, attrs), a.name.space)
    decreases |attrs|
  {
    hide Valid, UseStep;
    if attrs != [] {
      var n := |attrs| - 1;
      UseAttrsCovers(t, attrs[..n]);
      UseKeepsValid(UseAttrs(t, attrs[..n]), attrs[n].name.space);
      assert forall a :: a in attrs ==> a in attrs[..n] || a == attrs[n];
    }
  }

  lemma {:induction false} RegisterCovers(t: Table, el: Element)
    requires Valid(t)
    ensures Grown(t, Register(t, el)) && Covers(Register(t, el), el)
    decreases el, 1
  {
    hide Valid, UseStep;
    var named := UseStep(t, el.name.space).0;
    UseKeepsValid(t, el.name.space);
    var attributed := UseAttrs(named, el.attrs);
    UseAttrsCovers(named, el.attrs);
    RegisterAllCovers(attributed, el.children);
  }

  lemma {:induction false} RegisterAllCovers(t: Table, els: seq<Element>)
    requires Valid(t)
    ensures Grown(t, RegisterAll(t, els)) && forall el <- els :: Covers(RegisterAll(t, els), el)
    decreases els, 0
  {
    if els != [] {
      hide Valid, Register;
      RegisterCovers(t, els[0]);
      RegisterAllCovers(Register(t, els[0]), els[1..]);
      CoversGrows(Register(t, els[0]), RegisterAll(t, els), els[0]);
    }
  }

  lemma {:induction false} RegisterItemsCovers(t: Table, items: seq<Item>)
    requires Valid(t)
    ensures Grown(t, RegisterItems(t, items))
    ensures forall it <- items :: forall el <- it.unknown :: Covers(RegisterItems(t, items), el)
    decreases |items|
  {
    if items != [] {
      hide Valid, RegisterAll;
      var first := RegisterAll(t, items[0].unknown);
      RegisterAllCovers(t, items[0].unknown);
      RegisterItemsCovers(first, items[1..]);
      forall el | el in items[0].unknown ensures Covers(RegisterItems(t, items), el) {
        CoversGrows(first, RegisterItems(t, items), el);
      }
    }
  }

  // The table of a feed: injective both ways, and with a prefix for everything that needs one.
  lemma CollectedCovers(f: Feed)
    ensures Valid(Collected(f))
    ensures f.self != "" || |f.accounts| > 0 || UsesSource(f.items) ==> NS_SOURCE in Collected(f).byURI
    ensures UsesThreading(f.items) ==> NS_THREAD in Collected(f).byURI
    ensures UsesAtom(f.items) ==> NS_ATOM in Collected(f).byURI
    ensures forall el <- f.unknown :: Covers(Collected(f), el)
    ensures forall it <- f.items :: forall el <- it.unknown :: Covers(Collected(f), el)
  {
    assert Valid(NO_PREFIXES);
    hide Valid, UseStep, RegisterAll, RegisterItems;
    var t1 := UseIf(NO_PREFIXES, f.self != "" || |f.accounts| > 0 || UsesSource(f.items), NS_SOURCE);
    UseKeepsValid(NO_PREFIXES, NS_SOURCE);
    var t2 := UseIf(t1, UsesThreading(f.items), NS_THREAD);
    UseKeepsValid(t1, NS_THREAD);
    var t3 := UseIf(t2, UsesAtom(f.items), NS_ATOM);
    UseKeepsValid(t2, NS_ATOM);
    var t4 := RegisterAll(t3, f.unknown);
    RegisterAllCovers(t3, f.unknown);
    RegisterItemsCovers(t4, f.items);
    forall el | el in f.unknown ensures Covers(Collected(f), el) {
      CoversGrows(t4, Collected(f), el);
    }
  }
}
