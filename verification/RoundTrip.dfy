// Printing a tree and reading it back.
module RoundTrip {
  import opened Common
  import opened Feed
  import opened Xml
  import opened Writer
  import opened WriterReads
  import opened Decode
  import Text

  // The most a round trip can keep: unprintable characters are replaced, text is trimmed, and
  // the legacy source namespace becomes the current one. Nothing else changes.
  function NormName(name: Name): Name {
    name.(space := CanonicalSpace(name.space))
  }

  function NormAttr(a: Attr): Attr {
    Attr(NormName(a.name), Clean(a.value))
  }

  function NormAttrs(attrs: seq<Attr>): (r: seq<Attr>)
    ensures |r| == |attrs| && forall i :: 0 <= i < |r| ==> r[i] == NormAttr(attrs[i])
  {
    if attrs == [] then [] else [NormAttr(attrs[0])] + NormAttrs(attrs[1..])
  }

  function Norm(el: Element): Element
    decreases el, 1
  {
    Element(NormName(el.name), NormAttrs(el.attrs), Text.TrimSpace(Clean(el.text)), NormAll(el.children))
  }

  function NormAll(els: seq<Element>): (r: seq<Element>)
    ensures |r| == |els| && forall i :: 0 <= i < |r| ==> r[i] == Norm(els[i])
    decreases els, 0
  {
    if els == [] then [] else [Norm(els[0])] + NormAll(els[1..])
  }

  // A prefix table a document can declare: proper prefixes, none of them reserved.
  ghost predicate TableOk(byURI: map<string, string>) {
    forall uri <- byURI ::
      && uri != "" && uri != NS_XML
      && IsNCName(byURI[uri]) && byURI[uri] != "xml" && byURI[uri] != "xmlns"
  }

  // The scope declares the table and nothing that interferes with it.
  ghost predicate Declares(env: Env, byURI: map<string, string>) {
    && "" !in env
    && forall uri <- byURI :: byURI[uri] in env && env[byURI[uri]] == uri
  }

  predicate Resolvable(byURI: map<string, string>, name: Name) {
    IsNCName(name.local) && (name.space == "" || name.space == NS_XML || name.space in byURI)
  }

  // Names that are XML names, whose namespaces all have a prefix, and no attribute that would
  // be taken for a namespace declaration.
  ghost predicate Wellnamed(byURI: map<string, string>, el: Element)
    decreases el
  {
    && Resolvable(byURI, el.name)
    && (forall a <- el.attrs :: Resolvable(byURI, a.name) && !IsNamespaceDeclaration(a))
    && (forall c <- el.children :: Wellnamed(byURI, c))
  }

  lemma {:induction false} WellnamedPrints(byURI: map<string, string>, el: Element)
    requires TableOk(byURI) && Wellnamed(byURI, el)
    ensures Printable(byURI, el)
    decreases el
  {
    QualifiedIsName(byURI, el.name);
    forall a | a in el.attrs ensures IsName(Qualify(byURI, a.name)) { QualifiedIsName(byURI, a.name); }
    forall c | c in el.children ensures Printable(byURI, c) { WellnamedPrints(byURI, c); }
  }

  lemma QualifiedIsName(byURI: map<string, string>, name: Name)
    requires TableOk(byURI) && Resolvable(byURI, name)
    ensures IsName(Qualify(byURI, name))
  {
    assert name.local[0] in name.local;
  }

  // A qualified name says which namespace it came from.
  lemma QualifiedTranslates(env: Env, byURI: map<string, string>, name: Name, isElement: bool)
    requires TableOk(byURI) && Declares(env, byURI) && Resolvable(byURI, name)
    ensures Translate(env, Qualify(byURI, name), isElement) == name
    ensures SplitName(Qualify(byURI, name)).1 == name.local
    ensures SplitName(Qualify(byURI, name)).0 == "" <==> name.space == ""
    ensures SplitName(Qualify(byURI, name)).0 != "xmlns"
  {
    if name.space == "" {
      SplitPlain(name.local);
    } else if name.space == NS_XML {
      SplitJoined("xml", name.local);
      assert Qualify(byURI, name) == "xml" + ":" + name.local;
      hide SplitName;
    } else {
      SplitJoined(byURI[name.space], name.local);
      hide SplitName;
    }
  }

  lemma SplitPlain(local: string)
    requires ':' !in local
    ensures SplitName(local) == ("", local)
  {
    Text.FindNone(local, ':');
  }

  lemma SplitJoined(prefix: string, local: string)
    requires prefix != "" && local != "" && ':' !in prefix && ':' !in local
    ensures SplitName(prefix + ":" + local) == (prefix, local)
  {
    Text.CutAt(prefix, ':', local);
  }

  lemma {:induction false} AttrsDecode(env: Env, byURI: map<string, string>, attrs: seq<Attr>)
    requires TableOk(byURI) && Declares(env, byURI)
    requires forall a <- attrs :: Resolvable(byURI, a.name) && !IsNamespaceDeclaration(a)
    ensures Bind(env, CleanAttrs(QualifyAttrs(byURI, attrs))) == env
    ensures DecodedAttrs(env, CleanAttrs(QualifyAttrs(byURI, attrs))) == NormAttrs(attrs)
  {
    if attrs != [] {
      var a := attrs[0];
      var list := CleanAttrs(QualifyAttrs(byURI, attrs));
      assert a in attrs && forall x :: x in attrs[1..] ==> x in attrs;
      assert list[0] == (Qualify(byURI, a.name), Clean(a.value));
      assert list[1..] == CleanAttrs(QualifyAttrs(byURI, attrs[1..]));
      QualifiedTranslates(env, byURI, a.name, false);
      hide Translate, Qualify, SplitName, Clean, TableOk, Declares, Resolvable;
      AttrsDecode(env, byURI, attrs[1..]);
      OneMoreAttr(env, list[0], list[1..], a);
      assert list == [list[0]] + list[1..];
    }
  }

  lemma OneMoreAttr(env: Env, first: (string, string), more: seq<(string, string)>, a: Attr)
    requires Translate(env, first.0, false) == a.name && first.1 == Clean(a.value) && !IsNamespaceDeclaration(a)
    requires SplitName(first.0).0 != "xmlns"
    requires SplitName(first.0).0 == "" ==> SplitName(first.0).1 != "xmlns"
    ensures Bind(env, [first] + more) == Bind(env, more)
    ensures DecodedAttrs(env, [first] + more) == [NormAttr(a)] + DecodedAttrs(env, more)
  {
    hide Translate, SplitName, Clean;
    assert ([first] + more)[1..] == more;
  }

  // ---- gathering what was written ----

  function Added(g: Gathered, text: string, children: seq<Element>): Gathered {
    Gathered(text + g.text, children + g.children, g.rest)
  }

  // Wherever these tokens stand inside an element, they add this text and these children.
  ghost predicate Gives(env: Env, tokens: seq<Token>, text: string, children: seq<Element>) {
    forall tail :: Gather(env, tokens + tail) == Added(Gather(env, tail), text, children)
  }

  lemma GivesConcat(env: Env, p: seq<Token>, t: string, c: seq<Element>, q: seq<Token>, u: string, d: seq<Element>)
    requires Gives(env, p, t, c) && Gives(env, q, u, d)
    ensures Gives(env, p + q, t + u, c + d)
  {
    hide Gather;
    forall tail ensures Gather(env, p + q + tail) == Added(Gather(env, tail), t + u, c + d) {
      assert p + q + tail == p + (q + tail);
      var g := Gather(env, tail);
      assert t + (u + g.text) == t + u + g.text;
      assert c + (d + g.children) == c + d + g.children;
    }
  }

  lemma {:induction false} GivesChars(env: Env, s: string)
    ensures Gives(env, CharTokens(s), s, [])
  {
    forall more ensures Gather(env, CharTokens(s) + more) == Added(Gather(env, more), s, []) {
      GatherChars(env, s, more);
      assert [] + Gather(env, more).children == Gather(env, more).children;
    }
  }

  lemma GatherChar(env: Env, c: char, more: seq<Token>)
    ensures Gather(env, [Chars(c)] + more) == Gather(env, more).(text := [c] + Gather(env, more).text)
  {
    assert ([Chars(c)] + more)[1..] == more;
  }

  lemma {:induction false} GatherChars(env: Env, s: string, more: seq<Token>)
    ensures Gather(env, CharTokens(s) + more) == Gather(env, more).(text := s + Gather(env, more).text)
  {
    hide Gather;
    if s == "" {
      assert CharTokens(s) + more == more;
      assert "" + Gather(env, more).text == Gather(env, more).text;
    } else {
      assert CharTokens(s) + more == [Chars(s[0])] + (CharTokens(s[1..]) + more);
      GatherChar(env, s[0], CharTokens(s[1..]) + more);
      GatherChars(env, s[1..], more);
      assert [s[0]] + (s[1..] + Gather(env, more).text) == s + Gather(env, more).text;
    }
  }

  // An element adds itself and no text.
  lemma GivesElement(env: Env, name: string, attrs: seq<(string, string)>, body: seq<Token>, text: string, children: seq<Element>)
    requires Bind(env, attrs) == env && Gives(env, body, text, children)
    ensures Gives(env, [Start(name, attrs)] + body + [End(name)], "",
                  [Element(ElementName(env, name), DecodedAttrs(env, attrs), Text.TrimSpace(text), children)])
  {
    var el := Element(ElementName(env, name), DecodedAttrs(env, attrs), Text.TrimSpace(text), children);
    forall tail
      ensures Gather(env, [Start(name, attrs)] + body + [End(name)] + tail) == Added(Gather(env, tail), "", [el])
    {
      GatherElement(env, name, attrs, body, text, children, tail);
      hide *;
      Regroup4([Start(name, attrs)], body, [End(name)], tail);
      AddedNoText(Gather(env, tail), el);
    }
  }

  lemma AddedNoText(g: Gathered, el: Element)
    ensures Added(g, "", [el]) == g.(children := [el] + g.children)
  {
    assert "" + g.text == g.text;
  }

  lemma Regroup4<T>(a: seq<T>, b: seq<T>, c: seq<T>, d: seq<T>)
    ensures a + b + c + d == a + (b + (c + d))
  {}

  lemma GatherElement(env: Env, name: string, attrs: seq<(string, string)>, body: seq<Token>, text: string, children: seq<Element>, tail: seq<Token>)
    requires Bind(env, attrs) == env && Gives(env, body, text, children)
    ensures var el := Element(ElementName(env, name), DecodedAttrs(env, attrs), Text.TrimSpace(text), children);
            Gather(env, [Start(name, attrs)] + (body + ([End(name)] + tail)))
              == Gather(env, tail).(children := [el] + Gather(env, tail).children)
  {
    var close := [End(name)] + tail;
    assert close[1..] == tail;
    assert Gather(env, close) == Gathered("", [], tail);
    assert Gather(env, body + close) == Added(Gathered("", [], tail), text, children);
    assert text + "" == text && children + [] == children;
    assert ([Start(name, attrs)] + (body + close))[1..] == body + close;
  }

  lemma BlankTogether(a: string, b: string)
    requires Text.Blank(a) && Text.Blank(b)
    ensures Text.Blank(a + b)
  {}

  lemma ContentTrims(depth: nat, text: string, blank: string)
    requires Text.Blank(blank)
    ensures Text.TrimSpace("\n" + InnerText(depth, text) + blank) == Text.TrimSpace(Clean(text))
  {
    assert Text.Blank("\n") && Text.Blank(Tabs(depth));
    BlankTogether("\n", Tabs(depth));
    BlankTogether("\n", blank);
    hide Text.TrimSpace, Text.Blank;
    hide Tabs, Clean;
    if text == "" {
      Text.TrimSpacePadded("\n", "", blank);
      assert Clean("") == "";
    } else {
      Text.TrimSpacePadded("\n" + Tabs(depth), Clean(text), "\n" + blank);
      Regroup6("\n", Tabs(depth), Clean(text), "\n", blank);
    }
  }

  lemma Regroup6(a: string, b: string, c: string, d: string, e: string)
    ensures a + (b + c + d) + e == (a + b) + c + (d + e)
  {}

  lemma LeafGives(env: Env, depth: nat, name: string, text: string, list: seq<(string, string)>)
    requires Bind(env, CleanAttrs(list)) == env
    ensures Gives(env, LeafTokens(depth, name, text, list), Tabs(depth) + "" + "\n",
                  [] + [Element(ElementName(env, name), DecodedAttrs(env, CleanAttrs(list)), Text.TrimSpace(Clean(text)), [])] + [])
  {
    hide Gives, Clean, CleanAttrs, Tabs, CharTokens, Bind, ElementName, DecodedAttrs;
    var body, attrs := CharTokens(Clean(text)), CleanAttrs(list);
    GivesChars(env, Clean(text));
    GivesElement(env, name, attrs, body, Clean(text), []);
    Framed(env, depth, [Start(name, attrs)] + body + [End(name)],
           [Element(ElementName(env, name), DecodedAttrs(env, attrs), Text.TrimSpace(Clean(text)), [])]);
    assert LeafTokens(depth, name, text, list)
        == CharTokens(Tabs(depth)) + ([Start(name, attrs)] + body + [End(name)]) + CharTokens("\n");
  }

  // Indentation before, a line end after.
  lemma Framed(env: Env, depth: nat, tokens: seq<Token>, children: seq<Element>)
    requires Gives(env, tokens, "", children)
    ensures Gives(env, CharTokens(Tabs(depth)) + tokens + CharTokens("\n"), Tabs(depth) + "" + "\n", [] + children + [])
  {
    hide Gives, Tabs, CharTokens;
    GivesChars(env, Tabs(depth));
    GivesChars(env, "\n");
    GivesConcat(env, CharTokens(Tabs(depth)), Tabs(depth), [], tokens, "", children);
    GivesConcat(env, CharTokens(Tabs(depth)) + tokens, Tabs(depth) + "", [] + children, CharTokens("\n"), "\n", []);
  }

  // The white space a printed forest leaves in its parent's text.
  function Spacing(n: nat, depth: nat): (r: string)
    ensures Text.Blank(r)
  {
    if n == 0 then "" else Tabs(depth) + "" + "\n" + Spacing(n - 1, depth)
  }

  lemma {:induction false} ElementGives(env: Env, byURI: map<string, string>, el: Element, depth: nat)
    requires TableOk(byURI) && Declares(env, byURI) && Wellnamed(byURI, el)
    ensures Gives(env, ElementTokens(byURI, el, depth), Tabs(depth) + "" + "\n", [Norm(el)])
    decreases el, 1
  {
    var name, list := Qualify(byURI, el.name), QualifyAttrs(byURI, el.attrs);
    QualifiedTranslates(env, byURI, el.name, true);
    AttrsDecode(env, byURI, el.attrs);
    assert ElementName(env, name) == NormName(el.name);
    hide Gives, TableOk, Declares, Tabs, LeafTokens, OpenTokens, CloseTokens, Qualify, CleanAttrs, Bind, DecodedAttrs,
      ElementName, CharTokens, Clean;
    hide Text.TrimSpace;
    if el.children == [] {
      LeafGives(env, depth, name, el.text, list);
      Alone(Norm(el));
    } else {
      ForestGives(env, byURI, el.children, depth + 1);
      BranchGives(env, depth, name, el.text, list, ForestTokens(byURI, el.children, depth + 1),
                  Spacing(|el.children|, depth + 1), NormAll(el.children));
    }
  }

  lemma Alone(el: Element)
    ensures [] + [el] + [] == [el]
  {}

  // What stands between a branch's start and end tags.
  function BranchBody(depth: nat, text: string, forest: seq<Token>): seq<Token> {
    CharTokens("\n") + CharTokens(InnerText(depth + 1, text)) + forest + CharTokens(Tabs(depth))
  }

  lemma BranchBodyGives(env: Env, depth: nat, text: string, forest: seq<Token>, blank: string, children: seq<Element>)
    requires Text.Blank(blank) && Gives(env, forest, blank, children)
    ensures exists content :: Gives(env, BranchBody(depth, text, forest), content, children)
              && Text.TrimSpace(content) == Text.TrimSpace(Clean(text))
  {
    var inner := InnerText(depth + 1, text);
    assert Text.Blank(Tabs(depth));
    BlankTogether(blank, Tabs(depth));
    ContentTrims(depth + 1, text, blank + Tabs(depth));
    hide Gives, Clean, Tabs, CharTokens, InnerText;
    hide Text.TrimSpace, Text.Blank;
    Assoc("\n" + inner, blank, Tabs(depth));
    GivesAround(env, "\n", inner, forest, blank, children, Tabs(depth));
  }

  lemma GivesAround(env: Env, a: string, b: string, forest: seq<Token>, blank: string, children: seq<Element>, c: string)
    requires Gives(env, forest, blank, children)
    ensures Gives(env, CharTokens(a) + CharTokens(b) + forest + CharTokens(c), a + b + blank + c, children)
  {
    hide Gives, CharTokens;
    GivesChars(env, a);
    GivesChars(env, b);
    GivesChars(env, c);
    GivesConcat(env, CharTokens(a), a, [], CharTokens(b), b, []);
    GivesConcat(env, CharTokens(a) + CharTokens(b), a + b, [] + [], forest, blank, children);
    GivesConcat(env, CharTokens(a) + CharTokens(b) + forest, a + b + blank, [] + [] + children, CharTokens(c), c, []);
    NothingAround(children);
  }

  lemma NothingAround(children: seq<Element>)
    ensures [] + [] + children + [] == children
  {}

  lemma BranchTokens(depth: nat, name: string, text: string, list: seq<(string, string)>, forest: seq<Token>)
    ensures OpenTokens(depth, name, list) + CharTokens(InnerText(depth + 1, text)) + forest + CloseTokens(depth, name)
         == CharTokens(Tabs(depth)) + ([Start(name, CleanAttrs(list))] + BranchBody(depth, text, forest) + [End(name)]) + CharTokens("\n")
  {
    hide CharTokens, Tabs, InnerText, CleanAttrs;
    Regroup9(CharTokens(Tabs(depth)), [Start(name, CleanAttrs(list))], CharTokens("\n"),
             CharTokens(InnerText(depth + 1, text)), forest, [End(name)]);
  }

  lemma Regroup9<T>(t: seq<T>, s: seq<T>, n: seq<T>, x: seq<T>, f: seq<T>, e: seq<T>)
    ensures (t + s + n) + x + f + (t + e + n) == t + (s + (n + x + f + t) + e) + n
  {}

  lemma BranchGives(env: Env, depth: nat, name: string, text: string, list: seq<(string, string)>,
                    forest: seq<Token>, blank: string, children: seq<Element>)
    requires Bind(env, CleanAttrs(list)) == env && Text.Blank(blank) && Gives(env, forest, blank, children)
    ensures Gives(env, OpenTokens(depth, name, list) + CharTokens(InnerText(depth + 1, text)) + forest + CloseTokens(depth, name),
                  Tabs(depth) + "" + "\n",
                  [Element(ElementName(env, name), DecodedAttrs(env, CleanAttrs(list)), Text.TrimSpace(Clean(text)), children)])
  {
    hide Gives, Clean, CleanAttrs, Tabs, CharTokens, Bind, ElementName, DecodedAttrs, InnerText, OpenTokens, CloseTokens, BranchBody;
    hide Text.TrimSpace;
    var attrs, body := CleanAttrs(list), BranchBody(depth, text, forest);
    BranchBodyGives(env, depth, text, forest, blank, children);
    var content :| Gives(env, body, content, children) && Text.TrimSpace(content) == Text.TrimSpace(Clean(text));
    GivesElement(env, name, attrs, body, content, children);
    var el := Element(ElementName(env, name), DecodedAttrs(env, attrs), Text.TrimSpace(Clean(text)), children);
    Framed(env, depth, [Start(name, attrs)] + body + [End(name)], [el]);
    Alone(el);
    BranchTokens(depth, name, text, list, forest);
  }

  lemma {:induction false} ForestGives(env: Env, byURI: map<string, string>, els: seq<Element>, depth: nat)
    requires TableOk(byURI) && Declares(env, byURI) && forall c <- els :: Wellnamed(byURI, c)
    ensures Gives(env, ForestTokens(byURI, els, depth), Spacing(|els|, depth), NormAll(els))
    decreases els, 0
  {
    if els == [] {
      GivesChars(env, "");
    } else {
      hide Gives, TableOk, Declares, Wellnamed, ElementTokens, Norm;
      ElementGives(env, byURI, els[0], depth);
      ForestGives(env, byURI, els[1..], depth);
      GivesConcat(env, ElementTokens(byURI, els[0], depth), Tabs(depth) + "" + "\n", [Norm(els[0])],
                  ForestTokens(byURI, els[1..], depth), Spacing(|els| - 1, depth), NormAll(els[1..]));
    }
  }

  // ---- the round trip ----

  // Printed at any depth, inside any document that declares the table, a tree reads back as
  // itself up to normalisation.
  lemma TreeRoundTrip(env: Env, byURI: map<string, string>, el: Element, depth: nat)
    requires TableOk(byURI) && Declares(env, byURI) && Wellnamed(byURI, el)
    ensures Lex(ElementText(byURI, el, depth)) == Some(ElementTokens(byURI, el, depth))
    ensures Gather(env, ElementTokens(byURI, el, depth)).children == [Norm(el)]
    ensures Text.TrimSpace(Gather(env, ElementTokens(byURI, el, depth)).text) == ""
  {
    WellnamedPrints(byURI, el);
    ElementReads(byURI, el, depth);
    ElementGives(env, byURI, el, depth);
    ReadsAlone(ElementText(byURI, el, depth), ElementTokens(byURI, el, depth));
    GivesAlone(env, ElementTokens(byURI, el, depth), Tabs(depth) + "" + "\n", [Norm(el)]);
    BlankTogether(Tabs(depth), "\n");
    Text.TrimSpaceUnique(Tabs(depth) + "\n", "", "");
    assert Tabs(depth) + "" + "\n" == Tabs(depth) + "\n" + "" + "";
  }

  lemma ReadsAlone(p: string, tokens: seq<Token>)
    requires Reads(p, tokens)
    ensures Lex(p) == Some(tokens)
  {
    assert p + "" == p && tokens + [] == tokens;
  }

  lemma GivesAlone(env: Env, tokens: seq<Token>, text: string, children: seq<Element>)
    requires Gives(env, tokens, text, children)
    ensures Gather(env, tokens) == Gathered(text, children, [])
  {
    assert tokens + [] == tokens && text + "" == text && children + [] == children;
  }

  // A tree whose text is trimmed and printable and that does not use the legacy namespace
  // comes back exactly.
  predicate NameCurrent(name: Name) { name.space != NS_SOURCE_LEGACY }

  predicate AllPrintable(s: string) { forall c <- s :: IsXmlChar(c) }

  ghost predicate Canonical(el: Element)
    decreases el
  {
    && NameCurrent(el.name) && Text.Trimmed(el.text) && AllPrintable(el.text)
    && (forall a <- el.attrs :: NameCurrent(a.name) && AllPrintable(a.value))
    && (forall c <- el.children :: Canonical(c))
  }

  lemma {:induction false} CanonicalUnchanged(el: Element)
    ensures Canonical(el) <==> Norm(el) == el
    decreases el
  {
    CleanIffPrintable(el.text);
    Text.TrimSpaceFixed(el.text);
    AttrsUnchanged(el.attrs);
    forall c | c in el.children ensures Canonical(c) <==> Norm(c) == c { CanonicalUnchanged(c); }
    if Norm(el) == el {
      TrimmedCleanFixed(el.text);
      forall c | c in el.children ensures Canonical(c) {
        var i :| 0 <= i < |el.children| && el.children[i] == c;
        assert NormAll(el.children)[i] == Norm(c);
      }
    }
    if Canonical(el) {
      assert NormAll(el.children) == el.children;
    }
  }

  lemma CleanIffPrintable(s: string)
    ensures Clean(s) == s <==> AllPrintable(s)
  {
    if Clean(s) == s {
      forall c | c in s ensures IsXmlChar(c) {
        var i :| 0 <= i < |s| && s[i] == c;
        assert Clean(s)[i] == CleanChar(c);
      }
    }
  }

  lemma TrimmedCleanFixed(s: string)
    requires Text.TrimSpace(Clean(s)) == s
    ensures Clean(s) == s
  {
    var left, right := Text.TrimSpaceSpec(Clean(s));
    assert |left| + |s| + |right| == |s|;
    assert left == "" && right == "" && "" + s + "" == s;
  }

  lemma AttrsUnchanged(attrs: seq<Attr>)
    ensures NormAttrs(attrs) == attrs <==> forall a <- attrs :: NameCurrent(a.name) && AllPrintable(a.value)
  {
    if NormAttrs(attrs) == attrs {
      forall a | a in attrs ensures NameCurrent(a.name) && AllPrintable(a.value) {
        var i :| 0 <= i < |attrs| && attrs[i] == a;
        assert NormAttrs(attrs)[i] == NormAttr(a);
        CleanIffPrintable(a.value);
      }
    } else {
      var i :| 0 <= i < |attrs| && NormAttrs(attrs)[i] != attrs[i];
      CleanIffPrintable(attrs[i].value);
      assert attrs[i] in attrs;
    }
  }
}
