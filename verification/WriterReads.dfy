// Everything the printer writes, the reader takes apart again.
module WriterReads {
  import opened Common
  import opened Feed
  import opened Xml
  import opened Writer

  lemma {:induction false} LexEscaped(s: string, rest: string)
    ensures Lex(Escape(s) + rest) == Prepend(CharTokens(Clean(s)), Lex(rest))
  {
    if s == "" {
      assert "" + rest == rest;
      PrependTwice([], [], Lex(rest));
    } else {
      var x := EscapeChar(s[0]) + (Escape(s[1..]) + rest);
      assert Escape(s) + rest == x;
      EscapedReads(s[0], Escape(s[1..]) + rest);
      LexEscaped(s[1..], rest);
      LexOneChar(x, CleanChar(s[0]), Escape(s[1..]) + rest);
      PrependTwice([Chars(CleanChar(s[0]))], CharTokens(Clean(s[1..])), Lex(rest));
      assert Clean(s)[1..] == Clean(s[1..]);
    }
  }

  lemma LexOneChar(x: string, c: char, rest: string)
    requires x != "" && x[0] != '<' && NextChar(x) == (c, rest)
    ensures Lex(x) == Prepend([Chars(c)], Lex(rest))
  {
    hide NextChar;
  }

  // Indentation and line ends.
  lemma {:induction false} LexPlain(s: string, rest: string)
    requires forall c <- s :: c == '\t' || c == '\n'
    ensures Lex(s + rest) == Prepend(CharTokens(s), Lex(rest))
  {
    if s == "" {
      assert "" + rest == rest;
      PrependTwice([], [], Lex(rest));
    } else {
      var x := s + rest;
      assert s[0] in s && forall c :: c in s[1..] ==> c in s;
      assert x[1..] == s[1..] + rest;
      assert NextChar(x) == (s[0], s[1..] + rest);
      LexOneChar(x, s[0], s[1..] + rest);
      LexPlain(s[1..], rest);
      PrependTwice([Chars(s[0])], CharTokens(s[1..]), Lex(rest));
    }
  }

  lemma {:induction false} ReadEscaped(s: string, rest: string)
    ensures ReadValue(Escape(s) + "\"" + rest, '"') == Some((Clean(s), rest))
  {
    if s == "" {
      assert ("" + "\"" + rest)[1..] == rest;
    } else {
      var tail := Escape(s[1..]) + "\"" + rest;
      var x := EscapeChar(s[0]) + tail;
      assert Escape(s) + "\"" + rest == x;
      EscapedReads(s[0], tail);
      ReadEscaped(s[1..], rest);
      hide NextChar, EscapeChar;
      assert ReadValue(x, '"') == Some(([CleanChar(s[0])] + Clean(s[1..]), rest));
    }
  }

  lemma {:induction false} NameReads(name: string, rest: string)
    requires forall c <- name :: IsNameChar(c)
    requires rest == "" || !IsNameChar(rest[0])
    ensures NameLength(name + rest) == |name|
  {
    if name == "" {
      assert name + rest == rest;
    } else {
      assert (name + rest)[1..] == name[1..] + rest;
      NameReads(name[1..], rest);
    }
  }

  lemma ReadNameReads(name: string, rest: string)
    requires IsName(name) && (rest == "" || !IsNameChar(rest[0]))
    ensures ReadName(name + rest) == Some((name, rest))
  {
    NameReads(name, rest);
    DropPrefix(name, rest);
  }

  predicate Named(list: seq<(string, string)>) {
    forall a <- list :: IsName(a.0)
  }

  function CleanAttrs(list: seq<(string, string)>): (r: seq<(string, string)>)
    ensures |r| == |list| && forall i :: 0 <= i < |r| ==> r[i] == (list[i].0, Clean(list[i].1))
  {
    if list == [] then [] else [(list[0].0, Clean(list[0].1))] + CleanAttrs(list[1..])
  }

  function TagClose(selfClosing: bool): string {
    if selfClosing then "/>" else ">"
  }

  lemma {:induction false} AttrsRead(list: seq<(string, string)>, selfClosing: bool, rest: string)
    requires Named(list)
    ensures ReadAttrs(AttrText(list) + (TagClose(selfClosing) + rest))
         == Some(TagEnd(CleanAttrs(list), selfClosing, rest))
  {
    var tail := TagClose(selfClosing) + rest;
    if list == [] {
      assert AttrText(list) + tail == tail;
      assert tail[|TagClose(selfClosing)|..] == rest;
    } else {
      assert list[0] in list && forall a :: a in list[1..] ==> a in list;
      AttrsRead(list[1..], selfClosing, rest);
      AttrReads(list[0], AttrText(list[1..]) + tail);
      hide ReadAttrs, OneAttr, Clean;
      Assoc(OneAttr(list[0]), AttrText(list[1..]), tail);
    }
  }

  lemma AttrReadsAlone(name: string, value: string, tail: string)
    requires IsName(name)
    ensures ReadAttr(name + ("=\"" + (Escape(value) + "\"" + tail))) == Some(((name, Clean(value)), tail))
  {
    hide Clean, ReadName;
    var quoted := Escape(value) + "\"" + tail;
    var r1 := "=\"" + quoted;
    ReadEscaped(value, tail);
    ReadNameReads(name, r1);
    hide Escape, ReadValue, IsName;
    assert r1[1..] == "\"" + quoted && r1[1..][1..] == quoted;
  }

  lemma AttrReadsAfterSpace(t: string, a: (string, string), tail: string)
    requires t != "" && IsNameStart(t[0]) && ReadAttr(t) == Some((a, tail))
    ensures ReadAttrs(" " + t) ==
      match ReadAttrs(tail)
      case None => None
      case Some(end) => Some(end.(attrs := [a] + end.attrs))
  {
    hide ReadAttr;
    assert (" " + t)[1..] == t;
    assert SkipSpace(" " + t) == SkipSpace(t) == t;
  }

  // One written attribute is read off the front, whatever follows it.
  lemma AttrReads(a: (string, string), tail: string)
    requires IsName(a.0)
    ensures ReadAttrs(OneAttr(a) + tail) ==
      match ReadAttrs(tail)
      case None => None
      case Some(end) => Some(end.(attrs := [(a.0, Clean(a.1))] + end.attrs))
  {
    hide ReadAttr, ReadAttrs, Escape, Clean;
    AttrReadsAlone(a.0, a.1, tail);
    var t := a.0 + ("=\"" + (Escape(a.1) + "\"" + tail));
    assert OneAttr(a) + tail == " " + t;
    assert t[0] == a.0[0];
    AttrReadsAfterSpace(t, (a.0, Clean(a.1)), tail);
  }

  function TagTokens(name: string, end: TagEnd): seq<Token> {
    [Start(name, end.attrs)] + (if end.selfClosing then [End(name)] else [])
  }

  lemma LexTagThen(name: string, tail: string, end: TagEnd)
    requires IsName(name) && tail != "" && !IsNameChar(tail[0]) && ReadAttrs(tail) == Some(end)
    ensures Lex("<" + (name + tail)) == Prepend(TagTokens(name, end), Lex(end.rest))
  {
    var s := "<" + (name + tail);
    assert s[1..] == name + tail && s[1] == name[0];
    ReadNameReads(name, tail);
    hide ReadAttrs, ReadName;
    assert [Start(name, end.attrs)] + [] == [Start(name, end.attrs)];
    assert [Start(name, end.attrs)] + [End(name)] == [Start(name, end.attrs), End(name)];
    assert Next(s) == Some((TagTokens(name, end), end.rest));
  }

  lemma TailStart(list: seq<(string, string)>, selfClosing: bool, rest: string)
    ensures var tail := AttrText(list) + (TagClose(selfClosing) + rest); tail != "" && !IsNameChar(tail[0])
  {
    hide Escape;
  }

  lemma Regroup(a: string, b: string, c: string, d: string, e: string)
    ensures a + b + c + d + e == a + (b + (c + (d + e)))
  {
    Assoc(a + b + c, d, e);
    Assoc(a + b, c, d + e);
    Assoc(a, b, c + (d + e));
  }

  lemma LexTag(name: string, list: seq<(string, string)>, selfClosing: bool, rest: string)
    requires IsName(name) && Named(list)
    ensures Lex("<" + name + AttrText(list) + TagClose(selfClosing) + rest)
         == Prepend(TagTokens(name, TagEnd(CleanAttrs(list), selfClosing, rest)), Lex(rest))
  {
    hide Lex, ReadAttrs, AttrText, IsName, CleanAttrs, Named;
    var tail := AttrText(list) + (TagClose(selfClosing) + rest);
    AttrsRead(list, selfClosing, rest);
    TailStart(list, selfClosing, rest);
    Regroup("<", name, AttrText(list), TagClose(selfClosing), rest);
    LexTagThen(name, tail, TagEnd(CleanAttrs(list), selfClosing, rest));
  }

  lemma LexEndTag(name: string, rest: string)
    requires IsName(name)
    ensures Lex("</" + name + ">" + rest) == Prepend([End(name)], Lex(rest))
  {
    var s := "</" + name + ">" + rest;
    assert s[2..] == name + (">" + rest);
    ReadNameReads(name, ">" + rest);
    assert (">" + rest)[1..] == rest;
    assert Next(s) == Some(([End(name)], rest));
  }

  // ---- whole trees ----

  // Wherever the text p stands, the reader turns it into these tokens and carries on.
  ghost predicate Reads(p: string, tokens: seq<Token>) {
    forall rest :: Lex(p + rest) == Prepend(tokens, Lex(rest))
  }

  lemma ReadsConcat(p: string, a: seq<Token>, q: string, b: seq<Token>)
    requires Reads(p, a) && Reads(q, b)
    ensures Reads(p + q, a + b)
  {
    hide Lex;
    forall rest ensures Lex(p + q + rest) == Prepend(a + b, Lex(rest)) {
      Assoc(p, q, rest);
      assert Lex(p + (q + rest)) == Prepend(a, Lex(q + rest));
      PrependTwice(a, b, Lex(rest));
    }
  }

  lemma ReadsPieces(s: string, ws: string, name: string, list: seq<(string, string)>, selfClosing: bool)
    requires forall c <- ws :: c == '\t' || c == '\n'
    requires IsName(name) && Named(list)
    ensures Reads(Escape(s), CharTokens(Clean(s)))
    ensures Reads(ws, CharTokens(ws))
    ensures Reads("<" + name + AttrText(list) + TagClose(selfClosing),
                  TagTokens(name, TagEnd(CleanAttrs(list), selfClosing, "")))
    ensures Reads("</" + name + ">", [End(name)])
  {
    hide Lex, Escape, AttrText;
    forall rest ensures Lex(Escape(s) + rest) == Prepend(CharTokens(Clean(s)), Lex(rest)) { LexEscaped(s, rest); }
    forall rest ensures Lex(ws + rest) == Prepend(CharTokens(ws), Lex(rest)) { LexPlain(ws, rest); }
    forall rest
      ensures Lex("<" + name + AttrText(list) + TagClose(selfClosing) + rest)
           == Prepend(TagTokens(name, TagEnd(CleanAttrs(list), selfClosing, "")), Lex(rest))
    {
      LexTag(name, list, selfClosing, rest);
    }
    forall rest ensures Lex("</" + name + ">" + rest) == Prepend([End(name)], Lex(rest)) { LexEndTag(name, rest); }
  }

  function OpenTokens(depth: nat, name: string, list: seq<(string, string)>): seq<Token> {
    CharTokens(Tabs(depth)) + [Start(name, CleanAttrs(list))] + CharTokens("\n")
  }

  function CloseTokens(depth: nat, name: string): seq<Token> {
    CharTokens(Tabs(depth)) + [End(name)] + CharTokens("\n")
  }

  function LeafTokens(depth: nat, name: string, text: string, list: seq<(string, string)>): seq<Token> {
    CharTokens(Tabs(depth)) + [Start(name, CleanAttrs(list))] + CharTokens(Clean(text)) + [End(name)] + CharTokens("\n")
  }

  function InnerText(depth: nat, text: string): string {
    if text == "" then "" else Tabs(depth) + Clean(text) + "\n"
  }

  function ElementTokens(byURI: map<string, string>, el: Element, depth: nat): seq<Token>
    decreases el, 1
  {
    var name, list := Qualify(byURI, el.name), QualifyAttrs(byURI, el.attrs);
    if el.children == [] then LeafTokens(depth, name, el.text, list)
    else
      OpenTokens(depth, name, list) + CharTokens(InnerText(depth + 1, el.text))
      + ForestTokens(byURI, el.children, depth + 1) + CloseTokens(depth, name)
  }

  function ForestTokens(byURI: map<string, string>, els: seq<Element>, depth: nat): seq<Token>
    decreases els, 0
  {
    if els == [] then []
    else ElementTokens(byURI, els[0], depth) + ForestTokens(byURI, els[1..], depth)
  }

  lemma OpenReads(depth: nat, name: string, list: seq<(string, string)>)
    requires IsName(name) && Named(list)
    ensures Reads(OpenText(depth, name, list), OpenTokens(depth, name, list))
  {
    hide Reads, Tabs, AttrText, CharTokens, CleanAttrs;
    ReadsPieces("", Tabs(depth), name, list, false);
    ReadsPieces("", "\n", name, list, false);
    var tag := "<" + name + AttrText(list) + ">";
    assert TagTokens(name, TagEnd(CleanAttrs(list), false, "")) == [Start(name, CleanAttrs(list))];
    ReadsConcat(Tabs(depth), CharTokens(Tabs(depth)), tag, [Start(name, CleanAttrs(list))]);
    ReadsConcat(Tabs(depth) + tag, CharTokens(Tabs(depth)) + [Start(name, CleanAttrs(list))], "\n", CharTokens("\n"));
    assert OpenText(depth, name, list) == Tabs(depth) + tag + "\n";
  }

  lemma CloseReads(depth: nat, name: string)
    requires IsName(name)
    ensures Reads(CloseText(depth, name), CloseTokens(depth, name))
  {
    hide Reads, Tabs, CharTokens;
    ReadsPieces("", Tabs(depth), name, [], false);
    ReadsPieces("", "\n", name, [], false);
    var tag := "</" + name + ">";
    ReadsConcat(Tabs(depth), CharTokens(Tabs(depth)), tag, [End(name)]);
    ReadsConcat(Tabs(depth) + tag, CharTokens(Tabs(depth)) + [End(name)], "\n", CharTokens("\n"));
    assert CloseText(depth, name) == Tabs(depth) + tag + "\n";
  }

  lemma LeafReads(depth: nat, name: string, text: string, list: seq<(string, string)>)
    requires IsName(name) && Named(list)
    ensures Reads(LeafText(depth, name, text, list), LeafTokens(depth, name, text, list))
  {
    hide Reads, Tabs, AttrText, CleanAttrs, Escape;
    var tabs, start := CharTokens(Tabs(depth)), [Start(name, CleanAttrs(list))];
    ReadsPieces(text, Tabs(depth), name, list, text == "");
    ReadsPieces("", "\n", name, list, false);
    var tag := "<" + name + AttrText(list) + TagClose(text == "");
    if text == "" {
      var both := start + [End(name)];
      assert TagTokens(name, TagEnd(CleanAttrs(list), true, "")) == both;
      ReadsConcat(Tabs(depth), tabs, tag, both);
      ReadsConcat(Tabs(depth) + tag, tabs + both, "\n", CharTokens("\n"));
      assert LeafText(depth, name, text, list) == Tabs(depth) + tag + "\n";
      assert LeafTokens(depth, name, text, list) == tabs + both + CharTokens("\n");
    } else {
      assert TagTokens(name, TagEnd(CleanAttrs(list), false, "")) == start;
      var end := "</" + name + ">";
      ReadsConcat(Tabs(depth), tabs, tag, start);
      ReadsConcat(Tabs(depth) + tag, tabs + start, Escape(text), CharTokens(Clean(text)));
      ReadsConcat(Tabs(depth) + tag + Escape(text), tabs + start + CharTokens(Clean(text)), end, [End(name)]);
      ReadsConcat(Tabs(depth) + tag + Escape(text) + end, tabs + start + CharTokens(Clean(text)) + [End(name)],
                  "\n", CharTokens("\n"));
      assert LeafText(depth, name, text, list) == Tabs(depth) + tag + Escape(text) + end + "\n";
    }
  }

  lemma InnerReads(depth: nat, text: string)
    ensures Reads(if text == "" then "" else Tabs(depth) + Escape(text) + "\n", CharTokens(InnerText(depth, text)))
  {
    hide Reads, Tabs, Escape, CharTokens, Clean;
    ReadsPieces(text, Tabs(depth), "a", [], false);
    ReadsPieces("", "\n", "a", [], false);
    ReadsPieces("", "", "a", [], false);
    if text != "" {
      var t, x := CharTokens(Tabs(depth)), CharTokens(Clean(text));
      ReadsConcat(Tabs(depth), t, Escape(text), x);
      ReadsConcat(Tabs(depth) + Escape(text), t + x, "\n", CharTokens("\n"));
      CharTokensAppend(Tabs(depth), Clean(text));
      CharTokensAppend(Tabs(depth) + Clean(text), "\n");
    }
  }

  // Every name in the tree can be written under the table.
  ghost predicate Printable(byURI: map<string, string>, el: Element)
    decreases el
  {
    && IsName(Qualify(byURI, el.name))
    && (forall a <- el.attrs :: IsName(Qualify(byURI, a.name)))
    && (forall c <- el.children :: Printable(byURI, c))
  }

  lemma {:induction false} ElementReads(byURI: map<string, string>, el: Element, depth: nat)
    requires Printable(byURI, el)
    ensures Reads(ElementText(byURI, el, depth), ElementTokens(byURI, el, depth))
    decreases el, 1
  {
    hide Reads, OpenText, CloseText, LeafText, Tabs, Escape, OpenTokens, CloseTokens, LeafTokens, CharTokens;
    var name, list := Qualify(byURI, el.name), QualifyAttrs(byURI, el.attrs);
    assert Named(list);
    if el.children == [] {
      LeafReads(depth, name, el.text, list);
    } else {
      OpenReads(depth, name, list);
      InnerReads(depth + 1, el.text);
      ForestReads(byURI, el.children, depth + 1);
      CloseReads(depth, name);
      var inner := if el.text == "" then "" else Tabs(depth + 1) + Escape(el.text) + "\n";
      var p, a := OpenText(depth, name, list) + inner, OpenTokens(depth, name, list) + CharTokens(InnerText(depth + 1, el.text));
      ReadsConcat(OpenText(depth, name, list), OpenTokens(depth, name, list), inner, CharTokens(InnerText(depth + 1, el.text)));
      ReadsConcat(p, a, ForestText(byURI, el.children, depth + 1), ForestTokens(byURI, el.children, depth + 1));
      ReadsConcat(p + ForestText(byURI, el.children, depth + 1), a + ForestTokens(byURI, el.children, depth + 1),
                  CloseText(depth, name), CloseTokens(depth, name));
    }
  }

  lemma {:induction false} ForestReads(byURI: map<string, string>, els: seq<Element>, depth: nat)
    requires forall c <- els :: Printable(byURI, c)
    ensures Reads(ForestText(byURI, els, depth), ForestTokens(byURI, els, depth))
    decreases els, 0
  {
    if els == [] {
      ReadsNothing();
    } else {
      ElementReads(byURI, els[0], depth);
      ForestReads(byURI, els[1..], depth);
      ReadsConcat(ElementText(byURI, els[0], depth), ElementTokens(byURI, els[0], depth),
                  ForestText(byURI, els[1..], depth), ForestTokens(byURI, els[1..], depth));
    }
  }

  lemma ReadsNothing()
    ensures Reads("", [])
  {
    forall rest ensures Lex("" + rest) == Prepend([], Lex(rest)) {
      assert "" + rest == rest;
      PrependTwice([], [], Lex(rest));
    }
  }
}
