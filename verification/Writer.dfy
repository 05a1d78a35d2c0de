// internal/feedout: the indenting tree printer.
module Writer {
  import opened Feed
  import Xml

  // ---- what each piece looks like ----

  function Tabs(depth: nat): (r: string)
    ensures |r| == depth && forall c <- r :: c == '\t'
  {
    if depth == 0 then "" else "\t" + Tabs(depth - 1)
  }

  function OneAttr(a: (string, string)): string {
    " " + a.0 + "=\"" + Xml.Escape(a.1) + "\""
  }

  function AttrText(list: seq<(string, string)>): string {
    if list == [] then "" else OneAttr(list[0]) + AttrText(list[1..])
  }

  function OpenText(depth: nat, name: string, list: seq<(string, string)>): string {
    Tabs(depth) + "<" + name + AttrText(list) + ">\n"
  }

  function CloseText(depth: nat, name: string): string {
    Tabs(depth) + "</" + name + ">\n"
  }

  function LeafText(depth: nat, name: string, text: string, list: seq<(string, string)>): string {
    Tabs(depth) + "<" + name + AttrText(list) +
    (if text == "" then "/>\n" else ">" + Xml.Escape(text) + "</" + name + ">\n")
  }

  function OptionalText(depth: nat, name: string, text: string): string {
    if text == "" then "" else LeafText(depth, name, text, [])
  }

  // The prefixed form of a name under a prefix table; a namespace without a prefix is lost.
  function Qualify(byURI: map<string, string>, name: Name): string {
    if name.space == "" then name.local
    else if name.space == NS_XML then "xml:" + name.local
    else if name.space in byURI then byURI[name.space] + ":" + name.local
    else name.local
  }

  function QualifyAttrs(byURI: map<string, string>, attrs: seq<Attr>): (r: seq<(string, string)>)
    ensures |r| == |attrs|
    ensures forall i :: 0 <= i < |r| ==> r[i] == (Qualify(byURI, attrs[i].name), attrs[i].value)
  {
    seq(|attrs|, i requires 0 <= i < |attrs| => (Qualify(byURI, attrs[i].name), attrs[i].value))
  }

  function ElementText(byURI: map<string, string>, el: Element, depth: nat): string
    decreases el, 1
  {
    var name, list := Qualify(byURI, el.name), QualifyAttrs(byURI, el.attrs);
    if el.children == [] then LeafText(depth, name, el.text, list)
    else
      OpenText(depth, name, list)
      + (if el.text == "" then "" else Tabs(depth + 1) + Xml.Escape(el.text) + "\n")
      + ForestText(byURI, el.children, depth + 1)
      + CloseText(depth, name)
  }

  function ForestText(byURI: map<string, string>, els: seq<Element>, depth: nat): string
    decreases els, 0
  {
    if els == [] then ""
    else ElementText(byURI, els[0], depth) + ForestText(byURI, els[1..], depth)
  }

  // ---- the printer ----

  class Printer {
    var buf: string
    var depth: nat

    constructor ()
      ensures buf == "" && depth == 0
    {
      buf, depth := "", 0;
    }

    method Indent()
      modifies this`buf
      ensures buf == old(buf) + Tabs(depth)
    {
      for i := 0 to depth
        invariant buf == old(buf) + Tabs(i)
      {
        TabsSnoc(i);
        buf := buf + "\t";
      }
    }

    method Attrs(list: seq<(string, string)>)
      modifies this`buf
      ensures buf == old(buf) + AttrText(list)
    {
      hide Xml.Escape;
      for i := 0 to |list|
        invariant buf == old(buf) + AttrText(list[..i])
      {
        AttrTextSnoc(list[..i], list[i]);
        assert list[..i + 1] == list[..i] + [list[i]];
        label before:
        buf := buf + " ";
        buf := buf + list[i].0;
        buf := buf + "=\"";
        buf := buf + Xml.Escape(list[i].1);
        buf := buf + "\"";
        assert buf == old@before(buf) + OneAttr(list[i]);
      }
      assert list[..|list|] == list;
    }

    method Open(name: string, list: seq<(string, string)>)
      modifies this
      ensures buf == old(buf) + OpenText(old(depth), name, list) && depth == old(depth) + 1
    {
      hide Xml.Escape, AttrText, Tabs;
      Indent();
      buf := buf + "<" + name;
      Attrs(list);
      buf := buf + ">\n";
      depth := depth + 1;
    }

    method Close(name: string)
      requires depth > 0
      modifies this
      ensures depth == old(depth) - 1 && buf == old(buf) + CloseText(depth, name)
    {
      depth := depth - 1;
      Indent();
      buf := buf + "</" + name + ">\n";
    }

    method Leaf(name: string, text: string, list: seq<(string, string)>)
      modifies this`buf
      ensures buf == old(buf) + LeafText(depth, name, text, list)
    {
      hide Xml.Escape, AttrText, Tabs;
      Indent();
      buf := buf + "<" + name;
      Attrs(list);
      if text == "" {
        buf := buf + "/>\n";
        return;
      }
      buf := buf + ">";
      buf := buf + Xml.Escape(text);
      buf := buf + "</" + name + ">\n";
    }

    method Optional(name: string, text: string)
      modifies this`buf
      ensures buf == old(buf) + OptionalText(depth, name, text)
    {
      if text == "" { return; }
      Leaf(name, text, []);
    }

    method QualifiedAttrs(byURI: map<string, string>, el: Element) returns (list: seq<(string, string)>)
      ensures list == QualifyAttrs(byURI, el.attrs)
    {
      list := [];
      for i := 0 to |el.attrs|
        invariant list == QualifyAttrs(byURI, el.attrs)[..i]
      {
        list := list + [(Qualify(byURI, el.attrs[i].name), el.attrs[i].value)];
      }
    }

    method Children(byURI: map<string, string>, el: Element)
      modifies this
      ensures depth == old(depth) && buf == old(buf) + ForestText(byURI, el.children, depth)
      decreases el, 0
    {
      hide ElementText, ForestText;
      ghost var d, was := depth, buf;
      ForestNone(byURI, el.children, d);
      for i := 0 to |el.children|
        invariant depth == d
        invariant buf == was + ForestText(byURI, el.children[..i], d)
      {
        ForestStep(was, byURI, el.children, i, d);
        Element(byURI, el.children[i]);
      }
      assert el.children[..|el.children|] == el.children;
    }

    method Element(byURI: map<string, string>, el: Element)
      modifies this
      ensures depth == old(depth) && buf == old(buf) + ElementText(byURI, el, depth)
      decreases el, 1
    {
      hide Xml.Escape, AttrText, Tabs, OpenText, CloseText, LeafText, ForestText, Qualify;
      var name := Qualify(byURI, el.name);
      var list := QualifiedAttrs(byURI, el);
      if |el.children| == 0 {
        Leaf(name, el.text, list);
        return;
      }

      Open(name, list);
      if el.text != "" {
        Indent();
        buf := buf + Xml.Escape(el.text);
        buf := buf + "\n";
      }
      Children(byURI, el);
      Close(name);
    }
  }

  lemma Assoc(a: string, b: string, c: string)
    ensures (a + b) + c == a + (b + c)
  {}

  lemma {:induction false} TabsSnoc(n: nat)
    ensures Tabs(n + 1) == Tabs(n) + "\t"
  {
    if n > 0 {
      TabsSnoc(n - 1);
    }
  }

  lemma {:induction false} AttrTextSnoc(list: seq<(string, string)>, a: (string, string))
    ensures AttrText(list + [a]) == AttrText(list) + OneAttr(a)
  {
    hide OneAttr;
    if list == [] {
      assert list + [a] == [a];
    } else {
      assert (list + [a])[1..] == list[1..] + [a];
      AttrTextSnoc(list[1..], a);
    }
  }

  lemma ForestNone(byURI: map<string, string>, els: seq<Element>, depth: nat)
    ensures ForestText(byURI, els[..0], depth) == ""
  {}

  lemma {:induction false} ForestAppend(byURI: map<string, string>, a: seq<Element>, b: seq<Element>, depth: nat)
    ensures ForestText(byURI, a + b, depth) == ForestText(byURI, a, depth) + ForestText(byURI, b, depth)
  {
    hide ElementText;
    if a == [] {
      assert a + b == b;
    } else {
      assert (a + b)[1..] == a[1..] + b;
      ForestAppend(byURI, a[1..], b, depth);
      Assoc(ElementText(byURI, a[0], depth), ForestText(byURI, a[1..], depth), ForestText(byURI, b, depth));
    }
  }

  lemma ForestStep(was: string, byURI: map<string, string>, els: seq<Element>, i: nat, depth: nat)
    requires i < |els|
    ensures was + ForestText(byURI, els[..i], depth) + ElementText(byURI, els[i], depth)
         == was + ForestText(byURI, els[..i + 1], depth)
  {
    hide ElementText;
    ForestAppend(byURI, els[..i], [els[i]], depth);
    assert els[..i + 1] == els[..i] + [els[i]];
    assert ForestText(byURI, [els[i]], depth) == ElementText(byURI, els[i], depth) + "";
    Assoc(was, ForestText(byURI, els[..i], depth), ElementText(byURI, els[i], depth));
  }
}
