// internal/feedin: token stream to element tree. Namespaces are resolved as encoding/xml does,
// the legacy source namespace is folded into the current one, text is gathered and trimmed.
module Decode {
  import opened Common
  import opened Feed
  import opened Xml
  import Text

  type Env = map<string, string>

  function CanonicalSpace(space: string): string {
    if space == NS_SOURCE_LEGACY then NS_SOURCE else space
  }

  // prefix:local, or no prefix when either side would be empty or a second colon follows.
  function SplitName(raw: string): (string, string) {
    match Text.Cut(raw, ':')
    case Some((prefix, local)) =>
      if prefix == "" || local == "" || ':' in local then ("", raw) else (prefix, local)
    case None => ("", raw)
  }

  function Translate(env: Env, raw: string, isElement: bool): Name {
    var (prefix, local) := SplitName(raw);
    if prefix == "xmlns" then Name("xmlns", local)
    else if prefix == "" && (!isElement || local == "xmlns") then Name("", local)
    else if prefix == "xml" then Name(NS_XML, local)
    else if prefix in env then Name(env[prefix], local)
    else Name(prefix, local)
  }

  // The declarations a start tag adds to the scope.
  function Bind(env: Env, attrs: seq<(string, string)>): Env
    decreases |attrs|
  {
    if attrs == [] then env
    else
      var (prefix, local) := SplitName(attrs[0].0);
      var inner := if prefix == "xmlns" then env[local := attrs[0].1]
                   else if prefix == "" && local == "xmlns" then env["" := attrs[0].1]
                   else env;
      Bind(inner, attrs[1..])
  }

  function DecodedAttrs(env: Env, attrs: seq<(string, string)>): seq<Attr> {
    if attrs == [] then []
    else
      var a := Attr(Translate(env, attrs[0].0, false), attrs[0].1);
      if IsNamespaceDeclaration(a) then DecodedAttrs(env, attrs[1..])
      else [a.(name := a.name.(space := CanonicalSpace(a.name.space)))] + DecodedAttrs(env, attrs[1..])
  }

  function ElementName(env: Env, raw: string): Name {
    var name := Translate(env, raw, true);
    name.(space := CanonicalSpace(name.space))
  }

  datatype Gathered = Gathered(text: string, children: seq<Element>, rest: seq<Token>)

  // Everything up to the end tag that closes the element, or up to the end of the input.
  function Gather(env: Env, tokens: seq<Token>): (g: Gathered)
    ensures |g.rest| <= |tokens|
    decreases |tokens|
  {
    if tokens == [] then Gathered("", [], [])
    else
      match tokens[0]
      case Chars(c) =>
        var g := Gather(env, tokens[1..]);
        g.(text := [c] + g.text)
      case Instruction => Gather(env, tokens[1..])
      case End(_) => Gathered("", [], tokens[1..])
      case Start(name, attrs) =>
        var scope := Bind(env, attrs);
        var inner := Gather(scope, tokens[1..]);
        var g := Gather(env, inner.rest);
        g.(children := [Built(scope, name, attrs, inner)] + g.children)
  }

  function Built(scope: Env, name: string, attrs: seq<(string, string)>, inner: Gathered): Element {
    Element(ElementName(scope, name), DecodedAttrs(scope, attrs), Text.TrimSpace(inner.text), inner.children)
  }

  method DecodeElement(env: Env, name: string, attrs: seq<(string, string)>, tokens: seq<Token>)
    returns (el: Element, rest: seq<Token>)
    ensures var scope := Bind(env, attrs);
            el == Built(scope, name, attrs, Gather(scope, tokens)) && rest == Gather(scope, tokens).rest
    ensures |rest| <= |tokens|
    decreases |tokens|
  {
    var scope := Bind(env, attrs);
    var tag := ElementName(scope, name);
    var kept := DecodeAttrs(scope, attrs);

    var text: string := "";
    var children: seq<Element> := [];
    rest := tokens;
    ghost var all := Gather(scope, tokens);
    while rest != []
      invariant |rest| <= |tokens|
      invariant all == Gathered(text + Gather(scope, rest).text, children + Gather(scope, rest).children,
                                Gather(scope, rest).rest)
      decreases |rest|
    {
      var token := rest[0];
      match token {
        case Start(n, a) =>
          var child, after := DecodeElement(scope, n, a, rest[1..]);
          children, rest := children + [child], after;
        case Chars(c) =>
          text, rest := text + [c], rest[1..];
        case Instruction =>
          rest := rest[1..];
        case End(_) =>
          rest := rest[1..];
          assert all.text == text && all.children == children;
          el := Element(tag, kept, Text.TrimSpace(text), children);
          return;
      }
    }
    assert all.text == text && all.children == children;
    el := Element(tag, kept, Text.TrimSpace(text), children);
  }

  method DecodeAttrs(scope: Env, attrs: seq<(string, string)>) returns (kept: seq<Attr>)
    ensures kept == DecodedAttrs(scope, attrs)
  {
    kept := [];
    assert attrs[0..] == attrs;
    for i := 0 to |attrs|
      invariant DecodedAttrs(scope, attrs) == kept + DecodedAttrs(scope, attrs[i..])
    {
      assert attrs[i..][0] == attrs[i] && attrs[i..][1..] == attrs[i + 1..];
      var a := Attr(Translate(scope, attrs[i].0, false), attrs[i].1);
      if !IsNamespaceDeclaration(a) {
        kept := kept + [a.(name := a.name.(space := CanonicalSpace(a.name.space)))];
      }
    }
  }

  datatype Error = NoRootElement | Syntax

  // The first element of the document.
  function DecodeTokens(tokens: seq<Token>): Result<Element, Error> {
    if tokens == [] then Err(NoRootElement)
    else if tokens[0].Start? then
      var scope := Bind(map[], tokens[0].attrs);
      Ok(Built(scope, tokens[0].name, tokens[0].attrs, Gather(scope, tokens[1..])))
    else DecodeTokens(tokens[1..])
  }

  function DecodeDocument(data: string): Result<Element, Error> {
    match Lex(data) case None => Err(Syntax) case Some(tokens) => DecodeTokens(tokens)
  }

  method ReadDocument(data: string) returns (r: Result<Element, Error>)
    ensures r == DecodeDocument(data)
  {
    var lexed := Lex(data);
    if lexed.None? { return Err(Syntax); }
    var tokens := lexed.value;
    while tokens != []
      invariant DecodeTokens(tokens) == DecodeTokens(lexed.value)
      decreases |tokens|
    {
      if tokens[0].Start? {
        var el, _ := DecodeElement(map[], tokens[0].name, tokens[0].attrs, tokens[1..]);
        return Ok(el);
      }
      tokens := tokens[1..];
    }
    r := Err(NoRootElement);
  }
}
