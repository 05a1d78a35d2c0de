// A small XML reader in place of encoding/xml: character data and attribute values with
// references (XML 1.0 sections 2.4, 2.11 and 4.1), names (section 2.3), tags (section 3.1) and
// namespace prefixes (Namespaces in XML 1.0 sections 3 and 5). Comments, CDATA sections and
// document type declarations are not read.
module Xml {
  import opened Common
  import Text

  // ---- characters ----

  // XML 1.0 production [2].
  predicate IsXmlChar(c: char) {
    || c == '\t' || c == '\n' || c == '\r'
    || '\U{20}' <= c <= '\U{D7FF}' || '\U{E000}' <= c <= '\U{FFFD}' || '\U{10000}' <= c
  }

  // What an unprintable character becomes.
  function CleanChar(c: char): char {
    if IsXmlChar(c) then c else '\U{FFFD}'
  }

  function Clean(s: string): (r: string)
    ensures |r| == |s| && forall i :: 0 <= i < |s| ==> r[i] == CleanChar(s[i])
  {
    if s == "" then "" else [CleanChar(s[0])] + Clean(s[1..])
  }

  lemma CleanFixed(s: string)
    requires forall c <- s :: IsXmlChar(c)
    ensures Clean(s) == s
  {}

  // The characters xml.EscapeText writes as references: &#34; &#39; &amp; &lt; &gt; &#x9; &#xA; &#xD;
  function ReferenceFor(c: char): string {
    if c == '"' then "#34"
    else if c == '\'' then "#39"
    else if c == '&' then "amp"
    else if c == '<' then "lt"
    else if c == '>' then "gt"
    else if c == '\t' then "#x9"
    else if c == '\n' then "#xA"
    else if c == '\r' then "#xD"
    else ""
  }

  function EscapeChar(c: char): string {
    if ReferenceFor(c) != "" then "&" + ReferenceFor(c) + ";" else [CleanChar(c)]
  }

  function Escape(s: string): string {
    if s == "" then "" else EscapeChar(s[0]) + Escape(s[1..])
  }

  // Productions [4] and [4a].
  predicate IsNameStart(c: char) {
    || c == ':' || 'A' <= c <= 'Z' || c == '_' || 'a' <= c <= 'z'
    || '\U{C0}' <= c <= '\U{D6}' || '\U{D8}' <= c <= '\U{F6}' || '\U{F8}' <= c <= '\U{2FF}'
    || '\U{370}' <= c <= '\U{37D}' || '\U{37F}' <= c <= '\U{1FFF}' || '\U{200C}' <= c <= '\U{200D}'
    || '\U{2070}' <= c <= '\U{218F}' || '\U{2C00}' <= c <= '\U{2FEF}' || '\U{3001}' <= c <= '\U{D7FF}'
    || '\U{F900}' <= c <= '\U{FDCF}' || '\U{FDF0}' <= c <= '\U{FFFD}' || '\U{10000}' <= c <= '\U{EFFFF}'
  }

  predicate IsNameChar(c: char) {
    || IsNameStart(c) || c == '-' || c == '.' || '0' <= c <= '9' || c == '\U{B7}'
    || '\U{300}' <= c <= '\U{36F}' || '\U{203F}' <= c <= '\U{2040}'
  }

  predicate IsName(s: string) {
    s != "" && IsNameStart(s[0]) && forall c <- s :: IsNameChar(c)
  }

  // A name without a colon: Namespaces in XML 1.0, production [4].
  predicate IsNCName(s: string) {
    IsName(s) && ':' !in s
  }

  // ---- references ----

  predicate IsHexDigit(c: char) {
    '0' <= c <= '9' || 'a' <= c <= 'f' || 'A' <= c <= 'F'
  }

  function HexDigit(c: char): nat
    requires IsHexDigit(c)
  {
    if c <= '9' then c as int - '0' as int
    else if c <= 'F' then c as int - 'A' as int + 10
    else c as int - 'a' as int + 10
  }

  function HexValue(s: string): nat
    requires forall c <- s :: IsHexDigit(c)
  {
    if s == "" then 0 else 16 * HexValue(s[..|s| - 1]) + HexDigit(s[|s| - 1])
  }

  function CharOf(n: nat): Option<char> {
    if n < 0xD800 || 0xE000 <= n < 0x11_0000 then
      if IsXmlChar(n as char) then Some(n as char) else None
    else None
  }

  // The character an entity or character reference stands for.
  function Referent(name: string): Option<char> {
    if name == "lt" then Some('<')
    else if name == "gt" then Some('>')
    else if name == "amp" then Some('&')
    else if name == "apos" then Some('\'')
    else if name == "quot" then Some('"')
    else if Text.HasPrefix(name, "#x") && |name| > 2 && forall c <- name[2..] :: IsHexDigit(c) then
      CharOf(HexValue(name[2..]))
    else if Text.HasPrefix(name, "#") && |name| > 1 && Text.AllDigits(name[1..]) then
      CharOf(Text.NatValue(name[1..]))
    else None
  }

  // One character of text: itself, the referent of a reference, or a line break.
  function NextChar(s: string): (r: (char, string))
    requires s != ""
    ensures |r.1| < |s|
  {
    if s[0] == '&' then
      var end := Text.Find(s, ';');
      if end < |s| && Referent(s[1..end]).Some? then (Referent(s[1..end]).value, s[end + 1..])
      else ('&', s[1..])
    else if s[0] == '\r' then
      ('\n', if |s| > 1 && s[1] == '\n' then s[2..] else s[1..])
    else (s[0], s[1..])
  }

  // ---- tags ----

  // Names are as written, prefix included. A self-closing tag is a start and an end.
  datatype Token =
    | Start(name: string, attrs: seq<(string, string)>)
    | End(name: string)
    | Chars(c: char)
    | Instruction

  function NameLength(s: string): (n: nat)
    ensures n <= |s| && forall i :: 0 <= i < n ==> IsNameChar(s[i])
    ensures n < |s| ==> !IsNameChar(s[n])
  {
    if s == "" || !IsNameChar(s[0]) then 0 else 1 + NameLength(s[1..])
  }

  predicate IsXmlSpace(c: char) {
    c == ' ' || c == '\t' || c == '\n' || c == '\r'
  }

  function SkipSpace(s: string): (r: string)
    ensures |r| <= |s|
  {
    if s != "" && IsXmlSpace(s[0]) then SkipSpace(s[1..]) else s
  }

  function ReadName(s: string): (r: Option<(string, string)>)
    ensures r.Some? ==> |r.value.1| < |s|
  {
    var n := NameLength(s);
    if n == 0 || !IsNameStart(s[0]) then None else Some((s[..n], s[n..]))
  }

  // The rest of a quoted value, up to its closing quote.
  function ReadValue(s: string, quote: char): (r: Option<(string, string)>)
    ensures r.Some? ==> |r.value.1| < |s|
    decreases |s|
  {
    if s == "" then None
    else if s[0] == quote then Some(("", s[1..]))
    else
      var (c, rest) := NextChar(s);
      match ReadValue(rest, quote)
      case None => None
      case Some((value, after)) => Some(([c] + value, after))
  }

  datatype TagEnd = TagEnd(attrs: seq<(string, string)>, selfClosing: bool, rest: string)

  // name="value", white space allowed around the equals sign.
  function ReadAttr(s: string): (r: Option<((string, string), string)>)
    ensures r.Some? ==> |r.value.1| < |s|
  {
    match ReadName(s)
    case None => None
    case Some((name, r1)) =>
      var r2 := SkipSpace(r1);
      if r2 == "" || r2[0] != '=' then None
      else
        var r3 := SkipSpace(r2[1..]);
        if r3 == "" || (r3[0] != '"' && r3[0] != '\'') then None
        else
          match ReadValue(r3[1..], r3[0])
          case None => None
          case Some((value, r4)) => Some(((name, value), r4))
  }

  function ReadAttrs(s: string): (r: Option<TagEnd>)
    ensures r.Some? ==> |r.value.rest| < |s|
    decreases |s|
  {
    var t := SkipSpace(s);
    if t == "" then None
    else if t[0] == '>' then Some(TagEnd([], false, t[1..]))
    else if t[0] == '/' then
      if |t| > 1 && t[1] == '>' then Some(TagEnd([], true, t[2..])) else None
    else
      match ReadAttr(t)
      case None => None
      case Some((a, rest)) =>
        match ReadAttrs(rest)
        case None => None
        case Some(end) => Some(end.(attrs := [a] + end.attrs))
  }

  // After "<?", up to and including "?>".
  function SkipInstruction(s: string): (r: Option<string>)
    ensures r.Some? ==> |r.value| < |s|
  {
    if |s| < 2 then None
    else if s[0] == '?' && s[1] == '>' then Some(s[2..])
    else SkipInstruction(s[1..])
  }

  // One token, or the two of a self-closing tag, and what follows.
  function Next(s: string): (r: Option<(seq<Token>, string)>)
    requires s != ""
    ensures r.Some? ==> |r.value.1| < |s|
  {
    if s[0] != '<' then
      var (c, rest) := NextChar(s);
      Some(([Chars(c)], rest))
    else if |s| > 1 && s[1] == '/' then
      match ReadName(s[2..])
      case None => None
      case Some((name, r1)) =>
        var r2 := SkipSpace(r1);
        if r2 == "" || r2[0] != '>' then None else Some(([End(name)], r2[1..]))
    else if |s| > 1 && s[1] == '?' then
      match SkipInstruction(s[2..])
      case None => None
      case Some(rest) => Some(([Instruction], rest))
    else
      match ReadName(s[1..])
      case None => None
      case Some((name, r1)) =>
        match ReadAttrs(r1)
        case None => None
        case Some(end) =>
          Some((if end.selfClosing then [Start(name, end.attrs), End(name)] else [Start(name, end.attrs)],
                end.rest))
  }

  function Lex(s: string): Option<seq<Token>>
    decreases |s|
  {
    if s == "" then Some([])
    else
      match Next(s)
      case None => None
      case Some((tokens, rest)) =>
        match Lex(rest)
        case None => None
        case Some(more) => Some(tokens + more)
  }

  function Prepend(tokens: seq<Token>, more: Option<seq<Token>>): Option<seq<Token>> {
    match more case None => None case Some(ts) => Some(tokens + ts)
  }

  lemma PrependTwice(a: seq<Token>, b: seq<Token>, more: Option<seq<Token>>)
    ensures Prepend(a, Prepend(b, more)) == Prepend(a + b, more)
    ensures Prepend([], more) == more
  {
    if more.Some? {
      assert a + (b + more.value) == a + b + more.value && [] + more.value == more.value;
    }
  }

  function CharTokens(s: string): (r: seq<Token>)
    ensures |r| == |s| && forall i :: 0 <= i < |s| ==> r[i] == Chars(s[i])
  {
    if s == "" then [] else [Chars(s[0])] + CharTokens(s[1..])
  }

  lemma CharTokensAppend(a: string, b: string)
    ensures CharTokens(a + b) == CharTokens(a) + CharTokens(b)
  {}

  // ---- reading back what was escaped ----

  lemma DropPrefix(a: string, b: string)
    ensures (a + b)[|a|..] == b && (a + b)[..|a|] == a
  {}

  lemma KnownReferents()
    ensures Referent("#34") == Some('"') && Referent("#39") == Some('\'') && Referent("amp") == Some('&')
    ensures Referent("lt") == Some('<') && Referent("gt") == Some('>')
    ensures Referent("#x9") == Some('\t') && Referent("#xA") == Some('\n') && Referent("#xD") == Some('\r')
  {
    assert "#34"[1..] == "34" && "34"[..1] == "3" && "3"[..0] == "";
    assert "#39"[1..] == "39" && "39"[..1] == "3";
    assert Text.NatValue("34") == 34 && Text.NatValue("39") == 39;
    assert "#x9"[2..] == "9" && "#xA"[2..] == "A" && "#xD"[2..] == "D";
    assert "9"[..0] == "" && "A"[..0] == "" && "D"[..0] == "";
    assert HexValue("9") == 9 && HexValue("A") == 10 && HexValue("D") == 13;
    assert "#x9"[..2] == "#x" && "#xA"[..2] == "#x" && "#xD"[..2] == "#x";
    assert "#34"[..1] == "#" && "#39"[..1] == "#";
    assert "#34"[1] == '3' && "#39"[1] == '3';
  }

  lemma ReferenceReads(name: string, rest: string)
    requires ';' !in name && Referent(name).Some?
    ensures NextChar("&" + name + ";" + rest) == (Referent(name).value, rest)
  {
    var s := "&" + name + ";" + rest;
    assert s == ("&" + name) + [';'] + rest;
    Text.FindAfter("&" + name, ';', rest);
    assert s[1..|name| + 1] == name;
    assert s[|name| + 2..] == rest;
  }

  lemma PlainReads(c: char, rest: string)
    requires c != '&' && c != '\r'
    ensures NextChar([c] + rest) == (c, rest)
  {
    assert ([c] + rest)[1..] == rest;
  }

  // The characters written as references, and what their references stand for.
  lemma ReferencesStand(c: char)
    requires ReferenceFor(c) != ""
    ensures ';' !in ReferenceFor(c) && Referent(ReferenceFor(c)) == Some(c) && IsXmlChar(c)
  {
    KnownReferents();
    hide Referent;
  }

  // Whatever follows, an escaped character reads back as itself, made printable; and its
  // escaped form starts with neither a tag nor a quote.
  lemma EscapedReads(c: char, rest: string)
    ensures EscapeChar(c) != "" && EscapeChar(c)[0] !in "<\"'"
    ensures NextChar(EscapeChar(c) + rest) == (CleanChar(c), rest)
  {
    hide Referent, NextChar;
    if ReferenceFor(c) != "" {
      ReferencesStand(c);
      ReferenceReads(ReferenceFor(c), rest);
    } else {
      PlainReads(CleanChar(c), rest);
    }
  }
}
