// internal/activitypub/rfc9421.go: HTTP message signatures (RFC 9421), as this code prints and
// reads them.
module Signature9421 {
  import opened Common
  import opened HeaderText
  import opened Signature
  import Base64
  import Text

  const LABEL := "rss"
  const RSA_SHA256 := "rsa-v1_5-sha256"

  datatype Sig = Sig(tag: string, components: seq<string>, keyID: string, algorithm: string, created: int, expires: int, raw: Bytes)

  datatype Request = Request(verb: string, scheme: string, urlHost: string, escapedPath: string, rawQuery: string,
                             host: string, tls: bool, header: Header)

  // ---- the components ----

  function AuthorityOf(req: Request): string {
    if req.host != "" then req.host
    else if Get(req.header, "host") != "" then Get(req.header, "host")
    else req.urlHost
  }

  function PathOf(req: Request): string { if req.escapedPath == "" then "/" else req.escapedPath }

  function TargetURI(req: Request): string {
    var forwarded := Get(req.header, "x-forwarded-proto");
    var scheme :=
      if req.scheme != "" then req.scheme
      else if !req.tls && req.urlHost == "" && forwarded != "" then Text.Lower(forwarded)
      else "https";
    scheme + "://" + Text.Lower(AuthorityOf(req)) + PathOf(req) + (if req.rawQuery == "" then "" else "?" + req.rawQuery)
  }

  function ComponentValue(req: Request, name: string): Result<string, Failure> {
    if name == "@method" then Ok(Text.Upper(req.verb))
    else if name == "@target-uri" then Ok(TargetURI(req))
    else if name == "@authority" then Ok(Text.Lower(AuthorityOf(req)))
    else if name == "@path" then Ok(PathOf(req))
    else if name == "@query" then Ok("?" + req.rawQuery)
    else if Text.HasPrefix(name, "@") then Err(DerivedComponent)
    else
      var value := Get(req.header, Text.Lower(name));
      if value == "" then Err(MissingHeader) else Ok(Text.TrimSpace(value))
  }

  // ---- printing ----

  function Quoted(components: seq<string>): (r: seq<string>)
    ensures |r| == |components| && forall i :: 0 <= i < |r| ==> r[i] == "\"" + components[i] + "\""
  {
    if components == [] then [] else ["\"" + components[0] + "\""] + Quoted(components[1..])
  }

  function ComponentList(components: seq<string>): string {
    "(" + Join(Quoted(components), " ") + ")"
  }

  function ParamsOf(sig: Sig): seq<string> {
    ["created=" + Text.Itoa(sig.created)]
    + (if sig.expires > 0 then ["expires=" + Text.Itoa(sig.expires)] else [])
    + ["keyid=" + Quote(sig.keyID)]
    + (if sig.algorithm != "" then ["alg=" + Quote(sig.algorithm)] else [])
  }

  function SignatureParams(sig: Sig): string {
    ComponentList(sig.components) + ";" + Join(ParamsOf(sig), ";")
  }

  function Line(name: string, value: string): string { "\"" + name + "\": " + value }

  const PARAMS_NAME := "@signature-params"

  function Values(req: Request, components: seq<string>): Result<seq<string>, Failure> {
    if components == [] then Ok([])
    else
      match ComponentValue(req, components[0])
      case Err(e) => Err(e)
      case Ok(value) =>
        match Values(req, components[1..])
        case Err(e) => Err(e)
        case Ok(more) => Ok([value] + more)
  }

  function Lines(components: seq<string>, values: seq<string>): (r: seq<string>)
    requires |components| == |values|
    ensures |r| == |components| && forall i :: 0 <= i < |r| ==> r[i] == Line(components[i], values[i])
  {
    if components == [] then [] else [Line(components[0], values[0])] + Lines(components[1..], values[1..])
  }

  lemma {:induction false} ValuesLength(req: Request, components: seq<string>)
    ensures Values(req, components).Ok? ==> |Values(req, components).value| == |components|
  {
    hide ComponentValue;
    if components != [] { ValuesLength(req, components[1..]); }
  }

  function SignatureBase(req: Request, sig: Sig): Result<string, Failure> {
    match Values(req, sig.components)
    case Err(e) => Err(e)
    case Ok(values) =>
      ValuesLength(req, sig.components);
      Ok(Join(Lines(sig.components, values) + [Line(PARAMS_NAME, SignatureParams(sig))], "\n"))
  }

  // ---- reading ----

  // strconv.ParseInt with the error ignored, and no range.
  function Number(value: string): int { match Text.Atoi(value) case Some(n) => n case None => 0 }

  function ReadField(param: string): Option<(string, string)> {
    match Text.Cut(Text.TrimSpace(param), '=')
    case None => None
    case Some((name, value)) => Some((Text.Lower(Text.TrimSpace(name)), TrimChar(Text.TrimSpace(value), '"')))
  }

  function SetField(sig: Sig, param: string): Sig {
    match ReadField(param)
    case None => sig
    case Some((name, value)) =>
      if name == "keyid" then sig.(keyID := value)
      else if name == "alg" then sig.(algorithm := value)
      else if name == "created" then sig.(created := Number(value))
      else if name == "expires" then sig.(expires := Number(value))
      else sig
  }

  function SetFields(sig: Sig, params: seq<string>): Sig
    decreases |params|
  {
    if params == [] then sig else SetFields(SetField(sig, params[0]), params[1..])
  }

  function ReadNames(fields: seq<string>): Option<seq<string>> {
    if fields == [] then Some([])
    else
      var name := TrimChar(fields[0], '"');
      if name == "" then None
      else
        match ReadNames(fields[1..])
        case None => None
        case Some(more) => Some([Text.Lower(name)] + more)
  }

  // Everything behind the label.
  function ReadParams(name: string, rest: string): Result<Sig, Failure> {
    var open, close := Text.Find(rest, '('), Text.Find(rest, ')');
    if open == |rest| || close == |rest| || close < open then Err(Malformed)
    else
      match ReadNames(Text.Fields(rest[open + 1..close]))
      case None => Err(Malformed)
      case Some(components) =>
        if components == [] then Err(Malformed)
        else Ok(SetFields(Sig(name, components, "", "", 0, 0, []), Split(rest[close + 1..], ';')))
  }

  function RawIn(parts: seq<string>, name: string): Result<Bytes, Failure> {
    if parts == [] then Err(Malformed)
    else
      match Text.Cut(Text.TrimSpace(parts[0]), '=')
      case None => RawIn(parts[1..], name)
      case Some((key, value)) =>
        if Text.TrimSpace(key) != name then RawIn(parts[1..], name)
        else
          match Base64.Decode(TrimChar(Text.TrimSpace(value), ':'))
          case None => Err(Malformed)
          case Some(raw) => if raw == [] then Err(Malformed) else Ok(raw)
  }

  function Parsed9421(input: string, signature: string): Result<Sig, Failure> {
    if Text.TrimSpace(input) == "" then Err(NoSignatureInput)
    else
      match Text.Cut(Text.TrimSpace(input), '=')
      case None => Err(Malformed)
      case Some((before, rest)) =>
        match ReadParams(Text.TrimSpace(before), rest)
        case Err(e) => Err(e)
        case Ok(sig) =>
          if sig.keyID == "" then Err(NoKeyID)
          else if sig.algorithm != "" && sig.algorithm != RSA_SHA256 then Err(UnknownAlgorithm)
          else
            match RawIn(Unquoted(signature, false), sig.tag)
            case Err(e) => Err(e)
            case Ok(raw) => Ok(sig.(raw := raw))
  }

  // ---- the loops ----

  method SignatureBytes(header: string, name: string) returns (r: Result<Bytes, Failure>)
    ensures r == RawIn(Unquoted(header, false), name)
  {
    hide Unquoted;
    var parts := SplitParams(header);
    assert parts[0..] == parts;
    for i := 0 to |parts|
      invariant RawIn(parts, name) == RawIn(parts[i..], name)
    {
      assert parts[i..][0] == parts[i] && parts[i..][1..] == parts[i + 1..];
      var cut := Text.Cut(Text.TrimSpace(parts[i]), '=');
      if cut.None? || Text.TrimSpace(cut.value.0) != name { continue; }
      var value := TrimChar(Text.TrimSpace(cut.value.1), ':');
      var raw := Base64.Decode(value);
      if raw.None? { return Err(Malformed); }
      if raw.value == [] { return Err(Malformed); }
      return Ok(raw.value);
    }
    r := Err(Malformed);
  }

  method ReadComponents(fields: seq<string>) returns (r: Option<seq<string>>)
    ensures r == ReadNames(fields)
  {
    hide Behind;
    var names: seq<string> := [];
    assert fields[0..] == fields;
    BehindTwice([], "", ReadNames(fields));
    for i := 0 to |fields|
      invariant ReadNames(fields) == Behind(names, ReadNames(fields[i..]))
    {
      ReadNamesStep(fields, i, names);
      var name := TrimChar(fields[i], '"');
      if name == "" { return None; }
      BehindTwice(names, Text.Lower(name), ReadNames(fields[i + 1..]));
      names := names + [Text.Lower(name)];
    }
    assert fields[|fields|..] == [];
    NamesEnd(names);
    r := Some(names);
  }

  lemma ReadNamesStep(fields: seq<string>, i: nat, names: seq<string>)
    requires i < |fields|
    ensures var name := TrimChar(fields[i], '"');
            && (name == "" ==> Behind(names, ReadNames(fields[i..])) == None)
            && (name != "" ==> ReadNames(fields[i..]) == Behind([Text.Lower(name)], ReadNames(fields[i + 1..])))
  {
    hide TrimChar;
    assert fields[i..][0] == fields[i] && fields[i..][1..] == fields[i + 1..];
  }

  lemma NamesEnd(names: seq<string>)
    ensures Behind(names, ReadNames([])) == Some(names)
  {
    assert names + [] == names;
  }

  method ParseSignature9421(input: string, signature: string) returns (r: Result<Sig, Failure>)
    ensures r == Parsed9421(input, signature)
  {
    hide ReadNames, SetField, RawIn, Unquoted, Split;
    hide Text.TrimSpace, Text.Fields;
    if Text.TrimSpace(input) == "" { return Err(NoSignatureInput); }
    var cut := Text.Cut(Text.TrimSpace(input), '=');
    if cut.None? { return Err(Malformed); }
    var name, rest := Text.TrimSpace(cut.value.0), cut.value.1;
    var open, close := Text.Find(rest, '('), Text.Find(rest, ')');
    if open == |rest| || close == |rest| || close < open { return Err(Malformed); }
    var components := ReadComponents(Text.Fields(rest[open + 1..close]));
    if components.None? { return Err(Malformed); }
    if components.value == [] { return Err(Malformed); }
    var sig := Sig(name, components.value, "", "", 0, 0, []);
    ghost var start := sig;
    var params := Split(rest[close + 1..], ';');
    assert params[0..] == params;
    for i := 0 to |params|
      invariant SetFields(sig, params[i..]) == SetFields(start, params) && sig.tag == name
    {
      assert params[i..][0] == params[i] && params[i..][1..] == params[i + 1..];
      SetFieldKeeps(sig, params[i]);
      sig := SetField(sig, params[i]);
    }
    assert params[|params|..] == [];
    if sig.keyID == "" { return Err(NoKeyID); }
    if sig.algorithm != "" && sig.algorithm != RSA_SHA256 { return Err(UnknownAlgorithm); }
    var raw := SignatureBytes(signature, name);
    if raw.Err? { return Err(raw.error); }
    r := Ok(sig.(raw := raw.value));
  }

  lemma SetFieldKeeps(sig: Sig, param: string)
    ensures SetField(sig, param).tag == sig.tag && SetField(sig, param).components == sig.components
    ensures SetField(sig, param).raw == sig.raw
  {
    hide ReadField;
  }

  method BuildBase(req: Request, sig: Sig) returns (r: Result<string, Failure>)
    ensures r == SignatureBase(req, sig)
  {
    hide ComponentValue, SignatureParams, Line;
    var cs := sig.components;
    var values: seq<string> := [];
    var lines: seq<string> := [];
    assert cs[0..] == cs;
    if Values(req, cs).Ok? { assert [] + Values(req, cs).value == Values(req, cs).value; }
    for i := 0 to |cs|
      invariant |values| == i == |lines| && forall j :: 0 <= j < i ==> lines[j] == Line(cs[j], values[j])
      invariant Values(req, cs) == match Values(req, cs[i..]) case Err(e) => Err(e) case Ok(more) => Ok(values + more)
    {
      assert cs[i..][0] == cs[i] && cs[i..][1..] == cs[i + 1..];
      var value := ComponentValue(req, cs[i]);
      if value.Err? { return Err(value.error); }
      ghost var rest := Values(req, cs[i + 1..]);
      if rest.Ok? { assert values + ([value.value] + rest.value) == values + [value.value] + rest.value; }
      lines := lines + [Line(cs[i], value.value)];
      values := values + [value.value];
    }
    assert cs[|cs|..] == [] && values + [] == values;
    assert lines == Lines(cs, values);
    r := Ok(Join(lines + [Line(PARAMS_NAME, SignatureParams(sig))], "\n"));
  }

  // ---- what is printed is read ----

  // Component names that leave the list of components and the lines of the base in one piece.
  predicate IsName(name: string) { IsWord(name) && ')' !in name }

  predicate Framed(components: seq<string>) { components != [] && forall c <- components :: IsName(c) }

  predicate IsComponent(name: string) { IsName(name) && '"' !in name && Text.Lower(name) == name }

  // A trimmed label without separators, and lower-case component names.
  predicate Labelled(sig: Sig) {
    && Text.Trimmed(sig.tag) && '=' !in sig.tag && ',' !in sig.tag && '"' !in sig.tag
    && sig.components != [] && (forall c <- sig.components :: IsComponent(c))
  }

  // Text that needs no escaping and holds no semicolon.
  predicate Bare(s: string) { IsPlain(s) && ';' !in s }

  // Signatures this code prints unambiguously.
  predicate Clear(sig: Sig) { Labelled(sig) && Bare(sig.keyID) && Bare(sig.algorithm) }

  lemma LabelledFramed(sig: Sig)
    requires Labelled(sig)
    ensures Framed(sig.components)
  {
    hide IsWord;
  }

  // What survives: an expiry only when it was printed.
  function Printable(sig: Sig): Sig { if sig.expires > 0 then sig else sig.(expires := 0) }

  predicate IsField(name: string) { name != "" && forall c <- name :: 'a' <= c <= 'z' }

  lemma FieldTrimmed(name: string, value: string)
    requires IsField(name) && value != "" && !Text.IsSpace(value[|value| - 1])
    ensures '=' !in name && Text.Trimmed(name) && Text.Trimmed(name + "=" + value) && Text.Lower(name) == name
  {
    FieldLower(name);
    hide Text.Lower;
    assert name[0] in name && name[|name| - 1] in name;
    assert (name + "=" + value)[0] == name[0];
  }

  lemma FieldLower(name: string)
    requires IsField(name)
    ensures Text.Lower(name) == name
  {
    hide Text.Lower;
    forall i | 0 <= i < |name| ensures !('A' <= name[i] <= 'Z') { assert name[i] in name; }
    LowerFixed(name);
  }

  lemma FieldReads(name: string, value: string)
    requires IsField(name) && value != "" && Text.Trimmed(value)
    ensures ReadField(name + "=" + value) == Some((name, TrimChar(value, '"')))
  {
    hide TrimChar, IsField;
    hide Text.TrimSpace, Text.Cut, Text.Lower, Text.IsSpace;
    FieldTrimmed(name, value);
    hide Text.Trimmed;
    Text.TrimSpaceFixed(name + "=" + value);
    Text.CutAt(name, '=', value);
    Text.TrimSpaceFixed(name);
    Text.TrimSpaceFixed(value);
  }

  lemma NumberReads(name: string, n: int)
    requires IsField(name)
    ensures ReadField(name + "=" + Text.Itoa(n)) == Some((name, Text.Itoa(n))) && Number(Text.Itoa(n)) == n
  {
    Text.ItoaVisible(n);
    Text.AtoiInverse(n);
    DigitsUnquoted(n);
    hide Text.Itoa, Text.Atoi;
    FieldReads(name, Text.Itoa(n));
  }

  lemma DigitsUnquoted(n: int)
    ensures TrimChar(Text.Itoa(n), '"') == Text.Itoa(n) && ';' !in Text.Itoa(n) && '\n' !in Text.Itoa(n)
  {
    TrimNone(Text.Itoa(n), '"');
  }

  lemma QuotedReads(name: string, value: string)
    requires IsField(name)
    ensures ReadField(name + "=" + Quote(value)) == Some((name, ReadBack(value)))
  {
    var quoted := Quote(value);
    assert quoted[0] == '"' && quoted[|quoted| - 1] == '"';
    assert Text.Trimmed(quoted);
    hide Quote, TrimChar, IsField;
    FieldReads(name, quoted);
  }

  lemma FieldNames9421()
    ensures IsField("created") && IsField("expires") && IsField("keyid") && IsField("alg")
  {}

  lemma NumberSet(sig: Sig, n: int)
    ensures SetFields(sig, ["created=" + Text.Itoa(n)]) == sig.(created := n)
    ensures SetFields(sig, ["expires=" + Text.Itoa(n)]) == sig.(expires := n)
  {
    FieldNames9421();
    hide IsField, ReadField, Number, SetFields;
    hide Text.Itoa;
    NumberReads("created", n);
    NumberReads("expires", n);
    SetOne(sig, "created=" + Text.Itoa(n));
    SetOne(sig, "expires=" + Text.Itoa(n));
    assert "created" + "=" == "created=" && "expires" + "=" == "expires=";
  }

  lemma QuotedSet(sig: Sig, value: string)
    ensures SetFields(sig, ["keyid=" + Quote(value)]) == sig.(keyID := ReadBack(value))
    ensures SetFields(sig, ["alg=" + Quote(value)]) == sig.(algorithm := ReadBack(value))
  {
    FieldNames9421();
    hide IsField, ReadField, Quote, ReadBack, SetFields;
    QuotedReads("keyid", value);
    QuotedReads("alg", value);
    SetOne(sig, "keyid=" + Quote(value));
    SetOne(sig, "alg=" + Quote(value));
    assert "keyid" + "=" == "keyid=" && "alg" + "=" == "alg=";
  }

  // A signature as its parameters are read back.
  function PrintedBack(sig: Sig): Sig {
    Printable(sig).(keyID := ReadBack(sig.keyID), algorithm := ReadBack(sig.algorithm))
  }

  // The parameters of a signature, read into an empty one.
  lemma ParamsSet(start: Sig, sig: Sig)
    requires start.keyID == "" && start.algorithm == "" && start.created == 0 && start.expires == 0
    ensures SetFields(start, ParamsOf(sig))
         == start.(created := sig.created, expires := if sig.expires > 0 then sig.expires else 0,
                   keyID := ReadBack(sig.keyID), algorithm := ReadBack(sig.algorithm))
  {
    ReadBackIff("");
    hide Quote, ReadBack, SetFields;
    hide Text.Itoa;
    NothingSet();
    var a, b := ["created=" + Text.Itoa(sig.created)], if sig.expires > 0 then ["expires=" + Text.Itoa(sig.expires)] else [];
    var c, d := ["keyid=" + Quote(sig.keyID)], if sig.algorithm != "" then ["alg=" + Quote(sig.algorithm)] else [];
    SetAppend(start, a + b + c, d);
    SetAppend(start, a + b, c);
    SetAppend(start, a, b);
    var s1 := start.(created := sig.created);
    var s2 := s1.(expires := if sig.expires > 0 then sig.expires else 0);
    NumberSet(start, sig.created);
    NumberSet(s1, sig.expires);
    QuotedSet(s2, sig.keyID);
    QuotedSet(s2.(keyID := ReadBack(sig.keyID)), sig.algorithm);
  }

  lemma NothingSet()
    ensures forall s: Sig {:trigger SetFields(s, [])} :: SetFields(s, []) == s
  {}

  lemma SetOne(sig: Sig, param: string)
    ensures SetFields(sig, [param]) == SetField(sig, param)
  {
    assert [param][1..] == [];
  }

  lemma {:induction false} SetAppend(sig: Sig, a: seq<string>, b: seq<string>)
    ensures SetFields(sig, a + b) == SetFields(SetFields(sig, a), b)
    decreases |a|
  {
    hide SetField;
    if a == [] {
      assert a + b == b;
    } else {
      assert (a + b)[0] == a[0] && (a + b)[1..] == a[1..] + b;
      SetAppend(SetField(sig, a[0]), a[1..], b);
    }
  }

  lemma {:induction false} NamesRead(components: seq<string>)
    requires forall c <- components :: IsComponent(c)
    ensures ReadNames(Quoted(components)) == Some(components)
  {
    if components != [] {
      var c := components[0];
      assert c in components;
      TrimAround(c, '"');
      hide TrimChar;
      assert "\"" + c + "\"" == ['"'] + c + ['"'];
      NamesRead(components[1..]);
      assert Quoted(components)[1..] == Quoted(components[1..]);
      assert [c] + components[1..] == components;
    }
  }

  lemma NamesPrinted(components: seq<string>)
    requires Framed(components)
    ensures Text.Fields(Join(Quoted(components), " ")) == Quoted(components)
    ensures ')' !in Join(Quoted(components), " ") && '\n' !in Join(Quoted(components), " ")
  {
    forall w | w in Quoted(components) ensures IsWord(w) && ')' !in w && '\n' !in w {
      var i :| 0 <= i < |components| && Quoted(components)[i] == w;
      assert components[i] in components;
      assert forall x <- w :: x == '"' || x in components[i];
    }
    FieldsOfJoined(Quoted(components));
    JoinLacks(Quoted(components), " ", ')');
    JoinLacks(Quoted(components), " ", '\n');
  }

  lemma {:induction false} JoinLacks(parts: seq<string>, separator: string, c: char)
    requires c !in separator && forall p <- parts :: c !in p
    ensures c !in Join(parts, separator)
  {
    if parts != [] {
      assert parts[0] in parts;
      JoinLacks(parts[1..], separator, c);
    }
  }

  predicate Solid(s: string) { ';' !in s && '\n' !in s }

  lemma QuotedSolid(name: string, value: string)
    requires Solid(name) && ';' !in value
    ensures Solid(name + Quote(value))
  {
    EscapedLacks(value);
    EscapedUnbroken(value);
    hide Escaped;
    assert forall c <- name + ("\"" + Escaped(value) + "\"") :: c in name || c == '"' || c in Escaped(value);
  }

  lemma NumberSolid(name: string, n: int)
    requires Solid(name)
    ensures Solid(name + Text.Itoa(n))
  {
    DigitsUnquoted(n);
    hide Text.Itoa;
    assert forall c <- name + Text.Itoa(n) :: c in name || c in Text.Itoa(n);
  }

  lemma ParamsLackSemicolons(sig: Sig)
    requires ';' !in sig.keyID && ';' !in sig.algorithm
    ensures forall p <- ParamsOf(sig) :: ';' !in p && '\n' !in p
  {
    assert Solid("created=") && Solid("expires=") && Solid("keyid=") && Solid("alg=");
    hide Solid, Quote;
    hide Text.Itoa;
    NumberSolid("created=", sig.created);
    NumberSolid("expires=", sig.expires);
    QuotedSolid("keyid=", sig.keyID);
    QuotedSolid("alg=", sig.algorithm);
    AllSolid(sig);
  }

  lemma AllSolid(sig: Sig)
    requires Solid("created=" + Text.Itoa(sig.created)) && Solid("expires=" + Text.Itoa(sig.expires))
    requires Solid("keyid=" + Quote(sig.keyID)) && Solid("alg=" + Quote(sig.algorithm))
    ensures forall p <- ParamsOf(sig) :: Solid(p)
  {
    hide Solid, Quote;
    hide Text.Itoa;
  }

  // The parentheses stand where they should.
  lemma ListFound(list: string, tail: string)
    requires ')' !in list
    ensures var rest := "(" + list + ")" + tail;
            && Text.Find(rest, '(') == 0 && Text.Find(rest, ')') == |list| + 1
            && rest[1..|list| + 1] == list && rest[|list| + 2..] == tail
  {
    var rest := "(" + list + ")" + tail;
    assert rest == "" + "(" + (list + ")" + tail);
    Text.FindAfter("", '(', list + ")" + tail);
    Text.FindAfter("(" + list, ')', tail);
  }

  // What printed parameters are read as.
  lemma ParamsReadBack(sig: Sig, name: string)
    requires Labelled(sig) && ';' !in sig.keyID && ';' !in sig.algorithm
    ensures ReadParams(name, SignatureParams(sig)) == Ok(PrintedBack(sig).(tag := name, raw := []))
  {
    hide ParamsOf, Quoted, Join, ReadNames, SetFields, Split, ReadBack, IsComponent;
    hide Text.Fields, Text.Trimmed, Text.Find;
    var list, params := Join(Quoted(sig.components), " "), ParamsOf(sig);
    var tail := ";" + Join(params, ";");
    var start := Sig(name, sig.components, "", "", 0, 0, []);
    LabelledFramed(sig);
    NamesPrinted(sig.components);
    NamesRead(sig.components);
    ParamsLackSemicolons(sig);
    ParamsNotEmpty(sig);
    ParamsSet(start, sig);
    ListFound(list, tail);
    Regrouped(list, params);
    SplitTail(params);
    EmptySets(start, params);
  }

  // Printing and reading the parameters undo each other.
  lemma ParamsRoundTrip(sig: Sig, name: string)
    requires Clear(sig)
    ensures ReadParams(name, SignatureParams(sig)) == Ok(Printable(sig).(tag := name, raw := []))
  {
    hide ReadParams, SignatureParams, ReadBack, Labelled;
    ParamsReadBack(sig, name);
    ReadBackIff(sig.keyID);
    ReadBackIff(sig.algorithm);
  }

  lemma SplitTail(params: seq<string>)
    requires params != [] && forall p <- params :: ';' !in p
    ensures Split(";" + Join(params, ";"), ';') == [""] + params
  {
    hide Split, Join;
    assert ";" + Join(params, ";") == "" + ";" + Join(params, ";");
    SplitFirst("", ';', Join(params, ";"));
    SplitJoin(params, ';');
  }

  lemma ParamsNotEmpty(sig: Sig)
    ensures ParamsOf(sig) != []
  {}

  lemma Regrouped(list: string, params: seq<string>)
    ensures ("(" + list + ")") + ";" + Join(params, ";") == "(" + list + ")" + (";" + Join(params, ";"))
  {
    hide Join;
  }

  lemma EmptySets(sig: Sig, params: seq<string>)
    ensures SetFields(sig, [""] + params) == SetFields(sig, params)
  {
    Text.TrimSpaceFixed("");
    Text.FindNone("", '=');
    assert SetField(sig, "") == sig;
    assert ([""] + params)[1..] == params;
  }

  function InputHeader(sig: Sig): string { sig.tag + "=" + SignatureParams(sig) }

  function SignatureHeader(sig: Sig): string { sig.tag + "=:" + Base64.Encode(sig.raw) + ":" }

  // The header is one piece.
  lemma HeaderWhole(sig: Sig)
    requires Labelled(sig)
    ensures Unquoted(SignatureHeader(sig), false) == [SignatureHeader(sig)]
  {
    var header := SignatureHeader(sig);
    HeaderSealed(sig.tag, Base64.Encode(sig.raw));
    hide Labelled, Sealed, After, SignatureHeader;
    SealedFirst(header, "", false);
    assert header + "" == header;
  }

  lemma RawReads(sig: Sig)
    requires Labelled(sig)
    ensures RawIn(Unquoted(SignatureHeader(sig), false), sig.tag) == if sig.raw == [] then Err(Malformed) else Ok(sig.raw)
  {
    var b := Base64.Encode(sig.raw);
    var value := ":" + b + ":";
    var header := SignatureHeader(sig);
    assert header == sig.tag + "=" + value;
    HeaderWhole(sig);
    HeaderTrimmed(sig.tag, value);
    Base64.RoundTrip(sig.raw);
    hide TrimChar, Unquoted, IsComponent;
    hide Base64.Encode, Base64.Decode, Text.TrimSpace, Text.Cut, Text.Trimmed;
    Text.TrimSpaceFixed(header);
    Text.CutAt(sig.tag, '=', value);
    Text.TrimSpaceFixed(sig.tag);
    Text.TrimSpaceFixed(value);
    NoColon(sig.raw);
    TrimAround(b, ':');
  }

  lemma NoColon(raw: Bytes)
    ensures ':' !in Base64.Encode(raw)
  {}

  lemma HeaderTrimmed(name: string, value: string)
    requires Text.Trimmed(name) && value != "" && value[0] == ':' && value[|value| - 1] == ':'
    ensures Text.Trimmed(value) && Text.Trimmed(name + "=" + value)
  {}

  lemma HeaderSealed(name: string, b: string)
    requires '"' !in name && ',' !in name && forall c <- b :: Base64.IsLetter(c) || c == Base64.PAD
    ensures Sealed(name + "=:" + b + ":", false) && !After(name + "=:" + b + ":", false)
  {
    var s := name + "=:" + b + ":";
    forall c | c in s ensures c != '"' && c != ',' { assert c in name || c in "=:" || c in b || c in ":"; }
    SealedPlain(s, false);
  }

  lemma InputReads(sig: Sig)
    requires Labelled(sig)
    ensures Text.TrimSpace(InputHeader(sig)) == InputHeader(sig) != ""
    ensures Text.Cut(InputHeader(sig), '=') == Some((sig.tag, SignatureParams(sig)))
    ensures Text.TrimSpace(sig.tag) == sig.tag
  {
    var params := SignatureParams(sig);
    ParamsEnd(sig);
    hide SignatureParams, IsPlain, IsComponent;
    hide Text.TrimSpace, Text.Cut;
    Text.TrimSpaceFixed(sig.tag);
    Text.TrimSpaceFixed(InputHeader(sig));
    Text.CutAt(sig.tag, '=', params);
  }

  lemma ParamsEnd(sig: Sig)
    ensures var params := SignatureParams(sig); params != "" && params[|params| - 1] == '"'
  {
    var parts := ParamsOf(sig);
    var last := parts[|parts| - 1];
    assert last != "" && last[|last| - 1] == '"';
    hide ParamsOf, Quote;
    JoinEnd(parts, ";");
  }

  lemma {:induction false} JoinEnd(parts: seq<string>, separator: string)
    requires parts != [] && parts[|parts| - 1] != ""
    ensures var last, all := parts[|parts| - 1], Join(parts, separator);
            all != "" && all[|all| - 1] == last[|last| - 1]
    decreases |parts|
  {
    if |parts| > 1 { JoinEnd(parts[1..], separator); }
  }

  // Every signature this code prints clearly is read back as it was, an expiry that was not
  // printed aside; an unknown algorithm and an empty signature are refused.
  lemma SignatureRoundTrip(sig: Sig)
    requires Clear(sig)
    ensures Parsed9421(InputHeader(sig), SignatureHeader(sig)) ==
      if sig.keyID == "" then Err(NoKeyID)
      else if sig.algorithm != "" && sig.algorithm != RSA_SHA256 then Err(UnknownAlgorithm)
      else if sig.raw == [] then Err(Malformed)
      else Ok(Printable(sig))
  {
    hide Labelled, Bare, InputHeader, SignatureHeader, SignatureParams, ReadParams, RawIn, Unquoted;
    hide Text.TrimSpace, Text.Cut;
    InputReads(sig);
    ParamsRoundTrip(sig, sig.tag);
    RawReads(sig);
  }

  lemma {:induction false} NoSemicolonRead(sig: Sig, params: seq<string>)
    requires ';' !in sig.keyID && forall p <- params :: ';' !in p
    ensures ';' !in SetFields(sig, params).keyID
    decreases |params|
  {
    if params != [] {
      FieldWithin(params[0]);
      assert params[0] in params && forall p <- params[1..] :: p in params;
      hide ReadField;
      NoSemicolonRead(SetField(sig, params[0]), params[1..]);
    }
  }

  lemma FieldWithin(param: string)
    ensures ReadField(param).Some? ==> forall c <- ReadField(param).value.1 :: c in param
  {
    var trimmed := Text.TrimSpace(param);
    var l, r := Text.TrimSpaceSpec(param);
    var cut := Text.Cut(trimmed, '=');
    if cut.Some? {
      var value := cut.value.1;
      var l', r' := Text.TrimSpaceSpec(value);
      TrimCharWithin(Text.TrimSpace(value), '"');
      hide TrimChar;
      hide Text.TrimSpace;
      assert forall c <- Text.TrimSpace(value) :: c in l' + Text.TrimSpace(value) + r';
      assert forall c <- value :: c in trimmed;
      assert forall c <- trimmed :: c in l + trimmed + r;
    }
  }

  // A key id that was read holds no semicolon.
  lemma ParsedKey(input: string, signature: string)
    ensures var r := Parsed9421(input, signature); r.Ok? ==> ';' !in r.value.keyID
  {
    hide ReadNames, SetFields, Split, RawIn, Unquoted;
    hide Text.TrimSpace, Text.Fields, Text.Find;
    var cut := Text.Cut(Text.TrimSpace(input), '=');
    if cut.Some? {
      var name, rest := Text.TrimSpace(cut.value.0), cut.value.1;
      var open, close := Text.Find(rest, '('), Text.Find(rest, ')');
      if open < |rest| && close < |rest| && open <= close {
        var names := ReadNames(Text.Fields(rest[open + 1..close]));
        if names.Some? {
          NoSemicolonRead(Sig(name, names.value, "", "", 0, 0, []), Split(rest[close + 1..], ';'));
        }
      }
    }
  }

  // Exactly the key ids that need no escaping and hold no semicolon survive the trip.
  lemma KeySurvivesIff(sig: Sig)
    requires Labelled(sig) && sig.raw != [] && sig.keyID != "" && (sig.algorithm == "" || sig.algorithm == RSA_SHA256)
    ensures Parsed9421(InputHeader(sig), SignatureHeader(sig)) == Ok(Printable(sig)) <==> Bare(sig.keyID)
  {
    assert Bare("") && Bare(RSA_SHA256);
    var r := Parsed9421(InputHeader(sig), SignatureHeader(sig));
    if Bare(sig.keyID) {
      SignatureRoundTrip(sig);
    } else if r == Ok(Printable(sig)) {
      ParsedKey(InputHeader(sig), SignatureHeader(sig));
      KeyReadBack(sig);
      ReadBackIff(sig.keyID);
      assert false;
    }
  }

  const QUOTED := Sig("s", ["@method"], "a\"b", RSA_SHA256, 1, 0, [1])

  lemma QuotedNotPlain()
    ensures !IsPlain(QUOTED.keyID)
  {
    assert QUOTED.keyID[1] == '"' && !IsPlainChar('"');
  }

  lemma Own(name: string)
    requires name != "" && forall i :: 0 <= i < |name| ==> 'a' <= name[i] <= 'z' || name[i] == '-' || name[i] == '@'
    ensures IsComponent(name) && Text.Lower(name) == name
  {
    LowerFixed(name);
  }

  lemma OneLabelled(sig: Sig, name: string)
    requires sig.tag == "s" && sig.components == [name] && IsComponent(name)
    ensures Labelled(sig)
  {
    hide IsComponent;
  }

  // A key id with a quote in it does not.
  lemma QuotedKeyLost()
    ensures Parsed9421(InputHeader(QUOTED), SignatureHeader(QUOTED)) != Ok(QUOTED)
  {
    assert Printable(QUOTED) == QUOTED;
    hide Parsed9421, InputHeader, SignatureHeader, IsPlain, IsComponent, Labelled, Printable;
    Own("@method");
    OneLabelled(QUOTED, "@method");
    QuotedNotPlain();
    KeySurvivesIff(QUOTED);
  }

  lemma KeyReadBack(sig: Sig)
    requires Labelled(sig) && ';' !in sig.keyID && ';' !in sig.algorithm
    requires Parsed9421(InputHeader(sig), SignatureHeader(sig)).Ok?
    ensures Parsed9421(InputHeader(sig), SignatureHeader(sig)).value.keyID == ReadBack(sig.keyID)
  {
    hide Labelled, InputHeader, SignatureHeader, SignatureParams, ReadParams, ReadBack, RawIn, Unquoted;
    hide Text.TrimSpace, Text.Cut;
    InputReads(sig);
    ParamsReadBack(sig, sig.tag);
  }

  // ---- what is printed names what was signed ----

  lemma QuotedInjective(a: seq<string>, b: seq<string>)
    requires Quoted(a) == Quoted(b)
    ensures a == b
  {
    assert |a| == |b|;
    forall i | 0 <= i < |a| ensures a[i] == b[i] {
      assert Quoted(a)[i][1..|a[i]| + 1] == a[i] && Quoted(b)[i][1..|b[i]| + 1] == b[i];
    }
  }

  lemma ListInjective(a: seq<string>, b: seq<string>, x: string, y: string)
    requires Framed(a) && Framed(b) && ComponentList(a) + x == ComponentList(b) + y
    ensures a == b && x == y
  {
    hide Framed, Quoted, Join;
    hide Text.Fields, Text.Find;
    NamesPrinted(a);
    NamesPrinted(b);
    ListFound(Join(Quoted(a), " "), x);
    ListFound(Join(Quoted(b), " "), y);
    QuotedInjective(a, b);
  }

  // The parameters as one text, read from the left.
  function AlgText(sig: Sig): string { if sig.algorithm != "" then ";alg=" + Quote(sig.algorithm) else "" }
  function KeyText(sig: Sig): string { "keyid=" + (Quote(sig.keyID) + AlgText(sig)) }
  function ExpiryText(sig: Sig): string {
    if sig.expires > 0 then "expires=" + (Text.Itoa(sig.expires) + (";" + KeyText(sig))) else KeyText(sig)
  }
  function ParamsText(sig: Sig): string { "created=" + (Text.Itoa(sig.created) + (";" + ExpiryText(sig))) }

  lemma KeyJoined(sig: Sig)
    ensures var parts := ["keyid=" + Quote(sig.keyID)] + (if sig.algorithm != "" then ["alg=" + Quote(sig.algorithm)] else []);
            Join(parts, ";") == KeyText(sig)
  {
    hide Quote;
    var k, a := "keyid=" + Quote(sig.keyID), "alg=" + Quote(sig.algorithm);
    if sig.algorithm != "" {
      assert ([k] + [a])[1..] == [a] && Join([a], ";") == a;
      assert k + ";" + a == "keyid=" + (Quote(sig.keyID) + (";alg=" + Quote(sig.algorithm)));
    } else {
      assert Join([k] + [], ";") == k;
      assert k == "keyid=" + (Quote(sig.keyID) + "");
    }
  }

  lemma ParamsJoined(sig: Sig)
    ensures Join(ParamsOf(sig), ";") == ParamsText(sig)
  {
    var c, e := "created=" + Text.Itoa(sig.created), "expires=" + Text.Itoa(sig.expires);
    var key := ["keyid=" + Quote(sig.keyID)] + (if sig.algorithm != "" then ["alg=" + Quote(sig.algorithm)] else []);
    KeyJoined(sig);
    hide Quote, KeyText;
    hide Text.Itoa;
    assert key != [];
    if sig.expires > 0 {
      assert ParamsOf(sig) == [c] + ([e] + key);
      JoinCons(e, key, ";");
      JoinCons(c, [e] + key, ";");
      assert e + ";" + KeyText(sig) == ExpiryText(sig);
    } else {
      assert ParamsOf(sig) == [c] + key;
      JoinCons(c, key, ";");
    }
    assert c + ";" + ExpiryText(sig) == ParamsText(sig);
  }

  lemma JoinCons(first: string, rest: seq<string>, separator: string)
    requires rest != []
    ensures Join([first] + rest, separator) == first + separator + Join(rest, separator)
  {
    assert ([first] + rest)[1..] == rest;
  }

  lemma NumberPrefix(n: int, m: int, x: string, y: string)
    requires Text.Itoa(n) + (";" + x) == Text.Itoa(m) + (";" + y)
    ensures n == m && x == y
  {
    DigitsUnquoted(n);
    DigitsUnquoted(m);
    hide Text.Itoa, Text.Find;
    assert Text.Itoa(n) + (";" + x) == Text.Itoa(n) + ";" + x && Text.Itoa(m) + (";" + y) == Text.Itoa(m) + ";" + y;
    Text.FindAfter(Text.Itoa(n), ';', x);
    Text.FindAfter(Text.Itoa(m), ';', y);
    Text.ItoaInjective(n, m);
  }

  lemma KeyInjective(a: Sig, b: Sig)
    requires KeyText(a) == KeyText(b)
    ensures a.keyID == b.keyID && a.algorithm == b.algorithm
  {
    hide Quote;
    SamePrefix("keyid=", Quote(a.keyID) + AlgText(a), Quote(b.keyID) + AlgText(b));
    QuotePrefix(a.keyID, b.keyID, AlgText(a), AlgText(b));
    if a.algorithm != "" && b.algorithm != "" {
      SamePrefix(";alg=", Quote(a.algorithm), Quote(b.algorithm));
      assert Quote(a.algorithm) + "" == Quote(a.algorithm) && Quote(b.algorithm) + "" == Quote(b.algorithm);
      QuotePrefix(a.algorithm, b.algorithm, "", "");
    }
  }

  lemma ExpiryInjective(a: Sig, b: Sig)
    requires ExpiryText(a) == ExpiryText(b)
    ensures a.keyID == b.keyID && a.algorithm == b.algorithm && Printable(a).expires == Printable(b).expires
  {
    assert KeyText(a)[0] == 'k' == KeyText(b)[0];
    assert (a.expires > 0 ==> ExpiryText(a)[0] == 'e') && (b.expires > 0 ==> ExpiryText(b)[0] == 'e');
    hide KeyText;
    hide Text.Itoa;
    if a.expires > 0 {
      SamePrefix("expires=", Text.Itoa(a.expires) + (";" + KeyText(a)), Text.Itoa(b.expires) + (";" + KeyText(b)));
      NumberPrefix(a.expires, b.expires, KeyText(a), KeyText(b));
    }
    KeyInjective(a, b);
  }

  // Printed parameters name the components, the key, the algorithm and the times, whatever
  // characters the key id and the algorithm hold.
  lemma ParamsInjective(a: Sig, b: Sig)
    requires Framed(a.components) && Framed(b.components) && SignatureParams(a) == SignatureParams(b)
    ensures Printable(a).(tag := "", raw := []) == Printable(b).(tag := "", raw := [])
  {
    hide Framed, ComponentList, ParamsOf, Join, ExpiryText;
    hide Text.Itoa;
    ParamsJoined(a);
    ParamsJoined(b);
    var x, y := ParamsText(a), ParamsText(b);
    assert SignatureParams(a) == ComponentList(a.components) + (";" + x);
    assert SignatureParams(b) == ComponentList(b.components) + (";" + y);
    ListInjective(a.components, b.components, ";" + x, ";" + y);
    SamePrefix(";", x, y);
    SamePrefix("created=", Text.Itoa(a.created) + (";" + ExpiryText(a)), Text.Itoa(b.created) + (";" + ExpiryText(b)));
    NumberPrefix(a.created, b.created, ExpiryText(a), ExpiryText(b));
    ExpiryInjective(a, b);
  }

  // ---- what is read is framed ----

  lemma {:induction false} FieldsWithin(s: string, c: char)
    requires c !in s
    ensures forall f <- Text.Fields(s) :: c !in f
    decreases |s|
  {
    if s == "" {
    } else if Text.IsSpace(s[0]) {
      FieldsWithin(s[1..], c);
    } else {
      FieldsWithin(s[Text.WordLength(s)..], c);
    }
  }

  lemma {:induction false} TrimWithin(s: string, c: char)
    ensures forall x <- TrimCharLeft(s, c) :: x in s
    ensures forall x <- TrimCharRight(s, c) :: x in s
    decreases |s|
  {
    if s != "" {
      TrimWithin(s[1..], c);
      TrimWithin(s[..|s| - 1], c);
    }
  }

  lemma TrimCharWithin(s: string, c: char)
    ensures forall x <- TrimChar(s, c) :: x in s
  {
    TrimWithin(s, c);
    TrimWithin(TrimCharLeft(s, c), c);
  }

  lemma LowerName(name: string)
    requires IsName(name)
    ensures IsName(Text.Lower(name))
  {
    forall x | x in Text.Lower(name) ensures !Text.IsSpace(x) && x != ')' {
      var i :| 0 <= i < |name| && Text.Lower(name)[i] == x;
      assert name[i] in name;
    }
  }

  lemma {:induction false} NamesFramed(fields: seq<string>)
    requires forall f <- fields :: IsName(f)
    ensures ReadNames(fields).Some? ==> forall c <- ReadNames(fields).value :: IsName(c)
  {
    if fields != [] {
      var name := TrimChar(fields[0], '"');
      assert IsName(fields[0]) by { assert fields[0] in fields; }
      TrimCharWithin(fields[0], '"');
      if name != "" {
        LowerName(name);
        hide IsName, TrimChar;
        hide Text.Lower;
        assert forall f <- fields[1..] :: f in fields;
        NamesFramed(fields[1..]);
      }
    }
  }

  lemma {:induction false} FieldsKeepComponents(sig: Sig, params: seq<string>)
    ensures SetFields(sig, params).components == sig.components
    decreases |params|
  {
    hide SetField;
    if params != [] {
      SetFieldKeeps(sig, params[0]);
      FieldsKeepComponents(SetField(sig, params[0]), params[1..]);
    }
  }

  // A signature that was read at all has a framed list of components.
  lemma ParsedFramed(input: string, signature: string)
    ensures var r := Parsed9421(input, signature); r.Ok? ==> Framed(r.value.components)
  {
    hide ReadParams, RawIn, Unquoted;
    hide Text.TrimSpace;
    var cut := Text.Cut(Text.TrimSpace(input), '=');
    if cut.Some? { ReadFramed(Text.TrimSpace(cut.value.0), cut.value.1); }
  }

  lemma InsideNames(rest: string, open: nat, close: nat)
    requires open < close <= |rest| && ')' !in rest[..close]
    ensures forall f <- Text.Fields(rest[open + 1..close]) :: IsName(f)
  {
    var inner := rest[open + 1..close];
    forall c | c in inner ensures c != ')' {
      var i :| 0 <= i < |inner| && inner[i] == c;
      assert rest[..close][i + open + 1] == c;
    }
    FieldsWithin(inner, ')');
  }

  lemma ReadFramed(name: string, rest: string)
    ensures var r := ReadParams(name, rest); r.Ok? ==> Framed(r.value.components)
  {
    hide IsName, ReadNames, SetFields, Split;
    hide Text.Fields, Text.Find;
    var open, close := Text.Find(rest, '('), Text.Find(rest, ')');
    if open < close < |rest| {
      InsideNames(rest, open, close);
      var names := ReadNames(Text.Fields(rest[open + 1..close]));
      NamesFramed(Text.Fields(rest[open + 1..close]));
      if names.Some? {
        FieldsKeepComponents(Sig(name, names.value, "", "", 0, 0, []), Split(rest[close + 1..], ';'));
      }
    }
  }
}
