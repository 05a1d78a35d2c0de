// internal/activitypub/signature.go: the older signature header, and what both schemes share.
module Signature {
  import opened Common
  import opened HeaderText
  import Base64
  import Text

  type Bytes = seq<byte>

  // Header values by lower-case name.
  type Header = map<string, string>

  function Get(h: Header, name: string): string { if name in h then h[name] else "" }

  datatype Failure =
    | NoSignature | NoSignatureInput | Malformed | NoKeyID | UnknownAlgorithm | DerivedComponent
    | MissingHeader | Uncovered | BadDigest | Stale | BadSignature

  const REQUEST_TARGET := "(request-target)"
  const CLOCK_SKEW := 43200

  // Signing and verifying with a pair of keys; the hash of the message is taken inside.
  datatype Key = Key(sign: string -> Bytes, verify: (string, Bytes) -> bool)

  // ---- coverage ----

  predicate Covers(covered: seq<string>, required: seq<string>) {
    forall r <- required :: exists c <- covered :: Text.Lower(c) == r
  }

  method CoversAll(covered: seq<string>, required: seq<string>) returns (failure: Option<Failure>)
    ensures failure == if Covers(covered, required) then None else Some(Uncovered)
  {
    var have: set<string> := {};
    for i := 0 to |covered|
      invariant forall r :: r in have <==> exists j :: 0 <= j < i && Text.Lower(covered[j]) == r
    {
      have := have + {Text.Lower(covered[i])};
    }
    for i := 0 to |required|
      invariant forall j :: 0 <= j < i ==> required[j] in have
    {
      if required[i] !in have {
        assert required[i] in required;
        return Some(Uncovered);
      }
    }
    failure := None;
  }

  // ---- the signing string ----

  function SigningLine(verb: string, target: string, header: Header, name: string): Option<string> {
    var lower := Text.Lower(Text.TrimSpace(name));
    if lower == REQUEST_TARGET then Some(REQUEST_TARGET + ": " + Text.Lower(verb) + " " + target)
    else if Get(header, lower) == "" then None
    else Some(lower + ": " + Text.TrimSpace(Get(header, lower)))
  }

  function SigningLines(verb: string, target: string, header: Header, covered: seq<string>): Option<seq<string>> {
    if covered == [] then Some([])
    else
      match (SigningLine(verb, target, header, covered[0]), SigningLines(verb, target, header, covered[1..]))
      case (Some(line), Some(more)) => Some([line] + more)
      case _ => None
  }

  function Behind<T>(lines: seq<T>, more: Option<seq<T>>): Option<seq<T>> {
    match more case None => None case Some(m) => Some(lines + m)
  }

  lemma BehindTwice<T>(lines: seq<T>, line: T, more: Option<seq<T>>)
    ensures Behind(lines, Behind([line], more)) == Behind(lines + [line], more)
    ensures Behind([], more) == more
  {
    if more.Some? {
      assert lines + ([line] + more.value) == lines + [line] + more.value;
      assert [] + more.value == more.value;
    }
  }

  method SigningString(verb: string, target: string, header: Header, covered: seq<string>) returns (r: Result<string, Failure>)
    ensures r == match SigningLines(verb, target, header, covered)
                 case None => Err(MissingHeader)
                 case Some(lines) => Ok(Join(lines, "\n"))
  {
    hide SigningLine, Behind;
    var lines: seq<string> := [];
    assert covered[0..] == covered;
    BehindTwice([], "", SigningLines(verb, target, header, covered));
    for i := 0 to |covered|
      invariant SigningLines(verb, target, header, covered)
             == Behind(lines, SigningLines(verb, target, header, covered[i..]))
    {
      SigningStep(verb, target, header, covered, i, lines);
      var line := SigningLine(verb, target, header, covered[i]);
      if line.None? { return Err(MissingHeader); }
      BehindTwice(lines, line.value, SigningLines(verb, target, header, covered[i + 1..]));
      lines := lines + [line.value];
    }
    SigningEnd(verb, target, header, lines);
    assert covered[|covered|..] == [];
    r := Ok(Join(lines, "\n"));
  }

  lemma SigningStep(verb: string, target: string, header: Header, covered: seq<string>, i: nat, lines: seq<string>)
    requires i < |covered|
    ensures var line := SigningLine(verb, target, header, covered[i]);
            && (line.None? ==> Behind(lines, SigningLines(verb, target, header, covered[i..])) == None)
            && (line.Some? ==>
                  SigningLines(verb, target, header, covered[i..])
                    == Behind([line.value], SigningLines(verb, target, header, covered[i + 1..])))
  {
    hide SigningLine;
    assert covered[i..][0] == covered[i] && covered[i..][1..] == covered[i + 1..];
  }

  lemma SigningEnd(verb: string, target: string, header: Header, lines: seq<string>)
    ensures Behind(lines, SigningLines(verb, target, header, [])) == Some(lines)
  {
    assert lines + [] == lines;
  }

  // ---- the header ----

  datatype Signed = Signed(keyID: string, algorithm: string, headers: seq<string>, raw: Bytes)

  const UNSIGNED := Signed("", "", [], [])

  // name=value, both without the white space around them and the value without its quotes.
  function ReadParam(param: string): Option<(string, string)> {
    match Text.Cut(Text.TrimSpace(param), '=')
    case None => None
    case Some((name, value)) => Some((Text.Lower(Text.TrimSpace(name)), TrimChar(value, '"')))
  }

  function Apply(sig: Signed, param: string): Result<Signed, Failure> {
    match ReadParam(param)
    case None => Ok(sig)
    case Some((name, value)) =>
      if name == "keyid" then Ok(sig.(keyID := value))
      else if name == "algorithm" then Ok(sig.(algorithm := value))
      else if name == "headers" then Ok(sig.(headers := Text.Fields(Text.Lower(value))))
      else if name == "signature" then
        match Base64.Decode(value) case None => Err(Malformed) case Some(raw) => Ok(sig.(raw := raw))
      else Ok(sig)
  }

  function ApplyAll(sig: Signed, params: seq<string>): Result<Signed, Failure>
    decreases |params|
  {
    if params == [] then Ok(sig)
    else match Apply(sig, params[0]) case Err(e) => Err(e) case Ok(next) => ApplyAll(next, params[1..])
  }

  function Checked(sig: Signed): Result<Signed, Failure> {
    if sig.keyID == "" then Err(NoKeyID)
    else if sig.raw == [] || sig.headers == [] then Err(Malformed)
    else Ok(sig)
  }

  function Parsed(header: string): Result<Signed, Failure> {
    if Text.TrimSpace(header) == "" then Err(NoSignature)
    else
      match ApplyAll(UNSIGNED, Unquoted(header, false))
      case Err(e) => Err(e)
      case Ok(sig) => Checked(sig)
  }

  method ParseSignature(header: string) returns (r: Result<Signed, Failure>)
    ensures r == Parsed(header)
  {
    hide Apply, Unquoted;
    if Text.TrimSpace(header) == "" { return Err(NoSignature); }
    var parts := SplitParams(header);
    var sig := UNSIGNED;
    assert parts[0..] == parts;
    for i := 0 to |parts|
      invariant ApplyAll(sig, parts[i..]) == ApplyAll(UNSIGNED, parts)
    {
      assert parts[i..][0] == parts[i] && parts[i..][1..] == parts[i + 1..];
      match Apply(sig, parts[i]) {
        case Err(e) => return Err(e);
        case Ok(next) => sig := next;
      }
    }
    if sig.keyID == "" { return Err(NoKeyID); }
    if sig.raw == [] || sig.headers == [] { return Err(Malformed); }
    r := Ok(sig);
  }

  // What Sign writes.
  const ALGORITHM := "rsa-sha256"

  function Param(name: string, value: string): string { name + "=" + Quote(value) }

  function Params(keyID: string, covered: seq<string>, raw: Bytes): seq<string> {
    [Param("keyId", keyID), Param("algorithm", ALGORITHM), Param("headers", Join(covered, " ")),
     Param("signature", Base64.Encode(raw))]
  }

  function Printed(keyID: string, covered: seq<string>, raw: Bytes): string {
    Join(Params(keyID, covered, raw), ",")
  }

  predicate IsParamName(name: string) { name != "" && forall c <- name :: 'A' <= c <= 'Z' || 'a' <= c <= 'z' }

  lemma NameTrimmed(name: string, quoted: string)
    requires IsParamName(name) && quoted != "" && quoted[|quoted| - 1] == '"'
    ensures '=' !in name && Text.Trimmed(name) && Text.Trimmed(name + "=" + quoted)
  {
    assert name[0] in name && name[|name| - 1] in name;
  }

  lemma ParamReads(name: string, value: string)
    requires IsParamName(name) && IsPlain(value)
    ensures ReadParam(Param(name, value)) == Some((Text.Lower(name), value))
  {
    hide IsPlain, Quote, TrimChar, IsParamName;
    hide Text.TrimSpace, Text.Cut, Text.Lower, Text.Trimmed;
    var quoted := "\"" + value + "\"";
    var s := name + "=" + quoted;
    PlainNoQuote(value);
    PlainQuote(value);
    NameTrimmed(name, quoted);
    Text.TrimSpaceFixed(s);
    Text.CutAt(name, '=', quoted);
    Text.TrimSpaceFixed(name);
    TrimAround(value, '"');
  }

  lemma ParamSealed(name: string, value: string)
    requires IsParamName(name) && IsPlain(value)
    ensures Sealed(Param(name, value), false) && !After(Param(name, value), false)
  {
    PlainQuote(value);
    PlainNoQuote(value);
    hide Sealed, After;
    assert forall c <- name + "=" :: c in name || c == '=';
    SealedParam(name + "=", value);
    assert name + "=" + ("\"" + value + "\"") == name + "=" + "\"" + value + "\"";
  }

  predicate IsHeaderWord(w: string) { IsWord(w) && IsPlain(w) && Text.Lower(w) == w }

  lemma {:induction false} WordsPlain(words: seq<string>)
    requires forall w <- words :: IsHeaderWord(w)
    ensures IsPlain(Join(words, " ")) && Text.Lower(Join(words, " ")) == Join(words, " ")
  {
    if words != [] {
      assert words[0] in words;
      WordsPlain(words[1..]);
      var all := Join(words, " ");
      if |words| > 1 {
        var w, more := words[0], Join(words[1..], " ");
        assert all == w + " " + more;
        forall i | 0 <= i < |all| ensures IsPlainChar(all[i]) && Text.LowerChar(all[i]) == all[i] {
          if i < |w| {
            assert all[i] == w[i] && w[i] in w && Text.Lower(w)[i] == Text.LowerChar(w[i]);
          } else if i > |w| {
            assert all[i] == more[i - |w| - 1] && more[i - |w| - 1] in more;
            assert Text.Lower(more)[i - |w| - 1] == Text.LowerChar(all[i]);
          }
        }
      }
    }
  }

  lemma EncodedPlain(raw: Bytes)
    ensures IsPlain(Base64.Encode(raw))
  {}

  lemma FieldNames()
    ensures Text.Lower("keyId") == "keyid" && Text.Lower("algorithm") == "algorithm"
    ensures Text.Lower("headers") == "headers" && Text.Lower("signature") == "signature"
  {
    MixedCase();
    hide Text.Lower;
    LowerFixed("algorithm");
    LowerFixed("headers");
    LowerFixed("signature");
  }

  lemma MixedCase()
    ensures Text.Lower("keyId") == "keyid"
  {
    var r := Text.Lower("keyId");
    assert r == [r[0], r[1], r[2], r[3], r[4]];
  }

  lemma PlainNoQuote(s: string)
    requires IsPlain(s)
    ensures '"' !in s
  {}

  lemma Names()
    ensures IsParamName("keyId") && IsParamName("algorithm") && IsParamName("headers") && IsParamName("signature")
    ensures IsPlain(ALGORITHM)
  {}

  lemma ParamsRead(keyID: string, list: string, b: string)
    requires IsPlain(keyID) && IsPlain(list) && IsPlain(b)
    ensures ReadParam(Param("keyId", keyID)) == Some(("keyid", keyID))
    ensures ReadParam(Param("algorithm", ALGORITHM)) == Some(("algorithm", ALGORITHM))
    ensures ReadParam(Param("headers", list)) == Some(("headers", list))
    ensures ReadParam(Param("signature", b)) == Some(("signature", b))
  {
    hide IsPlain, IsParamName, Param, ReadParam;
    hide Text.Lower;
    Names();
    FieldNames();
    ParamReads("keyId", keyID);
    ParamReads("algorithm", ALGORITHM);
    ParamReads("headers", list);
    ParamReads("signature", b);
  }

  lemma ParamsSealed(keyID: string, covered: seq<string>, raw: Bytes)
    requires IsPlain(keyID) && IsPlain(Join(covered, " ")) && IsPlain(Base64.Encode(raw))
    ensures forall p <- Params(keyID, covered, raw) :: Sealed(p, false) && !After(p, false)
  {
    hide IsPlain, IsParamName, Param, Join, Sealed, After;
    hide Base64.Encode;
    Names();
    ParamSealed("keyId", keyID);
    ParamSealed("algorithm", ALGORITHM);
    ParamSealed("headers", Join(covered, " "));
    ParamSealed("signature", Base64.Encode(raw));
  }

  // What Sign prints is read back, for every key id that needs no escaping, commas and all.
  lemma PrintedParses(keyID: string, covered: seq<string>, raw: Bytes)
    requires IsPlain(keyID) && forall w <- covered :: IsHeaderWord(w)
    ensures Parsed(Printed(keyID, covered, raw))
         == if keyID == "" then Err(NoKeyID)
            else if raw == [] || covered == [] then Err(Malformed)
            else Ok(Signed(keyID, ALGORITHM, covered, raw))
  {
    forall w | w in covered ensures IsWord(w) {}
    WordsPlain(covered);
    EncodedPlain(raw);
    FieldsOfJoined(covered);
    Base64.RoundTrip(raw);
    hide IsPlain, Param, Sealed, After, Unquoted, Join, ReadParam, ApplyAll;
    hide Base64.Encode, Base64.Decode, Text.Fields, Text.Lower, Text.IsSpace, Text.TrimSpace;
    ParamsRead(keyID, Join(covered, " "), Base64.Encode(raw));
    ParamsSealed(keyID, covered, raw);
    var params := Params(keyID, covered, raw);
    UnquotedOfJoined(params);
    AppliesAll(params, keyID, Join(covered, " "), covered, raw);
    NotBlank(keyID, covered, raw);
  }

  lemma AppliesAll(params: seq<string>, keyID: string, list: string, covered: seq<string>, raw: Bytes)
    requires |params| == 4
    requires ReadParam(params[0]) == Some(("keyid", keyID)) && ReadParam(params[1]) == Some(("algorithm", ALGORITHM))
    requires ReadParam(params[2]) == Some(("headers", list)) && Text.Fields(Text.Lower(list)) == covered
    requires ReadParam(params[3]).Some? && ReadParam(params[3]).value.0 == "signature"
    requires Base64.Decode(ReadParam(params[3]).value.1) == Some(raw)
    ensures ApplyAll(UNSIGNED, params) == Ok(Signed(keyID, ALGORITHM, covered, raw))
  {
    hide ReadParam;
    hide Base64.Decode, Text.Fields, Text.Lower;
    var s1 := UNSIGNED.(keyID := keyID);
    var s2 := s1.(algorithm := ALGORITHM);
    var s3 := s2.(headers := covered);
    assert params[1..][0] == params[1] && params[1..][1..] == params[2..];
    assert params[2..][0] == params[2] && params[2..][1..] == params[3..] && params[3..][0] == params[3] && params[3..][1..] == [];
    assert ApplyAll(s3, params[3..]) == Ok(s3.(raw := raw));
    assert ApplyAll(s2, params[2..]) == ApplyAll(s3, params[3..]);
    assert ApplyAll(s1, params[1..]) == ApplyAll(s2, params[2..]);
  }

  lemma NotBlank(keyID: string, covered: seq<string>, raw: Bytes)
    ensures Text.TrimSpace(Printed(keyID, covered, raw)) != ""
  {
    hide IsPlain, Quote;
    hide Text.TrimSpace;
    var s := Printed(keyID, covered, raw);
    VisibleNotBlank(s);
    assert s[0] == 'k' && s[0] in s;
  }

  lemma VisibleNotBlank(s: string)
    ensures Text.TrimSpace(s) == "" ==> Text.Blank(s)
  {
    var l, r := Text.TrimSpaceSpec(s);
    assert forall c <- l + r :: c in l || c in r;
    if Text.TrimSpace(s) == "" { assert s == l + r; }
  }
}
