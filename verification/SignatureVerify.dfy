// internal/activitypub/rfc9421.go: signing a request and verifying one. Hashing and the key
// pair are parameters.
module SignatureVerify {
  import opened Common
  import opened HeaderText
  import opened Signature
  import opened Signature9421
  import Base64
  import Text

  const POST := "POST"
  const GET_COMPONENTS := ["@method", "@target-uri", "@authority", "@path"]
  const POST_COMPONENTS := GET_COMPONENTS + ["content-digest", "content-type"]
  const GET_MUST_COVER := ["@method", "@target-uri"]
  const POST_MUST_COVER := ["@method", "@target-uri", "content-digest"]

  type Hash = Bytes -> Bytes

  function ContentDigest(sha: Hash, body: Bytes): string {
    "sha-256=:" + Base64.Encode(sha(body)) + ":"
  }

  predicate SameDigest(header: string, sha: Hash, body: Bytes) {
    header != "" && exists part <- Split(header, ',') :: Text.TrimSpace(part) == ContentDigest(sha, body)
  }

  method CheckDigest(header: string, sha: Hash, body: Bytes) returns (same: bool)
    ensures same == SameDigest(header, sha, body)
  {
    if header == "" { return false; }
    var want := ContentDigest(sha, body);
    var parts := Split(header, ',');
    for i := 0 to |parts|
      invariant forall j :: 0 <= j < i ==> Text.TrimSpace(parts[j]) != want
    {
      if Text.TrimSpace(parts[i]) == want {
        assert parts[i] in parts;
        return true;
      }
    }
    same := false;
  }

  // ---- signing ----

  // The header as it is set before the base is built.
  function Prepared(req: Request, sha: Hash, body: Bytes, date: string): Request {
    var h := if req.verb == POST then req.header["content-digest" := ContentDigest(sha, body)] else req.header;
    req.(header := if Get(h, "date") == "" then h["date" := date] else h)
  }

  function ToSign(req: Request, keyID: string, now: int): Sig {
    Sig(LABEL, if req.verb == POST then POST_COMPONENTS else GET_COMPONENTS, keyID, RSA_SHA256, now, 0, [])
  }

  function WithSignature(req: Request, sig: Sig): Request {
    req.(header := req.header["signature-input" := InputHeader(sig)]["signature" := SignatureHeader(sig)])
  }

  function SignStep(req: Request, keyID: string, key: Key, sha: Hash, body: Bytes, now: int, date: string): (Request, Option<Failure>) {
    var prepared := Prepared(req, sha, body, date);
    var sig := ToSign(req, keyID, now);
    match SignatureBase(prepared, sig)
    case Err(e) => (prepared, Some(e))
    case Ok(base) => (WithSignature(prepared, sig.(raw := key.sign(base))), None)
  }

  lemma RawUnprinted(sig: Sig, raw: Bytes)
    ensures SignatureParams(sig.(raw := raw)) == SignatureParams(sig)
  {}

  // A request on its way out: its header is what signing changes.
  class Outgoing {
    const line: Request
    var header: Header

    ghost function Value(): Request reads this { line.(header := header) }

    constructor (req: Request)
      ensures Value() == req
    {
      line := req;
      header := req.header;
    }

    method Sign9421(keyID: string, key: Key, sha: Hash, body: Bytes, now: int, date: string) returns (failure: Option<Failure>)
      modifies this
      ensures (Value(), failure) == SignStep(old(Value()), keyID, key, sha, body, now, date)
    {
      hide SignatureBase, SignatureParams, ContentDigest;
      var components := ["@method", "@target-uri", "@authority", "@path"];
      if line.verb == POST {
        header := header["content-digest" := ContentDigest(sha, body)];
        components := components + ["content-digest", "content-type"];
      }
      if Get(header, "date") == "" {
        header := header["date" := date];
      }
      var sig := Sig(LABEL, components, keyID, RSA_SHA256, now, 0, []);
      assert components == if line.verb == POST then POST_COMPONENTS else GET_COMPONENTS;
      var base := BuildBase(line.(header := header), sig);
      if base.Err? { return Some(base.error); }
      var raw := key.sign(base.value);
      RawUnprinted(sig, raw);
      header := header["signature-input" := sig.tag + "=" + SignatureParams(sig)];
      header := header["signature" := sig.tag + "=:" + Base64.Encode(raw) + ":"];
      failure := None;
    }
  }

  // ---- verifying ----

  function Verified(req: Request, sha: Hash, body: Bytes, key: Key, sig: Sig, now: int): Option<Failure> {
    if req.verb == POST && !Covers(sig.components, POST_MUST_COVER) then Some(Uncovered)
    else if req.verb == POST && !SameDigest(Get(req.header, "content-digest"), sha, body) then Some(BadDigest)
    else if req.verb != POST && !Covers(sig.components, GET_MUST_COVER) then Some(Uncovered)
    else if sig.created == 0 || now - sig.created > CLOCK_SKEW || now - sig.created < -CLOCK_SKEW then Some(Stale)
    else if sig.expires > 0 && now > sig.expires then Some(Stale)
    else
      match SignatureBase(req, sig)
      case Err(e) => Some(e)
      case Ok(base) => if key.verify(base, sig.raw) then None else Some(BadSignature)
  }

  method Verify9421(req: Request, sha: Hash, body: Bytes, key: Key, sig: Sig, now: int) returns (failure: Option<Failure>)
    ensures failure == Verified(req, sha, body, key, sig, now)
  {
    hide SignatureBase, SameDigest, Covers;
    if req.verb == POST {
      failure := CoversAll(sig.components, POST_MUST_COVER);
      if failure.Some? { return; }
      var same := CheckDigest(Get(req.header, "content-digest"), sha, body);
      if !same { return Some(BadDigest); }
    } else {
      failure := CoversAll(sig.components, GET_MUST_COVER);
      if failure.Some? { return; }
    }
    if sig.created == 0 { return Some(Stale); }
    var drift := now - sig.created;
    if drift > CLOCK_SKEW || drift < -CLOCK_SKEW { return Some(Stale); }
    if sig.expires > 0 && now > sig.expires { return Some(Stale); }
    var base := BuildBase(req, sig);
    if base.Err? { return Some(base.error); }
    if !key.verify(base.value, sig.raw) { return Some(BadSignature); }
    failure := None;
  }

  // ---- the base pins down what it covers ----

  lemma NotBehind(a: string, p: string, b: string, q: string)
    requires '\n' !in q && a + "\n" + p == b + "\n" + q
    ensures |a| <= |b|
  {
    var s := a + "\n" + p;
    assert s[|a|] == '\n';
    forall i | |b| < i < |s| ensures s[i] != '\n' {
      assert (b + "\n" + q)[i] == q[i - |b| - 1];
      assert q[i - |b| - 1] in q;
    }
  }

  lemma LastLine(a: string, p: string, b: string, q: string)
    requires '\n' !in p && '\n' !in q && a + "\n" + p == b + "\n" + q
    ensures p == q && a == b
  {
    NotBehind(a, p, b, q);
    NotBehind(b, q, a, p);
    var s := a + "\n" + p;
    assert s[|a| + 1..] == p && s[..|a|] == a;
    assert (b + "\n" + q)[|b| + 1..] == q && (b + "\n" + q)[..|b|] == b;
  }

  lemma {:induction false} JoinSnoc(parts: seq<string>, last: string, separator: string)
    requires parts != []
    ensures Join(parts + [last], separator) == Join(parts, separator) + separator + last
    decreases |parts|
  {
    var all := parts + [last];
    if |parts| == 1 {
      assert all[1..] == [last];
    } else {
      assert all[1..] == parts[1..] + [last];
      JoinSnoc(parts[1..], last, separator);
      assert all[0] + separator + (Join(parts[1..], separator) + separator + last)
          == all[0] + separator + Join(parts[1..], separator) + separator + last;
    }
  }

  lemma ParamsUnbroken(sig: Sig)
    requires Framed(sig.components)
    ensures '\n' !in Line(PARAMS_NAME, SignatureParams(sig))
  {
    hide Framed, Join, ParamsOf, Quoted, Line;
    NamesPrinted(sig.components);
    TogetherUnbroken("(", Join(Quoted(sig.components), " "), ")");
    FieldsUnbroken(sig);
    var list, fields := ComponentList(sig.components), Join(ParamsOf(sig), ";");
    TogetherUnbroken(list, ";", fields);
    LineUnbroken(SignatureParams(sig));
  }

  // Quoting leaves no line break, whatever it quotes.
  lemma FieldsUnbroken(sig: Sig)
    ensures '\n' !in Join(ParamsOf(sig), ";")
  {
    EscapedUnbroken(sig.keyID);
    EscapedUnbroken(sig.algorithm);
    DigitsUnquoted(sig.created);
    DigitsUnquoted(sig.expires);
    hide Join, Escaped;
    hide Text.Itoa;
    TogetherUnbroken("created=", Text.Itoa(sig.created), "");
    TogetherUnbroken("expires=", Text.Itoa(sig.expires), "");
    TogetherUnbroken("keyid=", Quote(sig.keyID), "");
    TogetherUnbroken("alg=", Quote(sig.algorithm), "");
    JoinLacks(ParamsOf(sig), ";", '\n');
  }

  lemma TogetherUnbroken(a: string, b: string, c: string)
    requires '\n' !in a && '\n' !in b && '\n' !in c
    ensures '\n' !in a + b + c
  {}

  lemma LineUnbroken(params: string)
    requires '\n' !in params
    ensures '\n' !in Line(PARAMS_NAME, params)
  {}

  lemma LineInjective(name: string, v1: string, v2: string)
    requires Line(name, v1) == Line(name, v2)
    ensures v1 == v2
  {
    SamePrefix("\"" + name + "\": ", v1, v2);
  }

  function Covered(req: Request, sig: Sig): seq<string>
    requires Values(req, sig.components).Ok?
  {
    Values(req, sig.components).value
  }

  lemma BaseSplits(req: Request, sig: Sig)
    requires Framed(sig.components) && SignatureBase(req, sig).Ok?
    ensures Values(req, sig.components).Ok? && |Covered(req, sig)| == |sig.components| > 0
    ensures SignatureBase(req, sig).value
         == Join(Lines(sig.components, Covered(req, sig)), "\n") + "\n" + Line(PARAMS_NAME, SignatureParams(sig))
  {
    ValuesLength(req, sig.components);
    hide Line, SignatureParams, Join, ComponentValue;
    JoinSnoc(Lines(sig.components, Covered(req, sig)), Line(PARAMS_NAME, SignatureParams(sig)), "\n");
  }

  // Equal bases were made with the same parameters, the list of components among them,
  // whatever the values contain.
  lemma BaseFixesParams(r1: Request, s1: Sig, r2: Request, s2: Sig)
    requires Framed(s1.components) && Framed(s2.components)
    requires SignatureBase(r1, s1).Ok? && SignatureBase(r1, s1) == SignatureBase(r2, s2)
    ensures SignatureParams(s1) == SignatureParams(s2)
    ensures Printable(s1).(tag := "", raw := []) == Printable(s2).(tag := "", raw := [])
  {
    hide Framed, SignatureBase, SignatureParams, Join, Line, Values;
    BaseSplits(r1, s1);
    BaseSplits(r2, s2);
    ParamsUnbroken(s1);
    ParamsUnbroken(s2);
    LastLine(Join(Lines(s1.components, Covered(r1, s1)), "\n"), Line(PARAMS_NAME, SignatureParams(s1)),
             Join(Lines(s2.components, Covered(r2, s2)), "\n"), Line(PARAMS_NAME, SignatureParams(s2)));
    LineInjective(PARAMS_NAME, SignatureParams(s1), SignatureParams(s2));
    ParamsInjective(s1, s2);
  }

  predicate Unbroken(values: seq<string>) { forall v <- values :: '\n' !in v }

  lemma LinesUnbroken(components: seq<string>, values: seq<string>)
    requires |components| == |values| && Framed(components) && Unbroken(values)
    ensures Unbroken(Lines(components, values))
  {
    forall line | line in Lines(components, values) ensures '\n' !in line {
      var i :| 0 <= i < |components| && Lines(components, values)[i] == line;
      assert components[i] in components && values[i] in values;
      assert '\n' !in components[i];
    }
  }

  // Equal bases over values without line breaks cover the same values.
  lemma BaseFixesValues(r1: Request, s1: Sig, r2: Request, s2: Sig)
    requires Framed(s1.components) && Framed(s2.components)
    requires SignatureBase(r1, s1).Ok? && SignatureBase(r1, s1) == SignatureBase(r2, s2)
    requires Values(r1, s1.components).Ok? && Values(r2, s2.components).Ok?
    requires Unbroken(Covered(r1, s1)) && Unbroken(Covered(r2, s2))
    ensures s1.components == s2.components && Covered(r1, s1) == Covered(r2, s2)
  {
    hide SignatureBase, SignatureParams, Join, Line, Values, Split, Unbroken, Framed, Printable;
    var v1, v2 := Covered(r1, s1), Covered(r2, s2);
    SameComponents(r1, s1, r2, s2);
    BaseSplits(r1, s1);
    BaseSplits(r2, s2);
    ParamsUnbroken(s1);
    ParamsUnbroken(s2);
    LastLine(Join(Lines(s1.components, v1), "\n"), Line(PARAMS_NAME, SignatureParams(s1)),
             Join(Lines(s2.components, v2), "\n"), Line(PARAMS_NAME, SignatureParams(s2)));
    LinesUnbroken(s1.components, v1);
    LinesUnbroken(s2.components, v2);
    SameLines(Lines(s1.components, v1), Lines(s2.components, v2));
    forall i | 0 <= i < |v1| ensures v1[i] == v2[i] {
      assert Lines(s1.components, v1)[i] == Lines(s2.components, v2)[i];
      LineInjective(s1.components[i], v1[i], v2[i]);
    }
  }

  lemma SameComponents(r1: Request, s1: Sig, r2: Request, s2: Sig)
    requires Framed(s1.components) && Framed(s2.components)
    requires SignatureBase(r1, s1).Ok? && SignatureBase(r1, s1) == SignatureBase(r2, s2)
    ensures s1.components == s2.components
  {
    hide Framed, SignatureBase, SignatureParams;
    BaseFixesParams(r1, s1, r2, s2);
    assert Printable(s1).components == s1.components && Printable(s2).components == s2.components;
  }

  lemma SameLines(a: seq<string>, b: seq<string>)
    requires a != [] && b != [] && Unbroken(a) && Unbroken(b) && Join(a, "\n") == Join(b, "\n")
    ensures a == b
  {
    hide Split, Join;
    SplitJoin(a, '\n');
    SplitJoin(b, '\n');
  }

  // ---- a signed request verifies ----

  lemma {:induction false} ValueAt(req: Request, components: seq<string>, i: nat)
    requires Values(req, components).Ok? && i < |components|
    ensures |Values(req, components).value| == |components|
    ensures ComponentValue(req, components[i]) == Ok(Values(req, components).value[i])
  {
    hide ComponentValue;
    ValuesLength(req, components);
    if i > 0 { ValueAt(req, components[1..], i - 1); }
  }

  lemma {:induction false} ValuesOkIff(req: Request, components: seq<string>)
    ensures Values(req, components).Ok? <==> forall c <- components :: ComponentValue(req, c).Ok?
  {
    hide ComponentValue;
    if components != [] {
      ValuesOkIff(req, components[1..]);
      assert components == [components[0]] + components[1..];
    }
  }

  lemma OwnComponents()
    ensures forall c <- POST_COMPONENTS :: IsComponent(c) && Text.Lower(c) == c
    ensures forall c <- GET_COMPONENTS :: IsComponent(c) && Text.Lower(c) == c
  {
    hide IsComponent;
    hide Text.Lower;
    Own("@method"); Own("@target-uri"); Own("@authority"); Own("@path"); Own("content-digest"); Own("content-type");
    assert POST_COMPONENTS == ["@method", "@target-uri", "@authority", "@path", "content-digest", "content-type"];
  }

  lemma ToSignClear(req: Request, keyID: string, now: int, raw: Bytes)
    requires IsPlain(keyID) && ';' !in keyID
    ensures Clear(ToSign(req, keyID, now).(raw := raw))
  {
    OwnComponents();
    assert IsPlain(RSA_SHA256) && ';' !in RSA_SHA256;
    hide IsComponent, IsPlain;
  }

  lemma ToSignFramed(req: Request, keyID: string, now: int)
    ensures Framed(ToSign(req, keyID, now).components)
  {
    OwnComponents();
    hide IsName;
  }

  // Two requests that differ only in the signature headers have the same components.
  ghost predicate SameButSigned(a: Request, b: Request) {
    && b == a.(header := b.header)
    && forall n: string :: n != "signature-input" && n != "signature" ==> Get(a.header, n) == Get(b.header, n)
  }

  lemma ValueSame(a: Request, b: Request, c: string)
    requires SameButSigned(a, b) && IsComponent(c) && c != "signature-input" && c != "signature"
    ensures ComponentValue(a, c) == ComponentValue(b, c)
  {
    hide IsWord;
    hide Text.Lower, Text.TrimSpace, Text.Upper;
    assert Text.Lower(c) == c;
    assert Get(a.header, c) == Get(b.header, c);
    assert Get(a.header, "host") == Get(b.header, "host");
    assert Get(a.header, "x-forwarded-proto") == Get(b.header, "x-forwarded-proto");
  }

  lemma {:induction false} ValuesSame(a: Request, b: Request, components: seq<string>)
    requires SameButSigned(a, b)
    requires forall c <- components :: IsComponent(c) && c != "signature-input" && c != "signature"
    ensures Values(a, components) == Values(b, components)
  {
    if components != [] {
      var c := components[0];
      hide ComponentValue, SameButSigned, IsComponent;
      assert c in components;
      ValueSame(a, b, c);
      assert forall x <- components[1..] :: x in components;
      ValuesSame(a, b, components[1..]);
    }
  }

  lemma SignedSame(req: Request, sig: Sig)
    ensures SameButSigned(req, WithSignature(req, sig))
  {
    hide InputHeader, SignatureHeader;
  }

  lemma DigestSame(sha: Hash, body: Bytes, other: Bytes)
    ensures Text.TrimSpace(ContentDigest(sha, body)) == ContentDigest(sha, body) != ""
    ensures SameDigest(ContentDigest(sha, body), sha, other) <==> ContentDigest(sha, body) == ContentDigest(sha, other)
  {
    var d := ContentDigest(sha, body);
    assert d[0] == 's' && d[|d| - 1] == ':';
    Text.TrimSpaceFixed(d);
    NoComma(sha, body);
    hide ContentDigest, Split;
    SplitNone(d, ',');
    assert d in [d];
  }

  lemma NoComma(sha: Hash, body: Bytes)
    ensures ',' !in ContentDigest(sha, body)
  {
    var b := Base64.Encode(sha(body));
    assert ',' !in "sha-256=:" && ',' !in b && ',' !in ":";
    assert forall c <- "sha-256=:" + b + ":" :: c in "sha-256=:" || c in b || c in ":";
  }

  // A component that is a header field.
  lemma HeaderComponent(req: Request, name: string)
    requires name != "" && name[0] != '@' && Text.Lower(name) == name
    ensures ComponentValue(req, name)
         == if Get(req.header, name) == "" then Err(MissingHeader) else Ok(Text.TrimSpace(Get(req.header, name)))
  {}

  lemma DigestValue(req: Request, sha: Hash, body: Bytes, date: string)
    requires req.verb == POST
    ensures var p := Prepared(req, sha, body, date);
            && Get(p.header, "content-digest") == ContentDigest(sha, body)
            && ComponentValue(p, "content-digest") == Ok(ContentDigest(sha, body))
            && Get(p.header, "content-type") == Get(req.header, "content-type")
  {
    hide ContentDigest, ComponentValue, SameDigest;
    hide Text.TrimSpace, Text.Lower;
    DigestSame(sha, body, body);
    LowerFixed("content-digest");
    HeaderComponent(Prepared(req, sha, body, date), "content-digest");
  }

  lemma LinesOfRequest(req: Request)
    ensures forall c <- GET_COMPONENTS :: ComponentValue(req, c).Ok?
  {
    assert ComponentValue(req, "@method").Ok? && ComponentValue(req, "@target-uri").Ok?;
    assert ComponentValue(req, "@authority").Ok? && ComponentValue(req, "@path").Ok?;
    hide ComponentValue;
  }

  lemma PostValuesOkIff(req: Request, sha: Hash, body: Bytes, date: string)
    requires req.verb == POST
    ensures (forall c <- POST_COMPONENTS :: ComponentValue(Prepared(req, sha, body, date), c).Ok?)
       <==> Get(req.header, "content-type") != ""
  {
    hide ContentDigest, ComponentValue;
    hide Text.TrimSpace, Text.Lower;
    var p := Prepared(req, sha, body, date);
    LinesOfRequest(p);
    DigestValue(req, sha, body, date);
    LowerFixed("content-type");
    HeaderComponent(p, "content-type");
    hide Prepared, Get;
    assert "content-type" in POST_COMPONENTS by { assert POST_COMPONENTS[5] == "content-type"; }
    assert forall c <- POST_COMPONENTS :: c in GET_COMPONENTS || c == "content-digest" || c == "content-type";
  }

  // Signing fails only where a delivery lacks a content type.
  lemma SigningSucceedsIff(req: Request, keyID: string, key: Key, sha: Hash, body: Bytes, now: int, date: string)
    ensures SignStep(req, keyID, key, sha, body, now, date).1 == None
       <==> (req.verb == POST ==> Get(req.header, "content-type") != "")
  {
    hide ContentDigest, ComponentValue, SignatureParams, WithSignature, Prepared, Get, Values;
    var p := Prepared(req, sha, body, date);
    LinesOfRequest(p);
    if req.verb == POST { PostValuesOkIff(req, sha, body, date); }
    ValuesOkIff(p, ToSign(req, keyID, now).components);
  }

  // What was signed is read back from the header and verifies, for as long as the clock allows.
  lemma SignedVerifies(req: Request, keyID: string, key: Key, sha: Hash, body: Bytes, now: int, date: string, later: int)
    requires keyID != "" && IsPlain(keyID) && ';' !in keyID
    requires forall m :: key.sign(m) != [] && key.verify(m, key.sign(m))
    requires now != 0 && -CLOCK_SKEW <= later - now <= CLOCK_SKEW
    requires SignStep(req, keyID, key, sha, body, now, date).1 == None
    ensures var r := SignStep(req, keyID, key, sha, body, now, date).0;
            var read := Parsed9421(Get(r.header, "signature-input"), Get(r.header, "signature"));
            read.Ok? && Verified(r, sha, body, key, read.value, later) == None
  {
    hide ContentDigest, SignatureParams, IsPlain, Parsed9421, InputHeader, SignatureHeader, Values, SameDigest, Covers;
    hide Clear, SameButSigned;
    var p := Prepared(req, sha, body, date);
    var unsigned := ToSign(req, keyID, now);
    var base := SignatureBase(p, unsigned).value;
    var sig := unsigned.(raw := key.sign(base));
    var r := WithSignature(p, sig);
    ToSignClear(req, keyID, now, sig.raw);
    SignatureRoundTrip(sig);
    assert Printable(sig) == sig;
    HeadersSet(p, sig);
    SignedSame(p, sig);
    OwnComponents();
    NotSignatureNames();
    ValuesSame(p, r, sig.components);
    RawUnprinted(unsigned, sig.raw);
    assert SignatureBase(r, sig) == Ok(base);
    OwnCovered();
    if req.verb == POST {
      DigestValue(req, sha, body, date);
      DigestSame(sha, body, body);
    }
  }

  lemma HeadersSet(req: Request, sig: Sig)
    ensures var r := WithSignature(req, sig);
            && Get(r.header, "signature-input") == InputHeader(sig) && Get(r.header, "signature") == SignatureHeader(sig)
            && Get(r.header, "content-digest") == Get(req.header, "content-digest")
  {
    hide InputHeader, SignatureHeader;
  }

  lemma NotSignatureNames()
    ensures "signature-input" !in POST_COMPONENTS && "signature" !in POST_COMPONENTS
    ensures "signature-input" !in GET_COMPONENTS && "signature" !in GET_COMPONENTS
  {}

  lemma CoversIn(covered: seq<string>, required: seq<string>)
    requires forall r <- required :: r in covered && Text.Lower(r) == r
    ensures Covers(covered, required)
  {}

  lemma OwnCovered()
    ensures Covers(POST_COMPONENTS, POST_MUST_COVER) && Covers(GET_COMPONENTS, GET_MUST_COVER)
  {
    hide Text.Lower;
    LowerFixed("@method"); LowerFixed("@target-uri"); LowerFixed("content-digest");
    assert POST_COMPONENTS[0] == "@method" && POST_COMPONENTS[1] == "@target-uri" && POST_COMPONENTS[4] == "content-digest";
    CoversIn(POST_COMPONENTS, POST_MUST_COVER);
    assert GET_COMPONENTS[0] == "@method" && GET_COMPONENTS[1] == "@target-uri";
    CoversIn(GET_COMPONENTS, GET_MUST_COVER);
  }

  // ---- and nothing else does ----

  // An ideal pair of keys and an ideal hash.
  ghost predicate Unforgeable(key: Key) {
    forall m: string, n: string :: key.verify(m, key.sign(n)) ==> m == n
  }

  ghost predicate Collisionless(sha: Hash) {
    forall a: Bytes, b: Bytes :: sha(a) == sha(b) ==> a == b
  }

  lemma DigestFixesBody(sha: Hash, a: Bytes, b: Bytes)
    requires Collisionless(sha) && ContentDigest(sha, a) == ContentDigest(sha, b)
    ensures a == b
  {
    var d, e := ContentDigest(sha, a), ContentDigest(sha, b);
    assert d[9..|d| - 1] == Base64.Encode(sha(a)) && e[9..|e| - 1] == Base64.Encode(sha(b));
    Base64.RoundTrip(sha(a));
    Base64.RoundTrip(sha(b));
  }

  lemma DigestHeaderFixesBody(req: Request, sha: Hash, signed: Bytes, body: Bytes)
    requires Collisionless(sha) && ComponentValue(req, "content-digest") == Ok(ContentDigest(sha, signed))
    requires SameDigest(Get(req.header, "content-digest"), sha, body)
    ensures body == signed
  {
    hide ContentDigest, Split, ComponentValue, Collisionless;
    hide Text.TrimSpace, Text.Lower;
    LowerFixed("content-digest");
    HeaderComponent(req, "content-digest");
    NoComma(sha, signed);
    OneDigest(Get(req.header, "content-digest"), ContentDigest(sha, signed));
    DigestFixesBody(sha, signed, body);
  }

  // A header that trims to a value without commas holds that value alone.
  lemma OneDigest(header: string, value: string)
    requires Text.TrimSpace(header) == value && ',' !in value
    ensures Split(header, ',') == [header]
  {
    var l, r := Text.TrimSpaceSpec(header);
    assert !Text.IsSpace(',');
    assert ',' !in header by {
      assert forall c <- l + value + r :: c in l || c in value || c in r;
    }
    SplitNone(header, ',');
  }

  // A request that verifies with the signature made for another, in whatever signature header it
  // was read from, is that request in everything the signature covers: the method, the target
  // and, for a delivery, the body. And it comes within half a day of the signing.
  lemma ForgeryRefused(sent: Request, keyID: string, key: Key, sha: Hash, body: Bytes, created: int, date: string,
                       received: Request, other: Bytes, input: string, signature: string, sig: Sig, now: int)
    requires Unforgeable(key) && Collisionless(sha)
    requires var p := Prepared(sent, sha, body, date);
             var unsigned := ToSign(sent, keyID, created);
             && SignatureBase(p, unsigned).Ok? && sig.raw == key.sign(SignatureBase(p, unsigned).value)
             && Values(p, unsigned.components).Ok? && Unbroken(Covered(p, unsigned))
    requires Parsed9421(input, signature) == Ok(sig)
    requires Values(received, sig.components).Ok? && Unbroken(Covered(received, sig))
    requires Verified(received, sha, other, key, sig, now) == None
    ensures var p := Prepared(sent, sha, body, date);
            && Text.Upper(received.verb) == Text.Upper(sent.verb)
            && TargetURI(received) == TargetURI(p)
            && (received.verb == POST ==> sent.verb == POST && other == body)
            && sig.keyID == keyID && sig.created == created && sig.components == ToSign(sent, keyID, created).components
            && sig.expires <= 0 && created != 0 && -43200 <= now - created <= 43200
            && forall c <- sig.components :: ComponentValue(received, c) == ComponentValue(p, c)
  {
    hide ContentDigest, SignatureParams, Parsed9421, Values, SameDigest, SignatureBase, Unbroken, Framed, Covers, TargetURI;
    var p := Prepared(sent, sha, body, date);
    var unsigned := ToSign(sent, keyID, created);
    ToSignFramed(sent, keyID, created);
    ParsedFramed(input, signature);
    assert SignatureBase(received, sig) == SignatureBase(p, unsigned);
    BaseFixesParams(p, unsigned, received, sig);
    BaseFixesValues(p, unsigned, received, sig);
    SameFields(unsigned, sig);
    ValuesAgree(p, received, sig.components);
    ValueAt(p, unsigned.components, 0);
    ValueAt(received, sig.components, 0);
    ValueAt(p, unsigned.components, 1);
    ValueAt(received, sig.components, 1);
    if received.verb == POST {
      DigestCovered(sent, keyID, created);
      ValueAt(p, unsigned.components, 4);
      ValueAt(received, sig.components, 4);
      DigestValue(sent, sha, body, date);
      DigestHeaderFixesBody(received, sha, body, other);
    }
  }

  lemma ValuesAgree(a: Request, b: Request, components: seq<string>)
    requires Values(a, components).Ok? && Values(a, components) == Values(b, components)
    ensures forall c <- components :: ComponentValue(b, c) == ComponentValue(a, c)
  {
    hide Values, ComponentValue;
    forall c | c in components ensures ComponentValue(b, c) == ComponentValue(a, c) {
      var i :| 0 <= i < |components| && components[i] == c;
      ValueAt(a, components, i);
      ValueAt(b, components, i);
    }
  }

  lemma SameFields(a: Sig, b: Sig)
    requires Printable(a).(tag := "", raw := []) == Printable(b).(tag := "", raw := [])
    ensures a.components == b.components && a.keyID == b.keyID && a.created == b.created
    ensures a.expires <= 0 ==> b.expires <= 0
  {
    var x, y := Printable(a).(tag := "", raw := []), Printable(b).(tag := "", raw := []);
    assert x.components == y.components && x.keyID == y.keyID && x.created == y.created && x.expires == y.expires;
  }

  // Only the components of a delivery cover the digest.
  lemma DigestCovered(sent: Request, keyID: string, created: int)
    requires Covers(ToSign(sent, keyID, created).components, POST_MUST_COVER)
    ensures sent.verb == POST
  {
    hide IsComponent;
    hide Text.Lower;
    OwnComponents();
    var d := POST_MUST_COVER[2];
    assert d == "content-digest" && d in POST_MUST_COVER;
    assert "content-digest" !in GET_COMPONENTS;
    assert exists c <- ToSign(sent, keyID, created).components :: Text.Lower(c) == d;
  }
}
