// When a signature is accepted, and what a signed request carries, spelled out.
module SignatureSays {
  import opened Common
  import opened HeaderText
  import opened Signature
  import opened Signature9421
  import opened SignatureVerify
  import Base64
  import Text

  // ---- acceptance ----

  predicate Mentions(components: seq<string>, name: string) { exists c <- components :: Text.Lower(c) == name }

  predicate Fresh(sig: Sig, now: int) {
    sig.created != 0 && -43200 <= now - sig.created <= 43200 && (sig.expires > 0 ==> now <= sig.expires)
  }

  predicate ListsDigest(header: string, digest: Bytes) {
    header != "" && exists part <- Split(header, ',') :: Text.TrimSpace(part) == "sha-256=:" + Base64.Encode(digest) + ":"
  }

  lemma CoversEach(components: seq<string>, required: seq<string>)
    ensures Covers(components, required) <==> forall i :: 0 <= i < |required| ==> Mentions(components, required[i])
  {
    hide Text.Lower;
    if Covers(components, required) {
      forall i | 0 <= i < |required| ensures Mentions(components, required[i]) { assert required[i] in required; }
    }
    if forall i :: 0 <= i < |required| ==> Mentions(components, required[i]) {
      forall r | r in required ensures exists c <- components :: Text.Lower(c) == r {
        var i :| 0 <= i < |required| && required[i] == r;
        assert Mentions(components, required[i]);
      }
    }
  }

  lemma CoversMentions(components: seq<string>)
    ensures Covers(components, POST_MUST_COVER)
       <==> Mentions(components, "@method") && Mentions(components, "@target-uri") && Mentions(components, "content-digest")
    ensures Covers(components, GET_MUST_COVER) <==> Mentions(components, "@method") && Mentions(components, "@target-uri")
  {
    hide Covers, Mentions;
    CoversEach(components, POST_MUST_COVER);
    CoversEach(components, GET_MUST_COVER);
    assert POST_MUST_COVER == ["@method", "@target-uri", "content-digest"] && GET_MUST_COVER == ["@method", "@target-uri"];
    assert POST_MUST_COVER[0] == "@method" && POST_MUST_COVER[1] == "@target-uri" && POST_MUST_COVER[2] == "content-digest";
    assert GET_MUST_COVER[0] == "@method" && GET_MUST_COVER[1] == "@target-uri";
  }

  // A request is accepted exactly when the signature covers its method, its address and, on a
  // delivery, the digest of the body it came with; was made within half a day of now and has not
  // expired; and is that of the base built from this request.
  lemma AcceptedIff(req: Request, sha: Hash, body: Bytes, key: Key, sig: Sig, now: int)
    ensures Verified(req, sha, body, key, sig, now) == None <==>
      && Mentions(sig.components, "@method") && Mentions(sig.components, "@target-uri")
      && (req.verb == "POST" ==>
            Mentions(sig.components, "content-digest") && ListsDigest(Get(req.header, "content-digest"), sha(body)))
      && Fresh(sig, now)
      && SignatureBase(req, sig).Ok? && key.verify(SignatureBase(req, sig).value, sig.raw)
  {
    hide SignatureBase, Covers, Mentions, Split;
    hide Text.TrimSpace;
    CoversMentions(sig.components);
  }

  // Which of the errors a refused request gets: the first of the tests, in this order, that fails.
  lemma RefusedFor(req: Request, sha: Hash, body: Bytes, key: Key, sig: Sig, now: int)
    ensures var covered := && Mentions(sig.components, "@method") && Mentions(sig.components, "@target-uri")
                           && (req.verb == "POST" ==> Mentions(sig.components, "content-digest"));
            var digested := req.verb == "POST" ==> ListsDigest(Get(req.header, "content-digest"), sha(body));
            var base := SignatureBase(req, sig);
            && (!covered ==> Verified(req, sha, body, key, sig, now) == Some(Uncovered))
            && (covered && !digested ==> Verified(req, sha, body, key, sig, now) == Some(BadDigest))
            && (covered && digested && !Fresh(sig, now) ==> Verified(req, sha, body, key, sig, now) == Some(Stale))
            && (covered && digested && Fresh(sig, now) && base.Err? ==>
                  Verified(req, sha, body, key, sig, now) == Some(base.error))
            && (covered && digested && Fresh(sig, now) && base.Ok? && !key.verify(base.value, sig.raw) ==>
                  Verified(req, sha, body, key, sig, now) == Some(BadSignature))
  {
    hide SignatureBase, Covers, Mentions, Split;
    hide Text.TrimSpace;
    CoversMentions(sig.components);
  }

  // ---- the components ----

  function Host(req: Request): string {
    Text.Lower(if req.host != "" then req.host
               else if "host" in req.header && req.header["host"] != "" then req.header["host"]
               else req.urlHost)
  }

  function Path(req: Request): string { if req.escapedPath == "" then "/" else req.escapedPath }

  function Scheme(req: Request): string {
    if req.scheme != "" then req.scheme
    else if req.tls || req.urlHost != "" || "x-forwarded-proto" !in req.header || req.header["x-forwarded-proto"] == "" then "https"
    else Text.Lower(req.header["x-forwarded-proto"])
  }

  function Address(req: Request): string {
    Scheme(req) + "://" + Host(req) + Path(req) + QueryPart(req.rawQuery)
  }

  function QueryPart(query: string): string { if query == "" then "" else "?" + query }

  lemma TargetTells(req: Request)
    ensures TargetURI(req) == Address(req)
  {
    hide Text.Lower;
  }

  // The five derived components, a header field by its name, and no other derived component.
  lemma ComponentTells(req: Request, name: string)
    ensures ComponentValue(req, "@method") == Ok(Text.Upper(req.verb))
    ensures ComponentValue(req, "@target-uri") == Ok(Address(req))
    ensures ComponentValue(req, "@authority") == Ok(Host(req))
    ensures ComponentValue(req, "@path") == Ok(Path(req))
    ensures ComponentValue(req, "@query") == Ok("?" + req.rawQuery)
    ensures name != "" && name[0] == '@' && name !in ["@method", "@target-uri", "@authority", "@path", "@query"] ==>
              ComponentValue(req, name) == Err(DerivedComponent)
    ensures name != "" && name[0] != '@' ==>
              ComponentValue(req, name) ==
                if Text.Lower(name) !in req.header || req.header[Text.Lower(name)] == "" then Err(MissingHeader)
                else Ok(Text.TrimSpace(req.header[Text.Lower(name)]))
  {
    TargetTells(req);
    hide TargetURI, Address;
    hide Text.Lower, Text.Upper, Text.TrimSpace;
  }

  lemma AddressFixes(a: string, b: string, rest: string, q: string, r: string)
    requires ':' !in a && ':' !in b && a + "://" + rest + q == b + "://" + rest + r
    ensures a == b && q == r
  {
    var s, t := a + "://" + rest + q, b + "://" + rest + r;
    assert s[|a|] == ':' && t[|b|] == ':';
    assert forall i :: 0 <= i < |a| ==> s[i] == a[i] && a[i] in a;
    assert forall i :: 0 <= i < |b| ==> t[i] == b[i] && b[i] in b;
    assert |a| == |b|;
    assert a == s[..|a|] && b == t[..|b|];
    assert q == s[|a + "://" + rest|..] && r == t[|b + "://" + rest|..];
  }

  lemma OwnNames(req: Request, keyID: string, created: int)
    ensures var c := ToSign(req, keyID, created).components;
            && "@authority" in c && "@path" in c && (req.verb == "POST" ==> "content-type" in c)
  {
    assert GET_COMPONENTS[2] == "@authority" && GET_COMPONENTS[3] == "@path" && POST_COMPONENTS[2] == "@authority"
        && POST_COMPONENTS[3] == "@path" && POST_COMPONENTS[5] == "content-type";
  }

  lemma PreparedSame(sent: Request, sha: Hash, body: Bytes, date: string)
    ensures var p := Prepared(sent, sha, body, date);
            && Host(p) == Host(sent) && Path(p) == Path(sent) && Scheme(p) == Scheme(sent) && p.rawQuery == sent.rawQuery
            && ComponentValue(p, "content-type") == ComponentValue(sent, "content-type")
  {
    hide ContentDigest;
    hide Text.TrimSpace, Text.Lower;
    LowerFixed("content-type");
  }

  // The same, read off the two requests: the host, the path, the query and, on a delivery, the
  // content type are those of the request that was signed.
  lemma SameRequest(sent: Request, keyID: string, key: Key, sha: Hash, body: Bytes, created: int, date: string,
                    received: Request, other: Bytes, input: string, signature: string, sig: Sig, now: int)
    requires Unforgeable(key) && Collisionless(sha)
    requires var p := Prepared(sent, sha, body, date);
             var unsigned := ToSign(sent, keyID, created);
             && SignatureBase(p, unsigned).Ok? && sig.raw == key.sign(SignatureBase(p, unsigned).value)
             && Values(p, unsigned.components).Ok? && Unbroken(Covered(p, unsigned))
    requires Parsed9421(input, signature) == Ok(sig)
    requires Values(received, sig.components).Ok? && Unbroken(Covered(received, sig))
    requires Verified(received, sha, other, key, sig, now) == None
    ensures Text.Upper(received.verb) == Text.Upper(sent.verb)
    ensures Host(received) == Host(sent) && Path(received) == Path(sent)
    ensures ':' !in Scheme(received) && ':' !in Scheme(sent) ==>
              Scheme(received) == Scheme(sent) && received.rawQuery == sent.rawQuery
    ensures received.verb == "POST" ==>
              && sent.verb == "POST" && other == body
              && ComponentValue(received, "content-type") == ComponentValue(sent, "content-type")
    ensures sig.keyID == keyID && -43200 <= now - created <= 43200
  {
    ForgeryRefused(sent, keyID, key, sha, body, created, date, received, other, input, signature, sig, now);
    hide Unforgeable, Collisionless, SignatureBase, Values, Parsed9421, Verified, Unbroken, Prepared, ComponentValue, TargetURI,
      Covered, Host, Path, Scheme, ToSign;
    hide Text.Upper;
    var p := Prepared(sent, sha, body, date);
    OwnNames(sent, keyID, created);
    PreparedSame(sent, sha, body, date);
    ComponentTells(p, "");
    ComponentTells(received, "");
    SameAddress(p, received);
  }

  lemma SameAddress(a: Request, b: Request)
    requires TargetURI(a) == TargetURI(b) && Host(a) == Host(b) && Path(a) == Path(b)
    ensures ':' !in Scheme(a) && ':' !in Scheme(b) ==> Scheme(a) == Scheme(b) && a.rawQuery == b.rawQuery
  {
    TargetTells(a);
    TargetTells(b);
    hide Host, Path, Scheme, ComponentValue, TargetURI;
    AddressSplit(a);
    AddressSplit(b);
    hide Address;
    if ':' !in Scheme(a) && ':' !in Scheme(b) {
      AddressFixes(Scheme(a), Scheme(b), Host(a) + Path(a), QueryPart(a.rawQuery), QueryPart(b.rawQuery));
      QueryFixed(a.rawQuery);
      QueryFixed(b.rawQuery);
    }
  }

  lemma QueryFixed(query: string)
    ensures query == if QueryPart(query) == "" then "" else QueryPart(query)[1..]
  {}

  lemma AddressSplit(req: Request)
    ensures Address(req) == Scheme(req) + "://" + (Host(req) + Path(req)) + QueryPart(req.rawQuery)
  {
    hide Host, Path, Scheme;
    Regroup(Scheme(req) + "://", Host(req), Path(req));
  }

  lemma Regroup(a: string, b: string, c: string)
    ensures a + b + c == a + (b + c)
  {}

  // ---- what signing writes ----

  function DigestText(digest: Bytes): string { "sha-256=:" + Base64.Encode(digest) + ":" }

  function CoveredText(verb: string): string {
    "(" + Join(["\"@method\"", "\"@target-uri\"", "\"@authority\"", "\"@path\""]
               + if verb == "POST" then ["\"content-digest\"", "\"content-type\""] else [], " ") + ")"
  }

  function ParamsSaid(verb: string, keyID: string, now: int): string {
    Join([CoveredText(verb), "created=" + Text.Itoa(now), "keyid=" + Quote(keyID), "alg=" + Quote("rsa-v1_5-sha256")], ";")
  }

  function Said(name: string, value: string): string { "\"" + name + "\": " + value }

  function LinesSaid(req: Request, digest: Bytes): seq<string> {
    [Said("@method", Text.Upper(req.verb)), Said("@target-uri", Address(req)), Said("@authority", Host(req)), Said("@path", Path(req))]
    + if req.verb == "POST" then
        [Said("content-digest", DigestText(digest)), Said("content-type", Text.TrimSpace(Get(req.header, "content-type")))]
      else []
  }

  function BaseSaid(req: Request, digest: Bytes, keyID: string, now: int): string {
    Join(LinesSaid(req, digest) + [Said("@signature-params", ParamsSaid(req.verb, keyID, now))], "\n")
  }

  lemma CoveredSaid(verb: string)
    ensures ComponentList(if verb == POST then POST_COMPONENTS else GET_COMPONENTS) == CoveredText(verb)
  {
    hide Join;
    QuotedFour();
    if verb == "POST" { QuotedSix(); } else { AddNothing(["\"@method\"", "\"@target-uri\"", "\"@authority\"", "\"@path\""]); }
  }

  lemma AddNothing<T>(s: seq<T>)
    ensures s + [] == s
  {}

  lemma QuotedFour()
    ensures Quoted(GET_COMPONENTS) == ["\"@method\"", "\"@target-uri\"", "\"@authority\"", "\"@path\""]
  {
    var q := Quoted(GET_COMPONENTS);
    assert q[0] == "\"" + "@method" + "\"" == "\"@method\"";
    assert q[1] == "\"" + "@target-uri" + "\"" == "\"@target-uri\"";
    assert q[2] == "\"" + "@authority" + "\"" == "\"@authority\"";
    assert q[3] == "\"" + "@path" + "\"" == "\"@path\"";
  }

  lemma QuotedSix()
    ensures Quoted(POST_COMPONENTS)
         == ["\"@method\"", "\"@target-uri\"", "\"@authority\"", "\"@path\""] + ["\"content-digest\"", "\"content-type\""]
  {
    var q, g := Quoted(POST_COMPONENTS), Quoted(GET_COMPONENTS);
    QuotedFour();
    assert forall i :: 0 <= i < 4 ==> POST_COMPONENTS[i] == GET_COMPONENTS[i] && q[i] == g[i];
    assert q[4] == "\"" + "content-digest" + "\"" == "\"content-digest\"";
    assert q[5] == "\"" + "content-type" + "\"" == "\"content-type\"";
  }

  lemma SignedParams(req: Request, keyID: string, now: int)
    ensures SignatureParams(ToSign(req, keyID, now)) == ParamsSaid(req.verb, keyID, now)
  {
    var sig := ToSign(req, keyID, now);
    CoveredSaid(req.verb);
    ThreeParams(sig);
    hide ComponentList, CoveredText, Join, Quote, ParamsOf;
    hide Text.Itoa;
    JoinFour(CoveredText(req.verb), "created=" + Text.Itoa(now), "keyid=" + Quote(keyID), "alg=" + Quote(RSA_SHA256));
  }

  lemma JoinFour(list: string, a: string, b: string, c: string)
    ensures Join([list, a, b, c], ";") == list + ";" + Join([a, b, c], ";")
  {
    hide Join;
    JoinCons(list, [a, b, c], ";");
    assert [list] + [a, b, c] == [list, a, b, c];
  }

  lemma ThreeParams(sig: Sig)
    requires sig.expires <= 0 && sig.algorithm != ""
    ensures ParamsOf(sig) == ["created=" + Text.Itoa(sig.created), "keyid=" + Quote(sig.keyID), "alg=" + Quote(sig.algorithm)]
  {
    hide Quote;
    hide Text.Itoa;
  }

  lemma ValuesOf(req: Request, components: seq<string>)
    requires Values(req, components).Ok?
    ensures |Values(req, components).value| == |components|
    ensures forall i :: 0 <= i < |components| ==> ComponentValue(req, components[i]) == Ok(Values(req, components).value[i])
  {
    hide ComponentValue, Values;
    if components == [] {
      ValuesLength(req, components);
    }
    forall i | 0 <= i < |components|
      ensures |Values(req, components).value| == |components|
           && ComponentValue(req, components[i]) == Ok(Values(req, components).value[i])
    {
      ValueAt(req, components, i);
    }
    ValuesLength(req, components);
  }

  lemma FourLines(req: Request)
    ensures Values(req, GET_COMPONENTS) == Ok([Text.Upper(req.verb), Address(req), Host(req), Path(req)])
  {
    ComponentTells(req, "");
    LinesOfRequest(req);
    ValuesOkIff(req, GET_COMPONENTS);
    ValuesOf(req, GET_COMPONENTS);
    hide Values, ComponentValue, Address, Host, Path;
    hide Text.Upper;
    var v := Values(req, GET_COMPONENTS).value;
    assert |v| == 4;
    assert GET_COMPONENTS[0] == "@method" && GET_COMPONENTS[1] == "@target-uri" && GET_COMPONENTS[2] == "@authority"
        && GET_COMPONENTS[3] == "@path";
    assert v == [v[0], v[1], v[2], v[3]];
  }

  lemma {:induction false} ValuesAppend(req: Request, a: seq<string>, b: seq<string>)
    requires Values(req, a).Ok?
    ensures Values(req, a + b) == match Values(req, b) case Ok(more) => Ok(Values(req, a).value + more) case Err(e) => Err(e)
  {
    hide ComponentValue;
    if a == [] {
      assert a + b == b;
      if Values(req, b).Ok? { assert [] + Values(req, b).value == Values(req, b).value; }
    } else {
      assert (a + b)[1..] == a[1..] + b;
      ValuesAppend(req, a[1..], b);
      if Values(req, b).Ok? {
        Regroup3([ComponentValue(req, a[0]).value], Values(req, a[1..]).value, Values(req, b).value);
      }
    }
  }

  lemma Regroup3<T>(a: seq<T>, b: seq<T>, c: seq<T>)
    ensures a + b + c == a + (b + c)
  {}

  lemma ValuesOne(req: Request, a: string)
    requires ComponentValue(req, a).Ok?
    ensures Values(req, [a]) == Ok([ComponentValue(req, a).value])
  {
    hide ComponentValue;
    assert [a][1..] == [] && Values(req, []) == Ok([]);
    assert [ComponentValue(req, a).value] + [] == [ComponentValue(req, a).value];
  }

  lemma ValuesTwo(req: Request, a: string, b: string)
    requires ComponentValue(req, a).Ok? && ComponentValue(req, b).Ok?
    ensures Values(req, [a, b]) == Ok([ComponentValue(req, a).value, ComponentValue(req, b).value])
  {
    ValuesOne(req, a);
    ValuesOne(req, b);
    hide ComponentValue, Values;
    ValuesAppend(req, [a], [b]);
    assert [a] + [b] == [a, b];
    assert [ComponentValue(req, a).value] + [ComponentValue(req, b).value] == [ComponentValue(req, a).value, ComponentValue(req, b).value];
  }

  lemma DeliveryLines(req: Request)
    requires Get(req.header, "content-digest") != "" && Get(req.header, "content-type") != ""
    ensures Values(req, ["content-digest", "content-type"])
         == Ok([Text.TrimSpace(Get(req.header, "content-digest")), Text.TrimSpace(Get(req.header, "content-type"))])
  {
    hide ComponentValue, Values;
    hide Text.TrimSpace, Text.Lower;
    LowerFixed("content-digest");
    LowerFixed("content-type");
    HeaderComponent(req, "content-digest");
    HeaderComponent(req, "content-type");
    ValuesTwo(req, "content-digest", "content-type");
  }

  lemma LinesFour(a: string, b: string, c: string, d: string)
    ensures Lines(GET_COMPONENTS, [a, b, c, d])
         == [Said("@method", a), Said("@target-uri", b), Said("@authority", c), Said("@path", d)]
  {
    hide Lines, Line, Said;
    SaidLine("@method", a); SaidLine("@target-uri", b); SaidLine("@authority", c); SaidLine("@path", d);
    assert |GET_COMPONENTS| == 4;
  }

  lemma SaidLine(name: string, value: string)
    ensures Line(name, value) == Said(name, value)
  {}

  lemma LinesSix(a: string, b: string, c: string, d: string, e: string, g: string)
    ensures Lines(POST_COMPONENTS, [a, b, c, d] + [e, g])
         == [Said("@method", a), Said("@target-uri", b), Said("@authority", c), Said("@path", d)]
          + [Said("content-digest", e), Said("content-type", g)]
  {
    hide Lines, Line, Said;
    SaidLine("@method", a); SaidLine("@target-uri", b); SaidLine("@authority", c); SaidLine("@path", d);
    SaidLine("content-digest", e); SaidLine("content-type", g);
    assert |POST_COMPONENTS| == 6;
  }

  lemma BaseTells(req: Request, digest: Bytes, keyID: string, now: int)
    requires req.verb == "POST" ==>
      Text.TrimSpace(Get(req.header, "content-digest")) == DigestText(digest) == Get(req.header, "content-digest")
      && Get(req.header, "content-type") != ""
    ensures SignatureBase(req, ToSign(req, keyID, now)) == Ok(BaseSaid(req, digest, keyID, now))
  {
    SignedParams(req, keyID, now);
    FourLines(req);
    SaidLine("@signature-params", ParamsSaid(req.verb, keyID, now));
    hide SignatureParams, ParamsSaid, Values, Address, Host, Path, Join, Lines, Said, Line;
    hide Text.TrimSpace, Text.Upper;
    var a, b, c, d := Text.Upper(req.verb), Address(req), Host(req), Path(req);
    if req.verb == "POST" {
      DeliveryLines(req);
      ValuesAppend(req, GET_COMPONENTS, ["content-digest", "content-type"]);
      LinesSix(a, b, c, d, DigestText(digest), Text.TrimSpace(Get(req.header, "content-type")));
    } else {
      LinesFour(a, b, c, d);
      AddNothing([Said("@method", a), Said("@target-uri", b), Said("@authority", c), Said("@path", d)]);
    }
  }

  lemma BaseOfPrepared(req: Request, sha: Hash, body: Bytes, date: string, keyID: string, now: int)
    ensures BaseSaid(Prepared(req, sha, body, date), sha(body), keyID, now) == BaseSaid(req, sha(body), keyID, now)
  {
    PreparedSame(req, sha, body, date);
    PreparedType(req, sha, body, date);
    hide Prepared, ParamsSaid, Host, Path, Scheme, Join, Said, DigestText;
    hide Text.TrimSpace, Text.Upper;
    var p := Prepared(req, sha, body, date);
    assert Address(p) == Address(req);
    assert LinesSaid(p, sha(body)) == LinesSaid(req, sha(body));
  }

  lemma PreparedType(req: Request, sha: Hash, body: Bytes, date: string)
    ensures var p := Prepared(req, sha, body, date);
            && p.verb == req.verb && Get(p.header, "content-type") == Get(req.header, "content-type")
  {
    hide ContentDigest;
  }

  // What a signed request carries: the digest of its body when it is a delivery, a date, what the
  // signature covers and when and with which key it was made, and the signature of exactly those
  // lines. Every other header stays.
  lemma SigningTells(req: Request, keyID: string, key: Key, sha: Hash, body: Bytes, now: int, date: string)
    requires SignStep(req, keyID, key, sha, body, now, date).1 == None
    ensures var r := SignStep(req, keyID, key, sha, body, now, date).0;
            && r == req.(header := r.header)
            && Get(r.header, "signature-input") == "rss=" + ParamsSaid(req.verb, keyID, now)
            && Get(r.header, "signature") == "rss=:" + Base64.Encode(key.sign(BaseSaid(req, sha(body), keyID, now))) + ":"
            && Get(r.header, "date") == (if Get(req.header, "date") == "" then date else Get(req.header, "date"))
            && Get(r.header, "content-digest")
                 == (if req.verb == "POST" then DigestText(sha(body)) else Get(req.header, "content-digest"))
            && forall n: string :: n != "signature-input" && n != "signature" && n != "date" && n != "content-digest" ==>
                 Get(r.header, n) == Get(req.header, n)
  {
    var p := Prepared(req, sha, body, date);
    var raw := key.sign(BaseSaid(req, sha(body), keyID, now));
    var sig := ToSign(req, keyID, now).(raw := raw);
    SignedIs(req, keyID, key, sha, body, now, date);
    SignedParams(req, keyID, now);
    PreparedHeader(req, sha, body, date);
    RawUnprinted(ToSign(req, keyID, now), raw);
    SignatureSet(p, sig);
    PreparedLine(req, sha, body, date);
    NamesDiffer();
    ToSignTag(req, keyID, now);
    hide BaseSaid, ToSign, ParamsSaid, SignatureParams, Prepared, WithSignature, Get, DigestText, SignStep;
  }

  lemma ToSignTag(req: Request, keyID: string, now: int)
    ensures ToSign(req, keyID, now).tag == "rss"
  {}

  lemma NamesDiffer()
    ensures "date" != "signature-input" && "date" != "signature" && "content-digest" != "signature-input" && "content-digest" != "signature"
  {}

  lemma PreparedLine(req: Request, sha: Hash, body: Bytes, date: string)
    ensures var p := Prepared(req, sha, body, date); p == req.(header := p.header)
  {}

  lemma SignedIs(req: Request, keyID: string, key: Key, sha: Hash, body: Bytes, now: int, date: string)
    requires SignStep(req, keyID, key, sha, body, now, date).1 == None
    ensures SignStep(req, keyID, key, sha, body, now, date).0
         == WithSignature(Prepared(req, sha, body, date),
                          ToSign(req, keyID, now).(raw := key.sign(BaseSaid(req, sha(body), keyID, now))))
  {
    SigningSucceedsIff(req, keyID, key, sha, body, now, date);
    PreparedBase(req, keyID, sha, body, now, date);
    BaseOfPrepared(req, sha, body, date, keyID, now);
    hide BaseSaid, Prepared, WithSignature, SignatureBase, Get;
  }

  lemma PreparedBase(req: Request, keyID: string, sha: Hash, body: Bytes, now: int, date: string)
    requires req.verb == "POST" ==> Get(req.header, "content-type") != ""
    ensures var p := Prepared(req, sha, body, date);
            SignatureBase(p, ToSign(req, keyID, now)) == Ok(BaseSaid(p, sha(body), keyID, now))
  {
    PreparedType(req, sha, body, date);
    if req.verb == "POST" {
      DigestSame(sha, body, body);
      DigestValue(req, sha, body, date);
    }
    BaseTells(Prepared(req, sha, body, date), sha(body), keyID, now);
    hide BaseSaid, SignatureBase, Prepared;
    hide Text.TrimSpace;
  }

  lemma PreparedHeader(req: Request, sha: Hash, body: Bytes, date: string)
    ensures var h := Prepared(req, sha, body, date).header;
            && Get(h, "date") == (if Get(req.header, "date") == "" then date else Get(req.header, "date"))
            && Get(h, "content-digest") == (if req.verb == "POST" then DigestText(sha(body)) else Get(req.header, "content-digest"))
            && forall n: string :: n != "date" && n != "content-digest" ==> Get(h, n) == Get(req.header, n)
  {
    assert ContentDigest(sha, body) == DigestText(sha(body));
    hide ContentDigest, DigestText;
  }

  lemma SignatureSet(req: Request, sig: Sig)
    requires sig.tag == "rss"
    ensures var r := WithSignature(req, sig);
            && r == req.(header := r.header)
            && Get(r.header, "signature-input") == "rss=" + SignatureParams(sig)
            && Get(r.header, "signature") == "rss=:" + Base64.Encode(sig.raw) + ":"
            && forall n: string :: n != "signature-input" && n != "signature" ==> Get(r.header, n) == Get(req.header, n)
  {
    hide SignatureParams;
    assert "rss" + "=" == "rss=" && "rss" + "=:" == "rss=:";
  }

  // ---- the older header ----

  function NamePart(name: string): string { Text.Lower(Text.TrimSpace(name)) }

  // The request line under its own name; any other name is that of a header.
  function OldLine(verb: string, target: string, header: Header, name: string): string {
    if NamePart(name) == "(request-target)" then "(request-target): " + Text.Lower(verb) + " " + target
    else NamePart(name) + ": " + Text.TrimSpace(Get(header, NamePart(name)))
  }

  predicate Present(header: Header, name: string) {
    NamePart(name) == "(request-target)" || (NamePart(name) in header && header[NamePart(name)] != "")
  }

  lemma LineTells(verb: string, target: string, header: Header, name: string)
    ensures SigningLine(verb, target, header, name).Some? <==> Present(header, name)
    ensures Present(header, name) ==> SigningLine(verb, target, header, name).value == OldLine(verb, target, header, name)
  {
    hide Text.Lower, Text.TrimSpace;
    assert REQUEST_TARGET + ": " == "(request-target): ";
  }

  // There is something to sign exactly when every covered header is there: one line for each.
  lemma {:induction false} LinesTell(verb: string, target: string, header: Header, covered: seq<string>)
    ensures var lines := SigningLines(verb, target, header, covered);
            && (lines.Some? <==> forall c <- covered :: Present(header, c))
            && (lines.Some? ==>
                  && |lines.value| == |covered|
                  && forall i :: 0 <= i < |covered| ==> lines.value[i] == OldLine(verb, target, header, covered[i]))
  {
    hide SigningLine, OldLine, Present;
    if covered != [] {
      LineTells(verb, target, header, covered[0]);
      LinesTell(verb, target, header, covered[1..]);
      assert covered == [covered[0]] + covered[1..];
    }
  }

  // The header Sign prints.
  lemma PrintedTells(keyID: string, covered: seq<string>, raw: Bytes)
    ensures Printed(keyID, covered, raw)
         == Join(["keyId=" + Quote(keyID), "algorithm=" + Quote("rsa-sha256"), "headers=" + Quote(Join(covered, " ")),
                  "signature=" + Quote(Base64.Encode(raw))], ",")
  {
    hide Join, Quote;
    ParamTells("keyId", "keyId=", keyID); ParamTells("algorithm", "algorithm=", "rsa-sha256");
    ParamTells("headers", "headers=", Join(covered, " ")); ParamTells("signature", "signature=", Base64.Encode(raw));
    hide Param;
  }

  lemma ParamTells(name: string, started: string, value: string)
    requires started == name + "="
    ensures Param(name, value) == started + Quote(value)
  {}

  // ---- what is read at all ----

  lemma {:induction false} RawNotEmpty(parts: seq<string>, name: string)
    ensures RawIn(parts, name).Ok? ==> RawIn(parts, name).value != []
  {
    hide TrimChar;
    hide Text.TrimSpace, Text.Cut, Base64.Decode;
    if parts != [] { RawNotEmpty(parts[1..], name); }
  }

  // A signature that is read names a key, covers something, says no other algorithm and is not
  // empty; only a blank header counts as none.
  lemma ReadTells(input: string, signature: string)
    ensures var read := Parsed9421(input, signature);
            && (read == Err(NoSignatureInput) <==> Text.TrimSpace(input) == "")
            && (read.Ok? ==>
                  && read.value.keyID != "" && read.value.components != [] && read.value.raw != []
                  && (read.value.algorithm == "" || read.value.algorithm == "rsa-v1_5-sha256"))
            && (read.Err? ==> read.error in {NoSignatureInput, Malformed, NoKeyID, UnknownAlgorithm})
  {
    hide Unquoted, RawIn, ReadParams;
    hide Text.TrimSpace, Text.Cut;
    if Text.TrimSpace(input) != "" && Text.Cut(Text.TrimSpace(input), '=').Some? {
      var (before, rest) := Text.Cut(Text.TrimSpace(input), '=').value;
      ParamsRead9421(Text.TrimSpace(before), rest);
      var sig := ReadParams(Text.TrimSpace(before), rest);
      if sig.Ok? {
        RawNotEmpty(Unquoted(signature, false), sig.value.tag);
        RawErrs(Unquoted(signature, false), sig.value.tag);
      }
    }
  }

  lemma ParamsRead9421(name: string, rest: string)
    ensures var r := ReadParams(name, rest); if r.Ok? then r.value.components != [] else r.error == Malformed
  {
    hide ReadNames, Split, SetField;
    hide Text.Fields, Text.Find;
    var open, close := Text.Find(rest, '('), Text.Find(rest, ')');
    if open < |rest| && close < |rest| && open <= close {
      match ReadNames(Text.Fields(rest[open + 1..close]))
      case Some(components) =>
        FieldsKeepComponents(Sig(name, components, "", "", 0, 0, []), Split(rest[close + 1..], ';'));
      case None =>
    }
  }

  lemma {:induction false} RawErrs(parts: seq<string>, name: string)
    ensures RawIn(parts, name).Err? ==> RawIn(parts, name).error == Malformed
  {
    hide TrimChar;
    hide Text.TrimSpace, Text.Cut, Base64.Decode;
    if parts != [] { RawErrs(parts[1..], name); }
  }

  // The same for the older header.
  lemma OldReadTells(header: string)
    ensures var read := Parsed(header);
            && (read == Err(NoSignature) <==> Text.TrimSpace(header) == "")
            && (read.Ok? ==> read.value.keyID != "" && read.value.headers != [] && read.value.raw != [])
            && (read.Err? ==> read.error in {NoSignature, Malformed, NoKeyID})
  {
    hide Apply, Unquoted;
    hide Text.TrimSpace;
    OldErrs(UNSIGNED, Unquoted(header, false));
  }

  lemma {:induction false} OldErrs(sig: Signed, params: seq<string>)
    ensures ApplyAll(sig, params).Err? ==> ApplyAll(sig, params).error == Malformed
    decreases |params|
  {
    if params != [] {
      OneErr(sig, params[0]);
      hide Apply;
      if Apply(sig, params[0]).Ok? { OldErrs(Apply(sig, params[0]).value, params[1..]); }
    }
  }

  lemma OneErr(sig: Signed, param: string)
    ensures Apply(sig, param).Err? ==> Apply(sig, param).error == Malformed
  {
    hide ReadParam;
    hide Base64.Decode, Text.Fields, Text.Lower;
  }
}
