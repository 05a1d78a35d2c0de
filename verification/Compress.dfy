// internal/web/compress.go: a response writer that holds the body back until it knows whether
// compressing it is worth while. gzip is a sink: what is written to it reaches the client.
module Compress {
  import opened Common
  import Text

  type Bytes = seq<byte>
  type Header = map<string, seq<string>>

  const COMPRESS_ABOVE := 900
  const OK := 200
  const NO_CONTENT := 204
  const NOT_MODIFIED := 304

  function Get(h: Header, name: string): string {
    if name in h && h[name] != [] then h[name][0] else ""
  }

  function Add(h: Header, name: string, value: string): Header {
    h[name := (if name in h then h[name] else []) + [value]]
  }

  predicate Compressible(mediaType: string) {
    var bare := match Text.Cut(mediaType, ';') case Some(cut) => cut.0 case None => mediaType;
    var kind := Text.TrimSpace(Text.Lower(bare));
    || Text.HasPrefix(kind, "text/")
    || Text.HasSuffix(kind, "+xml")
    || Text.HasSuffix(kind, "+json")
    || Text.HasPrefix(kind, "application/json")
    || Text.HasPrefix(kind, "application/xml")
    || Text.HasPrefix(kind, "image/svg")
  }

  // What the underlying response was told to do. The headers the client gets are those there are
  // when the status is said.
  datatype Event = Status(code: int, header: Header) | Plain(bytes: Bytes) | Packed(bytes: Bytes) | PackedEnd

  datatype State = State(header: Header, log: seq<Event>, zip: bool, decided: bool, plain: bool, held: Bytes, status: int)

  function New(header: Header): State { State(header, [], false, false, false, [], 0) }

  predicate Bodiless(status: int) { status == NOT_MODIFIED || status == NO_CONTENT }

  // ---- one call ----

  function WriteHeaderStep(s: State, status: int): State {
    var t := s.(status := status);
    var u := if Bodiless(status) then t.(plain := true, decided := true) else t;
    if u.decided && u.plain then u.(log := u.log + [Status(status, u.header)]) else u
  }

  function StatusOf(s: State): int { if s.status == 0 then OK else s.status }

  predicate Worth(header: Header, size: nat) {
    Get(header, "Content-Encoding") == "" && Compressible(Get(header, "Content-Type")) && size >= COMPRESS_ABOVE
  }

  function PackedHeader(h: Header): Header {
    Add((h - {"Content-Length"})["Content-Encoding" := ["gzip"]], "Vary", "Accept-Encoding")
  }

  function DecideStep(s: State): State {
    var t := if Worth(s.header, |s.held|) then s.(header := PackedHeader(s.header), zip := true) else s.(plain := true);
    t.(decided := true, status := StatusOf(s), log := t.log + [Status(StatusOf(s), t.header)])
  }

  function FlushStep(s: State): State {
    s.(held := [], log := s.log + [if s.plain then Plain(s.held) else Packed(s.held)])
  }

  function WriteStep(s: State, body: Bytes): State {
    if !s.decided then
      var t := s.(held := s.held + body);
      if |t.held| < COMPRESS_ABOVE then t else FlushStep(DecideStep(t))
    else s.(log := s.log + [if s.plain then Plain(body) else Packed(body)])
  }

  function CloseStep(s: State): State {
    var t := if !s.decided then FlushStep(DecideStep(s)) else s;
    if t.zip then t.(log := t.log + [PackedEnd], zip := false) else t
  }

  // ---- the writer ----

  class Response {
    var header: Header
    var log: seq<Event>

    constructor (header: Header)
      ensures this.header == header && log == []
    {
      this.header := header;
      log := [];
    }

    method Record(e: Event)
      modifies this`log
      ensures log == old(log) + [e]
    {
      log := log + [e];
    }
  }

  class GzipWriter {
    const w: Response
    var zip: bool
    var decided: bool
    var plain: bool
    var held: Bytes
    var status: int

    ghost function Value(): State
      reads this, w
    {
      State(w.header, w.log, zip, decided, plain, held, status)
    }

    constructor (w: Response)
      requires w.log == []
      ensures this.w == w && Value() == New(w.header)
    {
      this.w := w;
      zip, decided, plain, held, status := false, false, false, [], 0;
    }

    method WriteHeader(status: int)
      modifies this, w
      ensures Value() == WriteHeaderStep(old(Value()), status)
    {
      this.status := status;
      if status == NOT_MODIFIED || status == NO_CONTENT {
        plain, decided := true, true;
      }
      if decided && plain {
        w.Record(Status(status, w.header));
      }
    }

    method Write(body: Bytes) returns (n: nat)
      requires decided && !plain ==> zip
      modifies this, w
      ensures Value() == WriteStep(old(Value()), body) && n == |body|
      ensures decided && !plain ==> zip
    {
      n := |body|;
      if !decided {
        held := held + body;
        if |held| < COMPRESS_ABOVE { return; }
        Decide();
        FlushHeld();
        return;
      }
      if plain {
        w.Record(Plain(body));
        return;
      }
      w.Record(Packed(body));
    }

    method Decide()
      modifies this, w
      ensures Value() == DecideStep(old(Value()))
    {
      decided := true;
      if Get(w.header, "Content-Encoding") != "" || !Compressible(Get(w.header, "Content-Type")) || |held| < COMPRESS_ABOVE {
        plain := true;
        WriteStatus();
        return;
      }
      w.header := w.header - {"Content-Length"};
      w.header := w.header["Content-Encoding" := ["gzip"]];
      w.header := Add(w.header, "Vary", "Accept-Encoding");
      WriteStatus();
      zip := true;
    }

    method WriteStatus()
      modifies this`status, w`log
      ensures status == StatusOf(old(Value())) && w.log == old(w.log) + [Status(status, w.header)]
    {
      if status == 0 { status := OK; }
      w.Record(Status(status, w.header));
    }

    method FlushHeld()
      modifies this`held, w`log
      ensures Value() == FlushStep(old(Value()))
    {
      var body := held;
      held := [];
      if plain {
        w.Record(Plain(body));
        return;
      }
      w.Record(Packed(body));
    }

    method Close()
      modifies this, w
      ensures Value() == CloseStep(old(Value()))
    {
      if !decided {
        Decide();
        FlushHeld();
      }
      if zip {
        w.Record(PackedEnd);
        zip := false;
      }
    }
  }

  // ---- a handler ----

  // What a handler does before it writes: set headers, and at most once say the status.
  datatype Head = Head(before: seq<(string, string)>, status: Option<int>, after: seq<(string, string)>)

  function SetAll(h: Header, pairs: seq<(string, string)>): Header
    decreases |pairs|
  {
    if pairs == [] then h else SetAll(h[pairs[0].0 := [pairs[0].1]], pairs[1..])
  }

  function Headed(header: Header, head: Head): State {
    var s := New(SetAll(header, head.before));
    var t := if head.status.Some? then WriteHeaderStep(s, head.status.value) else s;
    t.(header := SetAll(t.header, head.after))
  }

  function WriteAll(s: State, chunks: seq<Bytes>): State
    decreases |chunks|
  {
    if chunks == [] then s else WriteAll(WriteStep(s, chunks[0]), chunks[1..])
  }

  function Served(header: Header, head: Head, chunks: seq<Bytes>): State {
    CloseStep(WriteAll(Headed(header, head), chunks))
  }

  function Join(chunks: seq<Bytes>): Bytes {
    if chunks == [] then [] else chunks[0] + Join(chunks[1..])
  }

  // ---- what the client gets ----

  function BytesOf(e: Event): Bytes {
    match e case Plain(b) => b case Packed(b) => b case _ => []
  }

  function Body(log: seq<Event>): Bytes {
    if log == [] then [] else BytesOf(log[0]) + Body(log[1..])
  }

  function CodeOf(head: Head): int {
    if head.status.Some? && head.status.value != 0 then head.status.value else OK
  }

  // The status with its headers first and only once; then the whole body, all plain or all through
  // the sink, which is closed at the end.
  predicate Delivered(log: seq<Event>, status: int, sent: Header, packed: bool, body: Bytes) {
    && log != [] && log[0] == Status(status, sent) && Body(log) == body
    && if packed then
         log[|log| - 1] == PackedEnd && forall i :: 0 < i < |log| - 1 ==> log[i].Packed?
       else
         forall i :: 0 < i < |log| ==> log[i].Plain?
  }

  predicate Serving(s: State, status: int, sent: Header, packed: bool, body: Bytes) {
    && s.decided && s.held == [] && s.zip == packed && s.plain == !packed
    && s.log != [] && s.log[0] == Status(status, sent) && Body(s.log) == body
    && (forall i :: 0 < i < |s.log| ==> if packed then s.log[i].Packed? else s.log[i].Plain?)
  }

  lemma {:induction false} BodySnoc(log: seq<Event>, e: Event)
    ensures Body(log + [e]) == Body(log) + BytesOf(e)
  {
    hide BytesOf;
    if log == [] {
      assert [] + [e] == [e] && [e][1..] == [];
      assert BytesOf(e) + Body([]) == Body([]) + BytesOf(e);
    } else {
      assert (log + [e])[1..] == log[1..] + [e];
      BodySnoc(log[1..], e);
      assert BytesOf(log[0]) + (Body(log[1..]) + BytesOf(e)) == BytesOf(log[0]) + Body(log[1..]) + BytesOf(e);
    }
  }

  lemma {:induction false} GoesOn(s: State, chunks: seq<Bytes>, status: int, sent: Header, packed: bool, body: Bytes)
    requires Serving(s, status, sent, packed, body)
    ensures WriteAll(s, chunks).header == s.header
    ensures Serving(WriteAll(s, chunks), status, sent, packed, body + Join(chunks))
    decreases |chunks|
  {
    if chunks == [] {
      assert body + [] == body;
    } else {
      BodySnoc(s.log, if s.plain then Plain(chunks[0]) else Packed(chunks[0]));
      GoesOn(WriteStep(s, chunks[0]), chunks[1..], status, sent, packed, body + chunks[0]);
      assert body + chunks[0] + Join(chunks[1..]) == body + Join(chunks);
    }
  }

  lemma Decides(s: State)
    requires !s.decided && !s.zip && !s.plain && s.log == []
    ensures var t := FlushStep(DecideStep(s));
            && Serving(t, StatusOf(s), t.header, Worth(s.header, |s.held|), s.held)
            && t.header == if Worth(s.header, |s.held|) then PackedHeader(s.header) else s.header
  {
    hide Worth, PackedHeader;
    var sent := DecideStep(s).header;
    BodySnoc([Status(StatusOf(s), sent)], if Worth(s.header, |s.held|) then Packed(s.held) else Plain(s.held));
    BodySnoc([], Status(StatusOf(s), sent));
    assert [] + [Status(StatusOf(s), sent)] == [Status(StatusOf(s), sent)];
  }

  // The choice falls on the total, whichever write happens to reach the threshold.
  lemma {:induction false} Holds(s: State, chunks: seq<Bytes>)
    requires !s.decided && !s.zip && !s.plain && s.log == [] && |s.held| < COMPRESS_ABOVE
    ensures var total := s.held + Join(chunks);
            var packed := Worth(s.header, |total|);
            var t := WriteAll(s, chunks);
            var u := if t.decided then t else FlushStep(DecideStep(t));
            && Serving(u, StatusOf(s), u.header, packed, total)
            && u.header == if packed then PackedHeader(s.header) else s.header
    decreases |chunks|
  {
    hide Compressible, Get, PackedHeader, Serving;
    if chunks == [] {
      assert s.held + [] == s.held;
      Decides(s);
    } else {
      var held := s.held + chunks[0];
      assert held + Join(chunks[1..]) == s.held + Join(chunks);
      var t := s.(held := held);
      if |held| < COMPRESS_ABOVE {
        Holds(t, chunks[1..]);
      } else {
        Decides(t);
        var u := FlushStep(DecideStep(t));
        GoesOn(u, chunks[1..], StatusOf(s), u.header, Worth(s.header, |held|), held);
        StaysDecided(u, chunks[1..]);
      }
    }
  }

  lemma {:induction false} StaysDecided(s: State, chunks: seq<Bytes>)
    requires s.decided
    ensures WriteAll(s, chunks).decided
    decreases |chunks|
  {
    if chunks != [] { StaysDecided(WriteStep(s, chunks[0]), chunks[1..]); }
  }

  lemma Closes(s: State, status: int, sent: Header, packed: bool, body: Bytes)
    requires Serving(s, status, sent, packed, body)
    ensures Delivered(CloseStep(s).log, status, sent, packed, body) && CloseStep(s).header == s.header
  {
    if packed {
      BodySnoc(s.log, PackedEnd);
      assert body + [] == body;
    }
  }

  // For every handler: the status is sent exactly once and before any body, with all the headers
  // (those set before it, when there is no body to wait for); the client gets exactly what was
  // written, and whether it comes packed depends on the headers and the total length alone.
  lemma EveryHandlerServed(header: Header, head: Head, chunks: seq<Bytes>)
    requires head.status.Some? && Bodiless(head.status.value) ==> Join(chunks) == []
    ensures var s := Served(header, head, chunks);
            var final := SetAll(SetAll(header, head.before), head.after);
            var bodiless := head.status.Some? && Bodiless(head.status.value);
            var packed := !bodiless && Worth(final, |Join(chunks)|);
            var sent := if bodiless then SetAll(header, head.before) else if packed then PackedHeader(final) else final;
            && Delivered(s.log, CodeOf(head), sent, packed, Join(chunks))
            && s.header == if packed then PackedHeader(final) else final
  {
    hide Compressible, Get, PackedHeader, Serving;
    var s := Headed(header, head);
    if head.status.Some? && Bodiless(head.status.value) {
      var code := head.status.value;
      var sent := SetAll(header, head.before);
      assert Serving(s, code, sent, false, []) by { BodilessServing(s, code, sent); }
      GoesOn(s, chunks, code, sent, false, []);
      assert [] + Join(chunks) == Join(chunks);
      StaysDecided(s, chunks);
      Closes(WriteAll(s, chunks), code, sent, false, Join(chunks));
    } else {
      Holds(s, chunks);
      assert [] + Join(chunks) == Join(chunks);
      var t := WriteAll(s, chunks);
      var u := if t.decided then t else FlushStep(DecideStep(t));
      assert CloseStep(t) == CloseStep(u);
      Closes(u, StatusOf(s), u.header, Worth(s.header, |Join(chunks)|), Join(chunks));
    }
  }

  lemma BodilessServing(s: State, code: int, sent: Header)
    requires s.decided && s.plain && !s.zip && s.held == [] && s.log == [Status(code, sent)]
    ensures Serving(s, code, sent, false, [])
  {
    BodySnoc([], Status(code, sent));
    assert [] + [Status(code, sent)] == [Status(code, sent)];
  }

  // How the body was cut into writes makes no difference.
  lemma ChunkingInvisible(header: Header, head: Head, a: seq<Bytes>, b: seq<Bytes>)
    requires head.status.Some? && Bodiless(head.status.value) ==> Join(a) == []
    requires Join(a) == Join(b)
    ensures var s, t := Served(header, head, a), Served(header, head, b);
            && s.header == t.header && Body(s.log) == Body(t.log)
            && s.log != [] && t.log != [] && s.log[0] == t.log[0]
            && (PackedEnd in s.log <==> PackedEnd in t.log)
  {
    EveryHandlerServed(header, head, a);
    EveryHandlerServed(header, head, b);
  }

  // ---- any handler ----

  // Handlers may also change the headers between writes, and say the status when they like.
  datatype Move = Headers(header: Header) | Say(status: int) | Put(body: Bytes)

  function Moved(s: State, m: Move): State {
    match m
    case Headers(header) => s.(header := header)
    case Say(status) => WriteHeaderStep(s, status)
    case Put(body) => WriteStep(s, body)
  }

  function MoveAll(s: State, moves: seq<Move>): State
    decreases |moves|
  {
    if moves == [] then s else MoveAll(Moved(s, moves[0]), moves[1..])
  }

  function Answer(s: State, moves: seq<Move>): seq<Event> { CloseStep(MoveAll(s, moves)).log }

  function BytesPut(m: Move): Bytes { if m.Put? then m.body else [] }

  function PutAll(moves: seq<Move>): Bytes {
    if moves == [] then [] else BytesPut(moves[0]) + PutAll(moves[1..])
  }

  // A status may be said as long as the response is undecided, one without a body only before
  // anything is written. Once the body is being packed, other statuses are ignored.
  predicate MaySay(s: State, status: int) {
    if s.decided then !s.plain && !Bodiless(status) else Bodiless(status) ==> s.held == []
  }

  predicate InTime(s: State, moves: seq<Move>)
    decreases |moves|
  {
    moves == [] || ((moves[0].Say? ==> MaySay(s, moves[0].status)) && InTime(Moved(s, moves[0]), moves[1..]))
  }

  // The status once and first, then exactly these bytes, all plain or all packed.
  predicate Fine(log: seq<Event>, body: Bytes) {
    && log != [] && log[0].Status?
    && (Delivered(log, log[0].code, log[0].header, false, body) || Delivered(log, log[0].code, log[0].header, true, body))
  }

  // The headers h were there when the choice was made, and it fell on the whole length.
  predicate Answered(log: seq<Event>, code: int, h: Header, body: Bytes) {
    var packed := !Bodiless(code) && Worth(h, |body|);
    Delivered(log, code, if packed then PackedHeader(h) else h, packed, body)
  }

  lemma {:induction false} LogGrows(s: State, moves: seq<Move>)
    ensures s.log <= Answer(s, moves)
    decreases |moves|
  {
    if moves != [] { LogGrows(Moved(s, moves[0]), moves[1..]); }
  }

  lemma TwoStatuses(log: seq<Event>, more: seq<Event>, e: Event, body: Bytes)
    requires log != [] && e.Status? && log + [e] <= more
    ensures !Fine(more, body)
  {
    assert more[|log|] == (log + [e])[|log|] == e;
    hide Body;
  }

  lemma PlainStep(s: State, m: Move)
    requires s.decided && s.plain && !s.zip
    ensures var t := Moved(s, m); t.decided && t.plain && !t.zip && Body(t.log) == Body(s.log) + BytesPut(m)
  {
    hide Body;
    match m {
      case Put(body) => BodySnoc(s.log, Plain(body));
      case Say(status) => BodySnoc(s.log, Status(status, s.header));
      case Headers(_) =>
    }
    assert Body(s.log) + [] == Body(s.log);
  }

  // Once plain, everything written is passed on.
  lemma {:induction false} PlainOn(s: State, moves: seq<Move>)
    requires s.decided && s.plain && !s.zip
    ensures Body(Answer(s, moves)) == Body(s.log) + PutAll(moves)
    decreases |moves|
  {
    hide Body, Moved, BytesPut;
    if moves == [] {
      assert Body(s.log) + [] == Body(s.log);
    } else {
      PlainStep(s, moves[0]);
      PlainOn(Moved(s, moves[0]), moves[1..]);
      PutRegroup(Body(s.log), moves[0], moves[1..]);
    }
  }

  // After the choice: all is fine exactly when no status comes too late.
  lemma {:induction false} ServedOn(s: State, moves: seq<Move>, status: int, sent: Header, packed: bool, body: Bytes)
    requires Serving(s, status, sent, packed, body)
    ensures InTime(s, moves) ==> Delivered(Answer(s, moves), status, sent, packed, body + PutAll(moves))
    ensures Fine(Answer(s, moves), body + PutAll(moves)) <==> InTime(s, moves)
    decreases |moves|
  {
    hide Delivered, Body;
    if moves == [] {
      assert body + [] == body;
      Closes(s, status, sent, packed, body);
      DeliveredFine(Answer(s, moves), status, sent, packed, body);
    } else {
      var m, t := moves[0], Moved(s, moves[0]);
      PutRegroup(body, m, moves[1..]);
      if m.Say? && !MaySay(s, m.status) {
        assert t.log == s.log + [Status(m.status, s.header)];
        LogGrows(t, moves[1..]);
        TwoStatuses(s.log, Answer(t, moves[1..]), Status(m.status, s.header), body + PutAll(moves));
      } else {
        if m.Put? { BodySnoc(s.log, if s.plain then Plain(m.body) else Packed(m.body)); }
        assert Serving(t, status, sent, packed, body + BytesPut(m)) by { assert body + [] == body; }
        ServedOn(t, moves[1..], status, sent, packed, body + BytesPut(m));
      }
    }
  }

  lemma DeliveredFine(log: seq<Event>, code: int, sent: Header, packed: bool, body: Bytes)
    requires Delivered(log, code, sent, packed, body)
    ensures Fine(log, body)
  {}

  lemma PutRegroup(body: Bytes, m: Move, more: seq<Move>)
    ensures body + (BytesPut(m) + PutAll(more)) == body + BytesPut(m) + PutAll(more)
  {}

  lemma WorthLonger(h: Header, n: nat, m: nat)
    requires COMPRESS_ABOVE <= n <= m
    ensures Worth(h, n) == Worth(h, m)
  {}

  // Before it.
  lemma {:induction false} ServedFrom(s: State, moves: seq<Move>) returns (code: int, h: Header)
    requires !s.decided && !s.zip && !s.plain && s.log == [] && |s.held| < COMPRESS_ABOVE && !Bodiless(s.status)
    ensures InTime(s, moves) ==> Answered(Answer(s, moves), code, h, s.held + PutAll(moves))
    ensures Fine(Answer(s, moves), s.held + PutAll(moves)) <==> InTime(s, moves)
    ensures code != 0 && (code == OK || code == s.status || Say(code) in moves)
    decreases |moves|
  {
    hide Worth, PackedHeader, Serving, Delivered, Body, Fine;
    code, h := StatusOf(s), s.header;
    if moves == [] {
      Decides(s);
      var u := FlushStep(DecideStep(s));
      assert s.held + [] == s.held && CloseStep(s) == CloseStep(u);
      Closes(u, code, u.header, Worth(h, |s.held|), s.held);
      DeliveredFine(Answer(s, moves), code, u.header, Worth(h, |s.held|), s.held);
    } else {
      var m, t, more := moves[0], Moved(s, moves[0]), moves[1..];
      assert moves == [m] + more;
      PutRegroup(s.held, m, more);
      if m.Put? && |s.held + m.body| >= COMPRESS_ABOVE {
        var full := s.(held := s.held + m.body);
        Decides(full);
        WorthLonger(h, |full.held|, |full.held + PutAll(more)|);
        ServedOn(t, more, code, t.header, Worth(h, |full.held|), full.held);
      } else if m.Say? && Bodiless(m.status) {
        code := m.status;
        if s.held == [] {
          BodilessServing(t, code, h);
          assert s.held + PutAll(more) == [] + PutAll(more);
          ServedOn(t, more, code, h, false, []);
        } else {
          PlainOn(t, more);
          BodySnoc([], Status(code, h));
          HeldIsLost(t, more, s.held);
        }
      } else {
        code, h := ServedFrom(t, more);
        if code == t.status && m.Say? { assert Say(code) == m; }
        assert s.held + [] == s.held;
      }
    }
  }

  // What was held when a status without a body was said never reaches the client.
  lemma HeldIsLost(t: State, more: seq<Move>, held: Bytes)
    requires held != [] && t.decided && t.plain && !t.zip && |t.log| == 1 && t.log[0].Status?
    ensures !Fine(Answer(t, more), held + PutAll(more))
  {
    PlainOn(t, more);
    assert Body(t.log) == [] by { assert t.log[1..] == []; assert Body(t.log[1..]) == []; }
    assert |held + PutAll(more)| > |PutAll(more)|;
  }

  // Whatever a handler does and in whatever order: the client gets the status once and first, then
  // exactly what was written, all plain or all packed, if and only if every status is said in time.
  lemma AnyHandlerServedIff(header: Header, moves: seq<Move>)
    ensures Fine(Answer(New(header), moves), PutAll(moves)) <==> InTime(New(header), moves)
  {
    var code, h := ServedFrom(New(header), moves);
    assert [] + PutAll(moves) == PutAll(moves);
  }

  // Then the status is one the handler said, or OK, with the headers that were there when the
  // choice was made; and that fell on the whole length.
  lemma AnyHandlerAnswered(header: Header, moves: seq<Move>) returns (code: int, h: Header)
    requires InTime(New(header), moves)
    ensures Answered(Answer(New(header), moves), code, h, PutAll(moves))
    ensures code == OK || Say(code) in moves
  {
    code, h := ServedFrom(New(header), moves);
    assert [] + PutAll(moves) == PutAll(moves);
  }

  // One byte written, then the status for no content: the byte is lost.
  lemma LateNoContentLoses(header: Header)
    ensures Body(Answer(New(header), [Put([1]), Say(NO_CONTENT)])) == []
  {
    var moves := [Put([1]), Say(NO_CONTENT)];
    assert moves[1..] == [Say(NO_CONTENT)] && [Say(NO_CONTENT)][1..] == [];
    var s1 := Moved(New(header), Put([1]));
    assert [] + [1] == [1];
    var s2 := Moved(s1, Say(NO_CONTENT));
    assert s2.log == [Status(NO_CONTENT, header)] && s2.decided && s2.plain && !s2.zip;
    assert Answer(New(header), moves) == Answer(s1, [Say(NO_CONTENT)]) == Answer(s2, []);
    PlainOn(s2, []);
    assert s2.log[1..] == [];
  }
}
