// internal/media/strip.go: taking metadata out of JPEG and PNG files.
module Strip {
  import opened Common

  type Bytes = seq<byte>

  // ---- JPEG: ITU-T T.81 Annex B ----

  predicate IsStandalone(marker: byte) {
    marker == 0xd8 || marker == 0x01 || 0xd0 <= marker <= 0xd7
  }

  // APPn and COM.
  predicate IsDroppedMarker(marker: byte) {
    0xe0 <= marker <= 0xef || marker == 0xfe
  }

  datatype Piece = Standalone(bytes: Bytes) | Segment(marker: byte, bytes: Bytes) | Tail(bytes: Bytes)

  function SegmentLength(s: Bytes): (n: nat)
    requires |s| >= 4
  {
    s[2] as nat * 256 + s[3] as nat
  }

  // A marker segment stands at the start of s, complete.
  predicate StartsSegment(s: Bytes) {
    && |s| >= 4 && s[0] == 0xff && !IsStandalone(s[1]) && s[1] != 0xda
    && 2 <= SegmentLength(s) <= |s| - 2
  }

  predicate StartsStandalone(s: Bytes) {
    |s| >= 4 && s[0] == 0xff && IsStandalone(s[1])
  }

  // Only the last piece is a tail, and every segment is complete.
  predicate WellFormed(p: Piece) {
    match p
    case Standalone(b) => |b| == 2 && b[0] == 0xff && IsStandalone(b[1])
    case Segment(m, b) => StartsSegment(b) && |b| == 2 + SegmentLength(b) && b[1] == m
    case Tail(b) => !StartsStandalone(b) && !StartsSegment(b)
  }

  predicate Continues(s: Bytes) { StartsStandalone(s) || StartsSegment(s) }

  function First(s: Bytes): (p: Piece)
    requires Continues(s)
    ensures 2 <= |p.bytes| <= |s| && p.bytes == s[..|p.bytes|]
    ensures WellFormed(p) && !p.Tail?
  {
    if StartsStandalone(s) then Standalone(s[..2]) else Segment(s[1], s[..2 + SegmentLength(s)])
  }

  // What follows the start of the image: markers and segments as far as they parse, then the
  // rest, which begins with the start of a scan or is no marker segment.
  function Pieces(s: Bytes): (r: seq<Piece>)
    ensures r != []
    decreases |s|
  {
    if Continues(s) then [First(s)] + Pieces(s[|First(s).bytes|..]) else [Tail(s)]
  }

  predicate IsDropped(p: Piece) { p.Segment? && IsDroppedMarker(p.marker) }

  function Print(pieces: seq<Piece>): Bytes {
    if pieces == [] then [] else pieces[0].bytes + Print(pieces[1..])
  }

  function Kept(pieces: seq<Piece>): seq<Piece> {
    if pieces == [] then []
    else (if IsDropped(pieces[0]) then [] else [pieces[0]]) + Kept(pieces[1..])
  }

  predicate AnyDropped(pieces: seq<Piece>) { exists p <- pieces :: IsDropped(p) }

  // What a suffix of the file is reduced to.
  function Cleaned(s: Bytes): Bytes { Print(Kept(Pieces(s))) }

  const SOI: Bytes := [0xff, 0xd8]

  predicate IsJPEG(body: Bytes) { |body| >= 4 && body[0] == 0xff && body[1] == 0xd8 }

  function StrippedJPEG(body: Bytes): (Bytes, bool) {
    if !IsJPEG(body) then (body, false)
    else (SOI + Cleaned(body[2..]), AnyDropped(Pieces(body[2..])))
  }

  lemma CleanedStep(s: Bytes)
    ensures Continues(s) ==>
      var p := First(s);
      && Cleaned(s) == (if IsDropped(p) then [] else p.bytes) + Cleaned(s[|p.bytes|..])
      && AnyDropped(Pieces(s)) == (IsDropped(p) || AnyDropped(Pieces(s[|p.bytes|..])))
    ensures !Continues(s) ==> Cleaned(s) == s && !AnyDropped(Pieces(s))
  {
    hide Continues, First, WellFormed, Kept, Print, AnyDropped;
    if Continues(s) {
      OnePiece(First(s), Pieces(s[|First(s).bytes|..]));
    } else {
      TailAlone(s);
    }
  }

  lemma TailAlone(s: Bytes)
    ensures Print(Kept([Tail(s)])) == s == Print([Tail(s)]) && !AnyDropped([Tail(s)])
  {
    OnePiece(Tail(s), []);
    FirstPrinted(Tail(s), []);
    assert [Tail(s)] + [] == [Tail(s)] && s + [] == s;
    assert !AnyDropped([]);
  }

  lemma OnePiece(p: Piece, more: seq<Piece>)
    ensures Print(Kept([p] + more)) == (if IsDropped(p) then [] else p.bytes) + Print(Kept(more))
    ensures AnyDropped([p] + more) == (IsDropped(p) || AnyDropped(more))
  {
    var all := [p] + more;
    assert all[0] == p && all[1..] == more;
    if IsDropped(p) {
      assert p in all;
      assert [] + Kept(more) == Kept(more);
    } else {
      var kept := [p] + Kept(more);
      assert kept[0] == p && kept[1..] == Kept(more);
    }
  }

  method StripJPEG(body: Bytes) returns (out: Bytes, changed: bool)
    ensures (out, changed) == StrippedJPEG(body)
  {
    hide Cleaned, Pieces, AnyDropped;
    if |body| < 4 || body[0] != 0xff || body[1] != 0xd8 {
      return body, false;
    }
    out := SOI;
    var i := 2;
    changed := false;
    while i + 3 < |body|
      invariant 2 <= i <= |body|
      invariant out + Cleaned(body[i..]) == SOI + Cleaned(body[2..])
      invariant (changed || AnyDropped(Pieces(body[i..]))) == AnyDropped(Pieces(body[2..]))
    {
      ghost var s := body[i..];
      CleanedStep(s);
      if body[i] != 0xff { break; }
      var marker := body[i + 1];
      assert s[0] == body[i] && s[1] == marker;
      if marker == 0xd8 || marker == 0x01 || (0xd0 <= marker <= 0xd7) {
        Advance(body, i, out, [body[i], marker]);
        out := out + [body[i], marker];
        i := i + 2;
        continue;
      }
      if marker == 0xda {
        out := out + body[i..];
        return;
      }
      var length := body[i + 2] as nat * 256 + body[i + 3] as nat;
      assert length == SegmentLength(s);
      if length < 2 || i + 2 + length > |body| { break; }
      Advance(body, i, out, body[i..i + 2 + length]);
      if IsDroppedMarker(marker) {
        changed := true;
      } else {
        out := out + body[i..i + 2 + length];
      }
      i := i + 2 + length;
    }
    assert !Continues(body[i..]);
    CleanedStep(body[i..]);
    if i < |body| {
      out := out + body[i..];
    } else {
      assert out + body[i..] == out;
    }
  }

  // One turn of the loop: the piece at i, kept or not.
  lemma Advance(body: Bytes, i: nat, out: Bytes, piece: Bytes)
    requires i <= |body| && Continues(body[i..]) && i + |piece| <= |body|
    requires piece == body[i..i + |piece|] && |piece| == |First(body[i..]).bytes|
    ensures var dropped := IsDropped(First(body[i..]));
            && out + Cleaned(body[i..]) == (if dropped then out else out + piece) + Cleaned(body[i + |piece|..])
            && AnyDropped(Pieces(body[i..])) == (dropped || AnyDropped(Pieces(body[i + |piece|..])))
  {
    hide Cleaned, Pieces, AnyDropped, First, Continues;
    var s, n := body[i..], |piece|;
    CleanedStep(s);
    assert s[n..] == body[i + n..] && s[..n] == piece;
    assert [] + Cleaned(s[n..]) == Cleaned(s[n..]);
    Regroup(out, piece, Cleaned(s[n..]));
  }

  lemma Regroup(a: Bytes, b: Bytes, c: Bytes)
    ensures a + (b + c) == a + b + c
  {}

  // ---- what stripping does to the pieces ----

  // Nothing is lost in taking the file apart.
  lemma {:induction false} PiecesPrint(s: Bytes)
    ensures Print(Pieces(s)) == s
    decreases |s|
  {
    hide Continues, First, Print, WellFormed;
    if Continues(s) {
      var p := First(s);
      var rest := s[|p.bytes|..];
      PiecesPrint(rest);
      FirstPrinted(p, Pieces(rest));
      assert s == p.bytes + rest;
    } else {
      TailAlone(s);
    }
  }

  lemma FirstPrinted(p: Piece, more: seq<Piece>)
    ensures Print([p] + more) == p.bytes + Print(more)
  {
    assert ([p] + more)[1..] == more;
  }

  predicate Parsed(pieces: seq<Piece>) {
    && pieces != [] && pieces[|pieces| - 1].Tail?
    && (forall i :: 0 <= i < |pieces| ==> WellFormed(pieces[i]))
    && (forall i :: 0 <= i < |pieces| - 1 ==> !pieces[i].Tail?)
  }

  lemma {:induction false} PiecesParsed(s: Bytes)
    ensures Parsed(Pieces(s))
    decreases |s|
  {
    if Continues(s) {
      hide Continues, First, WellFormed;
      PiecesParsed(s[|First(s).bytes|..]);
    }
  }

  lemma SegmentReads(b: Bytes, rest: Bytes)
    requires StartsSegment(b) && |b| == 2 + SegmentLength(b)
    ensures Pieces(b + rest) == [Segment(b[1], b)] + Pieces(rest)
    ensures Cleaned(b + rest) == (if IsDroppedMarker(b[1]) then [] else b) + Cleaned(rest)
  {
    var s := b + rest;
    assert s[..|b|] == b && s[|b|..] == rest;
    CleanedStep(s);
  }

  // A marker without a segment, when at least two bytes follow; with fewer it counts as the
  // tail, which comes to the same bytes.
  lemma StandaloneReads(b: Bytes, rest: Bytes)
    requires |b| == 2 && b[0] == 0xff && IsStandalone(b[1])
    ensures |rest| >= 2 ==> Pieces(b + rest) == [Standalone(b)] + Pieces(rest)
    ensures Cleaned(b + rest) == b + Cleaned(rest)
  {
    var s := b + rest;
    assert s[..2] == b && s[2..] == rest;
    CleanedStep(s);
    CleanedStep(rest);
  }

  lemma {:induction false} KeptStays(pieces: seq<Piece>)
    requires Parsed(pieces)
    ensures Cleaned(Print(Kept(pieces))) == Print(Kept(pieces))
    ensures !AnyDropped(Pieces(Print(Kept(pieces))))
    decreases |pieces|
  {
    var p, more := pieces[0], pieces[1..];
    assert pieces == [p] + more;
    OnePiece(p, more);
    if p.Tail? {
      assert more == [] && p.bytes + [] == p.bytes;
      CleanedStep(p.bytes);
    } else {
      assert WellFormed(p);
      KeptStays(more);
      var rest := Print(Kept(more));
      if p.Standalone? {
        StandaloneReads(p.bytes, rest);
        CleanedStep(p.bytes + rest);
        assert (p.bytes + rest)[2..] == rest;
      } else if IsDropped(p) {
        assert [] + rest == rest;
      } else {
        SegmentReads(p.bytes, rest);
        CleanedStep(p.bytes + rest);
        assert (p.bytes + rest)[|p.bytes|..] == rest;
      }
    }
  }

  // Stripping twice is stripping once, and the second time reports no change.
  lemma JPEGIdempotent(body: Bytes)
    ensures var out := StrippedJPEG(body).0; StrippedJPEG(out) == (out, false)
  {
    if IsJPEG(body) {
      var s := body[2..];
      PiecesParsed(s);
      KeptStays(Pieces(s));
      var out := SOI + Cleaned(s);
      assert out[2..] == Cleaned(s);
    }
  }

  lemma {:induction false} KeptShorter(pieces: seq<Piece>)
    requires forall p <- pieces :: WellFormed(p)
    ensures |Print(Kept(pieces))| <= |Print(pieces)|
    ensures if AnyDropped(pieces) then |Print(Kept(pieces))| < |Print(pieces)| else Kept(pieces) == pieces
  {
    if pieces != [] {
      var p, more := pieces[0], pieces[1..];
      assert pieces == [p] + more && p in pieces;
      forall q | q in more ensures WellFormed(q) { assert q in pieces; }
      OnePiece(p, more);
      FirstPrinted(p, more);
      KeptShorter(more);
    }
  }

  // Nothing grows, and a change is reported exactly when there is one.
  lemma JPEGChangedIff(body: Bytes)
    ensures var (out, changed) := StrippedJPEG(body);
            |out| <= |body| && (changed <==> out != body)
  {
    if IsJPEG(body) {
      var s := body[2..];
      PiecesParsed(s);
      PiecesPrint(s);
      AllWellFormed(Pieces(s));
      hide Pieces, Parsed, Kept, Print, AnyDropped, WellFormed;
      KeptShorter(Pieces(s));
      assert body == SOI + s;
    }
  }

  lemma AllWellFormed(pieces: seq<Piece>)
    requires Parsed(pieces)
    ensures forall p <- pieces :: WellFormed(p)
  {
    hide WellFormed;
  }

  // From the start of the scan, or wherever the segments stop making sense, every byte stays.
  lemma {:induction false} TailStays(pieces: seq<Piece>)
    requires Parsed(pieces)
    ensures var tail := pieces[|pieces| - 1].bytes;
            var out := Print(Kept(pieces));
            |tail| <= |out| && out[|out| - |tail|..] == tail
    decreases |pieces|
  {
    var p, more := pieces[0], pieces[1..];
    assert pieces == [p] + more;
    OnePiece(p, more);
    if more == [] {
      assert p.bytes + [] == p.bytes;
    } else {
      TailStays(more);
    }
  }

  lemma JPEGKeepsScan(body: Bytes)
    requires IsJPEG(body)
    ensures var pieces := Pieces(body[2..]);
            var tail, out := pieces[|pieces| - 1].bytes, StrippedJPEG(body).0;
            && !Continues(tail)
            && |tail| <= |body| - 2 && body[|body| - |tail|..] == tail
            && |tail| <= |out| && out[|out| - |tail|..] == tail
  {
    hide Pieces, Kept, Print, Continues, Parsed, AnyDropped;
    var s := body[2..];
    var pieces := Pieces(s);
    PiecesParsed(s);
    PiecesPrint(s);
    TailStays(pieces);
    LastPrinted(pieces);
    TailEnds(pieces);
    var tail := pieces[|pieces| - 1].bytes;
    EndOf(SOI, s, tail);
    EndOf(SOI, Cleaned(s), tail);
    assert body == SOI + s;
  }

  lemma TailEnds(pieces: seq<Piece>)
    requires Parsed(pieces)
    ensures !Continues(pieces[|pieces| - 1].bytes)
  {
    hide StartsSegment, StartsStandalone;
    assert WellFormed(pieces[|pieces| - 1]);
  }

  lemma EndOf(a: Bytes, b: Bytes, tail: Bytes)
    requires |tail| <= |b| && b[|b| - |tail|..] == tail
    ensures (a + b)[|a + b| - |tail|..] == tail
  {}

  lemma {:induction false} LastPrinted(pieces: seq<Piece>)
    requires pieces != []
    ensures var last, all := pieces[|pieces| - 1].bytes, Print(pieces);
            |last| <= |all| && all[|all| - |last|..] == last
    decreases |pieces|
  {
    var p, more := pieces[0], pieces[1..];
    assert pieces == [p] + more;
    FirstPrinted(p, more);
    hide Print;
    if more == [] {
      assert Print([]) == [] by { NothingPrinted(); }
      assert p.bytes + [] == p.bytes;
    } else {
      LastPrinted(more);
      EndOf(p.bytes, Print(more), more[|more| - 1].bytes);
    }
  }

  lemma NothingPrinted()
    ensures Print([]) == []
  {}

  // ---- inserted metadata ----

  // A complete APPn or COM segment.
  predicate IsMetadata(segment: Bytes) {
    StartsSegment(segment) && |segment| == 2 + SegmentLength(segment) && IsDroppedMarker(segment[1])
  }

  lemma {:induction false} InsertionInvisible(s: Bytes, k: nat, segment: Bytes)
    requires k < |Pieces(s)| && IsMetadata(segment)
    ensures Cleaned(Print(Pieces(s)[..k]) + segment + Print(Pieces(s)[k..])) == Cleaned(s)
    decreases |s|
  {
    var pieces := Pieces(s);
    PiecesPrint(s);
    NothingPrinted();
    if k == 0 {
      hide Pieces, Print, Cleaned;
      assert pieces[..0] == [] && pieces[0..] == pieces;
      assert [] + segment + s == segment + s;
      SegmentReads(segment, s);
      assert [] + Cleaned(s) == Cleaned(s);
    } else {
      hide First, WellFormed, StartsSegment, StartsStandalone, Cleaned, Print, Continues, IsMetadata;
      var p := First(s);
      var rest := s[|p.bytes|..];
      var left, right := Pieces(rest)[..k - 1], Pieces(rest)[k - 1..];
      assert pieces == [p] + Pieces(rest);
      InsertionInvisible(rest, k - 1, segment);
      assert pieces[..k] == [p] + left && pieces[k..] == right;
      hide Pieces;
      FirstPrinted(p, left);
      Regroup4(p.bytes, Print(left), segment, Print(right));
      CleanedStep(s);
      PieceReads(p, Print(left) + segment + Print(right));
    }
  }

  lemma PieceReads(p: Piece, rest: Bytes)
    requires WellFormed(p) && !p.Tail?
    ensures Cleaned(p.bytes + rest) == (if IsDropped(p) then [] else p.bytes) + Cleaned(rest)
  {
    hide Cleaned;
    if p.Standalone? { StandaloneReads(p.bytes, rest); } else { SegmentReads(p.bytes, rest); }
  }

  lemma Regroup4(a: Bytes, b: Bytes, c: Bytes, d: Bytes)
    ensures a + b + c + d == a + (b + c + d)
  {}

  // Metadata inserted between any two pieces the loop reaches leaves no trace.
  lemma JPEGInsertionInvisible(body: Bytes, k: nat, segment: Bytes)
    requires IsJPEG(body) && k < |Pieces(body[2..])| && IsMetadata(segment)
    ensures var pieces := Pieces(body[2..]);
            var more := SOI + (Print(pieces[..k]) + segment + Print(pieces[k..]));
            StrippedJPEG(more).0 == StrippedJPEG(body).0
  {
    var pieces := Pieces(body[2..]);
    var inner := Print(pieces[..k]) + segment + Print(pieces[k..]);
    InsertionInvisible(body[2..], k, segment);
    assert (SOI + inner)[2..] == inner;
  }
}
