// internal/media/strip.go: the PNG half. A chunk is a length, a name, the data and a checksum
// (section 5.3 of the PNG Specification, Third Edition).
module StripPng {
  import opened Common

  type Bytes = seq<byte>

  const SIGNATURE: Bytes := [0x89, 0x50, 0x4e, 0x47, 0x0d, 0x0a, 0x1a, 0x0a]

  // IEND, and tEXt, zTXt, iTXt, eXIf, tIME, dSIG.
  const IEND: Bytes := [0x49, 0x45, 0x4e, 0x44]
  const DROPPED: seq<Bytes> := [
    [0x74, 0x45, 0x58, 0x74], [0x7a, 0x54, 0x58, 0x74], [0x69, 0x54, 0x58, 0x74],
    [0x65, 0x58, 0x49, 0x66], [0x74, 0x49, 0x4d, 0x45], [0x64, 0x53, 0x49, 0x47]]

  predicate IsDroppedName(name: Bytes) { name in DROPPED }

  function Length(s: Bytes): (n: nat)
    requires |s| >= 4
  {
    s[0] as nat * 0x1000000 + s[1] as nat * 0x10000 + s[2] as nat * 0x100 + s[3] as nat
  }

  // A whole chunk stands at the start of s.
  predicate StartsChunk(s: Bytes) {
    |s| >= 8 && 12 + Length(s) <= |s|
  }

  function Size(s: Bytes): (n: nat)
    requires StartsChunk(s)
    ensures 12 <= n <= |s|
  {
    12 + Length(s)
  }

  predicate IsChunk(c: Bytes) { StartsChunk(c) && Size(c) == |c| }

  function NameOf(c: Bytes): Bytes
    requires |c| >= 8
  {
    c[4..8]
  }

  predicate Ends(c: Bytes) { |c| >= 8 && NameOf(c) == IEND }
  predicate IsDropped(c: Bytes) { |c| >= 8 && IsDroppedName(NameOf(c)) }

  // The complete chunks up to and including the first IEND.
  function Chunks(s: Bytes): seq<Bytes>
    decreases |s|
  {
    if !StartsChunk(s) then []
    else if Ends(s) then [s[..Size(s)]]
    else [s[..Size(s)]] + Chunks(s[Size(s)..])
  }

  // What stands behind them.
  function Trailing(s: Bytes): Bytes
    decreases |s|
  {
    if !StartsChunk(s) then s
    else if Ends(s) then s[Size(s)..]
    else Trailing(s[Size(s)..])
  }

  function Join(chunks: seq<Bytes>): Bytes {
    if chunks == [] then [] else chunks[0] + Join(chunks[1..])
  }

  function Kept(chunks: seq<Bytes>): seq<Bytes> {
    if chunks == [] then [] else (if IsDropped(chunks[0]) then [] else [chunks[0]]) + Kept(chunks[1..])
  }

  predicate AnyDropped(chunks: seq<Bytes>) { exists c <- chunks :: IsDropped(c) }

  predicate IsPNG(body: Bytes) { |body| >= 8 && body[..8] == SIGNATURE }

  function StrippedPNG(body: Bytes): (Bytes, bool) {
    if !IsPNG(body) then (body, false)
    else (SIGNATURE + Join(Kept(Chunks(body[8..]))), AnyDropped(Chunks(body[8..])))
  }

  lemma OneChunk(c: Bytes, more: seq<Bytes>)
    ensures Join([c] + more) == c + Join(more)
    ensures Kept([c] + more) == (if IsDropped(c) then [] else [c]) + Kept(more)
    ensures Join(Kept([c] + more)) == (if IsDropped(c) then [] else c) + Join(Kept(more))
    ensures AnyDropped([c] + more) == (IsDropped(c) || AnyDropped(more))
  {
    hide IsDropped;
    var all := [c] + more;
    assert all[0] == c && all[1..] == more;
    if IsDropped(c) {
      assert c in all;
      assert [] + Kept(more) == Kept(more);
      assert [] + Join(Kept(more)) == Join(Kept(more));
    } else {
      var kept := [c] + Kept(more);
      assert kept[0] == c && kept[1..] == Kept(more);
    }
  }

  lemma NoChunks()
    ensures Join([]) == [] && Kept([]) == [] && !AnyDropped([])
  {}

  // The chunk that a chunk at the start of s is, and its kind.
  lemma ChunkOf(s: Bytes)
    requires StartsChunk(s)
    ensures var c := s[..Size(s)];
            IsChunk(c) && NameOf(c) == NameOf(s) && Ends(c) == Ends(s) && IsDropped(c) == IsDropped(s)
            && (Ends(s) ==> !IsDropped(s))
  {
    var c := s[..Size(s)];
    assert c[..4] == s[..4] && c[4..8] == s[4..8];
  }

  method StripPNG(body: Bytes) returns (out: Bytes, changed: bool)
    ensures (out, changed) == StrippedPNG(body)
  {
    hide Join, Kept, AnyDropped, IsDropped, Ends, IsDroppedName, Chunks;
    if !(|body| >= 8 && body[..8] == SIGNATURE) {
      return body, false;
    }
    NoChunks();
    out := SIGNATURE;
    var i := 8;
    changed := false;
    assert out + Join(Kept(Chunks(body[8..]))) == SIGNATURE + Join(Kept(Chunks(body[8..])));
    while i + 8 <= |body|
      invariant 8 <= i <= |body|
      invariant out + Join(Kept(Chunks(body[i..]))) == SIGNATURE + Join(Kept(Chunks(body[8..])))
      invariant (changed || AnyDropped(Chunks(body[i..]))) == AnyDropped(Chunks(body[8..]))
    {
      ghost var s := body[i..];
      assert s[0] == body[i] && s[1] == body[i + 1] && s[2] == body[i + 2] && s[3] == body[i + 3];
      var length := body[i] as nat * 0x1000000 + body[i + 1] as nat * 0x10000 + body[i + 2] as nat * 0x100 + body[i + 3] as nat;
      if i + 12 + length > |body| { break; }
      var name := body[i + 4..i + 8];
      var chunk := body[i..i + 12 + length];
      Advance(body, i, out, chunk);
      if IsDroppedName(name) {
        changed := true;
      } else {
        out := out + chunk;
      }
      i := i + 12 + length;
      if name == IEND {
        assert out + [] == out;
        return;
      }
    }
    assert !StartsChunk(body[i..]);
    assert Chunks(body[i..]) == [] by { NoChunk(body[i..]); }
    assert out + [] == out;
  }

  lemma NoChunk(s: Bytes)
    requires !StartsChunk(s)
    ensures Chunks(s) == []
  {}

  // One turn of the loop.
  lemma Advance(body: Bytes, i: nat, out: Bytes, chunk: Bytes)
    requires i <= |body| && StartsChunk(body[i..]) && i + |chunk| <= |body|
    requires chunk == body[i..i + |chunk|] && |chunk| == Size(body[i..])
    ensures var dropped := IsDroppedName(body[i + 4..i + 8]);
            var ends := body[i + 4..i + 8] == IEND;
            var more := if ends then [] else Chunks(body[i + |chunk|..]);
            && out + Join(Kept(Chunks(body[i..]))) == (if dropped then out else out + chunk) + Join(Kept(more))
            && AnyDropped(Chunks(body[i..])) == (dropped || AnyDropped(more))
  {
    var s := body[i..];
    ChunkOf(s);
    assert s[Size(s)..] == body[i + |chunk|..] && s[..Size(s)] == chunk && NameOf(s) == body[i + 4..i + 8];
    hide Join, Kept, AnyDropped, IsDroppedName, StartsChunk, Size;
    var more := if Ends(s) then [] else Chunks(s[Size(s)..]);
    assert Chunks(s) == [chunk] + more;
    OneChunk(chunk, more);
    Regroup(out, chunk, Join(Kept(more)));
    assert [] + Join(Kept(more)) == Join(Kept(more));
  }

  lemma Regroup(a: Bytes, b: Bytes, c: Bytes)
    ensures a + (b + c) == a + b + c
  {}

  // ---- what stripping does to the chunks ----

  // The chunks and what follows them are the file.
  lemma {:induction false} ChunksAndTrailing(s: Bytes)
    ensures Join(Chunks(s)) + Trailing(s) == s
    decreases |s|
  {
    hide StartsChunk, Ends, Join, Size;
    NoChunks();
    if StartsChunk(s) {
      var c, rest := s[..Size(s)], s[Size(s)..];
      assert c + rest == s;
      if Ends(s) {
        OneChunk(c, []);
        assert [c] + [] == [c] && c + [] == c;
      } else {
        ChunksAndTrailing(rest);
        OneChunk(c, Chunks(rest));
        Regroup(c, Join(Chunks(rest)), Trailing(rest));
      }
    } else {
      assert [] + s == s;
    }
  }

  // Chunks as they can stand in a file: complete, and none behind an IEND.
  predicate Proper(chunks: seq<Bytes>) {
    && (forall c <- chunks :: IsChunk(c))
    && (forall i :: 0 <= i < |chunks| - 1 ==> !Ends(chunks[i]))
  }

  lemma {:induction false} ChunksProper(s: Bytes)
    ensures Proper(Chunks(s))
    decreases |s|
  {
    if StartsChunk(s) {
      ChunkOf(s);
      hide StartsChunk, Size, Ends, IsChunk, IsDropped;
      if !Ends(s) {
        ChunksProper(s[Size(s)..]);
        assert Chunks(s) == [s[..Size(s)]] + Chunks(s[Size(s)..]);
      }
    }
  }

  lemma ChunkReads(c: Bytes, rest: Bytes)
    requires IsChunk(c)
    ensures StartsChunk(c + rest) && Size(c + rest) == |c| && Ends(c + rest) == Ends(c)
    ensures (c + rest)[..|c|] == c && (c + rest)[|c|..] == rest
  {
    var s := c + rest;
    assert s[..4] == c[..4] && s[4..8] == c[4..8];
    assert s[0] == c[0] && s[1] == c[1] && s[2] == c[2] && s[3] == c[3];
  }

  lemma ChunkStep(c: Bytes, rest: Bytes)
    requires IsChunk(c)
    ensures Chunks(c + rest) == [c] + (if Ends(c) then [] else Chunks(rest))
    ensures Trailing(c + rest) == if Ends(c) then rest else Trailing(rest)
  {
    ChunkReads(c, rest);
    hide IsChunk, StartsChunk, Size, Ends;
    assert [c] + [] == [c];
  }

  // Chunks written one after the other are read back as they were, whatever follows an IEND;
  // otherwise reading goes on behind them.
  lemma {:induction false} ProperReads(chunks: seq<Bytes>, rest: Bytes)
    requires Proper(chunks)
    ensures var ended := chunks != [] && Ends(chunks[|chunks| - 1]);
            && Chunks(Join(chunks) + rest) == chunks + (if ended then [] else Chunks(rest))
            && Trailing(Join(chunks) + rest) == (if ended then rest else Trailing(rest))
    decreases |chunks|
  {
    hide StartsChunk, Size, Ends, IsChunk, Proper, Join, Chunks, Trailing;
    NoChunks();
    if chunks == [] {
      assert [] + rest == rest && [] + Chunks(rest) == Chunks(rest);
    } else {
      var c, more := chunks[0], chunks[1..];
      assert chunks == [c] + more && c in chunks;
      PartsProper([c], more);
      assert IsChunk(c) by { AllChunks(chunks, c); }
      OneChunk(c, more);
      Regroup(c, Join(more), rest);
      ChunkStep(c, Join(more) + rest);
      ProperReads(more, rest);
      if more == [] {
        assert [] + rest == rest;
        assert [c] + [] == [c];
      } else {
        FirstGoesOn(chunks);
        var after := if Ends(more[|more| - 1]) then [] else Chunks(rest);
        assert [c] + (more + after) == chunks + after;
      }
    }
  }

  lemma AllChunks(chunks: seq<Bytes>, c: Bytes)
    requires Proper(chunks) && c in chunks
    ensures IsChunk(c)
  {}

  lemma FirstGoesOn(chunks: seq<Bytes>)
    requires Proper(chunks) && |chunks| >= 2
    ensures !Ends(chunks[0])
  {}

  lemma {:induction false} KeptProper(chunks: seq<Bytes>)
    requires Proper(chunks)
    ensures Proper(Kept(chunks)) && !AnyDropped(Kept(chunks)) && Kept(Kept(chunks)) == Kept(chunks)
    ensures forall c <- Kept(chunks) :: c in chunks
    decreases |chunks|
  {
    if chunks != [] {
      var c, more := chunks[0], chunks[1..];
      assert chunks == [c] + more;
      forall d | d in more ensures IsChunk(d) { assert d in chunks; }
      hide IsChunk, IsDropped, Ends;
      KeptProper(more);
      OneChunk(c, more);
      OneChunk(c, Kept(more));
      if IsDropped(c) {
        assert [] + Kept(more) == Kept(more);
      } else if more == [] {
        assert Kept(more) == [];
      }
    }
  }

  // Stripping twice is stripping once: the output parses completely and nothing in it is dropped.
  lemma PNGIdempotent(body: Bytes)
    ensures var out := StrippedPNG(body).0; StrippedPNG(out) == (out, false)
    ensures IsPNG(body) ==> Trailing(StrippedPNG(body).0[8..]) == []
  {
    if IsPNG(body) {
      var kept := Kept(Chunks(body[8..]));
      ChunksProper(body[8..]);
      KeptProper(Chunks(body[8..]));
      hide Proper, Join, Kept, AnyDropped;
      ProperReads(kept, []);
      assert Join(kept) + [] == Join(kept) && kept + [] == kept;
      assert Chunks([]) == [] && Trailing([]) == [];
      assert (SIGNATURE + Join(kept))[8..] == Join(kept) && (SIGNATURE + Join(kept))[..8] == SIGNATURE;
    }
  }

  // The output is the signature and the kept chunks, in order: it reads back as exactly those.
  lemma PNGKeepsTheRest(body: Bytes)
    requires IsPNG(body)
    ensures var out := StrippedPNG(body).0;
            IsPNG(out) && Chunks(out[8..]) == Kept(Chunks(body[8..])) && Join(Chunks(body[8..])) + Trailing(body[8..]) == body[8..]
  {
    var kept := Kept(Chunks(body[8..]));
    ChunksAndTrailing(body[8..]);
    ChunksProper(body[8..]);
    KeptProper(Chunks(body[8..]));
    hide Proper, Join, Kept, AnyDropped;
    ProperReads(kept, []);
    assert Join(kept) + [] == Join(kept) && kept + [] == kept;
    assert Chunks([]) == [];
    assert (SIGNATURE + Join(kept))[8..] == Join(kept) && (SIGNATURE + Join(kept))[..8] == SIGNATURE;
  }

  lemma {:induction false} KeptShorter(chunks: seq<Bytes>)
    requires forall c <- chunks :: IsChunk(c)
    ensures |Join(Kept(chunks))| <= |Join(chunks)|
    ensures if AnyDropped(chunks) then |Join(Kept(chunks))| < |Join(chunks)| else Kept(chunks) == chunks
  {
    if chunks != [] {
      var c, more := chunks[0], chunks[1..];
      assert chunks == [c] + more && c in chunks;
      forall d | d in more ensures IsChunk(d) { assert d in chunks; }
      assert |c| >= 12;
      hide IsChunk, IsDropped;
      OneChunk(c, more);
      KeptShorter(more);
    }
  }

  // The output is never longer. It differs from the input exactly when a chunk was dropped or
  // bytes behind the last chunk were; only the first of the two is reported.
  lemma PNGDiffersIff(body: Bytes)
    requires IsPNG(body)
    ensures var (out, changed) := StrippedPNG(body);
            && |out| <= |body|
            && (out != body <==> changed || Trailing(body[8..]) != [])
  {
    var s := body[8..];
    ChunksAndTrailing(s);
    ChunksProper(s);
    KeptShorter(Chunks(s));
    assert body == SIGNATURE + s;
    if !AnyDropped(Chunks(s)) && Trailing(s) == [] {
      assert Join(Chunks(s)) + [] == Join(Chunks(s));
    }
  }

  // The flag is right exactly when something was dropped or nothing follows the last chunk.
  lemma PNGChangedIff(body: Bytes)
    ensures var (out, changed) := StrippedPNG(body);
            (changed <==> out != body) <==> !IsPNG(body) || AnyDropped(Chunks(body[8..])) || Trailing(body[8..]) == []
  {
    if IsPNG(body) { PNGDiffersIff(body); }
  }

  lemma TruncatedGoesUnreported()
    ensures var body := SIGNATURE + [0]; StrippedPNG(body) == (SIGNATURE, false) && SIGNATURE != body
  {
    var body := SIGNATURE + [0];
    assert body[8..] == [0] && body[..8] == SIGNATURE;
    assert Chunks([0]) == [];
    NoChunks();
    assert SIGNATURE + [] == SIGNATURE;
  }

  // ---- inserted metadata ----

  predicate IsMetadata(chunk: Bytes) { IsChunk(chunk) && IsDropped(chunk) }

  lemma {:induction false} KeptAppend(a: seq<Bytes>, b: seq<Bytes>)
    ensures Kept(a + b) == Kept(a) + Kept(b)
  {
    hide IsDropped;
    if a == [] {
      assert a + b == b;
    } else {
      assert (a + b)[1..] == a[1..] + b;
      KeptAppend(a[1..], b);
    }
  }

  // A metadata chunk inserted at any chunk boundary reached before IEND leaves no trace.
  lemma PNGInsertionInvisible(body: Bytes, k: nat, chunk: Bytes)
    requires IsPNG(body) && k <= |Chunks(body[8..])| && IsMetadata(chunk)
    requires k == |Chunks(body[8..])| > 0 ==> !Ends(Chunks(body[8..])[k - 1])
    ensures var chunks := Chunks(body[8..]);
            var more := SIGNATURE + (Join(chunks[..k]) + (chunk + (Join(chunks[k..]) + Trailing(body[8..]))));
            StrippedPNG(more).0 == StrippedPNG(body).0
  {
    var s := body[8..];
    var chunks := Chunks(s);
    var inner := Join(chunks[..k]) + (chunk + (Join(chunks[k..]) + Trailing(s)));
    assert (SIGNATURE + inner)[8..] == inner && (SIGNATURE + inner)[..8] == SIGNATURE;
    hide Chunks, Join, Trailing, Kept, IsMetadata, Ends;
    InsertionInvisible(s, k, chunk);
  }

  lemma InsertionInvisible(s: Bytes, k: nat, chunk: Bytes)
    requires k <= |Chunks(s)| && IsMetadata(chunk)
    requires k == |Chunks(s)| > 0 ==> !Ends(Chunks(s)[k - 1])
    ensures var chunks := Chunks(s);
            Kept(Chunks(Join(chunks[..k]) + (chunk + (Join(chunks[k..]) + Trailing(s))))) == Kept(chunks)
  {
    assert !Ends(chunk);
    hide Proper, Join, Ends, IsChunk, IsDropped, Kept, Chunks, Trailing;
    var chunks := Chunks(s);
    var a, b, tail := chunks[..k], chunks[k..], Join(chunks[k..]) + Trailing(s);
    assert chunks == a + b;
    ChunksProper(s);
    PartsProper(a, b);
    GoesOn(chunks, k);
    SuffixReads(s, k);
    ProperReads(a, chunk + tail);
    ChunkStep(chunk, tail);
    KeptAppend(a, [chunk] + b);
    KeptAppend(a, b);
    OneChunk(chunk, b);
    assert [] + Kept(b) == Kept(b);
  }

  lemma GoesOn(chunks: seq<Bytes>, k: nat)
    requires Proper(chunks) && k <= |chunks| && (k == |chunks| > 0 ==> !Ends(chunks[k - 1]))
    ensures k > 0 ==> !Ends(chunks[k - 1])
  {}

  lemma PartsProper(a: seq<Bytes>, b: seq<Bytes>)
    requires Proper(a + b)
    ensures Proper(a) && Proper(b)
  {
    hide IsChunk, Ends;
    forall c | c in a ensures IsChunk(c) { assert c in a + b; }
    forall c | c in b ensures IsChunk(c) { assert c in a + b; }
    forall i | 0 <= i < |a| - 1 ensures !Ends(a[i]) { assert (a + b)[i] == a[i]; }
    forall i | 0 <= i < |b| - 1 ensures !Ends(b[i]) { assert (a + b)[|a| + i] == b[i]; }
  }

  // From any boundary on, the file reads as the chunks that follow it.
  lemma {:induction false} SuffixReads(s: Bytes, k: nat)
    requires k <= |Chunks(s)| && (k == |Chunks(s)| > 0 ==> !Ends(Chunks(s)[k - 1]))
    ensures Chunks(Join(Chunks(s)[k..]) + Trailing(s)) == Chunks(s)[k..]
    decreases |s|
  {
    ChunksAndTrailing(s);
    if k == 0 {
      assert Chunks(s)[0..] == Chunks(s);
    } else {
      ChunkOf(s);
      hide StartsChunk, Size, Ends, Join;
      assert !Ends(s) && Chunks(s) == [s[..Size(s)]] + Chunks(s[Size(s)..]);
      SuffixReads(s[Size(s)..], k - 1);
      assert Chunks(s)[k..] == Chunks(s[Size(s)..])[k - 1..];
    }
  }
}
