// Image files written part by part, and what is left of them when they are stripped.
module MediaFiles {
  import opened Common
  import Strip
  import StripPng

  type Bytes = seq<byte>

  // ---- JPEG ----

  // A marker by itself, or one with a payload, whose length is written before it.
  datatype Part = Bare(marker: byte) | Carrying(marker: byte, payload: Bytes)

  // TEM, RSTn and SOI stand by themselves; a scan is not a part but what the parts lead to.
  predicate Proper(p: Part) {
    match p
    case Bare(m) => m == 0x01 || 0xd0 <= m <= 0xd8
    case Carrying(m, payload) => m != 0x01 && !(0xd0 <= m <= 0xd8) && m != 0xda && |payload| <= 65533
  }

  function Written(p: Part): Bytes
    requires Proper(p)
  {
    match p
    case Bare(m) => [0xff, m]
    case Carrying(m, payload) => [0xff, m, ((|payload| + 2) / 256) as byte, ((|payload| + 2) % 256) as byte] + payload
  }

  predicate AllProper(parts: seq<Part>) { forall p <- parts :: Proper(p) }

  function AllWritten(parts: seq<Part>): Bytes
    requires AllProper(parts)
  {
    if parts == [] then [] else Written(parts[0]) + AllWritten(parts[1..])
  }

  // Application data (APP0 to APP15) and comments.
  predicate IsPrivate(p: Part) { p.Carrying? && (0xe0 <= p.marker <= 0xef || p.marker == 0xfe) }

  predicate AnyPrivate(parts: seq<Part>) { exists p <- parts :: IsPrivate(p) }

  function Public(parts: seq<Part>): (r: seq<Part>)
    ensures AllProper(parts) ==> AllProper(r)
  {
    if parts == [] then [] else (if IsPrivate(parts[0]) then [] else [parts[0]]) + Public(parts[1..])
  }

  // Here the loop stops and takes the rest as it is: at a scan, at what is no marker, and at a
  // segment that is cut short or has an impossible length.
  predicate Stops(tail: Bytes) {
    || |tail| < 4 || tail[0] != 0xff || tail[1] == 0xda
    || (tail[1] != 0x01 && !(0xd0 <= tail[1] <= 0xd8)
        && !(2 <= tail[2] as int * 256 + tail[3] as int <= |tail| - 2))
  }

  function JPEGFile(parts: seq<Part>, tail: Bytes): Bytes
    requires AllProper(parts)
  {
    [0xff, 0xd8] + (AllWritten(parts) + tail)
  }

  lemma BareAtEnd(b: Bytes, rest: Bytes)
    requires |b| == 2 && |rest| < 2
    ensures Strip.Cleaned(b + rest) == b + Strip.Cleaned(rest)
    ensures !Strip.AnyDropped(Strip.Pieces(b + rest)) && !Strip.AnyDropped(Strip.Pieces(rest))
  {
    Strip.CleanedStep(b + rest);
    Strip.CleanedStep(rest);
  }

  lemma PartStripped(p: Part, rest: Bytes)
    requires Proper(p)
    ensures Strip.Cleaned(Written(p) + rest) == (if IsPrivate(p) then [] else Written(p)) + Strip.Cleaned(rest)
    ensures Strip.AnyDropped(Strip.Pieces(Written(p) + rest)) == (IsPrivate(p) || Strip.AnyDropped(Strip.Pieces(rest)))
  {
    var b := Written(p);
    assert (b + rest)[|b|..] == rest && (b + rest)[..|b|] == b;
    match p {
      case Bare(_) =>
        if |rest| < 2 { BareAtEnd(b, rest); } else { Strip.StandaloneReads(b, rest); }
      case Carrying(_, payload) =>
        assert Strip.SegmentLength(b) == |payload| + 2;
        Strip.SegmentReads(b, rest);
    }
    Strip.CleanedStep(b + rest);
    hide Strip.Pieces, Strip.Cleaned, Strip.AnyDropped;
  }

  lemma PartsStep(p: Part, more: seq<Part>)
    requires Proper(p) && AllProper(more)
    ensures AllProper([p] + more) && AllWritten([p] + more) == Written(p) + AllWritten(more)
    ensures AllWritten(Public([p] + more)) == (if IsPrivate(p) then [] else Written(p)) + AllWritten(Public(more))
    ensures AnyPrivate([p] + more) == (IsPrivate(p) || AnyPrivate(more))
  {
    hide Written, Proper, IsPrivate;
    var all := [p] + more;
    assert all[0] == p && all[1..] == more;
    if IsPrivate(p) {
      assert p in all;
      assert [] + Public(more) == Public(more) && [] + AllWritten(Public(more)) == AllWritten(Public(more));
    } else {
      var kept := [p] + Public(more);
      assert kept[0] == p && kept[1..] == Public(more);
    }
  }

  lemma Regroup(a: Bytes, b: Bytes, c: Bytes)
    ensures a + b + c == a + (b + c)
  {}

  lemma {:induction false} PartsStripped(parts: seq<Part>, tail: Bytes)
    requires AllProper(parts) && Stops(tail)
    ensures var s := AllWritten(parts) + tail;
            && Strip.Cleaned(s) == AllWritten(Public(parts)) + tail
            && Strip.AnyDropped(Strip.Pieces(s)) == AnyPrivate(parts)
  {
    if parts == [] {
      assert !Strip.Continues(tail);
      Strip.CleanedStep(tail);
      assert AllWritten(parts) + tail == tail;
    } else {
      var p, more := parts[0], parts[1..];
      assert parts == [p] + more && p in parts && AllProper(more);
      PartsStripped(more, tail);
      PartsStep(p, more);
      hide Strip.Pieces, Strip.Cleaned, Strip.AnyDropped;
      hide Written, Proper, IsPrivate, AllWritten, Public, AnyPrivate, AllProper, Stops;
      var rest := AllWritten(more) + tail;
      PartStripped(p, rest);
      Regroup(Written(p), AllWritten(more), tail);
      Regroup(if IsPrivate(p) then [] else Written(p), AllWritten(Public(more)), tail);
    }
  }

  // Of a file written from its parts exactly the application data and the comments go, and what
  // the loop stops at stays with everything behind it.
  lemma JPEGLosesThePrivateParts(parts: seq<Part>, tail: Bytes)
    requires AllProper(parts) && Stops(tail)
    ensures Strip.StrippedJPEG(JPEGFile(parts, tail)) == (JPEGFile(Public(parts), tail), AnyPrivate(parts))
  {
    PartsStripped(parts, tail);
    PartsHaveBytes(parts);
    assert parts == [] ==> Public(parts) == parts && !AnyPrivate(parts);
    hide Strip.Pieces, Strip.Cleaned, Strip.AnyDropped;
    hide AllWritten, AllProper, AnyPrivate, Public, Stops;
    assert JPEGFile(parts, tail)[2..] == AllWritten(parts) + tail;
  }

  lemma PartsHaveBytes(parts: seq<Part>)
    requires AllProper(parts)
    ensures parts != [] ==> |AllWritten(parts)| >= 2
  {
    if parts != [] { assert |Written(parts[0])| >= 2; }
  }

  // ---- PNG ----

  function Ascii(s: string): (r: Bytes)
    ensures |r| == |s| && forall i :: 0 <= i < |r| ==> r[i] as int == s[i] as int % 256
  {
    seq(|s|, i requires 0 <= i < |s| => (s[i] as int % 256) as byte)
  }

  datatype Chunk = Chunk(name: Bytes, data: Bytes, crc: Bytes)

  predicate ProperChunk(c: Chunk) { |c.name| == 4 && |c.crc| == 4 && |c.data| < 0x1_0000_0000 && c.name != Ascii("IEND") }

  function BigEndian(n: nat): Bytes
    requires n < 0x1_0000_0000
  {
    [(n / 0x1000000) as byte, (n / 0x10000 % 0x100) as byte, (n / 0x100 % 0x100) as byte, (n % 0x100) as byte]
  }

  function ChunkWritten(c: Chunk): Bytes
    requires |c.data| < 0x1_0000_0000
  {
    BigEndian(|c.data|) + c.name + c.data + c.crc
  }

  predicate AllProperChunks(chunks: seq<Chunk>) { forall c <- chunks :: ProperChunk(c) }

  function ChunksWritten(chunks: seq<Chunk>): Bytes
    requires AllProperChunks(chunks)
  {
    if chunks == [] then [] else assert ProperChunk(chunks[0]); ChunkWritten(chunks[0]) + ChunksWritten(chunks[1..])
  }

  // Texts, camera data, the time of the last change and a signature.
  predicate IsPrivateChunk(c: Chunk) {
    || c.name == Ascii("tEXt") || c.name == Ascii("zTXt") || c.name == Ascii("iTXt")
    || c.name == Ascii("eXIf") || c.name == Ascii("tIME") || c.name == Ascii("dSIG")
  }

  predicate AnyPrivateChunk(chunks: seq<Chunk>) { exists c <- chunks :: IsPrivateChunk(c) }

  function PublicChunks(chunks: seq<Chunk>): (r: seq<Chunk>)
    ensures AllProperChunks(chunks) ==> AllProperChunks(r)
  {
    if chunks == [] then []
    else (if IsPrivateChunk(chunks[0]) then [] else [chunks[0]]) + PublicChunks(chunks[1..])
  }

  function PNGFile(chunks: seq<Chunk>, crc: Bytes, trailing: Bytes): Bytes
    requires AllProperChunks(chunks)
  {
    [0x89] + Ascii("PNG") + [13, 10, 26, 10] + (ChunksWritten(chunks) + (ChunkWritten(Chunk(Ascii("IEND"), [], crc)) + trailing))
  }

  lemma BigEndianReads(n: nat, rest: Bytes)
    requires n < 0x1_0000_0000
    ensures StripPng.Length(BigEndian(n) + rest) == n
  {
    var s := BigEndian(n) + rest;
    assert s[0] == BigEndian(n)[0] && s[1] == BigEndian(n)[1] && s[2] == BigEndian(n)[2] && s[3] == BigEndian(n)[3];
    assert n / 0x100 == n / 0x10000 * 0x100 + n / 0x100 % 0x100;
    assert n / 0x10000 == n / 0x1000000 * 0x100 + n / 0x10000 % 0x100;
  }

  lemma Names()
    ensures StripPng.IEND == Ascii("IEND") && |Ascii("IEND")| == 4
    ensures StripPng.SIGNATURE == [0x89] + Ascii("PNG") + [13, 10, 26, 10]
  {}

  lemma InSix<T>(x: T, a: T, b: T, c: T, d: T, e: T, g: T)
    ensures x in [a, b, c, d, e, g] <==> x == a || x == b || x == c || x == d || x == e || x == g
  {}

  lemma TextNames()
    ensures StripPng.DROPPED[0] == Ascii("tEXt") && StripPng.DROPPED[1] == Ascii("zTXt") && StripPng.DROPPED[2] == Ascii("iTXt")
  {}

  lemma OtherNames()
    ensures StripPng.DROPPED[3] == Ascii("eXIf") && StripPng.DROPPED[4] == Ascii("tIME") && StripPng.DROPPED[5] == Ascii("dSIG")
  {}

  lemma Dropped(c: Chunk)
    ensures StripPng.IsDroppedName(c.name) == IsPrivateChunk(c)
  {
    hide Ascii;
    var d := StripPng.DROPPED;
    TextNames();
    OtherNames();
    InSix(c.name, d[0], d[1], d[2], d[3], d[4], d[5]);
    assert d == [d[0], d[1], d[2], d[3], d[4], d[5]];
  }

  lemma ChunkShape(c: Chunk)
    requires |c.name| == 4 && |c.crc| == 4 && |c.data| < 0x1_0000_0000
    ensures StripPng.IsChunk(ChunkWritten(c)) && StripPng.NameOf(ChunkWritten(c)) == c.name
  {
    var s := ChunkWritten(c);
    assert s == BigEndian(|c.data|) + (c.name + c.data + c.crc);
    BigEndianReads(|c.data|, c.name + c.data + c.crc);
    assert s[4..8] == c.name;
  }

  lemma ChunkStripped(c: Chunk, rest: Bytes)
    requires ProperChunk(c)
    ensures StripPng.Chunks(ChunkWritten(c) + rest) == [ChunkWritten(c)] + StripPng.Chunks(rest)
    ensures StripPng.IsDropped(ChunkWritten(c)) == IsPrivateChunk(c)
  {
    Names();
    ChunkShape(c);
    Dropped(c);
    hide Ascii, ChunkWritten, IsPrivateChunk;
    hide StripPng.IsChunk, StripPng.IsDroppedName;
    StripPng.ChunkStep(ChunkWritten(c), rest);
    assert |ChunkWritten(c)| >= 8 by { ChunkLong(c); }
  }

  lemma ChunkLong(c: Chunk)
    requires ProperChunk(c)
    ensures |ChunkWritten(c)| >= 12
  {
    hide Ascii;
  }

  lemma EndStripped(crc: Bytes, trailing: Bytes)
    requires |crc| == 4
    ensures var end := ChunkWritten(Chunk(Ascii("IEND"), [], crc));
            StripPng.Chunks(end + trailing) == [end] && !StripPng.IsDropped(end)
  {
    var c := Chunk(Ascii("IEND"), [], crc);
    Names();
    ChunkShape(c);
    var end := ChunkWritten(c);
    assert |end| == 12;
    StripPng.ChunkStep(end, trailing);
    hide Ascii, ChunkWritten;
    hide StripPng.IsChunk, StripPng.Chunks;
    assert [end] + [] == [end];
  }

  lemma ChunksStep(c: Chunk, more: seq<Chunk>)
    requires ProperChunk(c) && AllProperChunks(more)
    ensures AllProperChunks([c] + more) && ChunksWritten([c] + more) == ChunkWritten(c) + ChunksWritten(more)
    ensures ChunksWritten(PublicChunks([c] + more)) == (if IsPrivateChunk(c) then [] else ChunkWritten(c)) + ChunksWritten(PublicChunks(more))
    ensures AnyPrivateChunk([c] + more) == (IsPrivateChunk(c) || AnyPrivateChunk(more))
  {
    hide ChunkWritten, IsPrivateChunk, Ascii;
    var all := [c] + more;
    assert all[0] == c && all[1..] == more;
    if IsPrivateChunk(c) {
      assert c in all;
      assert [] + PublicChunks(more) == PublicChunks(more) && [] + ChunksWritten(PublicChunks(more)) == ChunksWritten(PublicChunks(more));
    } else {
      var kept := [c] + PublicChunks(more);
      assert kept[0] == c && kept[1..] == PublicChunks(more);
    }
  }

  lemma {:induction false} ChunksStripped(chunks: seq<Chunk>, crc: Bytes, trailing: Bytes)
    requires AllProperChunks(chunks) && |crc| == 4
    ensures var end := ChunkWritten(Chunk(Ascii("IEND"), [], crc));
            var read := StripPng.Chunks(ChunksWritten(chunks) + (end + trailing));
            && StripPng.Join(StripPng.Kept(read)) == ChunksWritten(PublicChunks(chunks)) + end
            && StripPng.AnyDropped(read) == AnyPrivateChunk(chunks)
  {
    var end := ChunkWritten(Chunk(Ascii("IEND"), [], crc));
    if chunks == [] {
      EndStripped(crc, trailing);
      hide Ascii, ChunkWritten;
      hide StripPng.Chunks, StripPng.IsDropped, StripPng.Join, StripPng.Kept;
      assert [] + (end + trailing) == end + trailing;
      StripPng.OneChunk(end, []);
      StripPng.NoChunks();
      assert [end] + [] == [end] && end + [] == end && [] + end == end;
    } else {
      var c, more := chunks[0], chunks[1..];
      assert chunks == [c] + more && c in chunks && AllProperChunks(more);
      ChunksStripped(more, crc, trailing);
      ChunksStep(c, more);
      hide Ascii, ChunkWritten, ProperChunk, AllProperChunks, ChunksWritten, PublicChunks, AnyPrivateChunk, IsPrivateChunk;
      hide StripPng.Chunks, StripPng.IsDropped, StripPng.Join, StripPng.Kept, StripPng.AnyDropped;
      var rest := ChunksWritten(more) + (end + trailing);
      ChunkStripped(c, rest);
      StripPng.OneChunk(ChunkWritten(c), StripPng.Chunks(rest));
      Regroup(ChunkWritten(c), ChunksWritten(more), end + trailing);
      Regroup(if IsPrivateChunk(c) then [] else ChunkWritten(c), ChunksWritten(PublicChunks(more)), end);
    }
  }

  // Of a file written from its chunks exactly the six kinds go, and whatever stands behind the
  // end of the image; the flag speaks of the chunks alone.
  lemma PNGLosesThePrivateChunks(chunks: seq<Chunk>, crc: Bytes, trailing: Bytes)
    requires AllProperChunks(chunks) && |crc| == 4
    ensures StripPng.StrippedPNG(PNGFile(chunks, crc, trailing))
         == (PNGFile(PublicChunks(chunks), crc, []), AnyPrivateChunk(chunks))
  {
    ChunksStripped(chunks, crc, trailing);
    Names();
    hide Ascii, ChunkWritten, ChunksWritten, PublicChunks, AnyPrivateChunk, AllProperChunks;
    hide StripPng.Chunks, StripPng.Join, StripPng.Kept, StripPng.AnyDropped;
    var end := ChunkWritten(Chunk(Ascii("IEND"), [], crc));
    var start := [0x89] + Ascii("PNG") + [13, 10, 26, 10];
    var inner := ChunksWritten(chunks) + (end + trailing);
    var file := PNGFile(chunks, crc, trailing);
    assert |start| == 8 && file == start + inner;
    assert file[..8] == start && file[8..] == inner;
    assert end + [] == end;
  }

  // Bytes that hold no complete chunk.
  predicate CutShort(tail: Bytes) {
    |tail| < 8
    || 12 + tail[0] as int * 0x1000000 + tail[1] as int * 0x10000 + tail[2] as int * 0x100 + tail[3] as int > |tail|
  }

  lemma {:induction false} ChunksCut(chunks: seq<Chunk>, tail: Bytes)
    requires AllProperChunks(chunks) && CutShort(tail)
    ensures var read := StripPng.Chunks(ChunksWritten(chunks) + tail);
            && StripPng.Join(StripPng.Kept(read)) == ChunksWritten(PublicChunks(chunks))
            && StripPng.AnyDropped(read) == AnyPrivateChunk(chunks)
  {
    if chunks == [] {
      StripPng.NoChunk(tail);
      StripPng.NoChunks();
      assert [] + tail == tail;
    } else {
      var c, more := chunks[0], chunks[1..];
      assert chunks == [c] + more && c in chunks && AllProperChunks(more);
      ChunksCut(more, tail);
      ChunksStep(c, more);
      hide Ascii, ChunkWritten, ProperChunk, AllProperChunks, ChunksWritten, PublicChunks, AnyPrivateChunk, IsPrivateChunk, CutShort;
      hide StripPng.Chunks, StripPng.IsDropped, StripPng.Join, StripPng.Kept, StripPng.AnyDropped;
      var rest := ChunksWritten(more) + tail;
      ChunkStripped(c, rest);
      StripPng.OneChunk(ChunkWritten(c), StripPng.Chunks(rest));
      Regroup(ChunkWritten(c), ChunksWritten(more), tail);
    }
  }

  // A file that ends before its IEND keeps its other chunks as well, but not what it breaks off in.
  lemma PNGCutShort(chunks: seq<Chunk>, tail: Bytes)
    requires AllProperChunks(chunks) && CutShort(tail)
    ensures var start := [0x89] + Ascii("PNG") + [13, 10, 26, 10];
            StripPng.StrippedPNG(start + (ChunksWritten(chunks) + tail))
              == (start + ChunksWritten(PublicChunks(chunks)), AnyPrivateChunk(chunks))
  {
    ChunksCut(chunks, tail);
    Names();
    hide Ascii, ChunksWritten, PublicChunks, AnyPrivateChunk, AllProperChunks, CutShort;
    hide StripPng.Chunks, StripPng.Join, StripPng.Kept, StripPng.AnyDropped;
    var start := [0x89] + Ascii("PNG") + [13, 10, 26, 10];
    var inner := ChunksWritten(chunks) + tail;
    assert |start| == 8 && (start + inner)[..8] == start && (start + inner)[8..] == inner;
  }
}
