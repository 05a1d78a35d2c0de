// encoding/base64's standard encoding, padded, as far as header values rely on it.
module Base64 {
  import opened Common

  type Bytes = seq<byte>

  function Letter(n: nat): (c: char)
    requires n < 64
    ensures IsLetter(c) && Value(c) == n
  {
    if n < 26 then ('A' as int + n) as char
    else if n < 52 then ('a' as int + (n - 26)) as char
    else if n < 62 then ('0' as int + (n - 52)) as char
    else if n == 62 then '+'
    else '/'
  }

  predicate IsLetter(c: char) {
    'A' <= c <= 'Z' || 'a' <= c <= 'z' || '0' <= c <= '9' || c == '+' || c == '/'
  }

  function Value(c: char): (n: nat)
    requires IsLetter(c)
    ensures n < 64
  {
    if 'A' <= c <= 'Z' then c as int - 'A' as int
    else if 'a' <= c <= 'z' then c as int - 'a' as int + 26
    else if '0' <= c <= '9' then c as int - '0' as int + 52
    else if c == '+' then 62
    else 63
  }

  const PAD := '='

  // Three bytes are four letters of six bits.
  function Quad(a: byte, b: byte, c: byte): (s: string)
    ensures |s| == 4 && forall x <- s :: IsLetter(x)
  {
    var x, y, z := a as nat, b as nat, c as nat;
    [Letter(x / 4), Letter(x % 4 * 16 + y / 16), Letter(y % 16 * 4 + z / 64), Letter(z % 64)]
  }

  function Encode(data: Bytes): (s: string)
    ensures forall c <- s :: IsLetter(c) || c == PAD
    ensures data == [] <==> s == ""
  {
    if data == [] then ""
    else if |data| == 1 then Quad(data[0], 0, 0)[..2] + [PAD, PAD]
    else if |data| == 2 then Quad(data[0], data[1], 0)[..3] + [PAD]
    else Quad(data[0], data[1], data[2]) + Encode(data[3..])
  }

  function Unquad(p: nat, q: nat, r: nat, s: nat): Bytes
    requires p < 64 && q < 64 && r < 64 && s < 64
  {
    [(p * 4 + q / 16) as byte, (q % 16 * 16 + r / 4) as byte, (r % 4 * 64 + s) as byte]
  }

  // Whole quads; only the last may be padded.
  function DecodeQuads(s: string): Option<Bytes> {
    if s == "" then Some([])
    else if |s| < 4 || !IsLetter(s[0]) || !IsLetter(s[1]) then None
    else if s[2] == PAD then
      if s[3] == PAD && |s| == 4 then Some(Unquad(Value(s[0]), Value(s[1]), 0, 0)[..1]) else None
    else if !IsLetter(s[2]) then None
    else if s[3] == PAD then
      if |s| == 4 then Some(Unquad(Value(s[0]), Value(s[1]), Value(s[2]), 0)[..2]) else None
    else if !IsLetter(s[3]) then None
    else
      match DecodeQuads(s[4..])
      case None => None
      case Some(more) => Some(Unquad(Value(s[0]), Value(s[1]), Value(s[2]), Value(s[3])) + more)
  }

  function WithoutBreaks(s: string): string {
    if s == "" then "" else (if s[0] in "\r\n" then "" else [s[0]]) + WithoutBreaks(s[1..])
  }

  function Decode(s: string): Option<Bytes> { DecodeQuads(WithoutBreaks(s)) }

  lemma QuadInverse(a: byte, b: byte, c: byte)
    ensures var s := Quad(a, b, c); Unquad(Value(s[0]), Value(s[1]), Value(s[2]), Value(s[3])) == [a, b, c]
  {
    var x, y, z := a as nat, b as nat, c as nat;
    assert (x % 4 * 16 + y / 16) / 16 == x % 4 && (x % 4 * 16 + y / 16) % 16 == y / 16;
    assert (y % 16 * 4 + z / 64) / 4 == y % 16 && (y % 16 * 4 + z / 64) % 4 == z / 64;
  }

  lemma OneByte(data: Bytes)
    requires |data| == 1
    ensures DecodeQuads(Encode(data)) == Some(data)
  {
    hide Letter, Value, Unquad, Quad;
    QuadInverse(data[0], 0, 0);
    LastQuad(data[0], 0, 0);
    assert [data[0], 0, 0][..1] == data;
  }

  lemma TwoBytes(data: Bytes)
    requires |data| == 2
    ensures DecodeQuads(Encode(data)) == Some(data)
  {
    hide Letter, Value, Unquad, Quad;
    QuadInverse(data[0], data[1], 0);
    LastQuad(data[0], data[1], 0);
    var q, s := Quad(data[0], data[1], 0), Encode(data);
    assert s == [q[0], q[1], q[2], PAD];
    assert q[0] in q && q[1] in q && q[2] in q;
    assert [data[0], data[1], 0][..2] == data;
  }

  lemma {:induction false} DecodeInverse(data: Bytes)
    ensures DecodeQuads(Encode(data)) == Some(data)
  {
    if data == [] {
    } else if |data| == 1 {
      OneByte(data);
    } else if |data| == 2 {
      TwoBytes(data);
    } else {
      hide Letter, Value, Unquad, Quad;
      QuadInverse(data[0], data[1], data[2]);
      DecodeInverse(data[3..]);
      var s := Encode(data);
      assert s[..4] == Quad(data[0], data[1], data[2]) && s[4..] == Encode(data[3..]);
      assert [data[0], data[1], data[2]] + data[3..] == data;
    }
  }

  // The letters the padding stands for are those of zero bits.
  lemma LastQuad(a: byte, b: byte, c: byte)
    ensures c == 0 ==> Value(Quad(a, b, c)[3]) == 0
    ensures b == 0 && c == 0 ==> Value(Quad(a, b, c)[2]) == 0
  {}

  lemma {:induction false} NoBreaks(s: string)
    requires forall c <- s :: c != '\r' && c != '\n'
    ensures WithoutBreaks(s) == s
  {
    if s != "" {
      assert s[0] in s && forall c <- s[1..] :: c in s;
      NoBreaks(s[1..]);
    }
  }

  // What was encoded is decoded, whatever the bytes.
  lemma RoundTrip(data: Bytes)
    ensures Decode(Encode(data)) == Some(data)
  {
    NoBreaks(Encode(data));
    DecodeInverse(data);
  }

  // ---- the alphabet, and what the letters of a quad are worth ----

  lemma LettersInOrder(n: nat)
    requires n < 64
    ensures Letter(n) == if n < 26 then "ABCDEFGHIJKLMNOPQRSTUVWXYZ"[n]
                         else if n < 52 then "abcdefghijklmnopqrstuvwxyz"[n - 26]
                         else "0123456789+/"[n - 52]
  {
    if n < 26 { UpperInOrder(n); } else if n < 52 { LowerInOrder(n - 26); }
  }

  lemma UpperInOrder(n: nat)
    requires n < 26
    ensures "ABCDEFGHIJKLMNOPQRSTUVWXYZ"[n] == ('A' as int + n) as char
  {}

  lemma LowerInOrder(n: nat)
    requires n < 26
    ensures "abcdefghijklmnopqrstuvwxyz"[n] == ('a' as int + n) as char
  {}

  // Three bytes and their four letters are the same number, in base 256 and in base 64.
  lemma QuadIsNumber(a: byte, b: byte, c: byte)
    ensures var s := Quad(a, b, c);
            ((Value(s[0]) * 64 + Value(s[1])) * 64 + Value(s[2])) * 64 + Value(s[3])
              == (a as nat * 256 + b as nat) * 256 + c as nat
  {
    hide Letter, Value;
  }

  // Whole triples one after the other; one or two bytes over are padded.
  lemma EncodedInQuads(data: Bytes)
    requires data != []
    ensures |data| == 1 ==> Encode(data) == Quad(data[0], 0, 0)[..2] + "=="
    ensures |data| == 2 ==> Encode(data) == Quad(data[0], data[1], 0)[..3] + "="
    ensures |data| >= 3 ==> Encode(data) == Quad(data[0], data[1], data[2]) + Encode(data[3..])
  {
    hide Quad;
  }
}
