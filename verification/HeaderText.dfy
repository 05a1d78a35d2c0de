// Taking header values apart: the string operations the signature code relies on, and what
// they do to text put together the usual way.
module HeaderText {
  import Text

  // strings.Split with a one-character separator.
  function Split(s: string, c: char): (r: seq<string>)
    ensures r != [] && forall p <- r :: c !in p
    decreases |s|
  {
    var i := Text.Find(s, c);
    if i == |s| then
      assert s[..|s|] == s;
      [s]
    else [s[..i]] + Split(s[i + 1..], c)
  }

  // strings.Join
  function Join(parts: seq<string>, separator: string): string {
    if parts == [] then "" else if |parts| == 1 then parts[0] else parts[0] + separator + Join(parts[1..], separator)
  }

  lemma SplitFirst(a: string, c: char, b: string)
    requires c !in a
    ensures Split(a + [c] + b, c) == [a] + Split(b, c)
  {
    Text.FindAfter(a, c, b);
  }

  lemma SplitNone(a: string, c: char)
    requires c !in a
    ensures Split(a, c) == [a]
  {
    Text.FindNone(a, c);
  }

  // Joining and splitting undo each other.
  lemma {:induction false} SplitJoin(parts: seq<string>, c: char)
    requires parts != [] && forall p <- parts :: c !in p
    ensures Split(Join(parts, [c]), c) == parts
    decreases |parts|
  {
    assert parts[0] in parts;
    if |parts| == 1 {
      SplitNone(parts[0], c);
    } else {
      SplitFirst(parts[0], c, Join(parts[1..], [c]));
      SplitJoin(parts[1..], c);
    }
  }

  lemma {:induction false} JoinSplit(s: string, c: char)
    ensures Join(Split(s, c), [c]) == s
    decreases |s|
  {
    var i := Text.Find(s, c);
    if i < |s| {
      var parts := [s[..i]] + Split(s[i + 1..], c);
      JoinSplit(s[i + 1..], c);
      assert parts[1..] == Split(s[i + 1..], c);
      assert s == s[..i] + [c] + s[i + 1..];
    }
  }

  // strings.Trim with a one-character cutset.
  function TrimCharLeft(s: string, c: char): string {
    if s != "" && s[0] == c then TrimCharLeft(s[1..], c) else s
  }

  function TrimCharRight(s: string, c: char): string {
    if s != "" && s[|s| - 1] == c then TrimCharRight(s[..|s| - 1], c) else s
  }

  function TrimChar(s: string, c: char): string { TrimCharRight(TrimCharLeft(s, c), c) }

  lemma TrimNone(s: string, c: char)
    requires c !in s
    ensures TrimChar(s, c) == s
  {}

  lemma TrimAround(s: string, c: char)
    requires c !in s
    ensures TrimChar([c] + s + [c], c) == s
  {
    var whole := [c] + s + [c];
    assert whole[1..] == s + [c];
    if s == "" {
      assert s + [c] == [c] && [c][1..] == "" && TrimCharLeft([c], c) == "";
    } else {
      assert (s + [c])[0] == s[0] && s[0] in s;
      assert TrimCharLeft(whole, c) == s + [c];
      assert s[|s| - 1] in s && TrimCharRight(s, c) == s;
      var t := s + [c];
      assert t[|t| - 1] == c && t[..|t| - 1] == s;
    }
  }

  // ---- words ----

  predicate IsWord(s: string) { s != "" && forall c <- s :: !Text.IsSpace(c) }

  lemma {:induction false} WordEnds(w: string, rest: string)
    requires (forall c <- w :: !Text.IsSpace(c)) && (rest == "" || Text.IsSpace(rest[0]))
    ensures Text.WordLength(w + rest) == |w|
  {
    if w == "" {
      assert w + rest == rest;
    } else {
      assert (w + rest)[1..] == w[1..] + rest && w[0] in w;
      assert forall c <- w[1..] :: c in w;
      WordEnds(w[1..], rest);
    }
  }

  lemma {:induction false} FieldsOfJoined(words: seq<string>)
    requires forall w <- words :: IsWord(w)
    ensures Text.Fields(Join(words, " ")) == words
    decreases |words|
  {
    if words != [] {
      var w, more := words[0], words[1..];
      assert w in words && w[0] in w;
      if more == [] {
        WordEnds(w, "");
        assert w + "" == w && w[..|w|] == w && w[|w|..] == "";
        assert Text.Fields("") == [];
      } else {
        var rest := " " + Join(more, " ");
        assert Join(words, " ") == w + rest;
        WordEnds(w, rest);
        assert (w + rest)[..|w|] == w && (w + rest)[|w|..] == rest && rest[1..] == Join(more, " ");
        forall x | x in more ensures IsWord(x) { assert x in words; }
        FieldsOfJoined(more);
      }
    }
  }

  lemma LowerFixed(s: string)
    requires forall i :: 0 <= i < |s| ==> !('A' <= s[i] <= 'Z')
    ensures Text.Lower(s) == s
  {}

  // ---- quoting ----

  function Hex(n: nat): char
    requires n < 16
  {
    "0123456789abcdef"[n]
  }

  // strconv.Quote, taking every character beyond ASCII to be printable.
  function QuoteChar(c: char): string {
    if c == '"' then "\\\""
    else if c == '\\' then "\\\\"
    else if c == '\U{07}' then "\\a"
    else if c == '\U{08}' then "\\b"
    else if c == '\U{0C}' then "\\f"
    else if c == '\n' then "\\n"
    else if c == '\r' then "\\r"
    else if c == '\t' then "\\t"
    else if c == '\U{0B}' then "\\v"
    else if c < ' ' || c == '\U{7F}' then "\\x" + [Hex(c as nat / 16), Hex(c as nat % 16)]
    else [c]
  }

  function Escaped(s: string): string {
    if s == "" then "" else QuoteChar(s[0]) + Escaped(s[1..])
  }

  function Quote(s: string): string { "\"" + Escaped(s) + "\"" }

  // Text that is quoted as it is.
  predicate IsPlainChar(c: char) { c >= ' ' && c != '\U{7F}' && c != '"' && c != '\\' }
  predicate IsPlain(s: string) { forall c <- s :: IsPlainChar(c) }

  lemma {:induction false} PlainQuote(s: string)
    requires IsPlain(s)
    ensures Escaped(s) == s && Quote(s) == "\"" + s + "\""
  {
    if s != "" {
      assert s[0] in s && IsPlainChar(s[0]);
      forall c | c in s[1..] ensures IsPlainChar(c) { assert c in s; }
      PlainQuote(s[1..]);
      assert [s[0]] + s[1..] == s;
    }
  }

  function HexValue(c: char): nat
    ensures HexValue(c) < 16
  {
    if '0' <= c <= '9' then c as nat - '0' as nat else if 'a' <= c <= 'f' then c as nat - 'a' as nat + 10 else 0
  }

  lemma HexInverse(n: nat)
    requires n < 16
    ensures HexValue(Hex(n)) == n
  {
    var digits := "0123456789abcdef";
    assert forall i :: 0 <= i < 10 ==> digits[i] == ('0' as int + i) as char;
    assert forall i :: 10 <= i < 16 ==> digits[i] == ('a' as int + i - 10) as char;
  }

  // The character a quoted text starts with, from the four characters it may take.
  function FirstQuoted(a: char, b: char, c: char, d: char): char {
    if a != '\\' then a
    else if b == 'x' then (HexValue(c) * 16 + HexValue(d)) as char
    else if b == 'a' then '\U{07}'
    else if b == 'b' then '\U{08}'
    else if b == 'f' then '\U{0C}'
    else if b == 'n' then '\n'
    else if b == 'r' then '\r'
    else if b == 't' then '\t'
    else if b == 'v' then '\U{0B}'
    else b
  }

  function At(s: string, i: nat): char { if i < |s| then s[i] else ' ' }

  function First(s: string): char { FirstQuoted(At(s, 0), At(s, 1), At(s, 2), At(s, 3)) }

  lemma FirstOf(c: char, x: string)
    ensures First(QuoteChar(c) + x) == c
  {
    var q := QuoteChar(c);
    assert forall i :: 0 <= i < |q| ==> At(q + x, i) == q[i];
    if |q| == 4 {
      HexInverse(c as nat / 16);
      HexInverse(c as nat % 16);
    }
  }

  lemma SamePrefix(p: string, x: string, y: string)
    requires p + x == p + y
    ensures x == y
  {
    assert x == (p + x)[|p|..] && y == (p + y)[|p|..];
  }

  function Ended(s: string, rest: string): string { Escaped(s) + ("\"" + rest) }

  lemma EndedEmpty(rest: string)
    ensures Ended("", rest) == "\"" + rest
  {
    assert "" + ("\"" + rest) == "\"" + rest;
  }

  lemma EndedMore(s: string, rest: string)
    requires s != ""
    ensures Ended(s, rest) == QuoteChar(s[0]) + Ended(s[1..], rest)
    ensures Ended(s, rest)[0] != '"'
  {
    assert QuoteChar(s[0])[0] != '"';
    hide QuoteChar;
    assert QuoteChar(s[0]) + Escaped(s[1..]) + ("\"" + rest) == QuoteChar(s[0]) + (Escaped(s[1..]) + ("\"" + rest));
  }

  lemma {:induction false} EndedInjective(a: string, b: string, x: string, y: string)
    requires Ended(a, x) == Ended(b, y)
    ensures a == b && x == y
  {
    hide Ended, Escaped, QuoteChar, First;
    if a == "" { EndedEmpty(x); } else { EndedMore(a, x); }
    if b == "" { EndedEmpty(y); } else { EndedMore(b, y); }
    if a == "" {
      SamePrefix("\"", x, y);
    } else {
      FirstOf(a[0], Ended(a[1..], x));
      FirstOf(b[0], Ended(b[1..], y));
      SamePrefix(QuoteChar(a[0]), Ended(a[1..], x), Ended(b[1..], y));
      EndedInjective(a[1..], b[1..], x, y);
      assert a == [a[0]] + a[1..] && b == [b[0]] + b[1..];
    }
  }

  // What was quoted, and where the quoted text ends, do not depend on what follows.
  lemma QuotePrefix(a: string, b: string, x: string, y: string)
    requires Quote(a) + x == Quote(b) + y
    ensures a == b && x == y
  {
    QuoteEnded(a, x);
    QuoteEnded(b, y);
    hide Quote, Ended;
    SamePrefix("\"", Ended(a, x), Ended(b, y));
    EndedInjective(a, b, x, y);
  }

  lemma QuoteEnded(s: string, rest: string)
    ensures Quote(s) + rest == "\"" + Ended(s, rest)
  {
    hide Escaped;
  }

  lemma {:induction false} EscapedSnoc(s: string, c: char)
    ensures Escaped(s + [c]) == Escaped(s) + QuoteChar(c)
  {
    hide QuoteChar;
    var all := s + [c];
    if s == "" {
      assert all == [c] && [c][1..] == "" && Escaped("") == "";
      assert QuoteChar(c) + "" == QuoteChar(c) && "" + QuoteChar(c) == QuoteChar(c);
    } else {
      assert all[0] == s[0] && all[1..] == s[1..] + [c];
      EscapedSnoc(s[1..], c);
      assert QuoteChar(s[0]) + (Escaped(s[1..]) + QuoteChar(c)) == QuoteChar(s[0]) + Escaped(s[1..]) + QuoteChar(c);
    }
  }

  lemma {:induction false} EscapedLonger(s: string)
    ensures |Escaped(s)| >= |s| && (|Escaped(s)| == |s| <==> IsPlain(s))
  {
    if s != "" {
      EscapedLonger(s[1..]);
      assert |QuoteChar(s[0])| >= 1 && (|QuoteChar(s[0])| == 1 <==> IsPlainChar(s[0]));
      assert s == [s[0]] + s[1..];
      hide QuoteChar, IsPlainChar;
    }
  }

  lemma {:induction false} EscapedLacks(s: string)
    requires ';' !in s
    ensures ';' !in Escaped(s)
  {
    if s != "" {
      assert s[0] in s && forall c <- s[1..] :: c in s;
      CharLacks(s[0]);
      hide QuoteChar;
      EscapedLacks(s[1..]);
    }
  }

  lemma CharLacks(c: char)
    requires c != ';'
    ensures ';' !in QuoteChar(c)
  {}

  // What is left of a quoted text when only its quotes are trimmed.
  function ReadBack(s: string): string { TrimChar(Quote(s), '"') }

  lemma QuoteTrims(s: string)
    ensures ReadBack(s) == TrimCharRight(Escaped(s), '"')
  {
    var e := Escaped(s);
    var t := e + "\"";
    assert Quote(s)[0] == '"' && Quote(s)[1..] == t;
    assert Ended(s, "") == t;
    assert t[|t| - 1] == '"' && t[..|t| - 1] == e;
    if s == "" {
      assert e == "" && t == "\"" && t[1..] == "";
    } else {
      EndedMore(s, "");
      assert TrimCharLeft(t, '"') == t;
    }
  }

  lemma PlainReadsBack(s: string)
    requires IsPlain(s)
    ensures ReadBack(s) == s
  {
    QuoteTrims(s);
    PlainQuote(s);
    assert s != "" ==> s[|s| - 1] in s;
  }

  lemma EscapedDiffers(s: string)
    requires !IsPlain(s)
    ensures ReadBack(s) != s
  {
    NotPlainNotEmpty(s);
    hide Escaped, QuoteChar, Quote, ReadBack, TrimCharRight, IsPlain;
    QuoteTrims(s);
    EscapedLonger(s);
    var before, c := s[..|s| - 1], s[|s| - 1];
    assert s == before + [c];
    EscapedSnoc(before, c);
    LastQuoted(Escaped(before), c);
    if c == '"' { LastDiffers(Escaped(before), '\\', before, c); }
  }

  lemma NotPlainNotEmpty(s: string)
    requires !IsPlain(s)
    ensures s != ""
  {}

  lemma LastDiffers(a: string, c: char, b: string, d: char)
    requires c != d
    ensures a + [c] != b + [d]
  {
    assert (a + [c])[|a|] == c && (b + [d])[|b|] == d && |a + [c]| == |a| + 1 && |b + [d]| == |b| + 1;
  }

  // Trimming the quotes gives the text back exactly when nothing in it was escaped.
  lemma ReadBackIff(s: string)
    ensures ReadBack(s) == s <==> IsPlain(s)
  {
    hide ReadBack;
    if IsPlain(s) { PlainReadsBack(s); } else { EscapedDiffers(s); }
  }

  lemma LastQuoted(e: string, c: char)
    ensures var all := e + QuoteChar(c);
            TrimCharRight(all, '"') == if c == '"' then e + "\\" else all
  {
    var q := QuoteChar(c);
    var all := e + q;
    assert all[|all| - 1] == q[|q| - 1];
    if c == '"' {
      assert all[..|all| - 1] == e + "\\";
      var rest := e + "\\";
      assert rest[|rest| - 1] == '\\';
    } else {
      assert q[|q| - 1] != '"';
    }
  }

  lemma {:induction false} EscapedUnbroken(s: string)
    ensures '\n' !in Escaped(s)
  {
    if s != "" {
      EscapedUnbroken(s[1..]);
      assert '\n' !in QuoteChar(s[0]);
    }
  }

  // ---- parameters separated by commas outside quotes ----

  // The pieces of s, where quoted says whether it starts inside quotes.
  function Unquoted(s: string, quoted: bool): (r: seq<string>)
    ensures r != []
  {
    if s == "" then [""]
    else if s[0] == ',' && !quoted then [""] + Unquoted(s[1..], false)
    else
      var more := Unquoted(s[1..], if s[0] == '"' then !quoted else quoted);
      [[s[0]] + more[0]] + more[1..]
  }

  function Started(start: string, pieces: seq<string>): seq<string>
    requires pieces != []
  {
    [start + pieces[0]] + pieces[1..]
  }

  method SplitParams(header: string) returns (out: seq<string>)
    ensures out == Unquoted(header, false)
  {
    hide Started, Unquoted;
    out := [];
    var depth := 0;
    var start := 0;
    assert header[0..0] == "" && header[0..] == header;
    StartedEmpty(Unquoted(header, false));
    for i := 0 to |header|
      invariant 0 <= start <= i && (depth == 0 || depth == 1)
      invariant out + Started(header[start..i], Unquoted(header[i..], depth == 1)) == Unquoted(header, false)
    {
      var r := header[i];
      UnquotedStep(header, i, depth == 1);
      assert header[start..i + 1] == header[start..i] + [r];
      if r == '"' {
        StartedMore(header[start..i], r, Unquoted(header[i + 1..], depth == 0));
        depth := 1 - depth;
      } else if r == ',' && depth == 0 {
        StartedDone(out, header[start..i], Unquoted(header[i + 1..], false));
        out := out + [header[start..i]];
        start := i + 1;
        assert header[i + 1..i + 1] == "";
      } else {
        StartedMore(header[start..i], r, Unquoted(header[i + 1..], depth == 1));
      }
    }
    Finished(header[start..], depth == 1);
    assert header[|header|..] == "" && header[start..|header|] == header[start..];
    out := out + [header[start..]];
  }

  lemma Finished(start: string, quoted: bool)
    ensures Started(start, Unquoted("", quoted)) == [start]
  {
    assert start + "" == start;
  }

  lemma UnquotedStep(header: string, i: nat, quoted: bool)
    requires i < |header|
    ensures var r := header[i];
            var q := if r == '"' then !quoted else quoted;
            var more := Unquoted(header[i + 1..], q);
            Unquoted(header[i..], quoted)
              == if r == ',' && !quoted then [""] + Unquoted(header[i + 1..], false) else [[r] + more[0]] + more[1..]
  {
    assert header[i..][0] == header[i] && header[i..][1..] == header[i + 1..];
  }

  lemma StartedEmpty(pieces: seq<string>)
    requires pieces != []
    ensures Started("", pieces) == pieces
  {
    assert "" + pieces[0] == pieces[0];
  }

  lemma StartedMore(start: string, c: char, more: seq<string>)
    requires more != []
    ensures Started(start, [[c] + more[0]] + more[1..]) == Started(start + [c], more)
  {
    var pieces := [[c] + more[0]] + more[1..];
    assert pieces[0] == [c] + more[0] && pieces[1..] == more[1..];
    assert start + ([c] + more[0]) == start + [c] + more[0];
  }

  lemma StartedDone(out: seq<string>, start: string, more: seq<string>)
    requires more != []
    ensures out + Started(start, [""] + more) == out + [start] + Started("", more)
  {
    assert ([""] + more)[1..] == more && start + "" == start;
    StartedEmpty(more);
  }

  // Nothing is lost: the pieces joined by commas are the header.
  lemma {:induction false} UnquotedJoin(s: string, quoted: bool)
    ensures Join(Unquoted(s, quoted), ",") == s
  {
    if s != "" {
      if s[0] == ',' && !quoted {
        var more := Unquoted(s[1..], false);
        UnquotedJoin(s[1..], false);
        assert ([""] + more)[1..] == more;
        assert "" + "," + s[1..] == s;
      } else {
        var q := if s[0] == '"' then !quoted else quoted;
        var more := Unquoted(s[1..], q);
        UnquotedJoin(s[1..], q);
        var pieces := [[s[0]] + more[0]] + more[1..];
        assert pieces[1..] == more[1..];
        assert [s[0]] + s[1..] == s;
        if |more| > 1 {
          assert [s[0]] + more[0] + "," + Join(more[1..], ",") == [s[0]] + (more[0] + "," + Join(more[1..], ","));
        }
      }
    }
  }

  // Whether a text leaves the quotes as it found them.
  function After(s: string, quoted: bool): bool {
    if s == "" then quoted else After(s[1..], if s[0] == '"' then !quoted else quoted)
  }

  // No comma in s stands outside quotes.
  predicate Sealed(s: string, quoted: bool) {
    s == "" || ((s[0] == ',' ==> quoted) && Sealed(s[1..], if s[0] == '"' then !quoted else quoted))
  }

  lemma {:induction false} SealedFirst(s: string, rest: string, quoted: bool)
    requires Sealed(s, quoted)
    ensures Unquoted(s + rest, quoted) == Started(s, Unquoted(rest, After(s, quoted)))
  {
    if s == "" {
      assert s + rest == rest;
      StartedEmpty(Unquoted(rest, quoted));
    } else {
      var q := if s[0] == '"' then !quoted else quoted;
      assert (s + rest)[0] == s[0] && (s + rest)[1..] == s[1..] + rest;
      SealedFirst(s[1..], rest, q);
      var more := Unquoted(rest, After(s, quoted));
      assert [s[0]] + (s[1..] + more[0]) == s + more[0];
      assert Started(s[1..], more)[1..] == more[1..];
    }
  }

  lemma {:induction false} SealedAppend(a: string, b: string, quoted: bool)
    ensures Sealed(a + b, quoted) <==> Sealed(a, quoted) && Sealed(b, After(a, quoted))
    ensures After(a + b, quoted) == After(b, After(a, quoted))
  {
    if a == "" {
      assert a + b == b;
    } else {
      assert (a + b)[0] == a[0] && (a + b)[1..] == a[1..] + b;
      SealedAppend(a[1..], b, if a[0] == '"' then !quoted else quoted);
    }
  }

  lemma {:induction false} SealedPlain(s: string, quoted: bool)
    requires '"' !in s && (quoted || ',' !in s)
    ensures Sealed(s, quoted) && After(s, quoted) == quoted
  {
    if s != "" {
      assert s[0] in s && forall c <- s[1..] :: c in s;
      SealedPlain(s[1..], quoted);
    }
  }

  // name="value", where neither holds a quote: sealed, whatever commas the value holds.
  lemma SealedParam(name: string, value: string)
    requires '"' !in name && ',' !in name && '"' !in value
    ensures Sealed(name + "\"" + value + "\"", false) && !After(name + "\"" + value + "\"", false)
  {
    SealedPlain(name, false);
    SealedPlain(value, true);
    assert Sealed("\"", false) && After("\"", false) && Sealed("\"", true) && !After("\"", true);
    SealedAppend(name, "\"", false);
    SealedAppend(name + "\"", value, false);
    SealedAppend(name + "\"" + value, "\"", false);
  }

  // Sealed parameters joined by commas are split into those parameters.
  lemma {:induction false} UnquotedOfJoined(parts: seq<string>)
    requires parts != [] && forall p <- parts :: Sealed(p, false) && !After(p, false)
    ensures Unquoted(Join(parts, ","), false) == parts
    decreases |parts|
  {
    hide Sealed, After;
    var p, more := parts[0], parts[1..];
    assert p in parts;
    if more == [] {
      SealedFirst(p, "", false);
      assert p + "" == p;
    } else {
      var rest := "," + Join(more, ",");
      assert Join(parts, ",") == p + rest;
      SealedFirst(p, rest, false);
      assert rest[1..] == Join(more, ",");
      UnquotedOfJoined(more);
      assert ([""] + more)[1..] == more && p + "" == p;
    }
  }
}
