// The string helpers the modelled code takes from Go's standard library. A string is a
// sequence of Unicode scalar values.
module Text {
  import opened Common

  // ---- white space ----

  // unicode.IsSpace: the White_Space property.
  predicate IsSpace(c: char) {
    || '\t' <= c <= '\r' || c == ' ' || c == '\U{85}' || c == '\U{A0}' || c == '\U{1680}'
    || '\U{2000}' <= c <= '\U{200A}' || c == '\U{2028}' || c == '\U{2029}'
    || c == '\U{202F}' || c == '\U{205F}' || c == '\U{3000}'
  }

  predicate Blank(s: string) {
    forall c <- s :: IsSpace(c)
  }

  predicate Trimmed(s: string) {
    s == "" || (!IsSpace(s[0]) && !IsSpace(s[|s| - 1]))
  }

  function TrimLeft(s: string): string {
    if s != "" && IsSpace(s[0]) then TrimLeft(s[1..]) else s
  }

  function TrimRight(s: string): string {
    if s != "" && IsSpace(s[|s| - 1]) then TrimRight(s[..|s| - 1]) else s
  }

  // strings.TrimSpace
  function TrimSpace(s: string): string {
    TrimRight(TrimLeft(s))
  }

  lemma {:induction false} TrimLeftSplits(s: string)
    ensures |TrimLeft(s)| <= |s|
    ensures Blank(s[..|s| - |TrimLeft(s)|])
    ensures s == s[..|s| - |TrimLeft(s)|] + TrimLeft(s)
    ensures TrimLeft(s) == "" || !IsSpace(TrimLeft(s)[0])
  {
    if s != "" && IsSpace(s[0]) {
      TrimLeftSplits(s[1..]);
      var n := |s| - |TrimLeft(s)|;
      assert s[..n] == [s[0]] + s[1..][..n - 1];
    }
  }

  lemma {:induction false} TrimRightSplits(s: string)
    ensures |TrimRight(s)| <= |s|
    ensures Blank(s[|TrimRight(s)|..])
    ensures s == TrimRight(s) + s[|TrimRight(s)|..]
    ensures TrimRight(s) == "" || !IsSpace(TrimRight(s)[|TrimRight(s)| - 1])
  {
    if s != "" && IsSpace(s[|s| - 1]) {
      TrimRightSplits(s[..|s| - 1]);
      var n := |TrimRight(s)|;
      assert s[n..] == s[..|s| - 1][n..] + [s[|s| - 1]];
    }
  }

  // TrimSpace is determined by its two defining properties: the core it returns starts and
  // ends in something visible, and only white space was taken away.
  lemma TrimSpaceSpec(s: string) returns (left: string, right: string)
    ensures Blank(left) && Blank(right) && Trimmed(TrimSpace(s))
    ensures s == left + TrimSpace(s) + right
  {
    TrimLeftSplits(s);
    var l := TrimLeft(s);
    TrimRightSplits(l);
    left, right := s[..|s| - |l|], l[|TrimRight(l)|..];
  }

  lemma {:induction false} TrimLeftBlank(left: string, s: string)
    requires Blank(left)
    ensures TrimLeft(left + s) == TrimLeft(s)
  {
    if left == "" {
      assert left + s == s;
    } else {
      assert (left + s)[1..] == left[1..] + s;
      TrimLeftBlank(left[1..], s);
    }
  }

  lemma {:induction false} TrimRightBlank(s: string, right: string)
    requires Blank(right)
    ensures TrimRight(s + right) == TrimRight(s)
  {
    if right == "" {
      assert s + right == s;
    } else {
      var n := |right| - 1;
      assert (s + right)[..|s + right| - 1] == s + right[..n];
      TrimRightBlank(s, right[..n]);
    }
  }

  lemma TrimSpaceUnique(left: string, core: string, right: string)
    requires Blank(left) && Blank(right) && Trimmed(core)
    ensures TrimSpace(left + core + right) == core
  {
    assert left + core + right == left + (core + right);
    TrimLeftBlank(left, core + right);
    if core == "" {
      assert core + right == right + "";
      TrimLeftBlank(right, "");
    } else {
      TrimRightBlank(core, right);
    }
  }

  lemma TrimSpaceFixed(s: string)
    ensures TrimSpace(s) == s <==> Trimmed(s)
  {
    var left, right := TrimSpaceSpec(s);
    if Trimmed(s) {
      TrimSpaceUnique("", s, "");
      assert "" + s + "" == s;
    }
  }

  // White space around a string makes no difference to its trimmed form.
  lemma TrimSpacePadded(left: string, s: string, right: string)
    requires Blank(left) && Blank(right)
    ensures TrimSpace(left + s + right) == TrimSpace(s)
  {
    var l, r := TrimSpaceSpec(s);
    assert left + s + right == (left + l) + TrimSpace(s) + (r + right);
    TrimSpaceUnique(left + l, TrimSpace(s), r + right);
  }

  // ---- searching and cutting ----

  // strings.IndexByte / strings.Index with a one-character pattern; |s| when absent.
  function Find(s: string, c: char): (i: nat)
    ensures i <= |s| && c !in s[..i]
    ensures i < |s| ==> s[i] == c
  {
    if s == "" || s[0] == c then 0
    else
      var i := Find(s[1..], c);
      assert s[..i + 1] == [s[0]] + s[1..][..i];
      i + 1
  }

  lemma NotBefore(s: string, c: char, i: nat)
    requires i <= |s| && c !in s[..i]
    ensures forall j :: 0 <= j < i ==> s[j] != c
  {
    assert forall j :: 0 <= j < i ==> s[..i][j] == s[j];
  }

  lemma FindUnique(s: string, c: char, i: nat)
    requires i <= |s| && c !in s[..i] && (i < |s| ==> s[i] == c)
    ensures Find(s, c) == i
  {
    NotBefore(s, c, i);
    NotBefore(s, c, Find(s, c));
  }

  lemma FindAfter(a: string, c: char, b: string)
    requires c !in a
    ensures Find(a + [c] + b, c) == |a|
    ensures (a + [c] + b)[..|a|] == a && (a + [c] + b)[|a| + 1..] == b
  {
    assert (a + [c] + b)[..|a|] == a;
    FindUnique(a + [c] + b, c, |a|);
  }

  lemma FindNone(s: string, c: char)
    requires c !in s
    ensures Find(s, c) == |s|
  {
    assert s[..|s|] == s;
    FindUnique(s, c, |s|);
  }

  // strings.Cut with a one-character separator.
  function Cut(s: string, c: char): (r: Option<(string, string)>) {
    var i := Find(s, c);
    if i == |s| then None else Some((s[..i], s[i + 1..]))
  }

  lemma CutAt(a: string, c: char, b: string)
    requires c !in a
    ensures Cut(a + [c] + b, c) == Some((a, b))
  {
    FindAfter(a, c, b);
  }

  predicate HasPrefix(s: string, p: string) {
    |p| <= |s| && s[..|p|] == p
  }

  predicate HasSuffix(s: string, p: string) {
    |p| <= |s| && s[|s| - |p|..] == p
  }

  function TrimPrefix(s: string, p: string): string {
    if HasPrefix(s, p) then s[|p|..] else s
  }

  // strings.ToLower and strings.ToUpper on the ASCII letters; other characters unchanged.
  function LowerChar(c: char): char {
    if 'A' <= c <= 'Z' then (c as int + 32) as char else c
  }

  function UpperChar(c: char): char {
    if 'a' <= c <= 'z' then (c as int - 32) as char else c
  }

  function Lower(s: string): (r: string)
    ensures |r| == |s| && forall i :: 0 <= i < |s| ==> r[i] == LowerChar(s[i])
  {
    if s == "" then "" else [LowerChar(s[0])] + Lower(s[1..])
  }

  function Upper(s: string): (r: string)
    ensures |r| == |s| && forall i :: 0 <= i < |s| ==> r[i] == UpperChar(s[i])
  {
    if s == "" then "" else [UpperChar(s[0])] + Upper(s[1..])
  }

  // strings.Fields: the maximal runs without white space.
  function Fields(s: string): (r: seq<string>)
    ensures forall f <- r :: f != "" && forall c <- f :: !IsSpace(c)
    decreases |s|
  {
    if s == "" then []
    else if IsSpace(s[0]) then Fields(s[1..])
    else
      var n := WordLength(s);
      [s[..n]] + Fields(s[n..])
  }

  function WordLength(s: string): (n: nat)
    ensures n <= |s| && forall i :: 0 <= i < n ==> !IsSpace(s[i])
    ensures n < |s| ==> IsSpace(s[n])
  {
    if s == "" || IsSpace(s[0]) then 0 else 1 + WordLength(s[1..])
  }

  // strings.Join(fields, " ")
  function JoinFields(fields: seq<string>): string {
    if fields == [] then ""
    else if |fields| == 1 then fields[0]
    else fields[0] + " " + JoinFields(fields[1..])
  }

  // ---- decimal numbers ----

  predicate IsDigit(c: char) { '0' <= c <= '9' }

  function Digit(d: nat): (c: char)
    requires d < 10
    ensures IsDigit(c) && DigitValue(c) == d
  {
    ('0' as int + d) as char
  }

  function DigitValue(c: char): nat
    requires IsDigit(c)
  {
    c as int - '0' as int
  }

  predicate AllDigits(s: string) {
    forall c <- s :: IsDigit(c)
  }

  function NatToString(n: nat): (s: string)
    ensures s != "" && AllDigits(s)
  {
    if n < 10 then [Digit(n)] else NatToString(n / 10) + [Digit(n % 10)]
  }

  function NatValue(s: string): nat
    requires AllDigits(s)
  {
    if s == "" then 0 else 10 * NatValue(s[..|s| - 1]) + DigitValue(s[|s| - 1])
  }

  lemma {:induction false} NatValueInverse(n: nat)
    ensures NatValue(NatToString(n)) == n
  {
    if n >= 10 {
      var s := NatToString(n);
      assert s[..|s| - 1] == NatToString(n / 10);
      NatValueInverse(n / 10);
    }
  }

  // strconv.Itoa / strconv.FormatInt(n, 10)
  function Itoa(n: int): (s: string)
    ensures s != "" && forall c <- s :: IsDigit(c) || c == '-'
  {
    if n < 0 then "-" + NatToString(-n) else NatToString(n)
  }

  // strconv.Atoi / strconv.ParseInt(s, 10, 64), without the range check.
  function Atoi(s: string): Option<int> {
    var body := if s != "" && (s[0] == '-' || s[0] == '+') then s[1..] else s;
    if body == "" || !AllDigits(body) then None
    else Some(if s[0] == '-' then -(NatValue(body) as int) else NatValue(body))
  }

  lemma AtoiInverse(n: int)
    ensures Atoi(Itoa(n)) == Some(n)
  {
    if n < 0 {
      var s := Itoa(n);
      assert s[1..] == NatToString(-n);
      NatValueInverse(-n);
    } else {
      NatValueInverse(n);
      assert IsDigit(Itoa(n)[0]);
    }
  }

  lemma ItoaInjective(a: int, b: int)
    requires Itoa(a) == Itoa(b)
    ensures a == b
  {
    AtoiInverse(a);
    AtoiInverse(b);
  }

  lemma ItoaVisible(n: int)
    ensures forall c <- Itoa(n) :: !IsSpace(c)
    ensures Trimmed(Itoa(n))
  {
    var s := Itoa(n);
    assert s[0] in s && s[|s| - 1] in s;
  }

  // Base ten: the last digit after those of the tenth part, a sign in front.
  lemma ItoaTells(q: nat, d: nat)
    requires d < 10
    ensures Itoa(10 * q + d) == (if q == 0 then "" else Itoa(q)) + ["0123456789"[d]]
    ensures 10 * q + d > 0 ==> Itoa(-(10 * q + d)) == "-" + Itoa(10 * q + d)
  {
    assert (10 * q + d) / 10 == q && (10 * q + d) % 10 == d;
  }
}
