// internal/convergence: which observation of an item wins, and why.
module Convergence {
  import opened Common

  // The criteria in the order the code consults them. OnlyCandidate stands apart: it is
  // reported when there was nothing to compare.
  datatype Reason = OnlyCandidate | AuthorOrigin | Newer | Fidelity | Attachments | Hash

  const FIDELITY_NOTHING := 0
  const FIDELITY_HTML := 1
  const FIDELITY_MARKDOWN := 2

  datatype Candidate = Candidate(
    id: int, claimed: bool, updated: int, fidelity: int, attachments: int, hash: seq<byte>)

  datatype Resolution = Resolution(winner: Candidate, reason: Reason)

  datatype Error = NoCandidates

  // Byte-wise comparison, shorter first on a common prefix (bytes.Compare(a, b) < 0).
  predicate LexLess(a: seq<byte>, b: seq<byte>) {
    if b == [] then false
    else if a == [] then true
    else if a[0] != b[0] then a[0] < b[0]
    else LexLess(a[1..], b[1..])
  }

  function Beats(a: Candidate, b: Candidate): (bool, Reason) {
    if a.claimed != b.claimed then (a.claimed, AuthorOrigin)
    else if a.updated != b.updated then (a.updated > b.updated, Newer)
    else if a.fidelity != b.fidelity then (a.fidelity > b.fidelity, Fidelity)
    else if a.attachments != b.attachments then (a.attachments > b.attachments, Attachments)
    else (LexLess(a.hash, b.hash), Hash)
  }

  // The position of a criterion in the comparison, later is weaker.
  function Level(r: Reason): nat {
    match r
    case OnlyCandidate => 0
    case AuthorOrigin => 1
    case Newer => 2
    case Fidelity => 3
    case Attachments => 4
    case Hash => 5
  }

  // Everything about a candidate that ranking looks at.
  datatype Rank = Rank(claimed: bool, updated: int, fidelity: int, attachments: int, hash: seq<byte>)

  function RankOf(c: Candidate): Rank {
    Rank(c.claimed, c.updated, c.fidelity, c.attachments, c.hash)
  }

  // The order-free meaning of "winner": nothing in cs outranks cs[at], and everything
  // before it is strictly worse.
  ghost predicate FirstMaximal(cs: seq<Candidate>, at: int) {
    && 0 <= at < |cs|
    && (forall j :: 0 <= j < |cs| ==> !Beats(cs[j], cs[at]).0)
    && (forall j :: 0 <= j < at ==> Beats(cs[at], cs[j]).0)
  }

  // Replaces the running winner whenever a later candidate beats it.
  function BestAt(cs: seq<Candidate>): (at: nat)
    requires cs != []
    ensures FirstMaximal(cs, at)
  {
    if |cs| == 1 then
      LexIrreflexive(cs[0].hash);
      0
    else
      var n := |cs| - 1;
      var at := BestAt(cs[..n]);
      BestExtends(cs, at);
      if Beats(cs[n], cs[at]).0 then n else at
  }

  function Without<T>(s: seq<T>, at: nat): (r: seq<T>)
    requires at < |s|
    ensures |r| == |s| - 1
    ensures multiset(r) == multiset(s) - multiset{s[at]}
  {
    assert s == s[..at] + [s[at]] + s[at + 1..];
    s[..at] + s[at + 1..]
  }

  function Resolved(cs: seq<Candidate>): Result<Resolution, Error> {
    if cs == [] then Err(NoCandidates)
    else if |cs| == 1 then Ok(Resolution(cs[0], OnlyCandidate))
    else
      var at := BestAt(cs);
      var rest := Without(cs, at);
      Ok(Resolution(cs[at], Beats(cs[at], rest[BestAt(rest)]).1))
  }

  method Best(cs: seq<Candidate>) returns (winner: Candidate, at: nat)
    requires cs != []
    ensures at == BestAt(cs) && winner == cs[at]
  {
    winner, at := cs[0], 0;
    for i := 1 to |cs|
      invariant at < i && winner == cs[at]
      invariant at == BestAt(cs[..i])
    {
      assert cs[..i + 1][..i] == cs[..i];
      var (better, _) := Beats(cs[i], winner);
      if better {
        winner, at := cs[i], i;
      }
    }
    assert cs[..|cs|] == cs;
  }

  method Resolve(cs: seq<Candidate>) returns (r: Result<Resolution, Error>)
    ensures r == Resolved(cs)
  {
    if |cs| == 0 { return Err(NoCandidates); }
    if |cs| == 1 { return Ok(Resolution(cs[0], OnlyCandidate)); }
    var winner, at := Best(cs);
    var rest := cs[..at];
    rest := rest + cs[at + 1..];
    var runnerUp, _ := Best(rest);
    var (_, reason) := Beats(winner, runnerUp);
    r := Ok(Resolution(winner, reason));
  }

  // ---- the order behind Beats ----

  lemma LexIrreflexive(a: seq<byte>)
    ensures !LexLess(a, a)
  {}

  lemma {:induction false} LexTotal(a: seq<byte>, b: seq<byte>)
    ensures LexLess(a, b) || LexLess(b, a) || a == b
    ensures !(LexLess(a, b) && LexLess(b, a))
  {
    if a != [] && b != [] && a[0] == b[0] {
      LexTotal(a[1..], b[1..]);
      assert a == [a[0]] + a[1..] && b == [b[0]] + b[1..];
    }
  }

  lemma {:induction false} LexTransitive(a: seq<byte>, b: seq<byte>, c: seq<byte>)
    requires LexLess(a, b) && LexLess(b, c)
    ensures LexLess(a, c)
  {
    if a != [] && b != [] && c != [] && a[0] == b[0] == c[0] {
      LexTransitive(a[1..], b[1..], c[1..]);
    }
  }

  // Anything that does not beat b is beaten by whatever beats b: a strict weak order.
  lemma BeatsThrough(a: Candidate, b: Candidate, c: Candidate)
    requires Beats(a, b).0 && !Beats(c, b).0
    ensures Beats(a, c).0
  {
    LexTotal(c.hash, b.hash);
    if LexLess(a.hash, b.hash) && LexLess(b.hash, c.hash) { LexTransitive(a.hash, b.hash, c.hash); }
  }

  lemma BeatsAsymmetric(a: Candidate, b: Candidate)
    ensures !(Beats(a, b).0 && Beats(b, a).0)
    ensures !Beats(a, b).0 && !Beats(b, a).0 <==> RankOf(a) == RankOf(b)
    ensures Beats(a, b).1 == Beats(b, a).1
  {
    LexTotal(a.hash, b.hash);
    LexIrreflexive(a.hash);
  }

  lemma SameRankSameFight(a: Candidate, a': Candidate, b: Candidate, b': Candidate)
    requires RankOf(a) == RankOf(a') && RankOf(b) == RankOf(b')
    ensures Beats(a, b) == Beats(a', b')
  {}

  lemma BestExtends(cs: seq<Candidate>, at: nat)
    requires |cs| > 1 && FirstMaximal(cs[..|cs| - 1], at)
    ensures Beats(cs[|cs| - 1], cs[at]).0 ==> FirstMaximal(cs, |cs| - 1)
    ensures !Beats(cs[|cs| - 1], cs[at]).0 ==> FirstMaximal(cs, at)
  {
    var n := |cs| - 1;
    assert forall j :: 0 <= j < n ==> cs[..n][j] == cs[j];
    if Beats(cs[n], cs[at]).0 {
      forall j | 0 <= j < n
        ensures Beats(cs[n], cs[j]).0 && !Beats(cs[j], cs[n]).0
      {
        BeatsThrough(cs[n], cs[at], cs[j]);
        BeatsAsymmetric(cs[n], cs[j]);
      }
      LexIrreflexive(cs[n].hash);
    }
  }

  lemma FirstMaximalUnique(cs: seq<Candidate>, i: nat, j: nat)
    requires FirstMaximal(cs, i) && FirstMaximal(cs, j)
    ensures i == j
  {
    var a, b := cs[i], cs[j];
  }

  // ---- what Resolve promises ----

  // The winner is one of the candidates and nothing outranks it.
  lemma ResolveIsMaximal(cs: seq<Candidate>)
    requires cs != []
    ensures Resolved(cs).Ok? && Resolved(cs).value.winner == cs[BestAt(cs)]
    ensures forall c <- cs :: !Beats(c, Resolved(cs).value.winner).0
  {
    LexIrreflexive(cs[0].hash);
  }

  // If r comes between w and c, c differs from w at least as early as r does.
  lemma CloserDiffersLater(w: Candidate, r: Candidate, c: Candidate)
    requires !Beats(r, w).0 && !Beats(c, r).0
    ensures Level(Beats(w, c).1) <= Level(Beats(w, r).1)
  {}

  // The reason is never weaker than the criterion separating the winner from any loser,
  // and it is the one separating it from some loser: the closest competitor's.
  lemma ReasonIsTheClosest(cs: seq<Candidate>)
    requires |cs| > 1
    ensures Resolved(cs).Ok?
    ensures var at := BestAt(cs);
            forall c <- Without(cs, at) ::
              Level(Beats(cs[at], c).1) <= Level(Resolved(cs).value.reason)
    ensures var at := BestAt(cs);
            exists c <- Without(cs, at) :: Beats(cs[at], c).1 == Resolved(cs).value.reason
  {
    var at := BestAt(cs);
    var rest := Without(cs, at);
    var r := rest[BestAt(rest)];
    InWithout(cs, at, r);
    forall c | c in rest
      ensures Level(Beats(cs[at], c).1) <= Level(Beats(cs[at], r).1)
    {
      CloserDiffersLater(cs[at], r, c);
    }
  }

  lemma InWithout<T>(s: seq<T>, at: nat, x: T)
    requires at < |s|
    ensures x in Without(s, at) <==> multiset(s)[x] > (if x == s[at] then 1 else 0)
    ensures x in Without(s, at) ==> x in s
  {
    assert x in Without(s, at) <==> x in multiset(Without(s, at));
    assert x in s <==> x in multiset(s);
  }

  // The strongest thing an unordered bag of candidates determines: the winning rank and
  // the reason are the same for every ordering of the same candidates.
  lemma ResolveIgnoresOrder(cs: seq<Candidate>, ds: seq<Candidate>)
    requires cs != [] && multiset(cs) == multiset(ds)
    ensures Resolved(cs).Ok? && Resolved(ds).Ok?
    ensures RankOf(Resolved(cs).value.winner) == RankOf(Resolved(ds).value.winner)
    ensures Resolved(cs).value.reason == Resolved(ds).value.reason
  {
    SameLength(cs, ds);
    WinnersTie(cs, ds);
    if |cs| > 1 {
      ReasonNoWeaker(cs, ds);
      ReasonNoWeaker(ds, cs);
      LevelInjective(Resolved(cs).value.reason, Resolved(ds).value.reason);
    } else {
      assert cs[0] in multiset(ds);
    }
  }

  lemma SameLength<T>(a: seq<T>, b: seq<T>)
    requires multiset(a) == multiset(b)
    ensures |a| == |b|
  {
    assert |multiset(a)| == |a| && |multiset(b)| == |b|;
  }

  lemma WinnersTie(cs: seq<Candidate>, ds: seq<Candidate>)
    requires cs != [] && multiset(cs) == multiset(ds)
    ensures ds != [] && RankOf(cs[BestAt(cs)]) == RankOf(ds[BestAt(ds)])
    ensures Resolved(cs).Ok? && Resolved(cs).value.winner == cs[BestAt(cs)]
    ensures Resolved(ds).Ok? && Resolved(ds).value.winner == ds[BestAt(ds)]
  {
    SameLength(cs, ds);
    var c, d := cs[BestAt(cs)], ds[BestAt(ds)];
    assert c in multiset(ds) && d in multiset(cs);
    BeatsAsymmetric(c, d);
  }

  // c is a candidate other than (this copy of) the winner.
  ghost predicate Loses(cs: seq<Candidate>, c: Candidate)
    requires cs != []
  {
    multiset(cs)[c] > if c == cs[BestAt(cs)] then 1 else 0
  }

  lemma ReasonBounds(cs: seq<Candidate>, c: Candidate)
    requires |cs| > 1 && Loses(cs, c)
    ensures Level(Beats(cs[BestAt(cs)], c).1) <= Level(Resolved(cs).value.reason)
  {
    ReasonIsTheClosest(cs);
    InWithout(cs, BestAt(cs), c);
  }

  lemma ReasonWitness(cs: seq<Candidate>) returns (r: Candidate)
    requires |cs| > 1
    ensures Loses(cs, r) && Beats(cs[BestAt(cs)], r).1 == Resolved(cs).value.reason
  {
    ReasonIsTheClosest(cs);
    var at := BestAt(cs);
    r :| r in Without(cs, at) && Beats(cs[at], r).1 == Resolved(cs).value.reason;
    InWithout(cs, at, r);
  }

  lemma ReasonNoWeaker(cs: seq<Candidate>, ds: seq<Candidate>)
    requires |cs| > 1 && |ds| > 1 && multiset(cs) == multiset(ds)
    ensures Level(Resolved(cs).value.reason) <= Level(Resolved(ds).value.reason)
  {
    var c, d := cs[BestAt(cs)], ds[BestAt(ds)];
    WinnersTie(cs, ds);
    var r := ReasonWitness(cs);
    if c == d {
      ReasonBounds(ds, r);
    } else {
      assert c in multiset(ds);
      ReasonBounds(ds, c);
      TieIsLast(d, c);
      LevelAtMostHash(Resolved(cs).value.reason);
    }
  }

  lemma TieIsLast(a: Candidate, b: Candidate)
    requires RankOf(a) == RankOf(b)
    ensures Level(Beats(a, b).1) == Level(Hash)
  {}

  lemma LevelAtMostHash(r: Reason)
    ensures Level(r) <= Level(Hash)
  {}

  lemma LevelInjective(a: Reason, b: Reason)
    ensures Level(a) == Level(b) ==> a == b
  {}

  // Two candidates that agree on every criterion are told apart by position alone, so the
  // identity of the winner survives reordering exactly when the top rank is held once.
  ghost predicate TopIsShared(cs: seq<Candidate>) {
    exists c, d :: c in cs && d in cs && c != d
      && RankOf(c) == RankOf(d) && (forall e <- cs :: !Beats(e, c).0)
  }

  lemma WinnerIdentityIffTopUnshared(cs: seq<Candidate>)
    requires cs != []
    ensures (forall ds: seq<Candidate> | multiset(ds) == multiset(cs) ::
               Resolved(ds).Ok? && Resolved(ds).value.winner == Resolved(cs).value.winner)
            <==> !TopIsShared(cs)
  {
    if TopIsShared(cs) {
      var c, d :| c in cs && d in cs && c != d
        && RankOf(c) == RankOf(d) && (forall e <- cs :: !Beats(e, c).0);
      var cFirst := LedBy(cs, c);
      var dFirst := LedBy(cs, d);
      assert Resolved(cFirst).value.winner == c;
      assert Resolved(dFirst).value.winner == d;
    } else {
      forall ds: seq<Candidate> | multiset(ds) == multiset(cs)
        ensures Resolved(ds).Ok? && Resolved(ds).value.winner == Resolved(cs).value.winner
      {
        WinnersTie(cs, ds);
        ResolveIsMaximal(cs);
        assert ds[BestAt(ds)] in multiset(cs);
      }
    }
  }

  // An ordering of cs that starts with one of its maximal members; that member wins it.
  lemma LedBy(cs: seq<Candidate>, c: Candidate) returns (ds: seq<Candidate>)
    requires c in cs
    requires forall e <- cs :: !Beats(e, c).0
    ensures multiset(ds) == multiset(cs) && ds != []
    ensures Resolved(ds).Ok? && Resolved(ds).value.winner == c
  {
    var i :| 0 <= i < |cs| && cs[i] == c;
    ds := [c] + Without(cs, i);
    assert multiset(ds) == multiset(cs);
    forall j | 0 <= j < |ds| ensures !Beats(ds[j], ds[0]).0 {
      assert ds[j] in multiset(ds);
    }
    assert FirstMaximal(ds, 0);
    FirstMaximalUnique(ds, 0, BestAt(ds));
  }

  // Two candidates of one rank: the first in the list wins.
  lemma SharedTopFollowsOrder()
    ensures var a := Candidate(1, false, 0, 0, 0, []);
            var b := Candidate(2, false, 0, 0, 0, []);
            Resolved([a, b]).Ok? && Resolved([a, b]).value.winner == a
            && Resolved([b, a]).Ok? && Resolved([b, a]).value.winner == b
  {
    var a := Candidate(1, false, 0, 0, 0, []);
    var b := Candidate(2, false, 0, 0, 0, []);
    assert [a, b][..1] == [a] && [b, a][..1] == [b];
    assert BestAt([a, b]) == 0 && BestAt([b, a]) == 0;
  }
}
