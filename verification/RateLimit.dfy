// internal/web/ratelimit.go: a token bucket for each key, with a sweep that forgets idle ones.
// Times are hours on a monotonic clock.
module RateLimit {
  datatype Bucket = Bucket(tokens: real, last: real)

  datatype Rate = Rate(burst: real, perHour: real)

  // The limiters the application is configured with: for attempts to log in (internal/web/auth.go),
  // and for federated requests and the inbox (internal/web/app.go).
  const ATTEMPTS := Rate(8.0, 20.0)
  const FEDERATION := Rate(30.0, 120.0)
  const INBOX_LIMIT := Rate(240.0, 3600.0)

  const SWEEP_AFTER: real := 1.0

  function Min(a: real, b: real): real { if a <= b then a else b }

  // ---- the specification ----

  datatype State = State(seen: map<string, Bucket>, swept: real)

  datatype Call = Call(key: string, at: real)

  function Recent(seen: map<string, Bucket>, now: real): map<string, Bucket> {
    map k | k in seen && now - seen[k].last <= SWEEP_AFTER :: seen[k]
  }

  function SweepStep(s: State, now: real): State {
    if now - s.swept > SWEEP_AFTER then State(Recent(s.seen, now), now) else s
  }

  function Refill(hours: real, perHour: real): real { hours * perHour }

  // One bucket asked for one token.
  function Take(rate: Rate, b: Bucket, now: real): (Bucket, bool) {
    var tokens := Min(rate.burst, b.tokens + Refill(now - b.last, rate.perHour));
    if tokens < 1.0 then (Bucket(tokens, now), false) else (Bucket(tokens - 1.0, now), true)
  }

  function Ask(rate: Rate, seen: map<string, Bucket>, c: Call): (map<string, Bucket>, bool) {
    if c.key !in seen then (seen[c.key := Bucket(rate.burst - 1.0, c.at)], true)
    else
      var (b, ok) := Take(rate, seen[c.key], c.at);
      (seen[c.key := b], ok)
  }

  function AllowStep(rate: Rate, s: State, c: Call): (State, bool) {
    var swept := SweepStep(s, c.at);
    var (seen, ok) := Ask(rate, swept.seen, c);
    (State(seen, swept.swept), ok)
  }

  // ---- runs ----

  predicate Ordered(clock: real, calls: seq<Call>)
    decreases |calls|
  {
    if calls == [] then true else clock <= calls[0].at && Ordered(calls[0].at, calls[1..])
  }

  // The answers the limiter gives, one for each call.
  function Answers(rate: Rate, s: State, calls: seq<Call>): (r: seq<bool>)
    ensures |r| == |calls|
    decreases |calls|
  {
    if calls == [] then []
    else
      var (next, ok) := AllowStep(rate, s, calls[0]);
      [ok] + Answers(rate, next, calls[1..])
  }

  function After(rate: Rate, s: State, calls: seq<Call>): State
    decreases |calls|
  {
    if calls == [] then s else After(rate, AllowStep(rate, s, calls[0]).0, calls[1..])
  }

  // The same limiter with the sweep left out.
  function KeptAnswers(rate: Rate, seen: map<string, Bucket>, calls: seq<Call>): (r: seq<bool>)
    ensures |r| == |calls|
    decreases |calls|
  {
    if calls == [] then []
    else
      var (next, ok) := Ask(rate, seen, calls[0]);
      [ok] + KeptAnswers(rate, next, calls[1..])
  }

  function Fresh(now: real): State { State(map[], now) }

  // ---- the limiter ----

  class Limiter {
    var seen: map<string, Bucket>
    var swept: real
    const rate: Rate

    ghost function Value(): State reads this { State(seen, swept) }

    constructor (rate: Rate, now: real)
      ensures this.rate == rate && Value() == Fresh(now)
    {
      this.rate := rate;
      seen := map[];
      swept := now;
    }

    method Sweep(now: real)
      modifies this
      ensures seen == old(Recent(seen, now)) && swept == now
    {
      var left := seen.Keys;
      while left != {}
        invariant left <= seen.Keys <= old(seen).Keys
        invariant forall k :: k in old(seen) && k !in left ==> (k in seen <==> now - old(seen)[k].last <= SWEEP_AFTER)
        invariant forall k :: k in seen ==> seen[k] == old(seen)[k]
        decreases |left|
      {
        var k :| k in left;
        if now - seen[k].last > SWEEP_AFTER {
          seen := seen - {k};
        }
        left := left - {k};
      }
      swept := now;
    }

    method Allow(key: string, now: real) returns (ok: bool)
      modifies this
      ensures (Value(), ok) == AllowStep(rate, old(Value()), Call(key, now))
    {
      if now - swept > SWEEP_AFTER {
        Sweep(now);
      }
      if key !in seen {
        seen := seen[key := Bucket(rate.burst - 1.0, now)];
        return true;
      }
      var refill := Refill(now - seen[key].last, rate.perHour);
      var tokens := Min(rate.burst, seen[key].tokens + refill);
      if tokens < 1.0 {
        seen := seen[key := Bucket(tokens, now)];
        return false;
      }
      seen := seen[key := Bucket(tokens - 1.0, now)];
      ok := true;
    }
  }

  // ---- tokens stay between nothing and the burst ----

  predicate Sound(rate: Rate, seen: map<string, Bucket>, clock: real) {
    forall k <- seen :: 0.0 <= seen[k].tokens <= rate.burst && seen[k].last <= clock
  }

  predicate Sane(rate: Rate) { 1.0 <= rate.burst && 0.0 <= rate.perHour }

  lemma RefillPositive(hours: real, perHour: real)
    requires 0.0 <= hours && 0.0 <= perHour
    ensures 0.0 <= Refill(hours, perHour)
  {}

  lemma RefillAdds(a: real, b: real, perHour: real)
    ensures Refill(a + b, perHour) == Refill(a, perHour) + Refill(b, perHour)
  {}

  lemma AskSound(rate: Rate, seen: map<string, Bucket>, clock: real, c: Call)
    requires Sane(rate) && Sound(rate, seen, clock) && clock <= c.at
    ensures Sound(rate, Ask(rate, seen, c).0, c.at)
  {
    if c.key in seen { RefillPositive(c.at - seen[c.key].last, rate.perHour); }
    hide Refill;
  }

  lemma {:induction false} TokensStayBounded(rate: Rate, s: State, clock: real, calls: seq<Call>)
    requires Sane(rate) && Sound(rate, s.seen, clock) && Ordered(clock, calls)
    ensures forall k <- After(rate, s, calls).seen :: 0.0 <= After(rate, s, calls).seen[k].tokens <= rate.burst
    decreases |calls|
  {
    if calls != [] {
      var c := calls[0];
      AskSound(rate, SweepStep(s, c.at).seen, clock, c);
      TokensStayBounded(rate, AllowStep(rate, s, c).0, c.at, calls[1..]);
    }
  }

  // ---- the sweep cannot be noticed ----

  // Every bucket the sweep forgot has been idle long enough to be full again.
  predicate Agrees(s: State, kept: map<string, Bucket>, clock: real) {
    && (forall k <- s.seen :: k in kept && kept[k] == s.seen[k])
    && (forall k <- kept :: k !in s.seen ==> clock - kept[k].last > SWEEP_AFTER)
  }

  lemma Scaled(hours: real, rate: Rate)
    requires hours > SWEEP_AFTER && 0.0 <= rate.perHour
    ensures Refill(hours, rate.perHour) >= rate.perHour
  {
    RefillPositive(hours - 1.0, rate.perHour);
    RefillAdds(hours - 1.0, 1.0, rate.perHour);
  }

  lemma SameAnswer(rate: Rate, s: State, kept: map<string, Bucket>, clock: real, c: Call)
    requires 1.0 <= rate.burst <= rate.perHour
    requires Sound(rate, kept, clock) && Agrees(s, kept, clock) && clock <= c.at
    ensures AllowStep(rate, s, c).1 == Ask(rate, kept, c).1
    ensures Agrees(AllowStep(rate, s, c).0, Ask(rate, kept, c).0, c.at)
  {
    var swept := SweepStep(s, c.at);
    assert Agrees(swept, kept, c.at);
    if c.key in kept && c.key !in swept.seen {
      Scaled(c.at - kept[c.key].last, rate);
    }
  }

  lemma {:induction false} SameAnswers(rate: Rate, s: State, kept: map<string, Bucket>, clock: real, calls: seq<Call>)
    requires 1.0 <= rate.burst <= rate.perHour
    requires Sound(rate, kept, clock) && Agrees(s, kept, clock) && Ordered(clock, calls)
    ensures Answers(rate, s, calls) == KeptAnswers(rate, kept, calls)
    decreases |calls|
  {
    if calls != [] {
      var c := calls[0];
      SameAnswer(rate, s, kept, clock, c);
      AskSound(rate, kept, clock, c);
      hide AllowStep, Ask, Sound, Agrees;
      SameAnswers(rate, AllowStep(rate, s, c).0, Ask(rate, kept, c).0, c.at, calls[1..]);
    }
  }

  // Whatever is asked, in whatever order of time, the sweep changes no answer.
  ghost predicate SweepInvisible(rate: Rate) {
    forall now: real, calls: seq<Call> ::
      Ordered(now, calls) ==> Answers(rate, Fresh(now), calls) == KeptAnswers(rate, map[], calls)
  }

  // ---- and exactly when it cannot ----

  predicate Differ(rate: Rate, s: State, kept: map<string, Bucket>, calls: seq<Call>) {
    Answers(rate, s, calls) != KeptAnswers(rate, kept, calls)
  }

  // One more call in front of a run that tells the two apart.
  lemma Before(rate: Rate, s: State, kept: map<string, Bucket>, c: Call, calls: seq<Call>)
    requires Differ(rate, AllowStep(rate, s, c).0, Ask(rate, kept, c).0, calls)
    ensures Differ(rate, s, kept, [c] + calls)
  {
    hide AllowStep, Ask;
    var whole := [c] + calls;
    assert whole[1..] == calls;
    assert Answers(rate, s, whole)[1..] == Answers(rate, AllowStep(rate, s, c).0, calls);
    assert KeptAnswers(rate, kept, whole)[1..] == KeptAnswers(rate, Ask(rate, kept, c).0, calls);
  }

  lemma AtOnce(rate: Rate, s: State, kept: map<string, Bucket>, c: Call)
    requires AllowStep(rate, s, c).1 != Ask(rate, kept, c).1
    ensures Differ(rate, s, kept, [c])
  {
    hide AllowStep, Ask;
    assert Answers(rate, s, [c])[0] == AllowStep(rate, s, c).1;
    assert KeptAnswers(rate, kept, [c])[0] == Ask(rate, kept, c).1;
  }

  lemma RefillTo(amount: real, perHour: real) returns (hours: real)
    requires 0.0 < perHour && 0.0 <= amount
    ensures 0.0 <= hours && Refill(hours, perHour) == amount
  {
    hours := amount / perHour;
  }

  // A time just over an hour in which less than the given amount refills.
  lemma JustOver(amount: real, perHour: real) returns (hours: real)
    requires 0.0 <= perHour < amount
    ensures SWEEP_AFTER < hours && Refill(hours, perHour) < amount
  {
    if perHour == 0.0 {
      hours := 2.0;
    } else {
      var more := RefillTo((amount - perHour) / 2.0, perHour);
      hours := 1.0 + more;
      RefillAdds(1.0, more, perHour);
    }
  }

  // Once a kept bucket holds less than a swept one, some run shows it.
  lemma {:induction false} GapShows(rate: Rate, s: State, kept: map<string, Bucket>, k: string, clock: real)
    returns (calls: seq<Call>)
    requires 1.0 <= rate.burst && 0.0 < rate.perHour
    requires k in s.seen && k in kept && s.seen[k].last == clock == kept[k].last
    requires 0.0 <= kept[k].tokens < s.seen[k].tokens <= rate.burst
    ensures Ordered(clock, calls) && Differ(rate, s, kept, calls)
    decreases s.seen[k].tokens.Floor
  {
    assert Refill(0.0, rate.perHour) == 0.0;
    var a, b := s.seen[k].tokens, kept[k].tokens;
    if a < 1.0 {
      var wait := RefillTo(1.0 - a, rate.perHour);
      var c := Call(k, clock + wait);
      AtOnce(rate, s, kept, c);
      calls := [c];
    } else {
      var c := Call(k, clock);
      if b < 1.0 {
        AtOnce(rate, s, kept, c);
        calls := [c];
      } else {
        var more := GapShows(rate, AllowStep(rate, s, c).0, Ask(rate, kept, c).0, k, clock);
        Before(rate, s, kept, c, more);
        calls := [c] + more;
        assert calls[1..] == more;
      }
    }
  }

  // An empty bucket, left alone just over an hour.
  lemma EmptyShows(rate: Rate, s: State, kept: map<string, Bucket>, k: string, clock: real)
    returns (calls: seq<Call>)
    requires 1.0 <= rate.burst && 0.0 < rate.perHour < rate.burst
    requires k in s.seen && k in kept && s.seen[k] == Bucket(0.0, clock) == kept[k] && s.swept <= clock
    ensures Ordered(clock, calls) && Differ(rate, s, kept, calls)
  {
    var wait := JustOver(rate.burst, rate.perHour);
    RefillPositive(wait, rate.perHour);
    var c := Call(k, clock + wait);
    assert AllowStep(rate, s, c).1;
    if Refill(wait, rate.perHour) < 1.0 {
      AtOnce(rate, s, kept, c);
      calls := [c];
    } else {
      var more := GapShows(rate, AllowStep(rate, s, c).0, Ask(rate, kept, c).0, k, c.at);
      Before(rate, s, kept, c, more);
      calls := [c] + more;
      assert calls[1..] == more;
    }
  }

  // Less than a whole token, in both limiters, since the last sweep.
  lemma RemainderShows(rate: Rate, s: State, kept: map<string, Bucket>, k: string)
    returns (calls: seq<Call>)
    requires 1.0 <= rate.burst && 0.0 <= rate.perHour < rate.burst
    requires k in s.seen && k in kept && s.seen[k] == kept[k] && s.seen[k].last == s.swept
    requires 0.0 <= s.seen[k].tokens < 1.0
    ensures Ordered(s.swept, calls) && Differ(rate, s, kept, calls)
  {
    var r := s.seen[k].tokens;
    if r + rate.perHour < 1.0 {
      var wait := JustOver(1.0 - r, rate.perHour);
      var c := Call(k, s.swept + wait);
      AtOnce(rate, s, kept, c);
      calls := [c];
    } else {
      var wait := RefillTo(1.0 - r, rate.perHour);
      if wait > 1.0 {
        RefillAdds(1.0, wait - 1.0, rate.perHour);
        assert Refill(1.0, rate.perHour) == rate.perHour;
        StrictRefill(wait - 1.0, rate.perHour);
        assert false;
      }
      var c := Call(k, s.swept + wait);
      var more := EmptyShows(rate, AllowStep(rate, s, c).0, Ask(rate, kept, c).0, k, c.at);
      Before(rate, s, kept, c, more);
      calls := [c] + more;
      assert calls[1..] == more;
    }
  }

  lemma StrictRefill(hours: real, perHour: real)
    requires 0.0 < hours && 0.0 < perHour
    ensures 0.0 < Refill(hours, perHour)
  {}

  // Draining a bucket to its remainder.
  lemma {:induction false} DrainShows(rate: Rate, s: State, kept: map<string, Bucket>, k: string)
    returns (calls: seq<Call>)
    requires 1.0 <= rate.burst && 0.0 <= rate.perHour < rate.burst
    requires k in s.seen && k in kept && s.seen[k] == kept[k] && s.seen[k].last == s.swept
    requires 0.0 <= s.seen[k].tokens <= rate.burst
    ensures Ordered(s.swept, calls) && Differ(rate, s, kept, calls)
    decreases s.seen[k].tokens.Floor
  {
    assert Refill(0.0, rate.perHour) == 0.0;
    if s.seen[k].tokens < 1.0 {
      calls := RemainderShows(rate, s, kept, k);
    } else {
      var c := Call(k, s.swept);
      var more := DrainShows(rate, AllowStep(rate, s, c).0, Ask(rate, kept, c).0, k);
      Before(rate, s, kept, c, more);
      calls := [c] + more;
      assert calls[1..] == more;
    }
  }

  lemma TooSlowShows(rate: Rate) returns (calls: seq<Call>)
    requires 0.0 <= rate.perHour && !(1.0 <= rate.burst <= rate.perHour)
    ensures Ordered(0.0, calls) && Differ(rate, Fresh(0.0), map[], calls)
  {
    var first := Call("", 0.0);
    var s, kept := AllowStep(rate, Fresh(0.0), first).0, Ask(rate, map[], first).0;
    var more: seq<Call>;
    if rate.burst < 1.0 {
      AtOnce(rate, s, kept, Call("", 1.5));
      more := [Call("", 1.5)];
    } else {
      more := DrainShows(rate, s, kept, "");
    }
    Before(rate, Fresh(0.0), map[], first, more);
    calls := [first] + more;
    assert calls[1..] == more;
  }

  // The sweep is invisible exactly when an hour refills a whole burst.
  lemma SweepInvisibleIff(rate: Rate)
    requires 0.0 <= rate.perHour
    ensures SweepInvisible(rate) <==> 1.0 <= rate.burst <= rate.perHour
  {
    if 1.0 <= rate.burst <= rate.perHour {
      forall now: real, calls: seq<Call> | Ordered(now, calls)
        ensures Answers(rate, Fresh(now), calls) == KeptAnswers(rate, map[], calls)
      {
        SameAnswers(rate, Fresh(now), map[], now, calls);
      }
    } else {
      var calls := TooSlowShows(rate);
    }
  }

  // One attempt an hour and a half after another, at half an attempt an hour: the sweep grants it.
  lemma SlowRefillShows()
    ensures var rate, calls := Rate(1.0, 0.5), [Call("a", 0.0), Call("a", 1.5)];
            Answers(rate, Fresh(0.0), calls) == [true, true] && KeptAnswers(rate, map[], calls) == [true, false]
  {
    var rate := Rate(1.0, 0.5);
    var first, second := Call("a", 0.0), Call("a", 1.5);
    var s, kept := AllowStep(rate, Fresh(0.0), first).0, Ask(rate, map[], first).0;
    assert [first, second][1..] == [second] && [second][1..] == [];
    assert kept == map["a" := Bucket(0.0, 0.0)];
    assert AllowStep(rate, s, second).1 && !Ask(rate, kept, second).1;
    assert Answers(rate, s, [second]) == [true] && KeptAnswers(rate, kept, [second]) == [false];
  }

  lemma AttemptsSweepInvisible()
    ensures SweepInvisible(ATTEMPTS)
  {
    SweepInvisibleIff(ATTEMPTS);
  }

  lemma ConfiguredSweepsInvisible()
    ensures SweepInvisible(FEDERATION) && SweepInvisible(INBOX_LIMIT)
  {
    SweepInvisibleIff(FEDERATION);
    SweepInvisibleIff(INBOX_LIMIT);
  }

  // ---- how much one key can get ----

  function Allowed(answers: seq<bool>, calls: seq<Call>, key: string): nat
    requires |answers| == |calls|
  {
    if calls == [] then 0
    else (if answers[0] && calls[0].key == key then 1 else 0) + Allowed(answers[1..], calls[1..], key)
  }

  // What a key could draw at once.
  function Credit(rate: Rate, seen: map<string, Bucket>, key: string, now: real): real {
    if key in seen then Min(rate.burst, seen[key].tokens + Refill(now - seen[key].last, rate.perHour)) else rate.burst
  }

  lemma CreditGrows(rate: Rate, seen: map<string, Bucket>, key: string, now: real, later: real)
    requires Sane(rate) && now <= later
    ensures Credit(rate, seen, key, later) <= Credit(rate, seen, key, now) + Refill(later - now, rate.perHour)
  {
    RefillPositive(later - now, rate.perHour);
    if key in seen { RefillAdds(now - seen[key].last, later - now, rate.perHour); }
  }

  lemma CreditSpent(rate: Rate, seen: map<string, Bucket>, key: string, c: Call)
    requires Sane(rate)
    ensures var spent := if Ask(rate, seen, c).1 && c.key == key then 1.0 else 0.0;
            Credit(rate, Ask(rate, seen, c).0, key, c.at) == Credit(rate, seen, key, c.at) - spent
  {
    assert Refill(0.0, rate.perHour) == 0.0;
  }

  predicate Within(calls: seq<Call>, end: real) { forall c <- calls :: c.at <= end }

  lemma {:induction false} KeptBound(rate: Rate, seen: map<string, Bucket>, clock: real, calls: seq<Call>, end: real, key: string)
    requires Sane(rate) && Sound(rate, seen, clock) && Ordered(clock, calls) && clock <= end && Within(calls, end)
    ensures Allowed(KeptAnswers(rate, seen, calls), calls, key) as real
         <= Credit(rate, seen, key, clock) + Refill(end - clock, rate.perHour)
    decreases |calls|
  {
    if calls == [] {
      RefillPositive(end - clock, rate.perHour);
      if key in seen { RefillPositive(clock - seen[key].last, rate.perHour); }
    } else {
      var c := calls[0];
      assert c in calls;
      AskSound(rate, seen, clock, c);
      CreditGrows(rate, seen, key, clock, c.at);
      CreditSpent(rate, seen, key, c);
      RefillAdds(c.at - clock, end - c.at, rate.perHour);
      var (next, ok) := Ask(rate, seen, c);
      hide Ask, Credit, Refill, Sound;
      KeptBound(rate, next, c.at, calls[1..], end, key);
      var answers := KeptAnswers(rate, seen, calls);
      assert answers[0] == ok && answers[1..] == KeptAnswers(rate, next, calls[1..]);
    }
  }

  function KeptAfter(rate: Rate, seen: map<string, Bucket>, calls: seq<Call>): map<string, Bucket>
    decreases |calls|
  {
    if calls == [] then seen else KeptAfter(rate, Ask(rate, seen, calls[0]).0, calls[1..])
  }

  lemma {:induction false} KeptSplit(rate: Rate, seen: map<string, Bucket>, clock: real, calls: seq<Call>, start: real, window: seq<Call>)
    requires Sane(rate) && Sound(rate, seen, clock) && Ordered(clock, calls) && Within(calls, start) && clock <= start
    ensures Sound(rate, KeptAfter(rate, seen, calls), start)
    ensures KeptAnswers(rate, seen, calls + window)
         == KeptAnswers(rate, seen, calls) + KeptAnswers(rate, KeptAfter(rate, seen, calls), window)
    decreases |calls|
  {
    if calls == [] {
      assert calls + window == window;
    } else {
      var c := calls[0];
      assert c in calls && (calls + window)[1..] == calls[1..] + window;
      AskSound(rate, seen, clock, c);
      hide Ask, Sound;
      KeptSplit(rate, Ask(rate, seen, c).0, c.at, calls[1..], start, window);
    }
  }

  lemma {:induction false} OrderedAppend(clock: real, calls: seq<Call>, start: real, window: seq<Call>)
    requires Ordered(clock, calls) && Within(calls, start) && clock <= start && Ordered(start, window)
    ensures Ordered(clock, calls + window)
    decreases |calls|
  {
    if calls == [] {
      assert calls + window == window;
    } else {
      assert calls[0] in calls && (calls + window)[1..] == calls[1..] + window;
      OrderedAppend(calls[0].at, calls[1..], start, window);
    }
  }

  lemma SameAsKept(rate: Rate, now: real, calls: seq<Call>)
    requires 1.0 <= rate.burst <= rate.perHour && Ordered(now, calls)
    ensures Answers(rate, Fresh(now), calls) == KeptAnswers(rate, map[], calls)
  {
    hide Answers, KeptAnswers, Ordered;
    SweepInvisibleIff(rate);
  }

  lemma KeptWindow(rate: Rate, now: real, earlier: seq<Call>, start: real, window: seq<Call>, end: real, key: string)
    requires Sane(rate) && now <= start <= end && Ordered(now, earlier) && Within(earlier, start)
    requires Ordered(start, window) && Within(window, end)
    ensures Allowed(KeptAnswers(rate, map[], earlier + window)[|earlier|..], window, key) as real
         <= rate.burst + Refill(end - start, rate.perHour)
  {
    hide Ask, KeptAnswers, KeptAfter, Credit, Sound, Ordered, Allowed, Refill, Within;
    NothingSound(rate, now);
    KeptSplit(rate, map[], now, earlier, start, window);
    var kept := KeptAfter(rate, map[], earlier);
    KeptBound(rate, kept, start, window, end, key);
    CreditCapped(rate, kept, key, start);
    SameTail(KeptAnswers(rate, map[], earlier), KeptAnswers(rate, kept, window));
  }

  // How often a key is let through by the calls of the window, which come after the earlier ones.
  function Passed(rate: Rate, now: real, earlier: seq<Call>, window: seq<Call>, key: string): nat {
    Allowed(Answers(rate, Fresh(now), earlier + window)[|earlier|..], window, key)
  }

  // In any window of any run a key is let through at most burst + perHour * hours times.
  lemma WindowBound(rate: Rate, now: real, earlier: seq<Call>, start: real, window: seq<Call>, end: real, key: string)
    requires 1.0 <= rate.burst <= rate.perHour
    requires now <= start <= end && Ordered(now, earlier) && Within(earlier, start)
    requires Ordered(start, window) && Within(window, end)
    ensures Passed(rate, now, earlier, window, key) as real <= rate.burst + (end - start) * rate.perHour
  {
    hide Answers, KeptAnswers, Ordered, Allowed, Within;
    OrderedAppend(now, earlier, start, window);
    SameAsKept(rate, now, earlier + window);
    KeptWindow(rate, now, earlier, start, window, end, key);
    assert Refill(end - start, rate.perHour) == (end - start) * rate.perHour;
  }

  lemma NothingSound(rate: Rate, clock: real)
    ensures Sound(rate, map[], clock)
  {}

  lemma CreditCapped(rate: Rate, seen: map<string, Bucket>, key: string, now: real)
    ensures Credit(rate, seen, key, now) <= rate.burst
  {}

  lemma SameTail<T>(a: seq<T>, b: seq<T>)
    ensures (a + b)[|a|..] == b
  {}

  // ---- and exactly when that bound holds ----

  // A window of a run that starts at now, and how much it may let through.
  predicate IsWindow(now: real, earlier: seq<Call>, start: real, window: seq<Call>, end: real) {
    && now <= start <= end && Ordered(now, earlier) && Within(earlier, start)
    && Ordered(start, window) && Within(window, end)
  }

  predicate KeepsBound(rate: Rate, now: real, earlier: seq<Call>, start: real, window: seq<Call>, end: real, key: string) {
    Passed(rate, now, earlier, window, key) as real <= rate.burst + (end - start) * rate.perHour
  }

  ghost predicate WindowBounded(rate: Rate) {
    forall now: real, earlier: seq<Call>, start: real, window: seq<Call>, end: real, key: string ::
      IsWindow(now, earlier, start, window, end) ==> KeepsBound(rate, now, earlier, start, window, end, key)
  }

  lemma {:induction false} AnswersAppend(rate: Rate, s: State, a: seq<Call>, b: seq<Call>)
    ensures Answers(rate, s, a + b) == Answers(rate, s, a) + Answers(rate, After(rate, s, a), b)
    ensures After(rate, s, a + b) == After(rate, After(rate, s, a), b)
    decreases |a|
  {
    hide AllowStep;
    if a == [] {
      assert a + b == b;
    } else {
      assert (a + b)[1..] == a[1..] + b;
      AnswersAppend(rate, AllowStep(rate, s, a[0]).0, a[1..], b);
    }
  }

  lemma {:induction false} AllowedAppend(x: seq<bool>, a: seq<Call>, y: seq<bool>, b: seq<Call>, key: string)
    requires |x| == |a| && |y| == |b|
    ensures Allowed(x + y, a + b, key) == Allowed(x, a, key) + Allowed(y, b, key)
    decreases |a|
  {
    if a == [] {
      assert x + y == y && a + b == b;
    } else {
      assert (x + y)[1..] == x[1..] + y && (a + b)[1..] == a[1..] + b;
      AllowedAppend(x[1..], a[1..], y, b, key);
    }
  }

  // What the calls of one key draw from a limiter, if they are all there is.
  function Drawn(rate: Rate, s: State, calls: seq<Call>): nat { Allowed(Answers(rate, s, calls), calls, "") }

  lemma DrawnAppend(rate: Rate, s: State, a: seq<Call>, b: seq<Call>)
    ensures Drawn(rate, s, a + b) == Drawn(rate, s, a) + Drawn(rate, After(rate, s, a), b)
    ensures After(rate, s, a + b) == After(rate, After(rate, s, a), b)
  {
    hide Answers, Allowed, After;
    AnswersAppend(rate, s, a, b);
    AllowedAppend(Answers(rate, s, a), a, Answers(rate, After(rate, s, a), b), b, "");
  }

  lemma DrawnOne(rate: Rate, s: State, c: Call)
    requires c.key == ""
    ensures Drawn(rate, s, [c]) == (if AllowStep(rate, s, c).1 then 1 else 0)
    ensures After(rate, s, [c]) == AllowStep(rate, s, c).0
  {
    hide AllowStep;
    assert [c][1..] == [];
    var answers := Answers(rate, s, [c]);
    assert answers == [AllowStep(rate, s, c).1] && answers[1..] == [];
    assert Allowed(answers[1..], [c][1..], "") == 0;
  }

  // The bucket of the key was last used at clock, and what it holds then.
  predicate Holding(s: State, tokens: real, clock: real) {
    "" in s.seen && s.seen[""] == Bucket(tokens, clock) && s.swept <= clock <= s.swept + SWEEP_AFTER
  }

  lemma {:induction false} DrainAtOnce(rate: Rate, s: State, tokens: real, clock: real) returns (calls: seq<Call>)
    requires 0.0 <= tokens <= rate.burst && Holding(s, tokens, clock)
    ensures Ordered(clock, calls) && Within(calls, clock) && Drawn(rate, s, calls) == tokens.Floor
    ensures Holding(After(rate, s, calls), tokens - tokens.Floor as real, clock)
    decreases tokens.Floor
  {
    if tokens < 1.0 {
      calls := [];
    } else {
      var c := Call("", clock);
      assert Refill(0.0, rate.perHour) == 0.0;
      var t := AllowStep(rate, s, c).0;
      DrawnOne(rate, s, c);
      assert AllowStep(rate, s, c).1 && Holding(t, tokens - 1.0, clock);
      var more := DrainAtOnce(rate, t, tokens - 1.0, clock);
      calls := [c] + more;
      assert calls[1..] == more;
      DrawnAppend(rate, s, [c], more);
    }
  }

  // The key has not been seen, or not for so long that it is forgotten at clock.
  predicate Forgotten(s: State, clock: real) {
    s.swept <= clock && ("" in s.seen ==> s.swept <= s.seen[""].last && clock - s.seen[""].last > SWEEP_AFTER)
  }

  // What a forgotten key can count on: its burst, if an hour refills a token, and else one token.
  function Base(rate: Rate): real { if rate.perHour >= 1.0 then rate.burst else 1.0 }

  lemma FirstAgain(rate: Rate, s: State, clock: real)
    requires Forgotten(s, clock)
    ensures AllowStep(rate, s, Call("", clock)).1
    ensures Holding(AllowStep(rate, s, Call("", clock)).0, rate.burst - 1.0, clock)
  {}

  // Drawing all a forgotten key can get at once.
  lemma DrawBurst(rate: Rate, s: State, clock: real) returns (calls: seq<Call>)
    requires 1.0 <= rate.burst && Forgotten(s, clock)
    ensures Ordered(clock, calls) && Within(calls, clock) && Drawn(rate, s, calls) == rate.burst.Floor
    ensures Holding(After(rate, s, calls), rate.burst - rate.burst.Floor as real, clock)
  {
    var c := Call("", clock);
    FirstAgain(rate, s, clock);
    DrawnOne(rate, s, c);
    var t := AllowStep(rate, s, c).0;
    var more := DrainAtOnce(rate, t, rate.burst - 1.0, clock);
    calls := [c] + more;
    assert calls[1..] == more;
    DrawnAppend(rate, s, [c], more);
  }

  // And the broken token left over, once it is whole again.
  lemma DrawRest(rate: Rate, s: State, rest: real, clock: real) returns (c: Call)
    requires 1.0 <= rate.burst && 1.0 <= rate.perHour && 0.0 < rest < 1.0 && Holding(s, rest, clock)
    ensures c.key == "" && clock <= c.at && Refill(c.at - clock, rate.perHour) == 1.0 - rest
    ensures AllowStep(rate, s, c).1 && Spent(AllowStep(rate, s, c).0, c.at)
  {
    var wait := RefillTo(1.0 - rest, rate.perHour);
    WithinTheHour(wait, rate.perHour);
    c := Call("", clock + wait);
  }

  lemma WithinTheHour(hours: real, perHour: real)
    requires 1.0 <= perHour && 0.0 <= hours && Refill(hours, perHour) <= 1.0
    ensures hours <= SWEEP_AFTER
  {}

  // The bucket was last used at clock, and no sweep came after that.
  predicate Spent(s: State, clock: real) {
    "" in s.seen && s.seen[""].last == clock && s.swept <= clock
  }

  lemma OneCycle(rate: Rate, s: State, clock: real) returns (calls: seq<Call>, last: real)
    requires 1.0 <= rate.burst && 0.0 <= rate.perHour && Forgotten(s, clock)
    ensures clock <= last && Ordered(clock, calls) && Within(calls, last) && Spent(After(rate, s, calls), last)
    ensures Drawn(rate, s, calls) as real >= Base(rate) + Refill(last - clock, rate.perHour)
  {
    calls := DrawBurst(rate, s, clock);
    last := clock;
    assert Refill(0.0, rate.perHour) == 0.0;
    var t, rest := After(rate, s, calls), rate.burst - rate.burst.Floor as real;
    if rate.perHour >= 1.0 && rest > 0.0 {
      var c := DrawRest(rate, t, rest, clock);
      hide AllowStep, Refill, Drawn, After, Holding;
      DrawnOne(rate, t, c);
      DrawnAppend(rate, s, calls, [c]);
      assert Ordered(clock, [c]) by { assert [c][1..] == []; }
      OrderedAppend(clock, calls, clock, [c]);
      calls, last := calls + [c], c.at;
    }
  }

  lemma {:induction false} Cycles(rate: Rate, s: State, clock: real, gap: real, gain: real, n: nat)
    returns (calls: seq<Call>, last: real)
    requires 1.0 <= rate.burst && 0.0 <= rate.perHour && Forgotten(s, clock) && n >= 1
    requires gap > SWEEP_AFTER && gain == Base(rate) - Refill(gap, rate.perHour)
    ensures clock <= last && Ordered(clock, calls) && Within(calls, last)
    ensures Drawn(rate, s, calls) as real
         >= n as real * gain + Refill(gap, rate.perHour) + Refill(last - clock, rate.perHour)
    decreases n
  {
    hide Ordered, Refill, Drawn, After, Base;
    var first, mid := OneCycle(rate, s, clock);
    if n == 1 {
      calls, last := first, mid;
    } else {
      var t := After(rate, s, first);
      var more, end := Cycles(rate, t, mid + gap, gap, gain, n - 1);
      DrawnAppend(rate, s, first, more);
      LaterOrdered(mid + gap, mid, more);
      OrderedAppend(clock, first, mid, more);
      calls, last := first + more, end;
      RefillAdds(mid - clock, gap, rate.perHour);
      RefillAdds(mid - clock + gap, end - (mid + gap), rate.perHour);
      assert (n - 1) as real * gain + gain == n as real * gain;
      assert mid - clock + gap + (end - (mid + gap)) == end - clock;
    }
  }

  lemma LaterOrdered(clock: real, sooner: real, calls: seq<Call>)
    requires sooner <= clock && Ordered(clock, calls)
    ensures Ordered(sooner, calls)
  {}

  lemma Enough(amount: real, gain: real) returns (n: nat)
    requires gain > 0.0 && amount > 0.0
    ensures n >= 1 && n as real * gain > amount
  {
    var q := amount / gain;
    n := q.Floor + 1;
    assert n as real > q;
    assert n as real * gain > q * gain;
  }

  lemma SlowExceeds(rate: Rate) returns (calls: seq<Call>, end: real)
    requires 0.0 <= rate.perHour && !(1.0 <= rate.burst <= rate.perHour)
    ensures 0.0 <= end && Ordered(0.0, calls) && Within(calls, end)
    ensures Drawn(rate, Fresh(0.0), calls) as real > rate.burst + end * rate.perHour
  {
    if rate.burst < 1.0 {
      calls, end := [Call("", 0.0)], 0.0;
      DrawnOne(rate, Fresh(0.0), calls[0]);
    } else {
      var gap := JustOver(Base(rate), rate.perHour);
      RefillPositive(gap, rate.perHour);
      var gain := Base(rate) - Refill(gap, rate.perHour);
      var n := Enough(rate.burst, gain);
      calls, end := Cycles(rate, Fresh(0.0), 0.0, gap, gain, n);
      assert Refill(end - 0.0, rate.perHour) == end * rate.perHour;
    }
  }

  lemma Unbounded(rate: Rate)
    requires 0.0 <= rate.perHour && !(1.0 <= rate.burst <= rate.perHour)
    ensures !WindowBounded(rate)
  {
    var calls, end := SlowExceeds(rate);
    var nothing: seq<Call> := [];
    assert nothing + calls == calls && IsWindow(0.0, nothing, 0.0, calls, end);
    assert Answers(rate, Fresh(0.0), calls)[|nothing|..] == Answers(rate, Fresh(0.0), calls);
    assert Passed(rate, 0.0, nothing, calls, "") == Drawn(rate, Fresh(0.0), calls);
    hide IsWindow, Passed, Drawn;
    assert !KeepsBound(rate, 0.0, nothing, 0.0, calls, end, "");
  }

  // The bound on what a window lets through holds for every window exactly when the sweep is
  // invisible.
  lemma WindowBoundedIff(rate: Rate)
    requires 0.0 <= rate.perHour
    ensures WindowBounded(rate) <==> 1.0 <= rate.burst <= rate.perHour
  {
    if 1.0 <= rate.burst <= rate.perHour {
      hide KeepsBound;
      forall now: real, earlier: seq<Call>, start: real, window: seq<Call>, end: real, key: string |
        IsWindow(now, earlier, start, window, end)
        ensures KeepsBound(rate, now, earlier, start, window, end, key)
      {
        BoundKept(rate, now, earlier, start, window, end, key);
      }
    } else {
      Unbounded(rate);
    }
  }

  lemma BoundKept(rate: Rate, now: real, earlier: seq<Call>, start: real, window: seq<Call>, end: real, key: string)
    requires 1.0 <= rate.burst <= rate.perHour && IsWindow(now, earlier, start, window, end)
    ensures KeepsBound(rate, now, earlier, start, window, end, key)
  {
    WindowBound(rate, now, earlier, start, window, end, key);
    hide Passed, Ordered, Within;
  }
}
