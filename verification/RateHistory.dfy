// The limiter without its buckets: whether a call is let through, from the calls before it alone.
module RateHistory {
  import opened RateLimit

  // How many of the calls from i up to n were of this key and let through.
  function Count(answers: seq<bool>, calls: seq<Call>, key: string, i: nat, n: nat): nat
    requires i <= n <= |calls| == |answers|
  {
    if i == n then 0
    else Count(answers, calls, key, i, n - 1) + if answers[n - 1] && calls[n - 1].key == key then 1 else 0
  }

  lemma {:induction false} KeptStep(rate: Rate, seen: map<string, Bucket>, calls: seq<Call>, n: nat)
    requires n < |calls|
    ensures var before := KeptAfter(rate, seen, calls[..n]);
            && KeptAnswers(rate, seen, calls)[n] == Ask(rate, before, calls[n]).1
            && KeptAfter(rate, seen, calls[..n + 1]) == Ask(rate, before, calls[n]).0
    decreases |calls|
  {
    hide Ask;
    var (next, ok) := Ask(rate, seen, calls[0]);
    var more := calls[1..];
    assert calls[..n + 1][1..] == more[..n] && calls[..n + 1][0] == calls[0];
    if n == 0 {
      assert calls[..0] == [] && more[..0] == [];
    } else {
      KeptStep(rate, next, more, n - 1);
      assert calls[..n][1..] == more[..n - 1] && calls[..n][0] == calls[0];
      assert KeptAnswers(rate, seen, calls)[1..] == KeptAnswers(rate, next, more);
    }
  }

  lemma {:induction false} TimesOrdered(clock: real, calls: seq<Call>, i: nat)
    requires Ordered(clock, calls) && i < |calls|
    ensures (if i == 0 then clock else calls[i - 1].at) <= calls[i].at
    decreases |calls|
  {
    if i > 0 { TimesOrdered(calls[0].at, calls[1..], i - 1); }
  }

  lemma CreditLater(rate: Rate, seen: map<string, Bucket>, key: string, now: real, later: real)
    requires Sane(rate) && now <= later
    ensures Credit(rate, seen, key, later) == Min(rate.burst, Credit(rate, seen, key, now) + Refill(later - now, rate.perHour))
  {
    RefillPositive(later - now, rate.perHour);
    if key in seen { RefillAdds(now - seen[key].last, later - now, rate.perHour); }
    hide Refill;
  }

  lemma OtherKey(rate: Rate, seen: map<string, Bucket>, key: string, c: Call, t: real)
    requires c.key != key
    ensures Credit(rate, Ask(rate, seen, c).0, key, t) == Credit(rate, seen, key, t)
  {}

  lemma GrantedWithCredit(rate: Rate, seen: map<string, Bucket>, c: Call)
    requires Sane(rate)
    ensures Ask(rate, seen, c).1 <==> Credit(rate, seen, c.key, c.at) >= 1.0
  {}

  // What the calls since the i-th leave of the key's allowance at t.
  function Left(rate: Rate, answers: seq<bool>, calls: seq<Call>, key: string, i: nat, n: nat, t: real): real
    requires i < n <= |calls| == |answers|
  {
    rate.burst + Refill(t - calls[i].at, rate.perHour) - Count(answers, calls, key, i, n) as real
  }

  predicate AtMost(rate: Rate, answers: seq<bool>, calls: seq<Call>, key: string, n: nat, t: real, credit: real)
    requires n <= |calls| == |answers|
  {
    credit <= rate.burst
    && forall i :: 0 <= i < n && calls[i].key == key ==> credit <= Left(rate, answers, calls, key, i, n, t)
  }

  predicate Reached(rate: Rate, answers: seq<bool>, calls: seq<Call>, key: string, n: nat, t: real, credit: real)
    requires n <= |calls| == |answers|
  {
    credit == rate.burst
    || exists i :: 0 <= i < n && calls[i].key == key && credit == Left(rate, answers, calls, key, i, n, t)
  }

  // The credit of a key is the least of what the calls since any of its calls leave.
  lemma {:induction false} CreditIsLeast(rate: Rate, now: real, calls: seq<Call>, key: string, n: nat, t: real)
    requires Sane(rate) && Ordered(now, calls) && n <= |calls|
    requires (if n == 0 then now else calls[n - 1].at) <= t
    ensures var answers, credit := KeptAnswers(rate, map[], calls), Credit(rate, KeptAfter(rate, map[], calls[..n]), key, t);
            AtMost(rate, answers, calls, key, n, t, credit) && Reached(rate, answers, calls, key, n, t, credit)
    decreases n
  {
    if n == 0 {
      assert calls[..0] == [] && KeptAfter(rate, map[], []) == map[];
    } else {
      var c := calls[n - 1];
      TimesOrdered(now, calls, n - 1);
      CreditIsLeast(rate, now, calls, key, n - 1, if c.key == key then c.at else t);
      CreditStep(rate, calls, key, n, t);
    }
  }

  lemma CreditStep(rate: Rate, calls: seq<Call>, key: string, n: nat, t: real)
    requires Sane(rate) && 1 <= n <= |calls| && calls[n - 1].at <= t
    requires var answers, at := KeptAnswers(rate, map[], calls), if calls[n - 1].key == key then calls[n - 1].at else t;
             var credit := Credit(rate, KeptAfter(rate, map[], calls[..n - 1]), key, at);
             AtMost(rate, answers, calls, key, n - 1, at, credit) && Reached(rate, answers, calls, key, n - 1, at, credit)
    ensures var answers, credit := KeptAnswers(rate, map[], calls), Credit(rate, KeptAfter(rate, map[], calls[..n]), key, t);
            AtMost(rate, answers, calls, key, n, t, credit) && Reached(rate, answers, calls, key, n, t, credit)
  {
    var answers, c := KeptAnswers(rate, map[], calls), calls[n - 1];
    var before := KeptAfter(rate, map[], calls[..n - 1]);
    KeptStep(rate, map[], calls, n - 1);
    var after := KeptAfter(rate, map[], calls[..n]);
    if c.key != key {
      OtherKey(rate, before, key, c, t);
      SkipStep(rate, answers, calls, key, n, t, Credit(rate, before, key, t));
    } else {
      CreditSpent(rate, before, key, c);
      CreditLater(rate, after, key, c.at, t);
      SpendStep(rate, answers, calls, key, n, t, Credit(rate, before, key, c.at), Credit(rate, after, key, t));
    }
  }

  lemma SkipStep(rate: Rate, answers: seq<bool>, calls: seq<Call>, key: string, n: nat, t: real, credit: real)
    requires 1 <= n <= |calls| == |answers| && calls[n - 1].key != key
    requires AtMost(rate, answers, calls, key, n - 1, t, credit) && Reached(rate, answers, calls, key, n - 1, t, credit)
    ensures AtMost(rate, answers, calls, key, n, t, credit) && Reached(rate, answers, calls, key, n, t, credit)
  {
    hide Refill;
    assert forall i :: 0 <= i < n - 1 ==> Left(rate, answers, calls, key, i, n, t) == Left(rate, answers, calls, key, i, n - 1, t);
  }

  lemma LeftStep(rate: Rate, answers: seq<bool>, calls: seq<Call>, key: string, i: nat, n: nat, t: real)
    requires i < n - 1 < n <= |calls| == |answers| && calls[n - 1].key == key
    ensures Left(rate, answers, calls, key, i, n, t)
         == Left(rate, answers, calls, key, i, n - 1, calls[n - 1].at) + Refill(t - calls[n - 1].at, rate.perHour)
            - (if answers[n - 1] then 1.0 else 0.0)
  {
    RefillAdds(calls[n - 1].at - calls[i].at, t - calls[n - 1].at, rate.perHour);
    hide Refill;
  }

  lemma LeftLast(rate: Rate, answers: seq<bool>, calls: seq<Call>, key: string, n: nat, t: real)
    requires 1 <= n <= |calls| == |answers| && calls[n - 1].key == key
    ensures Left(rate, answers, calls, key, n - 1, n, t)
         == rate.burst + Refill(t - calls[n - 1].at, rate.perHour) - (if answers[n - 1] then 1.0 else 0.0)
  {
    hide Refill;
    assert Count(answers, calls, key, n - 1, n - 1) == 0;
  }

  lemma SpendStep(rate: Rate, answers: seq<bool>, calls: seq<Call>, key: string, n: nat, t: real, before: real, after: real)
    requires 1 <= n <= |calls| == |answers| && calls[n - 1].key == key
    requires AtMost(rate, answers, calls, key, n - 1, calls[n - 1].at, before)
    requires Reached(rate, answers, calls, key, n - 1, calls[n - 1].at, before)
    requires after == Min(rate.burst,
                          before - (if answers[n - 1] then 1.0 else 0.0) + Refill(t - calls[n - 1].at, rate.perHour))
    ensures AtMost(rate, answers, calls, key, n, t, after) && Reached(rate, answers, calls, key, n, t, after)
  {
    hide Refill, Left;
    LeftLast(rate, answers, calls, key, n, t);
    forall i | 0 <= i < n - 1 && calls[i].key == key
      ensures Left(rate, answers, calls, key, i, n, t)
           == Left(rate, answers, calls, key, i, n - 1, calls[n - 1].at) + Refill(t - calls[n - 1].at, rate.perHour)
              - (if answers[n - 1] then 1.0 else 0.0)
    {
      LeftStep(rate, answers, calls, key, i, n, t);
    }
  }

  // The call is the n-th of a run. Letting it through would leave every stretch of calls that ends
  // with it, from any earlier call of its key on, within the burst and what the time refills.
  predicate RoomFor(rate: Rate, answers: seq<bool>, calls: seq<Call>, n: nat)
    requires n < |calls| == |answers|
  {
    forall i :: 0 <= i < n && calls[i].key == calls[n].key ==>
      Count(answers, calls, calls[n].key, i, n) as real + 1.0 <= rate.burst + (calls[n].at - calls[i].at) * rate.perHour
  }

  // A call is let through exactly when there is room for it: never refused without need.
  lemma GrantedIff(rate: Rate, now: real, calls: seq<Call>, n: nat)
    requires 1.0 <= rate.burst <= rate.perHour && Ordered(now, calls) && n < |calls|
    ensures var answers := Answers(rate, Fresh(now), calls);
            answers[n] <==> RoomFor(rate, answers, calls, n)
  {
    var answers, c := KeptAnswers(rate, map[], calls), calls[n];
    var seen := KeptAfter(rate, map[], calls[..n]);
    SameAsKept(rate, now, calls);
    TimesOrdered(now, calls, n);
    KeptStep(rate, map[], calls, n);
    CreditIsLeast(rate, now, calls, c.key, n, c.at);
    GrantedWithCredit(rate, seen, c);
    hide KeptAfter, KeptAnswers, Answers, Credit, Ask, Ordered, AtMost, Reached;
    RoomIff(rate, answers, calls, n, Credit(rate, seen, c.key, c.at));
  }

  lemma RoomIff(rate: Rate, answers: seq<bool>, calls: seq<Call>, n: nat, credit: real)
    requires 1.0 <= rate.burst && n < |calls| == |answers|
    requires AtMost(rate, answers, calls, calls[n].key, n, calls[n].at, credit)
    requires Reached(rate, answers, calls, calls[n].key, n, calls[n].at, credit)
    ensures credit >= 1.0 <==> RoomFor(rate, answers, calls, n)
  {
    var key, at := calls[n].key, calls[n].at;
    forall i | 0 <= i < n && calls[i].key == key
      ensures Left(rate, answers, calls, key, i, n, at)
           == rate.burst + (at - calls[i].at) * rate.perHour - Count(answers, calls, key, i, n) as real
    {
      LeftIs(rate, answers, calls, key, i, n, at);
    }
    hide Left, Count;
  }

  lemma LeftIs(rate: Rate, answers: seq<bool>, calls: seq<Call>, key: string, i: nat, n: nat, t: real)
    requires i < n <= |calls| == |answers|
    ensures Left(rate, answers, calls, key, i, n, t)
         == rate.burst + (t - calls[i].at) * rate.perHour - Count(answers, calls, key, i, n) as real
  {
    hide Count;
  }

  // The same in the numbers of the three limiters: eight attempts to log in at once and twenty an
  // hour, thirty federated requests and 120, 240 posts to the inbox and 3600.
  lemma ConfiguredGranted(now: real, calls: seq<Call>, n: nat)
    requires Ordered(now, calls) && n < |calls|
    ensures Answers(ATTEMPTS, Fresh(now), calls)[n] <==> RoomFor(Rate(8.0, 20.0), Answers(ATTEMPTS, Fresh(now), calls), calls, n)
    ensures Answers(FEDERATION, Fresh(now), calls)[n] <==> RoomFor(Rate(30.0, 120.0), Answers(FEDERATION, Fresh(now), calls), calls, n)
    ensures Answers(INBOX_LIMIT, Fresh(now), calls)[n] <==> RoomFor(Rate(240.0, 3600.0), Answers(INBOX_LIMIT, Fresh(now), calls), calls, n)
  {
    GrantedIff(ATTEMPTS, now, calls, n);
    GrantedIff(FEDERATION, now, calls, n);
    GrantedIff(INBOX_LIMIT, now, calls, n);
    hide Answers, Ordered, RoomFor;
  }
}
