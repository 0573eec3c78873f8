/** The in-memory token-bucket limiter, over real numbers. */
module TokenBucket {
  import opened Content

  datatype Bucket = Bucket(capacity: int, rate: real, tokens: real, updatedAt: real)

  function Min(a: real, b: real): real { if a <= b then a else b }

  function Max(a: real, b: real): real { if a >= b then a else b }

  /** A new bucket is full. */
  function Fresh(capacity: int, rate: real, now: real): Bucket {
    Bucket(capacity, rate, capacity as real, now)
  }

  /** What the refill rate earns in the given time. */
  function Gain(rate: real, time: real): real { rate * time }

  /** Refill for the time since the last call; a clock that went back refills nothing but is kept. */
  function Refilled(b: Bucket, now: real): Bucket {
    b.(tokens := Min(b.capacity as real, b.tokens + Gain(b.rate, Max(0.0, now - b.updatedAt))), updatedAt := now)
  }

  function Call(b: Bucket, now: real): (Bucket, bool) {
    var r := Refilled(b, now);
    if r.tokens >= 1.0 then (r.(tokens := r.tokens - 1.0), true) else (r, false)
  }

  /** The bucket and the decisions after calls at the given times. */
  function Calls(b: Bucket, times: seq<real>): (result: (Bucket, seq<bool>))
    ensures |result.1| == |times|
  {
    if times == [] then (b, [])
    else
      var (before, decisions) := Calls(b, times[..|times| - 1]);
      var (after, allowed) := Call(before, times[|times| - 1]);
      (after, decisions + [allowed])
  }

  function Decisions(b: Bucket, times: seq<real>): seq<bool> { Calls(b, times).1 }

  function Count(decisions: seq<bool>): nat {
    if decisions == [] then 0
    else Count(decisions[..|decisions| - 1]) + (if decisions[|decisions| - 1] then 1 else 0)
  }

  /** The sum of the positive steps of the clock along `times`, which start from `last`. */
  function Elapsed(last: real, times: seq<real>): (sum: real)
    ensures sum >= 0.0
  {
    if times == [] then 0.0
    else if |times| == 1 then Max(0.0, times[0] - last)
    else Elapsed(last, times[..|times| - 1]) + Max(0.0, times[|times| - 1] - times[|times| - 2])
  }

  predicate Ordered(times: seq<real>) {
    forall i, j :: 0 <= i <= j < |times| ==> times[i] <= times[j]
  }

  // ---- Runs split, counts add ----

  lemma {:induction false} CallsSplit(b: Bucket, first: seq<real>, rest: seq<real>)
    ensures Calls(b, first + rest).0 == Calls(Calls(b, first).0, rest).0
    ensures Decisions(b, first + rest) == Decisions(b, first) + Decisions(Calls(b, first).0, rest)
    decreases |rest|
  {
    hide Gain;
    var times := first + rest;
    if rest == [] {
      assert times == first;
    } else {
      assert times[..|times| - 1] == first + rest[..|rest| - 1];
      CallsSplit(b, first, rest[..|rest| - 1]);
    }
  }

  lemma {:induction false} CountSplit(a: seq<bool>, b: seq<bool>)
    ensures Count(a + b) == Count(a) + Count(b)
    decreases |b|
  {
    if b == [] {
      assert a + b == a;
    } else {
      assert (a + b)[..|a + b| - 1] == a + b[..|b| - 1];
      CountSplit(a, b[..|b| - 1]);
    }
  }

  /** The decisions in a window are those of the bucket as it stood when the window began. */
  lemma WindowIsARun(b: Bucket, times: seq<real>, i: nat, j: nat)
    requires i <= j <= |times|
    ensures Decisions(b, times)[i..j] == Decisions(Calls(b, times[..i]).0, times[i..j])
  {
    hide Gain;
    assert times == (times[..i] + times[i..j]) + times[j..];
    CallsSplit(b, times[..i] + times[i..j], times[j..]);
    CallsSplit(b, times[..i], times[i..j]);
  }

  lemma {:induction false} BucketAfter(b: Bucket, times: seq<real>)
    ensures var after := Calls(b, times).0;
            && after.capacity == b.capacity && after.rate == b.rate
            && after.updatedAt == (if times == [] then b.updatedAt else times[|times| - 1])
    decreases |times|
  {
    if times != [] {
      BucketAfter(b, times[..|times| - 1]);
    }
  }

  // ---- Bounds ----

  /** Tokens stay between zero and the capacity. */
  lemma {:induction false} TokensStayInRange(b: Bucket, times: seq<real>)
    requires b.rate >= 0.0 && 0.0 <= b.tokens <= b.capacity as real
    ensures 0.0 <= Calls(b, times).0.tokens <= b.capacity as real
    decreases |times|
  {
    hide Gain;
    if times != [] {
      TokensStayInRange(b, times[..|times| - 1]);
      BucketAfter(b, times[..|times| - 1]);
      RefillNeverDrains(Calls(b, times[..|times| - 1]).0, times[|times| - 1]);
    }
  }

  lemma RefillNeverDrains(b: Bucket, now: real)
    requires b.rate >= 0.0
    ensures Gain(b.rate, Max(0.0, now - b.updatedAt)) >= 0.0
  {
  }

  /** What one call admits and leaves is paid for by what was there and the refill. */
  lemma CallIsPaid(b: Bucket, now: real)
    ensures var (after, allowed) := Call(b, now);
            (if allowed then 1.0 else 0.0) + Max(0.0, after.tokens)
            <= Max(0.0, b.tokens) + Gain(Max(0.0, b.rate), Max(0.0, now - b.updatedAt))
  {
    var e := Max(0.0, now - b.updatedAt);
    assert b.rate * e <= Max(0.0, b.rate) * e;
  }

  lemma GainAdds(r: real, x: real, y: real)
    ensures Gain(r, x + y) == Gain(r, x) + Gain(r, y)
  {
  }

  lemma GainOfNothing(r: real)
    ensures Gain(r, 0.0) == 0.0
  {
  }

  lemma GainIsProduct(r: real, x: real)
    ensures Gain(r, x) == r * x
  {
  }

  lemma CountLast(decisions: seq<bool>, last: bool)
    ensures Count(decisions + [last]) == Count(decisions) + (if last then 1 else 0)
  {
    assert (decisions + [last])[..|decisions|] == decisions;
  }

  lemma ElapsedLast(last: real, times: seq<real>)
    requires times != []
    ensures Elapsed(last, times) == Elapsed(last, times[..|times| - 1]) +
      Max(0.0, times[|times| - 1] - (if |times| == 1 then last else times[|times| - 2]))
  {
  }

  /** Tokens in the bucket and admissions made are paid for by the tokens at the start and the refill. */
  lemma {:induction false} AdmissionsArePaid(b: Bucket, times: seq<real>)
    ensures Count(Decisions(b, times)) as real + Max(0.0, Calls(b, times).0.tokens)
            <= Max(0.0, b.tokens) + Gain(Max(0.0, b.rate), Elapsed(b.updatedAt, times))
    decreases |times|
  {
    hide Gain;
    GainOfNothing(Max(0.0, b.rate));
    if times != [] {
      var before := times[..|times| - 1];
      var now := times[|times| - 1];
      AdmissionsArePaid(b, before);
      BucketAfter(b, before);
      var c := Calls(b, before).0;
      CallIsPaid(c, now);
      CountLast(Decisions(b, before), Call(c, now).1);
      ElapsedLast(b.updatedAt, times);
      GainAdds(Max(0.0, b.rate), Elapsed(b.updatedAt, before), Max(0.0, now - c.updatedAt));
    }
  }

  /** In every window of calls on a bucket, admissions are at most the capacity plus the refill for the
      positive steps of the clock inside the window. Nothing is asked of the clock or the limits. */
  lemma WindowBound(b: Bucket, times: seq<real>, i: nat, j: nat)
    requires i < j <= |times|
    ensures Count(Decisions(b, times)[i..j]) as real
            <= Max(0.0, b.capacity as real) + Gain(Max(0.0, b.rate), Elapsed(times[i], times[i + 1..j]))
  {
    hide Gain, Elapsed, Count, Calls;
    var c := Calls(b, times[..i]).0;
    WindowIsARun(b, times, i, j);
    BucketAfter(b, times[..i]);
    var (d, allowed) := Call(c, times[i]);
    assert times[i..j] == [times[i]] + times[i + 1..j];
    CallsSplit(c, [times[i]], times[i + 1..j]);
    OneCall(c, times[i]);
    CountSplit([allowed], Decisions(d, times[i + 1..j]));
    assert Count([allowed]) == if allowed then 1 else 0 by { OneDecision(allowed); }
    AdmissionsArePaid(d, times[i + 1..j]);
  }

  lemma OneDecision(allowed: bool)
    ensures Count([allowed]) == if allowed then 1 else 0
  {
    assert [allowed][..0] == [];
  }

  lemma OneCall(b: Bucket, now: real)
    ensures Calls(b, [now]) == (Call(b, now).0, [Call(b, now).1])
  {
    hide Gain;
    assert [now][..|[now]| - 1] == [];
    assert Decisions(b, []) + [Call(b, now).1] == [Call(b, now).1];
  }

  lemma {:induction false} OrderedElapsed(last: real, times: seq<real>)
    requires Ordered(times) && (times != [] ==> last <= times[0])
    ensures Elapsed(last, times) == (if times == [] then 0.0 else times[|times| - 1] - last)
    decreases |times|
  {
    if |times| > 1 {
      OrderedElapsed(last, times[..|times| - 1]);
    }
  }

  // ---- No admission rule admits more ----

  /** The positive clock steps between call `i` and call `j`. */
  function Between(times: seq<real>, i: nat, j: nat): (sum: real)
    requires i <= j < |times|
    ensures sum >= 0.0
  {
    Elapsed(times[i], times[i + 1..j + 1])
  }

  /** The contract of a limiter, for any clock: in every window, at most the capacity plus the refill for
      the positive clock steps inside the window. */
  ghost predicate Admissible(capacity: int, rate: real, times: seq<real>, decisions: seq<bool>)
    requires |times| == |decisions|
  {
    forall i, j :: 0 <= i <= j < |times| ==>
      Count(decisions[i..j + 1]) as real <= capacity as real + rate * Between(times, i, j)
  }

  /** The limiter honours the contract. */
  lemma LimiterIsAdmissible(capacity: int, rate: real, times: seq<real>)
    requires capacity >= 0 && rate >= 0.0 && times != []
    ensures Admissible(capacity, rate, times, Decisions(Fresh(capacity, rate, times[0]), times))
  {
    hide Gain, Elapsed;
    var b := Fresh(capacity, rate, times[0]);
    forall i, j | 0 <= i <= j < |times|
      ensures Count(Decisions(b, times)[i..j + 1]) as real <= capacity as real + rate * Between(times, i, j)
    {
      WindowBound(b, times, i, j + 1);
      GainIsProduct(rate, Between(times, i, j));
    }
  }

  /** On a clock that never goes back the contract is the usual one: the capacity plus the rate times the
      duration of the window. */
  lemma OrderedWindow(times: seq<real>, i: nat, j: nat)
    requires Ordered(times) && i <= j < |times|
    ensures Between(times, i, j) == times[j] - times[i]
  {
    OrderedElapsed(times[i], times[i + 1..j + 1]);
  }

  lemma OneMoreStep(times: seq<real>, i: nat, m: nat)
    requires i < m < |times|
    ensures Between(times, i, m) == Between(times, i, m - 1) + Max(0.0, times[m] - times[m - 1])
  {
    var inside := times[i + 1..m + 1];
    ElapsedLast(times[i], inside);
    assert inside[..|inside| - 1] == times[i + 1..m];
  }

  /** The tokens found at each call, before the decision: a full bucket at first; later, what the call
      before left plus the refill for a positive clock step, or a full bucket. */
  ghost predicate IsLedger(capacity: int, rate: real, times: seq<real>, levels: seq<real>, decisions: seq<bool>) {
    && |levels| == |times| == |decisions|
    && forall m :: 0 <= m < |times| ==> IsEntry(capacity, rate, times, levels, decisions, m)
  }

  ghost predicate IsEntry(
      capacity: int, rate: real, times: seq<real>, levels: seq<real>, decisions: seq<bool>, m: nat)
    requires |levels| == |times| == |decisions| && m < |times|
  {
    && (decisions[m] <==> levels[m] >= 1.0)
    && (levels[m] == capacity as real ||
        (m > 0 && levels[m] == levels[m - 1] - (if decisions[m - 1] then 1.0 else 0.0)
                               + Gain(rate, Max(0.0, times[m] - times[m - 1]))))
  }

  function LevelAt(b: Bucket, times: seq<real>, m: nat): real
    requires m < |times|
  {
    Refilled(Calls(b, times[..m]).0, times[m]).tokens
  }

  function Levels(b: Bucket, times: seq<real>): (levels: seq<real>)
    ensures |levels| == |times| && forall m :: 0 <= m < |times| ==> levels[m] == LevelAt(b, times, m)
  {
    seq(|times|, m requires 0 <= m < |times| => LevelAt(b, times, m))
  }

  /** The limiter keeps such a ledger. */
  lemma LimiterKeepsLedger(capacity: int, rate: real, times: seq<real>)
    requires times != []
    ensures var b := Fresh(capacity, rate, times[0]);
            IsLedger(capacity, rate, times, Levels(b, times), Decisions(b, times))
  {
    var b := Fresh(capacity, rate, times[0]);
    hide IsEntry, Levels, LevelAt;
    forall m | 0 <= m < |times| ensures IsEntry(capacity, rate, times, Levels(b, times), Decisions(b, times), m) {
      LimiterEntry(capacity, rate, times, m);
    }
  }

  lemma LimiterEntry(capacity: int, rate: real, times: seq<real>, m: nat)
    requires m < |times|
    ensures var b := Fresh(capacity, rate, times[0]);
            IsEntry(capacity, rate, times, Levels(b, times), Decisions(b, times), m)
  {
    hide Gain;
    var b := Fresh(capacity, rate, times[0]);
    DecisionAt(b, times, m);
    BucketAfter(b, times[..m]);
    if m == 0 {
      FirstCallIsFull(capacity, rate, times[0]);
    } else {
      DecisionAt(b, times, m - 1);
      BucketAfter(b, times[..m - 1]);
      assert times[..m][..m - 1] == times[..m - 1];
    }
  }

  lemma FirstCallIsFull(capacity: int, rate: real, now: real)
    ensures Refilled(Fresh(capacity, rate, now), now).tokens == capacity as real
  {
    hide Gain;
    GainOfNothing(rate);
  }

  lemma DecisionAt(b: Bucket, times: seq<real>, m: nat)
    requires m < |times|
    ensures Decisions(b, times)[m] <==> LevelAt(b, times, m) >= 1.0
  {
    hide Gain;
    DecisionsOfPrefix(b, times, m + 1);
    assert times[..m + 1][..m] == times[..m];
  }

  lemma DecisionsOfPrefix(b: Bucket, times: seq<real>, m: nat)
    requires m <= |times|
    ensures Decisions(b, times)[..m] == Decisions(b, times[..m])
  {
    assert times == times[..m] + times[m..];
    CallsSplit(b, times[..m], times[m..]);
  }

  lemma WindowGrows(decisions: seq<bool>, i: nat, m: nat)
    requires i < m <= |decisions|
    ensures Count(decisions[i..m]) as real == Count(decisions[i..m - 1]) as real + if decisions[m - 1] then 1.0 else 0.0
  {
    assert decisions[i..m] == decisions[i..m - 1] + [decisions[m - 1]];
    CountLast(decisions[i..m - 1], decisions[m - 1]);
  }

  /** The tokens at a call are explained by the last time the bucket was full: the capacity plus the refill
      since then, less what was admitted since then. */
  lemma {:induction false} LastFull(
      capacity: int, rate: real, times: seq<real>, levels: seq<real>, decisions: seq<bool>, m: nat) returns (i: nat)
    requires IsLedger(capacity, rate, times, levels, decisions) && m < |times|
    ensures i <= m
    ensures levels[m] == capacity as real + Gain(rate, Between(times, i, m)) - Count(decisions[i..m]) as real
    decreases m
  {
    hide Gain, Count, Elapsed, Between;
    assert IsEntry(capacity, rate, times, levels, decisions, m);
    if levels[m] == capacity as real {
      i := m;
      NothingSince(rate, times, decisions, m);
    } else {
      i := LastFull(capacity, rate, times, levels, decisions, m - 1);
      WindowGrows(decisions, i, m);
      OneMoreStep(times, i, m);
      GainAdds(rate, Between(times, i, m - 1), Max(0.0, times[m] - times[m - 1]));
    }
  }

  lemma NothingSince(rate: real, times: seq<real>, decisions: seq<bool>, m: nat)
    requires m < |times| == |decisions|
    ensures Gain(rate, Between(times, m, m)) == 0.0 && Count(decisions[m..m]) == 0
  {
    GainOfNothing(rate);
    assert times[m + 1..m + 1] == [];
  }

  /** Prefix counts, when the rule is behind at `i` and within `limit` since, and the limiter used up `limit`. */
  lemma NoMoreSince(rule: seq<bool>, greedy: seq<bool>, i: nat, n: nat, limit: real)
    requires i <= n < |rule| == |greedy| && !greedy[n]
    requires Count(rule[..i]) <= Count(greedy[..i])
    requires Count(rule[i..n + 1]) as real <= limit
    requires limit - Count(greedy[i..n]) as real < 1.0
    ensures Count(rule[..n + 1]) <= Count(greedy[..n])
  {
    assert rule[..n + 1] == rule[..i] + rule[i..n + 1] && greedy[..n] == greedy[..i] + greedy[i..n];
    CountSplit(rule[..i], rule[i..n + 1]);
    CountSplit(greedy[..i], greedy[i..n]);
  }

  lemma WithinContract(capacity: int, rate: real, times: seq<real>, rule: seq<bool>, i: nat, n: nat)
    requires |rule| == |times| && i <= n < |times| && Admissible(capacity, rate, times, rule)
    ensures Count(rule[i..n + 1]) as real <= capacity as real + Gain(rate, Between(times, i, n))
  {
    GainIsProduct(rate, Between(times, i, n));
    hide Gain;
  }

  /** Whoever keeps the ledger: no rule that honours the contract has admitted more requests after any
      number of requests. */
  lemma {:induction false} LedgerAdmitsMost(
      capacity: int, rate: real, times: seq<real>, levels: seq<real>, greedy: seq<bool>, rule: seq<bool>, m: nat)
    requires IsLedger(capacity, rate, times, levels, greedy) && |rule| == |times| && m <= |times|
    requires Admissible(capacity, rate, times, rule)
    ensures Count(rule[..m]) <= Count(greedy[..m])
    decreases m
  {
    hide Gain, Between, Admissible, Count;
    if m == 0 {
      assert rule[..0] == greedy[..0];
    } else {
      var n := m - 1;
      PrefixGrows(greedy, n);
      PrefixGrows(rule, n);
      if greedy[n] {
        LedgerAdmitsMost(capacity, rate, times, levels, greedy, rule, n);
      } else {
        var i := LastFull(capacity, rate, times, levels, greedy, n);
        LedgerAdmitsMost(capacity, rate, times, levels, greedy, rule, i);
        assert IsEntry(capacity, rate, times, levels, greedy, n);
        WithinContract(capacity, rate, times, rule, i, n);
        NoMoreSince(rule, greedy, i, n, capacity as real + Gain(rate, Between(times, i, n)));
      }
    }
  }

  /** Greedy optimality: on any request times, however the clock jumps, no rule that honours the contract
      has admitted more requests than the limiter after any number of requests. */
  lemma NoRuleAdmitsMore(capacity: int, rate: real, times: seq<real>, rule: seq<bool>, m: nat)
    requires |rule| == |times| && 0 < |times| && m <= |times|
    requires Admissible(capacity, rate, times, rule)
    ensures Count(rule[..m]) <= Count(Decisions(Fresh(capacity, rate, times[0]), times)[..m])
  {
    hide IsLedger, Admissible, Levels, Decisions, Count;
    var b := Fresh(capacity, rate, times[0]);
    LimiterKeepsLedger(capacity, rate, times);
    LedgerAdmitsMost(capacity, rate, times, Levels(b, times), Decisions(b, times), rule, m);
  }

  lemma PrefixGrows(decisions: seq<bool>, n: nat)
    requires n < |decisions|
    ensures Count(decisions[..n + 1]) == Count(decisions[..n]) + if decisions[n] then 1 else 0
  {
    assert decisions[..n + 1] == decisions[..n] + [decisions[n]];
    CountLast(decisions[..n], decisions[n]);
  }
}
