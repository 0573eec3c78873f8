/** What linearization gives: bounds on admissions across all clients, and when the one-hour expiry of
    idle hashes can be noticed. */
module RedisTheorems {
  import opened Content
  import opened TokenBucket
  import opened RateLimiter
  import opened RedisLimiter

  // ---- One key of the log ----

  predicate IsOn(e: Event, key: Key) { e.Commit? && e.r.key == key }

  function CommitTimes(log: seq<Event>, key: Key): seq<real> {
    if log == [] then []
    else
      var before := CommitTimes(log[..|log| - 1], key);
      if IsOn(log[|log| - 1], key) then before + [log[|log| - 1].r.now] else before
  }

  function CommitDecisions(log: seq<Event>, key: Key): seq<bool> {
    if log == [] then []
    else
      var before := CommitDecisions(log[..|log| - 1], key);
      if IsOn(log[|log| - 1], key) then before + [log[|log| - 1].allowed] else before
  }

  /** How often the key's hash has expired. */
  function Expiries(log: seq<Event>, key: Key): nat {
    if log == [] then 0
    else Expiries(log[..|log| - 1], key) + (if log[|log| - 1] == Expiry(key) then 1 else 0)
  }

  /** Every request on the key carries the same limits, as the lanes of the gateway do. */
  predicate FixedLimits(log: seq<Event>, key: Key, capacity: int, rate: real) {
    forall e <- log :: IsOn(e, key) ==> e.r.capacity == capacity && e.r.rate == rate
  }

  lemma FixedLimitsOfPrefix(log: seq<Event>, key: Key, capacity: int, rate: real)
    requires log != [] && FixedLimits(log, key, capacity, rate)
    ensures FixedLimits(log[..|log| - 1], key, capacity, rate)
    ensures IsOn(log[|log| - 1], key) ==> log[|log| - 1].r.capacity == capacity && log[|log| - 1].r.rate == rate
  {
    assert log[|log| - 1] in log;
    assert forall e :: e in log[..|log| - 1] ==> e in log;
  }

  lemma {:induction false} HashHasLastTime(log: seq<Event>, key: Key)
    ensures key in Serial(log) ==>
      var times := CommitTimes(log, key); times != [] && Serial(log)[key].updatedAt == times[|times| - 1]
    decreases |log|
  {
    if log != [] {
      HashHasLastTime(log[..|log| - 1], key);
    }
  }

  /** The tokens the key's hash holds; a hash that is gone holds none. */
  function TokensOf(log: seq<Event>, key: Key): real {
    if key in Serial(log) then Max(0.0, Serial(log)[key].tokens) else 0.0
  }

  /** How many full buckets the key has had so far. */
  function Buckets(log: seq<Event>, key: Key): nat {
    Expiries(log, key) + (if key in Serial(log) then 1 else 0)
  }

  function TotalElapsed(times: seq<real>): real {
    if times == [] then 0.0 else Elapsed(times[0], times[1..])
  }

  lemma ElapsedAppend(times: seq<real>, now: real)
    requires times != []
    ensures TotalElapsed(times + [now]) == TotalElapsed(times) + Max(0.0, now - times[|times| - 1])
  {
    assert (times + [now])[1..] == times[1..] + [now];
    ElapsedLast(times[0], times[1..] + [now]);
    assert (times[1..] + [now])[..|times| - 1] == times[1..];
  }

  lemma CommitIsPaid(log: seq<Event>, key: Key, r: Request)
    requires r.key == key
    ensures var (entry, allowed) := Decide(Lookup(Serial(log), key), r);
            (if allowed then 1.0 else 0.0) + Max(0.0, entry.tokens)
            <= (if key in Serial(log)
                then TokensOf(log, key) + Gain(Max(0.0, r.rate), Max(0.0, r.now - Serial(log)[key].updatedAt))
                else Max(0.0, r.capacity as real))
  {
    hide Gain;
    CallIsPaid(AsBucket(Lookup(Serial(log), key), r), r.now);
    GainOfNothing(Max(0.0, r.rate));
  }

  lemma OtherEvent(before: seq<Event>, key: Key, e: Event)
    requires !IsOn(e, key) && e != Expiry(key)
    ensures var log := before + [e];
            && TokensOf(log, key) == TokensOf(before, key) && Buckets(log, key) == Buckets(before, key)
            && CommitTimes(log, key) == CommitTimes(before, key)
            && CommitDecisions(log, key) == CommitDecisions(before, key)
  {
    hide Call;
    assert (before + [e])[..|before|] == before;
    SerialLast(before, e);
  }

  /** An expiry takes the tokens away and leaves the rest of the account as it is, or better. */
  lemma ExpiryEvent(before: seq<Event>, key: Key, c: real)
    requires c >= 0.0
    ensures var log := before + [Expiry(key)];
            && TokensOf(log, key) == 0.0
            && Gain(c, Buckets(log, key) as real) >= Gain(c, Buckets(before, key) as real)
            && CommitTimes(log, key) == CommitTimes(before, key)
            && CommitDecisions(log, key) == CommitDecisions(before, key)
  {
    hide Gain;
    var log := before + [Expiry(key)];
    assert log[..|before|] == before;
    SerialLast(before, Expiry(key));
    GainAdds(c, Buckets(before, key) as real, 1.0);
    GainOfPositive(c, 1.0);
    assert Buckets(log, key) as real == Buckets(before, key) as real
           || Buckets(log, key) as real == Buckets(before, key) as real + 1.0;
  }

  /** What a key has been given so far: for each commit that found no hash, the capacity of its request,
      and for each other commit, the refill at its request's rate since the timestamp in the hash. */
  function Funding(log: seq<Event>, key: Key): real {
    if log == [] then 0.0
    else
      var before, e := log[..|log| - 1], log[|log| - 1];
      if IsOn(e, key) then Funding(before, key) + Granting(before, key, e.r) else Funding(before, key)
  }

  function Granting(before: seq<Event>, key: Key, r: Request): real {
    if key in Serial(before) then Gain(Max(0.0, r.rate), Max(0.0, r.now - Serial(before)[key].updatedAt))
    else Max(0.0, r.capacity as real)
  }

  /** Conservation: whatever limits the requests bring along, admissions on a key and the tokens left are
      paid for by what the key has been given. No decrement is lost. */
  lemma {:induction false} CommitsAreFunded(log: seq<Event>, key: Key)
    requires SerialDecisions(log)
    ensures Count(CommitDecisions(log, key)) as real + TokensOf(log, key) <= Funding(log, key)
    decreases |log|
  {
    hide Gain, Call, Decide;
    if log != [] {
      var before, e := log[..|log| - 1], log[|log| - 1];
      CommitsAreFunded(before, key);
      assert log == before + [e];
      if IsOn(e, key) {
        CountLast(CommitDecisions(before, key), e.allowed);
        CommitIsPaid(before, key, e.r);
      } else if e == Expiry(key) {
        ExpiryEvent(before, key, 0.0);
      } else {
        OtherEvent(before, key, e);
      }
    }
  }

  /** With the same limits on every request of the key, what it has been given is at most one capacity for
      each bucket it has had, and the refill for the positive steps of the committed timestamps. */
  lemma {:induction false} FundingIsBounded(log: seq<Event>, key: Key, capacity: int, rate: real)
    requires FixedLimits(log, key, capacity, rate)
    ensures Funding(log, key) <= Gain(Max(0.0, capacity as real), Buckets(log, key) as real)
                                 + Gain(Max(0.0, rate), TotalElapsed(CommitTimes(log, key)))
    decreases |log|
  {
    hide Gain, Call, Decide;
    var c, r := Max(0.0, capacity as real), Max(0.0, rate);
    GainOfNothing(c);
    GainOfNothing(r);
    if log != [] {
      var before, e := log[..|log| - 1], log[|log| - 1];
      FixedLimitsOfPrefix(log, key, capacity, rate);
      FundingIsBounded(before, key, capacity, rate);
      assert log == before + [e];
      if IsOn(e, key) {
        PaidStep(before, key, e, c, r);
      } else if e == Expiry(key) {
        ExpiryEvent(before, key, c);
      } else {
        OtherEvent(before, key, e);
      }
    }
  }

  lemma GainOfPositive(r: real, x: real)
    requires r >= 0.0 && x >= 0.0
    ensures Gain(r, x) >= 0.0
    ensures x == 1.0 ==> Gain(r, x) == r
  {
  }

  /** What the right-hand side of the conservation law gains with one commit on the key. */
  lemma PaidStep(before: seq<Event>, key: Key, e: Event, c: real, r: real)
    requires IsOn(e, key) && c >= 0.0 && r >= 0.0
    ensures var log := before + [e];
            Gain(c, Buckets(log, key) as real) + Gain(r, TotalElapsed(CommitTimes(log, key)))
            >= Gain(c, Buckets(before, key) as real) + Gain(r, TotalElapsed(CommitTimes(before, key)))
               + (if key in Serial(before) then Gain(r, Max(0.0, e.r.now - Serial(before)[key].updatedAt)) else c)
  {
    hide Gain;
    hide Call;
    var log := before + [e];
    assert log[..|log| - 1] == before;
    SerialLast(before, e);
    HashHasLastTime(before, key);
    var times := CommitTimes(before, key);
    if times == [] {
      assert CommitTimes(log, key) == [e.r.now];
    } else {
      var step := Max(0.0, e.r.now - times[|times| - 1]);
      ElapsedAppend(times, e.r.now);
      GainAdds(r, TotalElapsed(times), step);
      GainOfPositive(r, step);
    }
    if key !in Serial(before) {
      assert Buckets(log, key) as real == Buckets(before, key) as real + 1.0;
      GainAdds(c, Buckets(before, key) as real, 1.0);
      GainOfPositive(c, 1.0);
    }
  }

  lemma {:induction false} AdmittedIsCounted(log: seq<Event>, key: Key)
    ensures Admitted(log, key) == Count(CommitDecisions(log, key))
    decreases |log|
  {
    hide Call;
    if log != [] {
      AdmittedIsCounted(log[..|log| - 1], key);
      CountLast(CommitDecisions(log[..|log| - 1], key), IsOn(log[|log| - 1], key) && log[|log| - 1].allowed);
    }
  }

  /** Across all clients, in any execution of the protocol and whatever limits the requests bring along,
      the requests let through on a key are at most what the key has been given. */
  lemma ProtocolIsFunded(steps: seq<Step>, key: Key)
    ensures GrantedTo(AfterAll(Empty, steps).clients, key) as real <= Funding(AfterAll(Empty, steps).log, key)
  {
    hide Call, Decide, SerialDecisions, CommitDecisions, GrantedTo, Admitted, AfterAll, Serial, Funding;
    ProtocolLinearizes(steps);
    CommitsAreFunded(AfterAll(Empty, steps).log, key);
    GrantsAreCommitted(steps, key);
    AdmittedIsCounted(AfterAll(Empty, steps).log, key);
  }

  /** With fixed limits that is at most the capacity plus the refill for the positive steps of the committed
      timestamps; each expiry adds at most one more capacity. */
  lemma ProtocolBound(steps: seq<Step>, key: Key, capacity: int, rate: real)
    requires FixedLimits(AfterAll(Empty, steps).log, key, capacity, rate)
    ensures var log := AfterAll(Empty, steps).log;
            GrantedTo(AfterAll(Empty, steps).clients, key) as real
            <= Gain(Max(0.0, capacity as real), (Expiries(log, key) + 1) as real)
               + Gain(Max(0.0, rate), TotalElapsed(CommitTimes(log, key)))
  {
    hide Gain, FixedLimits, CommitTimes, TotalElapsed, GrantedTo, AfterAll, Serial, Funding;
    var log := AfterAll(Empty, steps).log;
    ProtocolIsFunded(steps, key);
    FundingIsBounded(log, key, capacity, rate);
    var c := Max(0.0, capacity as real);
    if key !in Serial(log) {
      GainAdds(c, Buckets(log, key) as real, 1.0);
      GainOfPositive(c, 1.0);
      assert (Expiries(log, key) + 1) as real == Buckets(log, key) as real + 1.0;
    }
  }

  // ---- No admission rule admits more than the protocol ----

  /** The tokens that each commit on the key found in its bucket, before the decision. */
  function LevelsOn(log: seq<Event>, key: Key): seq<real> {
    if log == [] then []
    else
      var before, e := log[..|log| - 1], log[|log| - 1];
      var levels := LevelsOn(before, key);
      if IsOn(e, key) then levels + [Refilled(AsBucket(Lookup(Serial(before), key), e.r), e.r.now).tokens] else levels
  }

  /** What the hash holds is what the last commit found, less what it took. */
  ghost predicate HashFollowsLedger(log: seq<Event>, key: Key) {
    var times, levels, decisions := CommitTimes(log, key), LevelsOn(log, key), CommitDecisions(log, key);
    key in Serial(log) ==>
      && times != [] && |levels| == |times| == |decisions|
      && var last := |times| - 1;
      && Serial(log)[key].updatedAt == times[last]
      && Serial(log)[key].tokens == levels[last] - if decisions[last] then 1.0 else 0.0
  }

  lemma LedgerGrows(
      capacity: int, rate: real, times: seq<real>, levels: seq<real>, decisions: seq<bool>,
      now: real, level: real, allowed: bool)
    requires IsLedger(capacity, rate, times, levels, decisions)
    requires IsEntry(capacity, rate, times + [now], levels + [level], decisions + [allowed], |times|)
    ensures IsLedger(capacity, rate, times + [now], levels + [level], decisions + [allowed])
  {
    hide Gain;
    forall m | 0 <= m < |times|
      ensures IsEntry(capacity, rate, times + [now], levels + [level], decisions + [allowed], m)
    {
      assert IsEntry(capacity, rate, times, levels, decisions, m);
    }
  }

  lemma CommitIsEntered(before: seq<Event>, key: Key, e: Event, capacity: int, rate: real)
    requires IsOn(e, key) && e.r.capacity == capacity && e.r.rate == rate && SerialDecisions(before + [e])
    requires HashFollowsLedger(before, key)
    requires IsLedger(capacity, rate, CommitTimes(before, key), LevelsOn(before, key), CommitDecisions(before, key))
    ensures var log := before + [e];
            && HashFollowsLedger(log, key)
            && IsLedger(capacity, rate, CommitTimes(log, key), LevelsOn(log, key), CommitDecisions(log, key))
  {
    hide Gain, IsLedger;
    var log := before + [e];
    assert log[..|before|] == before;
    SerialLast(before, e);
    var times, levels, decisions := CommitTimes(before, key), LevelsOn(before, key), CommitDecisions(before, key);
    var level := Refilled(AsBucket(Lookup(Serial(before), key), e.r), e.r.now).tokens;
    assert |levels| == |times| == |decisions| by { LedgerLengths(capacity, rate, times, levels, decisions); }
    FirstCallIsFull(capacity, rate, e.r.now);
    assert IsEntry(capacity, rate, times + [e.r.now], levels + [level], decisions + [e.allowed], |times|);
    LedgerGrows(capacity, rate, times, levels, decisions, e.r.now, level, e.allowed);
  }

  lemma LedgerLengths(capacity: int, rate: real, times: seq<real>, levels: seq<real>, decisions: seq<bool>)
    requires IsLedger(capacity, rate, times, levels, decisions)
    ensures |levels| == |times| == |decisions|
  {
  }

  lemma OtherEventLeavesLedger(before: seq<Event>, key: Key, e: Event)
    requires !IsOn(e, key) && HashFollowsLedger(before, key)
    ensures var log := before + [e];
            && HashFollowsLedger(log, key) && CommitTimes(log, key) == CommitTimes(before, key)
            && LevelsOn(log, key) == LevelsOn(before, key) && CommitDecisions(log, key) == CommitDecisions(before, key)
  {
    hide Refilled, Decide;
    assert (before + [e])[..|before|] == before;
    SerialLast(before, e);
  }

  /** Across all clients, failed rounds and expiries, the commits on a key keep the ledger of one bucket. */
  lemma {:induction false} ProtocolKeepsLedger(log: seq<Event>, key: Key, capacity: int, rate: real)
    requires SerialDecisions(log) && FixedLimits(log, key, capacity, rate)
    ensures HashFollowsLedger(log, key)
    ensures IsLedger(capacity, rate, CommitTimes(log, key), LevelsOn(log, key), CommitDecisions(log, key))
    decreases |log|
  {
    hide Gain, Refilled, Call, Decide, HashFollowsLedger, IsLedger;
    if log == [] {
      EmptyLedger(key, capacity, rate);
    } else {
      var before, e := log[..|log| - 1], log[|log| - 1];
      assert log == before + [e];
      FixedLimitsOfPrefix(log, key, capacity, rate);
      ProtocolKeepsLedger(before, key, capacity, rate);
      if IsOn(e, key) {
        CommitIsEntered(before, key, e, capacity, rate);
      } else {
        OtherEventLeavesLedger(before, key, e);
      }
    }
  }

  lemma EmptyLedger(key: Key, capacity: int, rate: real)
    ensures HashFollowsLedger([], key)
    ensures IsLedger(capacity, rate, CommitTimes([], key), LevelsOn([], key), CommitDecisions([], key))
  {
  }

  /** The lower side of the bounds: in any execution with fixed limits, whatever the order in which clock
      readings are committed and however often the hash expires, no rule that keeps within the capacity
      plus the refill in every window of the committed timestamps has admitted more of them. */
  lemma NoRuleAdmitsMoreThanProtocol(
      steps: seq<Step>, key: Key, capacity: int, rate: real, rule: seq<bool>, m: nat)
    requires var log := AfterAll(Empty, steps).log;
             var times := CommitTimes(log, key);
             && FixedLimits(log, key, capacity, rate)
             && |rule| == |times| && m <= |times| && Admissible(capacity, rate, times, rule)
    ensures var decisions := CommitDecisions(AfterAll(Empty, steps).log, key);
            m <= |decisions| && Count(rule[..m]) <= Count(decisions[..m])
  {
    hide AfterAll, FixedLimits, SerialDecisions, CommitTimes, CommitDecisions, LevelsOn, Admissible, IsLedger, Count;
    hide HashFollowsLedger, Serial;
    var log := AfterAll(Empty, steps).log;
    ProtocolLinearizes(steps);
    ProtocolKeepsLedger(log, key, capacity, rate);
    LedgerLengths(capacity, rate, CommitTimes(log, key), LevelsOn(log, key), CommitDecisions(log, key));
    LedgerAdmitsMost(
      capacity, rate, CommitTimes(log, key), LevelsOn(log, key), CommitDecisions(log, key), rule, m);
  }

  // ---- When the one-hour expiry can be noticed ----

  const LIFETIME := 3600.0

  /** A commit that misses the expired hash of a key carries a timestamp at least `gap` after that of the
      last commit on the key. */
  ghost predicate ExpiresAfter(log: seq<Event>, key: Key, gap: real) {
    log == [] ||
    (var before, e := log[..|log| - 1], log[|log| - 1];
     && ExpiresAfter(before, key, gap)
     && (IsOn(e, key) && key !in Serial(before) && CommitTimes(before, key) != [] ==>
           e.r.now - CommitTimes(before, key)[|CommitTimes(before, key)| - 1] >= gap))
  }

  /** The timestamps show the full hour. */
  ghost predicate ExpiresOnTime(log: seq<Event>, key: Key) { ExpiresAfter(log, key, LIFETIME) }

  /** The limits under which a bucket left idle for `gap` is full again, or admits nothing at all. */
  predicate RefillsWithin(capacity: int, rate: real, gap: real) {
    capacity < 1 || (gap >= 0.0 && Gain(rate, gap) >= capacity as real)
  }

  lemma LongIdleIsFull(capacity: int, rate: real, gap: real, elapsed: real)
    requires capacity >= 1 && RefillsWithin(capacity, rate, gap) && elapsed >= gap
    ensures rate >= 0.0 && Gain(rate, elapsed) >= capacity as real
  {
    assert rate >= 0.0;
    assert rate * gap <= rate * elapsed;
  }

  /** A call on a bucket left idle for so long is a call on a new bucket. */
  lemma IdleCall(b: Bucket, now: real, gap: real)
    requires b.capacity >= 1 && RefillsWithin(b.capacity, b.rate, gap)
    requires b.tokens >= 0.0 && now - b.updatedAt >= gap
    ensures Call(b, now) == Call(Fresh(b.capacity, b.rate, now), now)
  {
    LongIdleIsFull(b.capacity, b.rate, gap, now - b.updatedAt);
    assert now - b.updatedAt >= 0.0;
    hide Gain;
    FirstCallIsFull(b.capacity, b.rate, now);
  }

  /** The bucket that never expires, called at the key's commit times. */
  function Immortal(log: seq<Event>, key: Key, capacity: int, rate: real): Bucket
    requires CommitTimes(log, key) != []
  {
    var times := CommitTimes(log, key);
    Calls(Fresh(capacity, rate, times[0]), times).0
  }

  /** The expiring hash and the bucket that never expires agree: on all decisions, and on the tokens when
      the hash is there. */
  ghost predicate Agrees(log: seq<Event>, key: Key, capacity: int, rate: real) {
    var times := CommitTimes(log, key);
    if times == [] then CommitDecisions(log, key) == []
    else
      var b := Immortal(log, key, capacity, rate);
      && CommitDecisions(log, key) == Decisions(Fresh(capacity, rate, times[0]), times)
      && (capacity >= 1 ==> b.tokens >= 0.0 && (key in Serial(log) ==> Serial(log)[key].tokens == b.tokens))
  }

  lemma CommitAgrees(before: seq<Event>, key: Key, e: Event, capacity: int, rate: real, gap: real)
    requires IsOn(e, key) && e.r.capacity == capacity && e.r.rate == rate && RefillsWithin(capacity, rate, gap)
    requires Agrees(before, key, capacity, rate)
    requires SerialDecisions(before + [e]) && ExpiresAfter(before + [e], key, gap)
    ensures Agrees(before + [e], key, capacity, rate)
  {
    hide Gain;
    var log := before + [e];
    assert log[..|before|] == before;
    SerialLast(before, e);
    HashHasLastTime(before, key);
    var times := CommitTimes(before, key);
    var now := e.r.now;
    var stored := AsBucket(Lookup(Serial(before), key), e.r);
    if times == [] {
      OneCall(Fresh(capacity, rate, now), now);
      FirstCallIsFull(capacity, rate, now);
      assert CommitTimes(log, key) == [now];
    } else {
      var b := Immortal(before, key, capacity, rate);
      BucketAfter(Fresh(capacity, rate, times[0]), times);
      CallsLast(Fresh(capacity, rate, times[0]), times, now);
      if capacity >= 1 {
        LongIdleIsFull(capacity, rate, gap, gap);
        RefillNeverDrains(b, now);
        if key in Serial(before) {
          assert stored == b;
        } else {
          IdleCall(b, now, gap);
        }
      }
    }
  }

  /** Expiry is invisible: when a bucket left idle for the gap is full again, the decisions on a key are
      those of the in-memory bucket that never expires. */
  lemma {:induction false} ExpiryIsInvisible(log: seq<Event>, key: Key, capacity: int, rate: real, gap: real)
    requires SerialDecisions(log) && FixedLimits(log, key, capacity, rate) && ExpiresAfter(log, key, gap)
    requires RefillsWithin(capacity, rate, gap)
    ensures Agrees(log, key, capacity, rate)
    decreases |log|
  {
    hide Gain, Call;
    if log != [] {
      var before, e := log[..|log| - 1], log[|log| - 1];
      FixedLimitsOfPrefix(log, key, capacity, rate);
      ExpiryIsInvisible(before, key, capacity, rate, gap);
      assert log == before + [e];
      if IsOn(e, key) {
        CommitAgrees(before, key, e, capacity, rate, gap);
      } else {
        SerialLast(before, e);
      }
    }
  }

  /** When the expiry is invisible, every window of commits on a key admits at most the capacity plus the
      refill for its positive clock steps, and so do the requests let through in all. */
  lemma ProtocolWindowBound(
      steps: seq<Step>, key: Key, capacity: int, rate: real, gap: real, i: nat, j: nat)
    requires var log := AfterAll(Empty, steps).log;
             && FixedLimits(log, key, capacity, rate) && ExpiresAfter(log, key, gap)
             && RefillsWithin(capacity, rate, gap)
             && i < j <= |CommitTimes(log, key)|
    ensures var log := AfterAll(Empty, steps).log;
            var times := CommitTimes(log, key);
            && |CommitDecisions(log, key)| == |times|
            && Count(CommitDecisions(log, key)[i..j]) as real
               <= Max(0.0, capacity as real) + Gain(Max(0.0, rate), Elapsed(times[i], times[i + 1..j]))
            && GrantedTo(AfterAll(Empty, steps).clients, key) as real
               <= Max(0.0, capacity as real) + Gain(Max(0.0, rate), Elapsed(times[0], times[1..]))
  {
    hide AfterAll, FixedLimits, ExpiresAfter, SerialDecisions, Gain, CommitTimes, CommitDecisions, Serial;
    hide Elapsed, Count, GrantedTo, Admitted, Calls;
    var log := AfterAll(Empty, steps).log;
    var times := CommitTimes(log, key);
    ProtocolLinearizes(steps);
    ExpiryIsInvisible(log, key, capacity, rate, gap);
    var b := Fresh(capacity, rate, times[0]);
    WindowBound(b, times, i, j);
    WindowBound(b, times, 0, |times|);
    assert Decisions(b, times)[0..|times|] == Decisions(b, times);
    assert times[1..|times|] == times[1..];
    GrantsAreCommitted(steps, key);
    AdmittedIsCounted(log, key);
  }
}
