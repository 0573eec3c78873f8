/** `InMemoryRateLimiter`: one bucket for each (tenant, lane), created full by its first request. */
module RateLimiter {
  import opened Content
  import opened TokenBucket

  datatype Key = Key(tenant: string, lane: string)

  datatype Request = Request(key: Key, capacity: int, rate: real, now: real)

  function BucketFor(buckets: map<Key, Bucket>, r: Request): Bucket {
    if r.key in buckets then buckets[r.key] else Fresh(r.capacity, r.rate, r.now)
  }

  function Handle(buckets: map<Key, Bucket>, r: Request): (map<Key, Bucket>, bool) {
    var (b, allowed) := Call(BucketFor(buckets, r), r.now);
    (buckets[r.key := b], allowed)
  }

  function HandleAll(buckets: map<Key, Bucket>, rs: seq<Request>): (result: (map<Key, Bucket>, seq<bool>))
    ensures |result.1| == |rs|
  {
    if rs == [] then (buckets, [])
    else
      var (before, decisions) := HandleAll(buckets, rs[..|rs| - 1]);
      var (after, allowed) := Handle(before, rs[|rs| - 1]);
      (after, decisions + [allowed])
  }

  /** A bucket is an object whose fields every request on its key updates in place. Its capacity and rate
      are those of the request that created it. */
  class BucketCell {
    const capacity: int
    const rate: real
    var tokens: real
    var updatedAt: real

    constructor (capacity: int, rate: real, now: real)
      ensures Value() == Fresh(capacity, rate, now)
    {
      this.capacity := capacity;
      this.rate := rate;
      this.tokens := capacity as real;
      this.updatedAt := now;
    }

    ghost function Value(): Bucket
      reads this
    {
      Bucket(capacity, rate, tokens, updatedAt)
    }

    /** The refill and the withdrawal. */
    method Take(now: real) returns (allowed: bool)
      modifies this
      ensures (Value(), allowed) == Call(old(Value()), now)
    {
      hide Gain;
      var elapsed := Max(0.0, now - updatedAt);
      tokens := Min(capacity as real, tokens + Gain(rate, elapsed));
      updatedAt := now;
      allowed := tokens >= 1.0;
      if allowed {
        tokens := tokens - 1.0;
      }
    }
  }

  class InMemoryRateLimiter {
    var buckets: map<Key, BucketCell>

    ghost predicate Valid()
      reads this
    {
      forall k, l :: k in buckets && l in buckets && k != l ==> buckets[k] != buckets[l]
    }

    ghost function Contents(): map<Key, Bucket>
      reads this, buckets.Values
    {
      map k | k in buckets :: buckets[k].Value()
    }

    constructor ()
      ensures Valid() && Contents() == map[]
    {
      buckets := map[];
    }

    method Allow(r: Request) returns (allowed: bool)
      requires Valid()
      modifies this, buckets.Values
      ensures Valid() && fresh(buckets.Values - old(buckets.Values))
      ensures (Contents(), allowed) == Handle(old(Contents()), r)
    {
      hide Call;
      ghost var before := Contents();
      if r.key !in buckets {
        var created := new BucketCell(r.capacity, r.rate, r.now);
        buckets := buckets[r.key := created];
      }
      var b := buckets[r.key];
      assert b.Value() == BucketFor(before, r);
      assert forall k :: k in buckets && k != r.key ==> k in before && buckets[k].Value() == before[k];
      allowed := b.Take(r.now);
      assert Contents() == before[r.key := b.Value()];
    }
  }

  // ---- Keys do not influence one another ----

  function TimesOn(rs: seq<Request>, key: Key): seq<real> {
    if rs == [] then []
    else
      var before := TimesOn(rs[..|rs| - 1], key);
      if rs[|rs| - 1].key == key then before + [rs[|rs| - 1].now] else before
  }

  /** The decisions on the requests for `key`. */
  function DecisionsOn(buckets: map<Key, Bucket>, rs: seq<Request>, key: Key): seq<bool> {
    if rs == [] then []
    else
      var before := DecisionsOn(buckets, rs[..|rs| - 1], key);
      if rs[|rs| - 1].key == key then before + [HandleAll(buckets, rs).1[|rs| - 1]] else before
  }

  /** The bucket the requests for `key` start from: the stored one, or a full one with the limits of the
      first request for the key; None while there is neither. */
  function StartOn(buckets: map<Key, Bucket>, rs: seq<Request>, key: Key): Option<Bucket> {
    if key in buckets then Some(buckets[key])
    else if rs == [] then None
    else
      match StartOn(buckets, rs[..|rs| - 1], key)
      case Some(b) => Some(b)
      case None => if rs[|rs| - 1].key == key then Some(BucketFor(buckets, rs[|rs| - 1])) else None
  }

  /** One more request on the key is one more call of its bucket. */
  lemma RequestIsACall(buckets: map<Key, Bucket>, rs: seq<Request>)
    requires rs != []
    ensures var r := rs[|rs| - 1];
            var before := HandleAll(buckets, rs[..|rs| - 1]).0;
            var (b, allowed) := Call(BucketFor(before, r), r.now);
            HandleAll(buckets, rs).0 == before[r.key := b] && HandleAll(buckets, rs).1[|rs| - 1] == allowed
  {
    hide Call;
  }

  lemma CallsLast(b: Bucket, times: seq<real>, now: real)
    ensures var (before, decisions) := Calls(b, times);
            Calls(b, times + [now]) == (Call(before, now).0, decisions + [Call(before, now).1])
  {
    hide Call;
    assert (times + [now])[..|times|] == times;
  }

  /** The decisions on one key are those of one bucket called at that key's request times, whatever is
      asked on other keys in between; later requests for the key cannot change its limits. */
  lemma {:induction false} KeysAreIndependent(buckets: map<Key, Bucket>, rs: seq<Request>, key: Key)
    ensures match StartOn(buckets, rs, key)
            case None =>
              key !in HandleAll(buckets, rs).0 && TimesOn(rs, key) == [] && DecisionsOn(buckets, rs, key) == []
            case Some(b) =>
              && key in HandleAll(buckets, rs).0
              && HandleAll(buckets, rs).0[key] == Calls(b, TimesOn(rs, key)).0
              && DecisionsOn(buckets, rs, key) == Decisions(b, TimesOn(rs, key))
    decreases |rs|
  {
    hide Call;
    if rs != [] {
      var before := rs[..|rs| - 1];
      var r := rs[|rs| - 1];
      KeysAreIndependent(buckets, before, key);
      RequestIsACall(buckets, rs);
      if r.key == key {
        var start := StartOn(buckets, rs, key).value;
        CallsLast(start, TimesOn(before, key), r.now);
        assert Calls(start, []) == (start, []);
      }
    }
  }

  lemma {:induction false} HandleAllSplits(buckets: map<Key, Bucket>, first: seq<Request>, rest: seq<Request>)
    ensures HandleAll(buckets, first + rest).0 == HandleAll(HandleAll(buckets, first).0, rest).0
    ensures HandleAll(buckets, first + rest).1
            == HandleAll(buckets, first).1 + HandleAll(HandleAll(buckets, first).0, rest).1
    decreases |rest|
  {
    hide Call;
    var rs := first + rest;
    if rest == [] {
      assert rs == first;
    } else {
      assert rs[..|rs| - 1] == first + rest[..|rest| - 1];
      HandleAllSplits(buckets, first, rest[..|rest| - 1]);
    }
  }

  /** Any window of a trace is a trace from the buckets as they stood when it began. */
  lemma WindowOfRequests(buckets: map<Key, Bucket>, rs: seq<Request>, i: nat, j: nat)
    requires i <= j <= |rs|
    ensures HandleAll(buckets, rs).1[i..j] == HandleAll(HandleAll(buckets, rs[..i]).0, rs[i..j]).1
  {
    hide Call;
    assert rs == (rs[..i] + rs[i..j]) + rs[j..];
    HandleAllSplits(buckets, rs[..i] + rs[i..j], rs[j..]);
    HandleAllSplits(buckets, rs[..i], rs[i..j]);
  }

  /** Whatever other keys are asked for, what a trace admits on a key is at most the key's capacity plus
      the refill for the positive steps of the clock between the key's own requests; for a clock that
      never goes back, that is the refill for the time between first and last. With `WindowOfRequests`,
      the same holds in every window of every trace. */
  lemma KeyBound(buckets: map<Key, Bucket>, rs: seq<Request>, key: Key)
    requires TimesOn(rs, key) != []
    ensures var times := TimesOn(rs, key);
            StartOn(buckets, rs, key).Some? &&
            var b := StartOn(buckets, rs, key).value;
            var admitted := Count(DecisionsOn(buckets, rs, key)) as real;
            && admitted <= Max(0.0, b.capacity as real) + Gain(Max(0.0, b.rate), Elapsed(times[0], times[1..]))
            && (Ordered(times) && b.capacity >= 0 && b.rate >= 0.0 ==>
                  admitted <= b.capacity as real + Gain(b.rate, times[|times| - 1] - times[0]))
  {
    hide Gain, Call, TimesOn, DecisionsOn, StartOn, HandleAll, Count, Elapsed, Calls;
    var times := TimesOn(rs, key);
    KeysAreIndependent(buckets, rs, key);
    var b := StartOn(buckets, rs, key).value;
    WindowBound(b, times, 0, |times|);
    assert Decisions(b, times)[0..|times|] == Decisions(b, times);
    assert times[1..|times|] == times[1..];
    if Ordered(times) {
      OrderedElapsed(times[0], times[1..]);
    }
  }

  // ---- A key from its first request on ----

  predicate IsFirstOn(rs: seq<Request>, key: Key, i: nat) {
    i < |rs| && rs[i].key == key && forall j :: 0 <= j < i ==> rs[j].key != key
  }

  lemma {:induction false} FirstRequestSetsLimits(rs: seq<Request>, key: Key, i: nat)
    requires IsFirstOn(rs, key, i)
    ensures StartOn(map[], rs, key) == Some(Fresh(rs[i].capacity, rs[i].rate, rs[i].now))
    ensures TimesOn(rs, key) != [] && TimesOn(rs, key)[0] == rs[i].now
    decreases |rs|
  {
    var before := rs[..|rs| - 1];
    if i < |before| {
      FirstRequestSetsLimits(before, key, i);
    } else {
      NotAskedYet(before, key);
    }
  }

  lemma {:induction false} NotAskedYet(rs: seq<Request>, key: Key)
    requires forall j :: 0 <= j < |rs| ==> rs[j].key != key
    ensures StartOn(map[], rs, key) == None && TimesOn(rs, key) == []
    decreases |rs|
  {
    if rs != [] {
      NotAskedYet(rs[..|rs| - 1], key);
    }
  }

  /** A new limiter, any trace, any clock: on each key it admits in every window at most the capacity plus
      the rate times the positive clock steps, and no rule that does so has admitted more after any number
      of requests. Capacity and rate are those of the first request on the key. */
  lemma NewLimiterOnKey(rs: seq<Request>, key: Key, i: nat, rule: seq<bool>, m: nat)
    requires IsFirstOn(rs, key, i)
    ensures var times, decisions := TimesOn(rs, key), DecisionsOn(map[], rs, key);
            var capacity, rate := rs[i].capacity, rs[i].rate;
            && |decisions| == |times|
            && (capacity >= 0 && rate >= 0.0 ==> Admissible(capacity, rate, times, decisions))
            && (|rule| == |times| && m <= |times| && Admissible(capacity, rate, times, rule) ==>
                  Count(rule[..m]) <= Count(decisions[..m]))
  {
    hide Fresh, Admissible, Count, Calls;
    var times := TimesOn(rs, key);
    var capacity, rate := rs[i].capacity, rs[i].rate;
    FirstRequestSetsLimits(rs, key, i);
    KeysAreIndependent(map[], rs, key);
    hide StartOn, TimesOn, DecisionsOn, HandleAll;
    if capacity >= 0 && rate >= 0.0 {
      LimiterIsAdmissible(capacity, rate, times);
    }
    if |rule| == |times| && m <= |times| && Admissible(capacity, rate, times, rule) {
      NoRuleAdmitsMore(capacity, rate, times, rule, m);
    }
  }
}
