/** Executions of the protocol on a clock: arrivals read it, a hash can expire an hour after its last commit,
    and requests commit with some delay. Exactly when such an execution decides like the in-memory limiter. */
module RedisClock {
  import opened Content
  import opened TokenBucket
  import opened RateLimiter
  import opened RedisLimiter
  import opened RedisTheorems

  /** A protocol step and the time at which it happens. */
  datatype Timed = Timed(at: real, step: Step)

  function Untimed(timed: seq<Timed>): seq<Step> {
    if timed == [] then [] else Untimed(timed[..|timed| - 1]) + [timed[|timed| - 1].step]
  }

  function WorldAt(timed: seq<Timed>): World { AfterAll(Empty, Untimed(timed)) }

  lemma NextWorld(timed: seq<Timed>, last: Timed)
    ensures WorldAt(timed + [last]) == After(WorldAt(timed), last.step)
  {
    hide After;
    assert (timed + [last])[..|timed|] == timed;
    OneStep(Empty, Untimed(timed), last.step);
  }

  /** The EXEC of client `c` goes through. */
  predicate Commits(w: World, c: nat) { c < |w.clients| && w.clients[c].HasRead? && !w.clients[c].touched }

  /** When the key's hash was last written, which is when its hour began. */
  function LastCommit(timed: seq<Timed>, key: Key): Option<real> {
    if timed == [] then None
    else
      var before, last := timed[..|timed| - 1], timed[|timed| - 1];
      var w := WorldAt(before);
      if last.step.Exec? && Commits(w, last.step.c) && w.clients[last.step.c].r.key == key then Some(last.at)
      else LastCommit(before, key)
  }

  /** The time of the last step is not before `now`. */
  predicate HasComeTo(timed: seq<Timed>, now: real) { timed == [] || timed[|timed| - 1].at <= now }

  /** Requests bring the time of their arrival along, a hash expires not before its hour is over, and no
      request commits more than `lag` after it read the clock. */
  predicate IsOnTime(timed: seq<Timed>, last: Timed, lag: real) {
    var w := WorldAt(timed);
    match last.step
    case Arrive(r) => r.now == last.at
    case Exec(c, _) => Commits(w, c) ==> last.at - w.clients[c].r.now <= lag
    case Expire(key) =>
      key in w.hashes ==> LastCommit(timed, key).Some? && last.at >= LastCommit(timed, key).value + LIFETIME
    case _ => true
  }

  predicate OnClock(timed: seq<Timed>, lag: real) {
    timed == [] ||
    (var before, last := timed[..|timed| - 1], timed[|timed| - 1];
     OnClock(before, lag) && HasComeTo(before, last.at) && IsOnTime(before, last, lag))
  }

  lemma NextOnClock(timed: seq<Timed>, last: Timed, lag: real)
    ensures OnClock(timed + [last], lag) <==>
              OnClock(timed, lag) && HasComeTo(timed, last.at) && IsOnTime(timed, last, lag)
    ensures forall key :: LastCommit(timed + [last], key) ==
              var w := WorldAt(timed);
              if last.step.Exec? && Commits(w, last.step.c) && w.clients[last.step.c].r.key == key then Some(last.at)
              else LastCommit(timed, key)
    ensures HasComeTo(timed + [last], last.at)
  {
    hide IsOnTime, WorldAt, HasComeTo;
    assert (timed + [last])[..|timed|] == timed;
    assert HasComeTo(timed + [last], last.at) by { JustCome(timed, last); }
  }

  lemma JustCome(timed: seq<Timed>, last: Timed)
    ensures HasComeTo(timed + [last], last.at)
  {
  }

  // ---- Timestamps show the hour, less the lag ----

  ghost predicate HaveRead(w: World, now: real) {
    forall c :: 0 <= c < |w.clients| ==> w.clients[c].r.now <= now
  }

  /** Every client that is there has read the clock before now. */
  ghost predicate ClientsRead(timed: seq<Timed>) {
    if timed == [] then WorldAt(timed).clients == [] else HaveRead(WorldAt(timed), timed[|timed| - 1].at)
  }

  /** The last commit carries a timestamp that is not in its future, and a hash that is gone had its hour. */
  ghost predicate KeyOnClock(timed: seq<Timed>, key: Key, lag: real) {
    var w := WorldAt(timed);
    var times := CommitTimes(w.log, key);
    && ExpiresAfter(w.log, key, LIFETIME - lag)
    && (times != [] ==>
          && timed != [] && LastCommit(timed, key).Some?
          && times[|times| - 1] <= LastCommit(timed, key).value
          && (key !in w.hashes ==> LastCommit(timed, key).value + LIFETIME <= timed[|timed| - 1].at))
  }

  lemma ClientsKeepReadings(w: World, step: Step, since: real, now: real)
    requires HaveRead(w, since) && since <= now && (step.Arrive? ==> step.r.now == now)
    ensures HaveRead(After(w, step), now)
  {
    hide Decide;
  }

  lemma {:induction false} ReadingsAreThePast(timed: seq<Timed>, lag: real)
    requires OnClock(timed, lag)
    ensures ClientsRead(timed)
    decreases |timed|
  {
    if timed != [] {
      var before, last := timed[..|timed| - 1], timed[|timed| - 1];
      assert timed == before + [last];
      ReadingsAreThePast(before, lag);
      NextWorld(before, last);
      hide After, WorldAt, LastCommit;
      var since := if before == [] then last.at else before[|before| - 1].at;
      assert HaveRead(WorldAt(before), since) && since <= last.at;
      ClientsKeepReadings(WorldAt(before), last.step, since, last.at);
    }
  }

  lemma HashesAreSerial(timed: seq<Timed>)
    ensures WorldAt(timed).hashes == Serial(WorldAt(timed).log)
  {
    ProtocolLinearizes(Untimed(timed));
  }

  lemma CommitLast(before: seq<Event>, e: Event, key: Key)
    requires IsOn(e, key)
    ensures CommitTimes(before + [e], key) == CommitTimes(before, key) + [e.r.now]
    ensures CommitDecisions(before + [e], key) == CommitDecisions(before, key) + [e.allowed]
    ensures Count(CommitDecisions(before + [e], key))
            == Count(CommitDecisions(before, key)) + if e.allowed then 1 else 0
  {
    assert (before + [e])[..|before|] == before;
    CountLast(CommitDecisions(before, key), e.allowed);
    hide Count;
  }

  /** A commit on the key. */
  lemma CommitOnClock(timed: seq<Timed>, last: Timed, key: Key, lag: real)
    requires OnClock(timed + [last], lag) && ClientsRead(timed) && KeyOnClock(timed, key, lag)
    requires last.step.Exec? && Commits(WorldAt(timed), last.step.c)
    requires WorldAt(timed).clients[last.step.c].r.key == key
    ensures KeyOnClock(timed + [last], key, lag)
  {
    hide OnClock, Decide, Committed, After, WorldAt, CommitTimes, ExpiresAfter, LastCommit, Serial, AfterAll;
    var w := WorldAt(timed);
    NextWorld(timed, last);
    NextOnClock(timed, last, lag);
    HashesAreSerial(timed);
    CommitLeavesHash(w, last.step, key);
    ReadingOfCommit(timed, last, lag);
    hide IsOnTime, HasComeTo, ClientsRead, Commits;
    var e := Committed(w, last.step);
    CommitLast(w.log, e, key);
    ExpiresAfterLast(w.log, e, key, LIFETIME - lag);
  }

  /** A request that commits has read the clock before, by no more than the lag. */
  lemma ReadingOfCommit(timed: seq<Timed>, last: Timed, lag: real)
    requires ClientsRead(timed) && HasComeTo(timed, last.at) && IsOnTime(timed, last, lag)
    requires last.step.Exec? && Commits(WorldAt(timed), last.step.c)
    ensures timed != [] && timed[|timed| - 1].at <= last.at
    ensures last.at - lag <= WorldAt(timed).clients[last.step.c].r.now <= last.at
  {
    hide LastCommit;
  }

  /** What an EXEC that goes through adds to the log. */
  function Committed(w: World, step: Step): Event
    requires step.Exec? && Commits(w, step.c)
  {
    var client := w.clients[step.c];
    Commit(step.c, client.r, Decide(client.data, client.r).1, step.replied)
  }

  lemma CommitLeavesHash(w: World, step: Step, key: Key)
    requires step.Exec? && Commits(w, step.c) && w.clients[step.c].r.key == key
    ensures var v := After(w, step); v.log == w.log + [Committed(w, step)] && key in v.hashes
    ensures var e := Committed(w, step); IsOn(e, key) && e.r == w.clients[step.c].r
  {
    hide Decide;
  }

  lemma ExpiresAfterLast(before: seq<Event>, e: Event, key: Key, gap: real)
    ensures var times := CommitTimes(before, key);
            ExpiresAfter(before + [e], key, gap) <==>
              && ExpiresAfter(before, key, gap)
              && (IsOn(e, key) && key !in Serial(before) && times != [] ==> e.r.now - times[|times| - 1] >= gap)
  {
    assert (before + [e])[..|before|] == before;
    hide Serial, CommitTimes;
  }

  lemma ExpiryOnClock(timed: seq<Timed>, last: Timed, key: Key, lag: real)
    requires OnClock(timed + [last], lag) && KeyOnClock(timed, key, lag)
    requires last.step == Expire(key) && key in WorldAt(timed).hashes
    ensures KeyOnClock(timed + [last], key, lag)
  {
    NextWorld(timed, last);
    NextOnClock(timed, last, lag);
    ExpiryLeavesTimes(WorldAt(timed), key, LIFETIME - lag);
    hide After, WorldAt, CommitTimes, ExpiresAfter, OnClock, LastCommit;
  }

  lemma ExpiryLeavesTimes(w: World, key: Key, gap: real)
    requires key in w.hashes
    ensures var v := After(w, Expire(key));
            && key !in v.hashes
            && CommitTimes(v.log, key) == CommitTimes(w.log, key)
            && (ExpiresAfter(v.log, key, gap) <==> ExpiresAfter(w.log, key, gap))
  {
    hide TouchAll, Decide, Serial, CommitTimes, ExpiresAfter;
    OtherEventLeavesKey(w.log, Expiry(key), key, gap);
  }

  /** What a step that neither commits on the key nor expires it leaves alone. */
  lemma OtherStepsLeaveKey(w: World, step: Step, key: Key, gap: real)
    requires !(step.Exec? && Commits(w, step.c) && w.clients[step.c].r.key == key)
    requires !(step == Expire(key) && key in w.hashes)
    ensures var v := After(w, step);
            && CommitTimes(v.log, key) == CommitTimes(w.log, key)
            && (ExpiresAfter(v.log, key, gap) <==> ExpiresAfter(w.log, key, gap))
            && (key in v.hashes <==> key in w.hashes)
  {
    hide Decide, Serial, TouchAll, CommitTimes, ExpiresAfter;
    var v := After(w, step);
    if v.log != w.log {
      OtherEventLeavesKey(w.log, v.log[|w.log|], key, gap);
    }
  }

  lemma OtherEventLeavesKey(log: seq<Event>, e: Event, key: Key, gap: real)
    requires !IsOn(e, key)
    ensures CommitTimes(log + [e], key) == CommitTimes(log, key)
    ensures ExpiresAfter(log + [e], key, gap) <==> ExpiresAfter(log, key, gap)
  {
    hide Serial;
    assert (log + [e])[..|log|] == log;
  }

  lemma OtherOnClock(timed: seq<Timed>, last: Timed, key: Key, lag: real)
    requires OnClock(timed + [last], lag) && KeyOnClock(timed, key, lag)
    requires var w := WorldAt(timed);
             && !(last.step.Exec? && Commits(w, last.step.c) && w.clients[last.step.c].r.key == key)
             && !(last.step == Expire(key) && key in w.hashes)
    ensures KeyOnClock(timed + [last], key, lag)
  {
    NextWorld(timed, last);
    NextOnClock(timed, last, lag);
    OtherStepsLeaveKey(WorldAt(timed), last.step, key, LIFETIME - lag);
    hide After, WorldAt, CommitTimes, ExpiresAfter, IsOnTime, OnClock, LastCommit;
  }

  /** On the clock, a commit that finds the hash of its key expired carries a timestamp at least an hour less
      the lag after that of the last commit. */
  lemma {:induction false} ClockShowsTheHour(timed: seq<Timed>, key: Key, lag: real)
    requires OnClock(timed, lag)
    ensures KeyOnClock(timed, key, lag)
    decreases |timed|
  {
    hide KeyOnClock, IsOnTime, HasComeTo, ClientsRead, WorldAt, LastCommit;
    if timed == [] {
      NothingYet(key, lag);
    } else {
      var before, last := timed[..|timed| - 1], timed[|timed| - 1];
      assert timed == before + [last];
      ClockShowsTheHour(before, key, lag);
      ReadingsAreThePast(before, lag);
      hide OnClock;
      var w := WorldAt(before);
      if last.step.Exec? && Commits(w, last.step.c) && w.clients[last.step.c].r.key == key {
        CommitOnClock(before, last, key, lag);
      } else if last.step == Expire(key) && key in w.hashes {
        ExpiryOnClock(before, last, key, lag);
      } else {
        OtherOnClock(before, last, key, lag);
      }
    }
  }

  lemma NothingYet(key: Key, lag: real)
    ensures KeyOnClock([], key, lag)
  {
    assert WorldAt([]) == Empty;
  }

  // ---- An execution in which the expiry is seen ----

  /** `n` requests arrive at once. */
  function Arrivals(timed: seq<Timed>, r: Request, n: nat): seq<Timed> {
    if n == 0 then timed else Arrivals(timed, r, n - 1) + [Timed(r.now, Arrive(r))]
  }

  /** One round of client `c`, without interference. */
  function RoundAt(at: real, c: nat): seq<Timed> {
    [Timed(at, Watch(c)), Timed(at, Read(c)), Timed(at, Exec(c, true))]
  }

  /** The clients `c` to `c + n - 1`, one after the other. */
  function Rounds(timed: seq<Timed>, at: real, c: nat, n: nat): seq<Timed> {
    if n == 0 then timed else Rounds(timed, at, c, n - 1) + RoundAt(at, c + n - 1)
  }

  /** The clients from `c` to `d` are at the start of their loop with the request. */
  ghost predicate AreLooping(w: World, c: nat, d: nat, r: Request) {
    d <= |w.clients| && forall i :: c <= i < d ==> w.clients[i] == Looping(r)
  }

  lemma {:induction false} ArrivalsAreOnClock(timed: seq<Timed>, r: Request, n: nat, lag: real)
    requires OnClock(timed, lag) && HasComeTo(timed, r.now)
    ensures var after := Arrivals(timed, r, n);
            && OnClock(after, lag) && HasComeTo(after, r.now)
            && WorldAt(after).log == WorldAt(timed).log && WorldAt(after).hashes == WorldAt(timed).hashes
            && |WorldAt(after).clients| == |WorldAt(timed).clients| + n
            && AreLooping(WorldAt(after), |WorldAt(timed).clients|, |WorldAt(timed).clients| + n, r)
            && forall key :: LastCommit(after, key) == LastCommit(timed, key)
    decreases n
  {
    hide Decide, TouchAll, WorldAt, OnClock, LastCommit;
    if n > 0 {
      var before, last := Arrivals(timed, r, n - 1), Timed(r.now, Arrive(r));
      ArrivalsAreOnClock(timed, r, n - 1, lag);
      NextWorld(before, last);
      NextOnClock(before, last, lag);
    }
  }

  ghost predicate OthersKeepLooping(w: World, v: World, c: nat) {
    && |v.clients| == |w.clients|
    && forall d, r :: 0 <= d < |w.clients| && d != c && w.clients[d] == Looping(r) ==> v.clients[d] == Looping(r)
  }

  /** What one undisturbed round does to the world. */
  lemma RoundCommits(w: World, c: nat, r: Request)
    requires c < |w.clients| && w.clients[c] == Looping(r)
    ensures var a := After(w, Watch(c));
            var b := After(a, Read(c));
            var v := After(b, Exec(c, true));
            && a.hashes == b.hashes == w.hashes && !Commits(w, c)
            && Commits(b, c) && b.clients[c].r == r
            && v.log == w.log + [Commit(c, r, Decide(Lookup(w.hashes, r.key), r).1, true)]
            && OthersKeepLooping(w, v, c)
  {
    hide Decide;
  }

  lemma RoundIsOnClock(timed: seq<Timed>, at: real, c: nat, r: Request, lag: real)
    requires OnClock(timed, lag) && HasComeTo(timed, at) && at - r.now <= lag
    requires c < |WorldAt(timed).clients| && WorldAt(timed).clients[c] == Looping(r)
    ensures var after := timed + RoundAt(at, c);
            var w, v := WorldAt(timed), WorldAt(after);
            && OnClock(after, lag) && HasComeTo(after, at)
            && v.log == w.log + [Commit(c, r, Decide(Lookup(w.hashes, r.key), r).1, true)]
            && OthersKeepLooping(w, v, c)
            && LastCommit(after, r.key) == Some(at)
  {
    var one, two, three := Timed(at, Watch(c)), Timed(at, Read(c)), Timed(at, Exec(c, true));
    RoundCommits(WorldAt(timed), c, r);
    NextWorld(timed, one);
    NextWorld(timed + [one], two);
    NextWorld(timed + [one] + [two], three);
    NextOnClock(timed, one, lag);
    NextOnClock(timed + [one], two, lag);
    NextOnClock(timed + [one] + [two], three, lag);
    hide After, WorldAt, OnClock, LastCommit, HasComeTo, Commits;
    assert timed + [one] + [two] + [three] == timed + RoundAt(at, c);
  }

  /** A request with the timestamp of the last one takes one of the tokens that are left. */
  lemma TakesOne(e: Option<Entry>, r: Request, left: int)
    requires 1 <= left <= r.capacity
    requires e == None ==> left == r.capacity
    requires e.Some? ==> e.value == Entry(left as real, r.now)
    ensures Decide(e, r) == (Entry((left - 1) as real, r.now), true)
  {
    hide Gain;
    GainOfNothing(r.rate);
  }

  /** What `n` requests of a burst leave behind in the log. */
  ghost predicate BurstDone(log: seq<Event>, after: seq<Event>, r: Request, n: nat) {
    && FixedLimits(after, r.key, r.capacity, r.rate)
    && CommitTimes(after, r.key) == CommitTimes(log, r.key) + seq(n, _ => r.now)
    && Count(CommitDecisions(after, r.key)) == Count(CommitDecisions(log, r.key)) + n
    && Lookup(Serial(after), r.key) == if n == 0 then None else Some(Entry((r.capacity - n) as real, r.now))
  }

  lemma BurstStep(log: seq<Event>, before: seq<Event>, r: Request, n: nat, c: nat)
    requires BurstDone(log, before, r, n) && n < r.capacity
    ensures BurstDone(log, before + [Commit(c, r, Decide(Lookup(Serial(before), r.key), r).1, true)], r, n + 1)
  {
    hide Decide, Serial, CommitTimes, CommitDecisions, Count;
    TakesOne(Lookup(Serial(before), r.key), r, r.capacity - n);
    var e := Commit(c, r, Decide(Lookup(Serial(before), r.key), r).1, true);
    SerialLast(before, e);
    CommitLast(before, e, r.key);
    assert FixedLimits(before + [e], r.key, r.capacity, r.rate);
    hide FixedLimits;
    var times := CommitTimes(log, r.key);
    assert times + seq(n + 1, _ => r.now) == (times + seq(n, _ => r.now)) + [r.now];
  }

  /** A burst of up to `capacity` requests on a key without a hash is admitted in full, however long after
      its arrival it is executed. */
  lemma {:induction false} BurstIsAdmitted(timed: seq<Timed>, at: real, c: nat, r: Request, n: nat, m: nat, lag: real)
    requires n <= m && n <= r.capacity && OnClock(timed, lag) && HasComeTo(timed, at) && at - r.now <= lag
    requires AreLooping(WorldAt(timed), c, c + m, r)
    requires var log := WorldAt(timed).log; BurstDone(log, log, r, 0)
    ensures var after := Rounds(timed, at, c, n);
            && OnClock(after, lag) && HasComeTo(after, at)
            && |WorldAt(after).clients| == |WorldAt(timed).clients|
            && AreLooping(WorldAt(after), c + n, c + m, r)
            && BurstDone(WorldAt(timed).log, WorldAt(after).log, r, n)
            && (n > 0 ==> LastCommit(after, r.key) == Some(at))
    decreases n
  {
    hide BurstDone, Decide, WorldAt, OnClock, LastCommit, HasComeTo;
    if n > 0 {
      var before := Rounds(timed, at, c, n - 1);
      BurstIsAdmitted(timed, at, c, r, n - 1, m, lag);
      RoundIsOnClock(before, at, c + n - 1, r, lag);
      HashesAreSerial(before);
      BurstStep(WorldAt(timed).log, WorldAt(before).log, r, n - 1, c + n - 1);
    }
  }

  /** Two full bursts: the first arrives and is executed at time zero, the second arrives `gap` later and is
      executed when the hour is over and the hash has expired. */
  function TwoBursts(key: Key, capacity: nat, rate: real, gap: real): seq<Timed> {
    var first := Rounds(Arrivals([], Request(key, capacity, rate, 0.0), capacity), 0.0, 0, capacity);
    var waiting := Arrivals(first, Request(key, capacity, rate, gap), capacity);
    Rounds(waiting + [Timed(LIFETIME, Expire(key))], LIFETIME, capacity, capacity)
  }

  lemma FirstBurst(r: Request, lag: real)
    requires r.capacity >= 1 && r.now == 0.0 && lag >= 0.0
    ensures var first := Rounds(Arrivals([], r, r.capacity), 0.0, 0, r.capacity);
            && OnClock(first, lag) && HasComeTo(first, 0.0)
            && |WorldAt(first).clients| == r.capacity
            && BurstDone([], WorldAt(first).log, r, r.capacity)
            && LastCommit(first, r.key) == Some(0.0)
  {
    assert WorldAt([]) == Empty;
    assert BurstDone([], [], r, 0) by { assert seq(0, _ => 0.0) == []; }
    assert OnClock([], lag) && HasComeTo([], 0.0);
    hide WorldAt, OnClock, LastCommit, BurstDone, HasComeTo, AreLooping;
    ArrivalsAreOnClock([], r, r.capacity, lag);
    BurstIsAdmitted(Arrivals([], r, r.capacity), 0.0, 0, r, r.capacity, r.capacity, lag);
  }

  /** The hash expires while a second burst is waiting. */
  lemma ExpiresMeanwhile(first: seq<Timed>, r: Request, s: Request, lag: real)
    requires r.capacity >= 1 && s == r.(now := s.now) && 0.0 <= s.now <= LIFETIME && r.now == 0.0
    requires OnClock(first, lag) && HasComeTo(first, 0.0) && LastCommit(first, r.key) == Some(0.0)
    requires |WorldAt(first).clients| == r.capacity && BurstDone([], WorldAt(first).log, r, r.capacity)
    ensures var after := Arrivals(first, s, s.capacity) + [Timed(LIFETIME, Expire(r.key))];
            && OnClock(after, lag) && HasComeTo(after, LIFETIME)
            && WorldAt(after).log == WorldAt(first).log + [Expiry(r.key)]
            && AreLooping(WorldAt(after), r.capacity, r.capacity + r.capacity, s)
  {
    hide WorldAt, OnClock, LastCommit, BurstDone, AreLooping;
    assert HasComeTo(first, s.now);
    ArrivalsAreOnClock(first, s, s.capacity, lag);
    var waiting, last := Arrivals(first, s, s.capacity), Timed(LIFETIME, Expire(r.key));
    HashesAreSerial(first);
    BurstLeavesHash(WorldAt(first).log, r);
    assert HasComeTo(waiting, LIFETIME);
    hide HasComeTo, Arrivals;
    NextWorld(waiting, last);
    NextOnClock(waiting, last, lag);
    ExpiryLeavesLooping(WorldAt(waiting), r.key, r.capacity, r.capacity + r.capacity, s);
  }

  lemma BurstLeavesHash(log: seq<Event>, r: Request)
    requires r.capacity >= 1 && BurstDone([], log, r, r.capacity)
    ensures r.key in Serial(log)
  {
  }

  lemma ExpiryLeavesLooping(w: World, key: Key, c: nat, d: nat, r: Request)
    requires key in w.hashes && AreLooping(w, c, d, r)
    ensures var v := After(w, Expire(key)); v.log == w.log + [Expiry(key)] && AreLooping(v, c, d, r)
  {
  }

  lemma SecondBurstIsReady(log: seq<Event>, r: Request, s: Request)
    requires r.capacity >= 0 && BurstDone([], log, r, r.capacity) && s == r.(now := s.now)
    ensures var after := log + [Expiry(r.key)];
            && BurstDone(after, after, s, 0)
            && CommitTimes(after, r.key) == CommitTimes(log, r.key)
            && Count(CommitDecisions(after, r.key)) == Count(CommitDecisions(log, r.key))
  {
    assert (log + [Expiry(r.key)])[..|log|] == log;
    SerialLast(log, Expiry(r.key));
    assert CommitTimes(log, r.key) + seq(0, _ => s.now) == CommitTimes(log, r.key);
  }

  lemma TwoBurstsAreAdmitted(key: Key, capacity: nat, rate: real, gap: real)
    requires capacity >= 1 && 0.0 <= gap <= LIFETIME
    ensures var timed := TwoBursts(key, capacity, rate, gap);
            var log := WorldAt(timed).log;
            && OnClock(timed, LIFETIME - gap) && FixedLimits(log, key, capacity, rate)
            && CommitTimes(log, key) == seq(capacity, _ => 0.0) + seq(capacity, _ => gap)
            && Count(CommitDecisions(log, key)) == 2 * capacity
  {
    hide WorldAt, OnClock, LastCommit, HasComeTo, AreLooping, Arrivals, Rounds, FixedLimits, Serial;
    assert CommitTimes([], key) == [] && Count(CommitDecisions([], key)) == 0;
    hide CommitTimes, CommitDecisions, Count;
    var r, s := Request(key, capacity, rate, 0.0), Request(key, capacity, rate, gap);
    var lag := LIFETIME - gap;
    var first := Rounds(Arrivals([], r, capacity), 0.0, 0, capacity);
    FirstBurst(r, lag);
    ExpiresMeanwhile(first, r, s, lag);
    SecondBurstIsReady(WorldAt(first).log, r, s);
    var waiting := Arrivals(first, s, capacity) + [Timed(LIFETIME, Expire(key))];
    BurstIsAdmitted(waiting, LIFETIME, capacity, s, capacity, capacity, lag);
    assert [] + seq(capacity, _ => 0.0) == seq(capacity, _ => 0.0);
  }

  /** The in-memory bucket does not admit all of two full bursts that the gap does not refill it between. */
  lemma BucketRefusesSome(capacity: nat, rate: real, gap: real, times: seq<real>)
    requires capacity >= 1 && gap >= 0.0 && !RefillsWithin(capacity, rate, gap)
    requires times == seq(capacity, _ => 0.0) + seq(capacity, _ => gap)
    ensures Count(Decisions(Fresh(capacity, rate, times[0]), times)) < 2 * capacity
  {
    var b := Fresh(capacity, rate, times[0]);
    assert Gain(Max(0.0, rate), gap) < capacity as real;
    hide Gain;
    WindowBound(b, times, 0, |times|);
    assert Decisions(b, times)[0..|times|] == Decisions(b, times);
    assert times[1..|times|] == times[1..];
    OrderedElapsed(times[0], times[1..]);
    assert Elapsed(times[0], times[1..]) == gap;
  }

  /** When a bucket left idle for an hour less the lag is not full again, there is an execution with that
      lag in which every request of two full bursts is let through; the in-memory bucket does not admit all. */
  lemma ExpiryIsVisible(key: Key, capacity: nat, rate: real, gap: real)
    requires 0.0 <= gap <= LIFETIME && !RefillsWithin(capacity, rate, gap)
    ensures var timed := TwoBursts(key, capacity, rate, gap);
            && OnClock(timed, LIFETIME - gap) && FixedLimits(WorldAt(timed).log, key, capacity, rate)
            && !Agrees(WorldAt(timed).log, key, capacity, rate)
  {
    assert capacity >= 1;
    TwoBurstsAreAdmitted(key, capacity, rate, gap);
    hide Serial, TwoBursts, OnClock, WorldAt, FixedLimits, Gain, CommitTimes, CommitDecisions, Decisions;
    BucketRefusesSome(capacity, rate, gap, CommitTimes(WorldAt(TwoBursts(key, capacity, rate, gap)).log, key));
  }

  lemma {:induction false} LessLagIsOnClock(timed: seq<Timed>, less: real, lag: real)
    requires OnClock(timed, less) && less <= lag
    ensures OnClock(timed, lag)
    decreases |timed|
  {
    if timed != [] {
      LessLagIsOnClock(timed[..|timed| - 1], less, lag);
      hide OnClock, WorldAt, LastCommit;
    }
  }

  // ---- Exactly when ----

  /** In every execution on the clock with fixed limits and at most the lag the limiter decides on the key
      like the in-memory bucket, if and only if a bucket left idle for an hour less the lag is full again,
      or admits nothing at all. */
  lemma ClockedAgreementExactlyWhen(key: Key, capacity: int, rate: real, lag: real)
    requires lag >= 0.0
    ensures RefillsWithin(capacity, rate, LIFETIME - lag) <==>
              forall timed :: OnClock(timed, lag) && FixedLimits(WorldAt(timed).log, key, capacity, rate) ==>
                Agrees(WorldAt(timed).log, key, capacity, rate)
  {
    hide FixedLimits, Agrees, OnClock, TwoBursts;
    if RefillsWithin(capacity, rate, LIFETIME - lag) {
      forall timed | OnClock(timed, lag) && FixedLimits(WorldAt(timed).log, key, capacity, rate)
        ensures Agrees(WorldAt(timed).log, key, capacity, rate)
      {
        ClockedAgreement(timed, key, capacity, rate, lag);
      }
    } else {
      var gap := if lag <= LIFETIME then LIFETIME - lag else 0.0;
      assert !RefillsWithin(capacity, rate, gap);
      ExpiryIsVisible(key, capacity, rate, gap);
      LessLagIsOnClock(TwoBursts(key, capacity, rate, gap), LIFETIME - gap, lag);
    }
  }

  lemma ClockedAgreement(timed: seq<Timed>, key: Key, capacity: int, rate: real, lag: real)
    requires OnClock(timed, lag) && FixedLimits(WorldAt(timed).log, key, capacity, rate)
    requires RefillsWithin(capacity, rate, LIFETIME - lag)
    ensures Agrees(WorldAt(timed).log, key, capacity, rate)
  {
    hide FixedLimits, Agrees, OnClock, AfterAll, RefillsWithin;
    ClockShowsTheHour(timed, key, lag);
    ProtocolLinearizes(Untimed(timed));
    ExpiryIsInvisible(WorldAt(timed).log, key, capacity, rate, LIFETIME - lag);
  }

  /** Fixed limits, and timestamps that show the full hour. */
  ghost predicate IsPunctual(log: seq<Event>, key: Key, capacity: int, rate: real) {
    FixedLimits(log, key, capacity, rate) && ExpiresOnTime(log, key)
  }

  /** The same without a clock, for timestamps that show the full hour: agreement in all such executions if
      and only if a bucket left idle for an hour is full again, or admits nothing at all. */
  lemma ExpiryInvisibleExactlyWhen(key: Key, capacity: int, rate: real)
    ensures RefillsWithin(capacity, rate, LIFETIME) <==>
              forall steps :: IsPunctual(AfterAll(Empty, steps).log, key, capacity, rate) ==>
                Agrees(AfterAll(Empty, steps).log, key, capacity, rate)
  {
    hide AfterAll, FixedLimits, Agrees, SerialDecisions, OnClock, TwoBursts;
    if RefillsWithin(capacity, rate, LIFETIME) {
      forall steps | IsPunctual(AfterAll(Empty, steps).log, key, capacity, rate)
        ensures Agrees(AfterAll(Empty, steps).log, key, capacity, rate)
      {
        ProtocolLinearizes(steps);
        ExpiryIsInvisible(AfterAll(Empty, steps).log, key, capacity, rate, LIFETIME);
      }
    } else {
      var timed := TwoBursts(key, capacity, rate, LIFETIME);
      ExpiryIsVisible(key, capacity, rate, LIFETIME);
      ClockShowsTheHour(timed, key, 0.0);
      assert ExpiresOnTime(AfterAll(Empty, Untimed(timed)).log, key);
    }
  }

  // ---- The lanes of the gateway ----

  datatype Lane = Bytes | BundleDownload | BundleCreate | EvidenceCreate | ArtifactUpload | Meta

  /** The default limits of each lane, without overrides from the environment. */
  function LaneLimits(lane: Lane): (int, real) {
    match lane
    case Bytes => (30, 0.5)
    case BundleDownload => (10, 0.1)
    case BundleCreate => (5, 0.05)
    case EvidenceCreate => (5, 0.05)
    case ArtifactUpload => (10, 0.1)
    case Meta => (120, 2.0)
  }

  /** How late a request of the lane may commit without the expiry being noticed. */
  function MostLag(lane: Lane): real {
    match lane
    case Bytes => 3540.0
    case Meta => 3540.0
    case _ => 3500.0
  }

  /** On every default lane: the Redis limiter and the in-memory limiter make the same decisions in all
      executions on the clock with at most the lag, if and only if the lag is at most that of the lane. */
  lemma DefaultLanesHideExpiryExactlyWhen(key: Key, lane: Lane, lag: real)
    requires lag >= 0.0
    ensures var (capacity, rate) := LaneLimits(lane);
            lag <= MostLag(lane) <==>
              forall timed :: OnClock(timed, lag) && FixedLimits(WorldAt(timed).log, key, capacity, rate) ==>
                Agrees(WorldAt(timed).log, key, capacity, rate)
  {
    hide FixedLimits, Agrees, OnClock, WorldAt;
    var (capacity, rate) := LaneLimits(lane);
    ClockedAgreementExactlyWhen(key, capacity, rate, lag);
    assert RefillsWithin(capacity, rate, LIFETIME - lag) <==> lag <= MostLag(lane);
  }

  /** How many requests of a tenant a lane lets through at one instant, when it has not been used. */
  function BurstOf(lane: Lane): nat {
    match lane
    case Bytes => 30
    case BundleDownload => 10
    case BundleCreate => 5
    case EvidenceCreate => 5
    case ArtifactUpload => 10
    case Meta => 120
  }

  /** How many requests of a tenant a lane lets through in an hour at most. */
  function HourlyOf(lane: Lane): nat {
    match lane
    case Bytes => 1830
    case BundleDownload => 370
    case BundleCreate => 185
    case EvidenceCreate => 185
    case ArtifactUpload => 370
    case Meta => 7320
  }

  /** A bucket with `tokens` left, asked once more at the same instant. */
  lemma CallAtOneInstant(capacity: nat, rate: real, now: real, tokens: nat)
    requires tokens <= capacity
    ensures Call(Bucket(capacity, rate, tokens as real, now), now)
            == (Bucket(capacity, rate, (if tokens > 0 then tokens - 1 else 0) as real, now), tokens > 0)
  {
    hide Gain;
    GainOfNothing(rate);
  }

  lemma NoCalls(b: Bucket)
    ensures Calls(b, []).0 == b && Count(Decisions(b, [])) == 0
  {
  }

  lemma OneMoreCall(b: Bucket, times: seq<real>, now: real)
    ensures var (after, allowed) := Call(Calls(b, times).0, now);
            && Calls(b, times + [now]).0 == after
            && Count(Decisions(b, times + [now])) == Count(Decisions(b, times)) + (if allowed then 1 else 0)
  {
    hide Call, Count;
    assert (times + [now])[..|times|] == times;
    CountLast(Decisions(b, times), Call(Calls(b, times).0, now).1);
  }

  lemma {:induction false} AtOneInstant(capacity: nat, rate: real, now: real, n: nat)
    ensures var admitted := if n < capacity then n else capacity;
            var b, times := Fresh(capacity, rate, now), seq(n, _ => now);
            && Calls(b, times).0 == Bucket(capacity, rate, (capacity - admitted) as real, now)
            && Count(Decisions(b, times)) == admitted
    decreases n
  {
    hide Call, Calls, Decisions, Count;
    var b := Fresh(capacity, rate, now);
    if n == 0 {
      NoCalls(b);
      assert seq(n, _ => now) == [];
    } else {
      var before := seq(n - 1, _ => now);
      AtOneInstant(capacity, rate, now, n - 1);
      CallAtOneInstant(capacity, rate, now, if n - 1 < capacity then capacity - (n - 1) else 0);
      OneMoreCall(b, before, now);
      assert seq(n, _ => now) == before + [now];
    }
  }

  /** The default lanes in numbers: of `n` requests at one instant on an unused lane as many as the burst
      are let through and no more; and in any window of requests whose positive clock steps add up to an
      hour, at most the hourly number. */
  lemma LanesInNumbers(lane: Lane, now: real, n: nat, times: seq<real>, i: nat, j: nat)
    requires i <= j < |times| && Between(times, i, j) <= 3600.0
    ensures var (capacity, rate) := LaneLimits(lane);
            && Count(Decisions(Fresh(capacity, rate, now), seq(n, _ => now)))
               == (if n < BurstOf(lane) then n else BurstOf(lane))
            && Count(Decisions(Fresh(capacity, rate, times[0]), times)[i..j + 1]) <= HourlyOf(lane)
  {
    hide Decisions, Count, Elapsed;
    var (capacity, rate) := LaneLimits(lane);
    AtOneInstant(capacity, rate, now, n);
    LimiterIsAdmissible(capacity, rate, times);
    assert rate * Between(times, i, j) <= rate * 3600.0;
  }
}
