/** `RedisRateLimiter`: the same bucket kept in a shared Redis hash, updated by optimistic
    WATCH / HGETALL / MULTI / EXEC rounds of many clients, with hashes that expire. */
module RedisLimiter {
  import opened Content
  import opened TokenBucket
  import opened RateLimiter

  datatype Entry = Entry(tokens: real, updatedAt: real)

  /** A stored hash, or none, read as a bucket with the limits the request brings along. */
  function AsBucket(e: Option<Entry>, r: Request): Bucket {
    match e
    case None => Fresh(r.capacity, r.rate, r.now)
    case Some(e) => Bucket(r.capacity, r.rate, e.tokens, e.updatedAt)
  }

  function Decide(e: Option<Entry>, r: Request): (Entry, bool) {
    var (b, allowed) := Call(AsBucket(e, r), r.now);
    (Entry(b.tokens, b.updatedAt), allowed)
  }

  function Lookup(hashes: map<Key, Entry>, key: Key): Option<Entry> {
    if key in hashes then Some(hashes[key]) else None
  }

  /** Where a client is in its loop. `r.now` is read once, before the loop. `touched` says whether the
      watched key has been written or deleted since WATCH, which makes EXEC fail. */
  datatype Client =
    | Looping(r: Request)
    | Watching(r: Request, touched: bool)
    | HasRead(r: Request, data: Option<Entry>, touched: bool)
    | Finished(r: Request, allowed: bool)

  /** What happens to the hashes, in order. A commit whose reply is lost makes its client try again. */
  datatype Event =
    | Commit(client: nat, r: Request, allowed: bool, replied: bool)
    | Expiry(key: Key)

  datatype World = World(hashes: map<Key, Entry>, clients: seq<Client>, log: seq<Event>)

  datatype Step =
    | Arrive(r: Request)
    | Watch(c: nat)
    | Read(c: nat)
    | Exec(c: nat, replied: bool)
    | Fault(c: nat)
    | Expire(key: Key)

  function Touched(c: Client, key: Key): Client {
    match c
    case Watching(r, _) => if r.key == key then Watching(r, true) else c
    case HasRead(r, data, _) => if r.key == key then HasRead(r, data, true) else c
    case _ => c
  }

  function TouchAll(clients: seq<Client>, key: Key): (result: seq<Client>)
    ensures |result| == |clients|
  {
    seq(|clients|, i requires 0 <= i < |clients| => Touched(clients[i], key))
  }

  function After(w: World, step: Step): World {
    match step
    case Arrive(r) => w.(clients := w.clients + [Looping(r)])
    case Watch(c) =>
      if c < |w.clients| && w.clients[c].Looping? then
        w.(clients := w.clients[c := Watching(w.clients[c].r, false)])
      else w
    case Read(c) =>
      if c < |w.clients| && w.clients[c].Watching? then
        var Watching(r, touched) := w.clients[c];
        w.(clients := w.clients[c := HasRead(r, Lookup(w.hashes, r.key), touched)])
      else w
    case Exec(c, replied) =>
      if c < |w.clients| && w.clients[c].HasRead? then
        var HasRead(r, data, touched) := w.clients[c];
        if touched then w.(clients := w.clients[c := Looping(r)])
        else
          var (entry, allowed) := Decide(data, r);
          World(w.hashes[r.key := entry],
                TouchAll(w.clients, r.key)[c := if replied then Finished(r, allowed) else Looping(r)],
                w.log + [Commit(c, r, allowed, replied)])
      else w
    case Fault(c) =>
      if c < |w.clients| && !w.clients[c].Finished? then w.(clients := w.clients[c := Looping(w.clients[c].r)]) else w
    case Expire(key) =>
      if key in w.hashes then World(w.hashes - {key}, TouchAll(w.clients, key), w.log + [Expiry(key)]) else w
  }

  function AfterAll(w: World, steps: seq<Step>): World {
    if steps == [] then w else After(AfterAll(w, steps[..|steps| - 1]), steps[|steps| - 1])
  }

  const Empty: World := World(map[], [], [])

  // ---- The serial limiter ----

  /** The hashes after the logged events, handled one at a time by a single client. */
  function Serial(log: seq<Event>): map<Key, Entry> {
    if log == [] then map[]
    else
      var before := Serial(log[..|log| - 1]);
      match log[|log| - 1]
      case Commit(_, r, _, _) => before[r.key := Decide(Lookup(before, r.key), r).0]
      case Expiry(key) => before - {key}
  }

  /** Every logged decision is the one the serial limiter makes at that point. */
  ghost predicate SerialDecisions(log: seq<Event>) {
    log == [] ||
    (var before := log[..|log| - 1];
     && SerialDecisions(before)
     && (log[|log| - 1].Commit? ==>
           log[|log| - 1].allowed == Decide(Lookup(Serial(before), log[|log| - 1].r.key), log[|log| - 1].r).1))
  }

  /** The commits of client `c` whose reply reached it. */
  function Replies(log: seq<Event>, c: nat): seq<Event> {
    if log == [] then []
    else
      var before := Replies(log[..|log| - 1], c);
      var e := log[|log| - 1];
      if e.Commit? && e.client == c && e.replied then before + [e] else before
  }

  ghost predicate ClientSound(w: World, c: nat, client: Client) {
    match client
    case Finished(r, allowed) => Replies(w.log, c) == [Commit(c, r, allowed, true)]
    case HasRead(r, data, touched) => (!touched ==> data == Lookup(w.hashes, r.key)) && Replies(w.log, c) == []
    case _ => Replies(w.log, c) == []
  }

  ghost predicate Inv(w: World) {
    && w.hashes == Serial(w.log)
    && SerialDecisions(w.log)
    && (forall c :: 0 <= c < |w.clients| ==> ClientSound(w, c, w.clients[c]))
    && (forall e :: e in w.log && e.Commit? ==> e.client < |w.clients|)
  }

  lemma RepliesLast(log: seq<Event>, e: Event, c: nat)
    ensures Replies(log + [e], c) ==
      (if e.Commit? && e.client == c && e.replied then Replies(log, c) + [e] else Replies(log, c))
  {
    assert (log + [e])[..|log|] == log;
  }

  lemma SerialLast(log: seq<Event>, e: Event)
    ensures Serial(log + [e]) ==
      (if e.Commit? then Serial(log)[e.r.key := Decide(Lookup(Serial(log), e.r.key), e.r).0] else Serial(log) - {e.key})
    ensures SerialDecisions(log + [e]) <==>
      SerialDecisions(log) && (e.Commit? ==> e.allowed == Decide(Lookup(Serial(log), e.r.key), e.r).1)
  {
    hide Call;
    assert (log + [e])[..|log|] == log;
  }

  lemma {:induction false} StrangersHaveNoReplies(log: seq<Event>, c: nat)
    requires forall e :: e in log && e.Commit? ==> e.client != c
    ensures Replies(log, c) == []
    decreases |log|
  {
    if log != [] {
      StrangersHaveNoReplies(log[..|log| - 1], c);
      assert log[|log| - 1] in log;
    }
  }

  /** One more event on the log and a touch on its key keep every other client sound. */
  lemma OthersStaySound(w: World, v: World, e: Event, key: Key, c: nat)
    requires Inv(w) && c < |w.clients| && v.log == w.log + [e]
    requires e.Commit? ==> e.client != c
    requires forall k :: k != key ==> Lookup(v.hashes, k) == Lookup(w.hashes, k)
    ensures ClientSound(v, c, Touched(w.clients[c], key))
  {
    RepliesLast(w.log, e, c);
    assert ClientSound(w, c, w.clients[c]);
  }

  /** A commit of client `c` keeps every client sound. */
  lemma CommitKeepsClients(w: World, v: World, c: nat, e: Event)
    requires Inv(w) && c < |w.clients| && Replies(w.log, c) == []
    requires e.Commit? && e.client == c && v.log == w.log + [e]
    requires v.clients ==
             TouchAll(w.clients, e.r.key)[c := if e.replied then Finished(e.r, e.allowed) else Looping(e.r)]
    requires forall k :: k != e.r.key ==> Lookup(v.hashes, k) == Lookup(w.hashes, k)
    ensures forall d :: 0 <= d < |v.clients| ==> ClientSound(v, d, v.clients[d])
  {
    hide Serial, SerialDecisions, Replies, Lookup;
    forall d | 0 <= d < |v.clients| ensures ClientSound(v, d, v.clients[d]) {
      if d == c {
        RepliesLast(w.log, e, c);
      } else {
        OthersStaySound(w, v, e, e.r.key, d);
      }
    }
  }

  lemma ExecKeepsInv(w: World, c: nat, replied: bool)
    requires Inv(w)
    ensures Inv(After(w, Exec(c, replied)))
  {
    hide Decide, Serial, SerialDecisions, Replies;
    var v := After(w, Exec(c, replied));
    if c < |w.clients| && w.clients[c].HasRead? {
      assert ClientSound(w, c, w.clients[c]);
      var HasRead(r, data, touched) := w.clients[c];
      if touched {
        forall d | 0 <= d < |v.clients| ensures ClientSound(v, d, v.clients[d]) {
          assert ClientSound(w, d, w.clients[d]);
        }
      } else {
        var e := Commit(c, r, Decide(data, r).1, replied);
        SerialLast(w.log, e);
        CommitKeepsClients(w, v, c, e);
      }
    }
  }

  lemma ExpireKeepsInv(w: World, key: Key)
    requires Inv(w)
    ensures Inv(After(w, Expire(key)))
  {
    var v := After(w, Expire(key));
    if key in w.hashes {
      SerialLast(w.log, Expiry(key));
      forall d | 0 <= d < |v.clients| ensures ClientSound(v, d, v.clients[d]) {
        OthersStaySound(w, v, Expiry(key), key, d);
      }
    }
  }

  lemma StepKeepsInv(w: World, step: Step)
    requires Inv(w)
    ensures Inv(After(w, step))
  {
    hide Call;
    match step
    case Exec(c, replied) => ExecKeepsInv(w, c, replied);
    case Expire(key) => ExpireKeepsInv(w, key);
    case Arrive(r) =>
      StrangersHaveNoReplies(w.log, |w.clients|);
      var v := After(w, step);
      forall d | 0 <= d < |v.clients| ensures ClientSound(v, d, v.clients[d]) {
        assert d < |w.clients| ==> ClientSound(w, d, w.clients[d]);
      }
    case _ =>
      var v := After(w, step);
      forall d | 0 <= d < |v.clients| ensures ClientSound(v, d, v.clients[d]) {
        assert ClientSound(w, d, w.clients[d]);
      }
  }

  /** Main theorem: under any interleaving of clients, failed EXECs, lost replies, faults and expiries,
      the hashes and all committed decisions are those of a serial limiter that handles the commits in
      commit order, and each finished request has exactly one acknowledged commit, with its decision. */
  lemma {:induction false} ProtocolLinearizes(steps: seq<Step>)
    ensures Inv(AfterAll(Empty, steps))
    decreases |steps|
  {
    if steps != [] {
      ProtocolLinearizes(steps[..|steps| - 1]);
      StepKeepsInv(AfterAll(Empty, steps[..|steps| - 1]), steps[|steps| - 1]);
    }
  }

  // ---- What the callers are told ----

  function Granted(c: Client, key: Key): nat {
    if c.Finished? && c.r.key == key && c.allowed then 1 else 0
  }

  /** How many requests on the key have been told to go ahead. */
  function GrantedTo(clients: seq<Client>, key: Key): nat {
    if clients == [] then 0 else GrantedTo(clients[..|clients| - 1], key) + Granted(clients[|clients| - 1], key)
  }

  /** How many commits on the key admitted their request. */
  function Admitted(log: seq<Event>, key: Key): nat {
    if log == [] then 0
    else
      var e := log[|log| - 1];
      Admitted(log[..|log| - 1], key) + (if e.Commit? && e.r.key == key && e.allowed then 1 else 0)
  }

  lemma {:induction false} GrantedAfterUpdate(clients: seq<Client>, c: nat, client: Client, key: Key)
    requires c < |clients|
    ensures GrantedTo(clients[c := client], key) + Granted(clients[c], key)
            == GrantedTo(clients, key) + Granted(client, key)
    decreases |clients|
  {
    var last := |clients| - 1;
    if c < last {
      GrantedAfterUpdate(clients[..last], c, client, key);
      assert clients[c := client][..last] == clients[..last][c := client];
    } else {
      assert clients[c := client][..last] == clients[..last];
    }
  }

  lemma {:induction false} GrantedAfterTouch(clients: seq<Client>, touched: Key, key: Key)
    ensures GrantedTo(TouchAll(clients, touched), key) == GrantedTo(clients, key)
    decreases |clients|
  {
    if clients != [] {
      var last := |clients| - 1;
      GrantedAfterTouch(clients[..last], touched, key);
      assert TouchAll(clients, touched)[..last] == TouchAll(clients[..last], touched);
    }
  }

  lemma ExecGrantsCommitted(w: World, c: nat, replied: bool, key: Key)
    requires GrantedTo(w.clients, key) <= Admitted(w.log, key)
    requires c < |w.clients| && w.clients[c].HasRead?
    ensures var v := After(w, Exec(c, replied)); GrantedTo(v.clients, key) <= Admitted(v.log, key)
  {
    hide Decide, GrantedTo, Admitted;
    var v := After(w, Exec(c, replied));
    var r := w.clients[c].r;
    if w.clients[c].touched {
      GrantedAfterUpdate(w.clients, c, v.clients[c], key);
    } else {
      GrantedAfterTouch(w.clients, r.key, key);
      GrantedAfterUpdate(TouchAll(w.clients, r.key), c, v.clients[c], key);
      AdmittedLast(w.log, v.log[|w.log|], key);
    }
  }

  lemma AdmittedLast(log: seq<Event>, e: Event, key: Key)
    ensures Admitted(log + [e], key)
            == Admitted(log, key) + if e.Commit? && e.r.key == key && e.allowed then 1 else 0
  {
    assert (log + [e])[..|log|] == log;
  }

  lemma GrantedLast(clients: seq<Client>, client: Client, key: Key)
    ensures GrantedTo(clients + [client], key) == GrantedTo(clients, key) + Granted(client, key)
  {
    assert (clients + [client])[..|clients|] == clients;
  }

  lemma GrantsStayCommitted(w: World, step: Step, key: Key)
    requires GrantedTo(w.clients, key) <= Admitted(w.log, key)
    ensures GrantedTo(After(w, step).clients, key) <= Admitted(After(w, step).log, key)
  {
    hide Decide, GrantedTo, Admitted, TouchAll;
    var v := After(w, step);
    match step {
      case Arrive(r) => GrantedLast(w.clients, Looping(r), key);
      case Expire(k) =>
        GrantedAfterTouch(w.clients, k, key);
        AdmittedLast(w.log, Expiry(k), key);
      case Exec(c, replied) =>
        if c < |w.clients| && w.clients[c].HasRead? {
          ExecGrantsCommitted(w, c, replied, key);
        }
      case Watch(c) => if c < |w.clients| { GrantedAfterUpdate(w.clients, c, v.clients[c], key); }
      case Read(c) => if c < |w.clients| { GrantedAfterUpdate(w.clients, c, v.clients[c], key); }
      case Fault(c) => if c < |w.clients| { GrantedAfterUpdate(w.clients, c, v.clients[c], key); }
    }
  }

  /** No caller is let through without a commit of its own that took a token. */
  lemma {:induction false} GrantsAreCommitted(steps: seq<Step>, key: Key)
    ensures var w := AfterAll(Empty, steps); GrantedTo(w.clients, key) <= Admitted(w.log, key)
    decreases |steps|
  {
    if steps != [] {
      GrantsAreCommitted(steps[..|steps| - 1], key);
      GrantsStayCommitted(AfterAll(Empty, steps[..|steps| - 1]), steps[|steps| - 1], key);
    }
  }

  // ---- The retry loop ----

  lemma {:induction false} StepsThenSteps(w: World, first: seq<Step>, rest: seq<Step>)
    ensures AfterAll(w, first + rest) == AfterAll(AfterAll(w, first), rest)
    decreases |rest|
  {
    var steps := first + rest;
    if rest == [] {
      assert steps == first;
    } else {
      assert steps[..|steps| - 1] == first + rest[..|rest| - 1];
      StepsThenSteps(w, first, rest[..|rest| - 1]);
    }
  }

  lemma OneStep(w: World, steps: seq<Step>, step: Step)
    ensures AfterAll(w, steps + [step]) == After(AfterAll(w, steps), step)
    ensures AfterAll(w, [step]) == After(w, step)
  {
    hide After;
    assert (steps + [step])[..|steps|] == steps;
    assert [step][..0] == [];
  }

  /** Nothing in the steps is done by the client or to its connection. */
  predicate NotBy(steps: seq<Step>, c: nat) {
    forall s <- steps :: s != Watch(c) && s != Read(c) && s != Exec(c, true) && s != Exec(c, false) && s != Fault(c)
  }

  /** How often the key's hash was written or expired. */
  function EventsOn(log: seq<Event>, key: Key): nat {
    if log == [] then 0
    else
      var e := log[|log| - 1];
      EventsOn(log[..|log| - 1], key) + (if (if e.Commit? then e.r.key else e.key) == key then 1 else 0)
  }

  /** The client is where it was; its watched key has been touched since only if the key's hash was
      written or expired. */
  ghost predicate WaitsThrough(w: World, v: World, c: nat) {
    && c < |w.clients| && c < |v.clients|
    && EventsOn(w.log, w.clients[c].r.key) <= EventsOn(v.log, w.clients[c].r.key)
    && var written := EventsOn(w.log, w.clients[c].r.key) < EventsOn(v.log, w.clients[c].r.key);
    match w.clients[c]
    case Looping(r) => v.clients[c] == w.clients[c]
    case Finished(r, _) => v.clients[c] == w.clients[c]
    case Watching(r, touched) =>
      v.clients[c] == w.clients[c] || (v.clients[c] == Watching(r, true) && written)
    case HasRead(r, data, touched) =>
      v.clients[c] == w.clients[c] || (v.clients[c] == HasRead(r, data, true) && written)
  }

  lemma SameClientWaits(w: World, v: World, c: nat)
    requires c < |w.clients| && c < |v.clients| && v.clients[c] == w.clients[c] && v.log == w.log
    ensures WaitsThrough(w, v, c)
  {
  }

  lemma EventWaits(w: World, step: Step, c: nat)
    requires c < |w.clients| && NotBy([step], c) && (step.Exec? || step.Expire?)
    ensures WaitsThrough(w, After(w, step), c)
  {
    hide Decide;
    assert step in [step];
    hide NotBy;
    var v := After(w, step);
    assert v.log != w.log ==> v.log[..|w.log|] == w.log;
  }

  lemma WaitsOn(w: World, u: World, v: World, c: nat)
    requires WaitsThrough(w, u, c) && WaitsThrough(u, v, c)
    ensures WaitsThrough(w, v, c)
  {
  }

  lemma {:induction false} OtherSteps(w: World, steps: seq<Step>, c: nat)
    requires c < |w.clients| && NotBy(steps, c)
    ensures WaitsThrough(w, AfterAll(w, steps), c)
    decreases |steps|
  {
    hide Decide, WaitsThrough;
    if steps == [] {
      SameClientWaits(w, w, c);
    } else {
      var before, last := steps[..|steps| - 1], steps[|steps| - 1];
      assert last in steps && forall s :: s in before ==> s in steps;
      var u := AfterAll(w, before);
      OtherSteps(w, before, c);
      ClientsStay(w, u, c);
      if last.Exec? || last.Expire? {
        EventWaits(u, last, c);
      } else {
        SameClientWaits(u, After(u, last), c);
      }
      WaitsOn(w, u, AfterAll(w, steps), c);
    }
  }

  lemma ClientsStay(w: World, v: World, c: nat)
    requires WaitsThrough(w, v, c)
    ensures c < |v.clients|
  {
  }

  /** How a round ends: at EXEC, with or without the reply getting through, or with an exception. */
  datatype Ending = Executed | ReplyLost | FaultAtWatch | FaultAtRead | FaultAtExec

  /** One round of the loop: what everyone else does before the read, and between the read and EXEC. */
  datatype Round = Round(beforeRead: seq<Step>, beforeExec: seq<Step>, ending: Ending)

  function UpToRead(c: nat, round: Round): seq<Step> { [Watch(c)] + round.beforeRead }

  function UpToExec(c: nat, round: Round): seq<Step> { UpToRead(c, round) + [Read(c)] + round.beforeExec }

  /** The protocol steps of a round of client `c`. */
  function StepsOf(c: nat, round: Round): seq<Step> {
    match round.ending
    case FaultAtWatch => [Fault(c)]
    case FaultAtRead => UpToRead(c, round) + [Fault(c)]
    case FaultAtExec => UpToExec(c, round) + [Fault(c)]
    case ReplyLost => UpToExec(c, round) + [Exec(c, false)]
    case Executed => UpToExec(c, round) + [Exec(c, true)]
  }

  function StepsOfAll(c: nat, rounds: seq<Round>): seq<Step> {
    if rounds == [] then [] else StepsOfAll(c, rounds[..|rounds| - 1]) + StepsOf(c, rounds[|rounds| - 1])
  }

  /** A round, command by command. */
  lemma RoundUnfolds(w: World, c: nat, round: Round)
    ensures var watched := AfterAll(After(w, Watch(c)), round.beforeRead);
            var ready := AfterAll(After(watched, Read(c)), round.beforeExec);
            AfterAll(w, StepsOf(c, round)) ==
            match round.ending
            case FaultAtWatch => After(w, Fault(c))
            case FaultAtRead => After(watched, Fault(c))
            case FaultAtExec => After(ready, Fault(c))
            case ReplyLost => After(ready, Exec(c, false))
            case Executed => After(ready, Exec(c, true))
  {
    hide After, AfterAll;
    OneStep(w, [], Watch(c));
    StepsThenSteps(w, [Watch(c)], round.beforeRead);
    OneStep(w, UpToRead(c, round), Read(c));
    StepsThenSteps(w, UpToRead(c, round) + [Read(c)], round.beforeExec);
    OneStep(w, UpToRead(c, round), Fault(c));
    OneStep(w, UpToExec(c, round), Fault(c));
    OneStep(w, UpToExec(c, round), Exec(c, false));
    OneStep(w, UpToExec(c, round), Exec(c, true));
    OneStep(w, [], Fault(c));
  }

  /** A client that waits is still where it was. */
  lemma StillThere(w: World, steps: seq<Step>, c: nat)
    requires c < |w.clients| && NotBy(steps, c)
    ensures var v := AfterAll(w, steps);
            && c < |v.clients| && v.clients[c].r == w.clients[c].r
            && (w.clients[c].Watching? ==> v.clients[c].Watching?)
            && (w.clients[c].HasRead? ==> v.clients[c].HasRead? && v.clients[c].data == w.clients[c].data)
  {
    OtherSteps(w, steps, c);
  }

  /** Redis and everyone connected to it. */
  class Redis {
    var hashes: map<Key, Entry>
    var clients: seq<Client>
    var log: seq<Event>

    ghost function Contents(): World
      reads this
    {
      World(hashes, clients, log)
    }

    method Connect(r: Request) returns (c: nat)
      modifies this
      ensures c == |old(clients)| && Contents() == After(old(Contents()), Arrive(r))
    {
      c := |clients|;
      clients := clients + [Looping(r)];
    }

    /** What everyone else does in the meantime. */
    method Elsewhere(steps: seq<Step>)
      modifies this
      ensures Contents() == AfterAll(old(Contents()), steps)
    {
      var w := AfterAll(World(hashes, clients, log), steps);
      hashes, clients, log := w.hashes, w.clients, w.log;
    }

    method WatchKey(c: nat)
      requires c < |clients| && clients[c].Looping?
      modifies this
      ensures Contents() == After(old(Contents()), Watch(c))
    {
      clients := clients[c := Watching(clients[c].r, false)];
    }

    method HGetAll(c: nat) returns (data: Option<Entry>)
      requires c < |clients| && clients[c].Watching?
      modifies this
      ensures Contents() == After(old(Contents()), Read(c)) && data == Lookup(old(hashes), old(clients)[c].r.key)
    {
      data := Lookup(hashes, clients[c].r.key);
      clients := clients[c := HasRead(clients[c].r, data, clients[c].touched)];
    }

    /** The transaction that writes `entry`; `ok` when it was executed and the reply arrived. */
    method ExecWrite(c: nat, entry: Entry, allowed: bool, replied: bool) returns (ok: bool)
      requires c < |clients| && clients[c].HasRead? && (entry, allowed) == Decide(clients[c].data, clients[c].r)
      modifies this
      ensures Contents() == After(old(Contents()), Exec(c, replied))
      ensures ok == (!old(clients)[c].touched && replied)
    {
      hide Decide;
      var r := clients[c].r;
      ok := !clients[c].touched && replied;
      if clients[c].touched {
        clients := clients[c := Looping(r)];
      } else {
        hashes := hashes[r.key := entry];
        clients := TouchAll(clients, r.key)[c := if replied then Finished(r, allowed) else Looping(r)];
        log := log + [Commit(c, r, allowed, replied)];
      }
    }

    /** `reset` after an exception. */
    method Reset(c: nat)
      requires c < |clients| && !clients[c].Finished?
      modifies this
      ensures Contents() == After(old(Contents()), Fault(c))
    {
      clients := clients[c := Looping(clients[c].r)];
    }
  }

  class RedisRateLimiter {
    const redis: Redis

    constructor (redis: Redis)
      ensures this.redis == redis
    {
      this.redis := redis;
    }

    /** The loop of one request, over any rounds. What it does to Redis is an execution of the protocol
        machine, so all that is proved of those holds of it; it returns the decision that the machine
        records for its client, or is still looping (None). */
    method Allow(r: Request, rounds: seq<Round>) returns (decision: Option<bool>, ghost used: nat)
      requires forall n :: 0 <= n < |rounds| ==>
                 NotBy(rounds[n].beforeRead, |redis.clients|) && NotBy(rounds[n].beforeExec, |redis.clients|)
      modifies redis
      ensures var c := |old(redis.clients)|;
              && used <= |rounds|
              && redis.Contents() == AfterAll(After(old(redis.Contents()), Arrive(r)), StepsOfAll(c, rounds[..used]))
              && c < |redis.clients|
              && (decision.Some? ==> redis.clients[c] == Finished(r, decision.value))
              && (decision.None? ==> used == |rounds| && redis.clients[c] == Looping(r))
    {
      hide After, StepsOf;
      var c := redis.Connect(r);
      assert redis.clients[c] == Looping(r) by { Connected(old(redis.Contents()), r); }
      ghost var start := redis.Contents();
      used := 0;
      assert rounds[..0] == [];
      for n := 0 to |rounds|
        invariant used == n && c < |redis.clients| && redis.clients[c] == Looping(r)
        invariant redis.Contents() == AfterAll(start, StepsOfAll(c, rounds[..n]))
      {
        decision := Attempt(r, c, rounds[n]);
        StepsThenSteps(start, StepsOfAll(c, rounds[..n]), StepsOf(c, rounds[n]));
        assert rounds[..n + 1][..n] == rounds[..n];
        used := n + 1;
        if decision.Some? {
          return;
        }
      }
      assert rounds[..|rounds|] == rounds;
      decision := None;
    }

    /** One round: WATCH, read, compute, EXEC. */
    method Attempt(r: Request, c: nat, round: Round) returns (decision: Option<bool>)
      requires c < |redis.clients| && redis.clients[c] == Looping(r)
      requires NotBy(round.beforeRead, c) && NotBy(round.beforeExec, c)
      modifies redis
      ensures redis.Contents() == AfterAll(old(redis.Contents()), StepsOf(c, round))
      ensures c < |redis.clients|
      ensures redis.clients[c] == if decision.Some? then Finished(r, decision.value) else Looping(r)
    {
      hide Decide, AfterAll, UpToRead, UpToExec, NotBy;
      ghost var w := redis.Contents();
      RoundUnfolds(w, c, round);
      decision := None;
      if round.ending.FaultAtWatch? {
        redis.Reset(c);
        return;
      }
      redis.WatchKey(c);
      StillThere(redis.Contents(), round.beforeRead, c);
      redis.Elsewhere(round.beforeRead);
      if round.ending.FaultAtRead? {
        redis.Reset(c);
        return;
      }
      var data := redis.HGetAll(c);
      StillThere(redis.Contents(), round.beforeExec, c);
      redis.Elsewhere(round.beforeExec);
      if round.ending.FaultAtExec? {
        redis.Reset(c);
        return;
      }
      var entry, allowed := Compute(r, data);
      var ok := redis.ExecWrite(c, entry, allowed, round.ending.Executed?);
      decision := if ok then Some(allowed) else None;
    }

    /** The refill and the withdrawal of one round. */
    method Compute(r: Request, data: Option<Entry>) returns (entry: Entry, allowed: bool)
      ensures (entry, allowed) == Decide(data, r)
    {
      hide Gain;
      var tokens, updatedAt := r.capacity as real, r.now;
      if data.Some? {
        tokens, updatedAt := data.value.tokens, data.value.updatedAt;
      }
      var elapsed := Max(0.0, r.now - updatedAt);
      tokens := Min(r.capacity as real, tokens + Gain(r.rate, elapsed));
      allowed := tokens >= 1.0;
      if allowed {
        tokens := tokens - 1.0;
      }
      entry := Entry(tokens, r.now);
    }
  }

  lemma Connected(w: World, r: Request)
    ensures var v := After(w, Arrive(r)); |v.clients| == |w.clients| + 1 && v.clients[|w.clients|] == Looping(r)
  {
  }

  /** Progress: a round that reaches EXEC without an exception and still does not finish its request was
      overtaken; during it the key's hash was written by another request or expired. */
  lemma FailedRoundMeansProgress(w: World, r: Request, c: nat, round: Round)
    requires c < |w.clients| && w.clients[c] == Looping(r) && round.ending == Executed
    requires NotBy(round.beforeRead, c) && NotBy(round.beforeExec, c)
    ensures var v := AfterAll(w, StepsOf(c, round));
            && c < |v.clients|
            && (v.clients[c].Finished? || EventsOn(v.log, r.key) > EventsOn(w.log, r.key))
  {
    hide After, AfterAll, EventsOn, WaitsThrough, StepsOf;
    RoundUnfolds(w, c, round);
    var a := After(w, Watch(c));
    assert c < |a.clients| by { WatchKeepsClients(w, c); }
    OtherSteps(a, round.beforeRead, c);
    var b := AfterAll(a, round.beforeRead);
    assert c < |After(b, Read(c)).clients| by { WaitsInBounds(a, b, c); }
    OtherSteps(After(b, Read(c)), round.beforeExec, c);
    ExecEnds(w, b, AfterAll(After(b, Read(c)), round.beforeExec), r, c);
  }

  lemma WatchKeepsClients(w: World, c: nat)
    ensures |After(w, Watch(c)).clients| == |w.clients|
  {
  }

  lemma WaitsInBounds(w: World, v: World, c: nat)
    requires WaitsThrough(w, v, c)
    ensures c < |After(v, Read(c)).clients|
  {
  }

  lemma ExecEnds(w: World, b: World, e: World, r: Request, c: nat)
    requires c < |w.clients| && w.clients[c] == Looping(r)
    requires WaitsThrough(After(w, Watch(c)), b, c) && WaitsThrough(After(b, Read(c)), e, c)
    ensures var v := After(e, Exec(c, true));
            && c < |v.clients|
            && (v.clients[c].Finished? || EventsOn(v.log, r.key) > EventsOn(w.log, r.key))
  {
    hide Decide;
    var v := After(e, Exec(c, true));
    assert v.log != e.log ==> v.log[..|e.log|] == e.log;
  }
}
