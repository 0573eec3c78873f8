/** The hash-chained audit log: `emit_event` and `verify_chain`. */
module AuditChain {
  import opened Content

  /** The ASCII hex text of a SHA-256 digest. */
  type Hash = h: Bytes | |h| == 64 witness Repeated(0x30, 64)

  function Repeated(b: Byte, n: nat): (result: Bytes)
    ensures |result| == n && forall i :: 0 <= i < n ==> result[i] == b
  {
    seq(n, _ => b)
  }

  /** Sixty-four zeros, the previous hash of a first event. */
  const GENESIS: Hash := Repeated(0x30, 64)

  const BAR: Byte := 0x7C

  /** The fields that are hashed. An event id is a UUID, a number with one text form; the other ids are
      the texts the caller passed. */
  datatype Event = Event(
    tenant: string, eventId: nat, eventType: string,
    run: Option<string>, deliverable: Option<string>, bundle: Option<string>, idempotencyKey: Option<string>,
    detail: Json)

  datatype Row = Row(event: Event, createdAt: int, prev: Option<Hash>, hash: Option<Hash>)

  /** The hash function, the canonical encoding of an event, and what the table's columns give back for
      an event: UUID columns return canonical text, and an event with a malformed id has no row. */
  datatype Env = Env(sha256: Bytes -> Hash, canonical: Event -> Bytes, stored: Event -> Option<Event>)

  function Message(env: Env, prev: Hash, e: Event): Bytes { prev + [BAR] + env.canonical(e) }

  function EventHash(env: Env, prev: Hash, e: Event): Hash { env.sha256(Message(env, prev, e)) }

  function PrevOf(r: Row): Hash { if r.prev.Some? then r.prev.value else GENESIS }

  // ---- The table, in the order (created_at, event_id) ----

  predicate Before(r: Row, s: Row) {
    r.createdAt < s.createdAt || (r.createdAt == s.createdAt && r.event.eventId < s.event.eventId)
  }

  function Inserted(rows: seq<Row>, r: Row): seq<Row> {
    if rows == [] || !Before(r, rows[|rows| - 1]) then rows + [r]
    else Inserted(rows[..|rows| - 1], r) + [rows[|rows| - 1]]
  }

  /** The WHERE clause of a query: the tenant, and optionally the run and the deliverable. */
  datatype Query = Query(tenant: string, run: Option<string>, deliverable: Option<string>)
  {
    predicate Matches(r: Row) {
      && r.event.tenant == tenant
      && r.hash.Some?
      && (run.Some? ==> r.event.run == run)
      && (deliverable.Some? ==> r.event.deliverable == deliverable)
    }
  }

  function Everything(tenant: string): Query { Query(tenant, None, None) }

  function Select(rows: seq<Row>, q: Query): (result: seq<Row>)
    ensures forall r :: r in result ==> r in rows && q.Matches(r)
    ensures |result| <= |rows|
  {
    if rows == [] then []
    else
      var before := Select(rows[..|rows| - 1], q);
      if q.Matches(rows[|rows| - 1]) then before + [rows[|rows| - 1]] else before
  }

  function Clamp(limit: int): nat { if limit < 1 then 1 else if limit > 5000 then 5000 else limit }

  function Limited(rows: seq<Row>, limit: int): seq<Row> {
    if |rows| <= Clamp(limit) then rows else rows[..Clamp(limit)]
  }

  // ---- Emitting ----

  function HeadOf(rows: seq<Row>, tenant: string): Option<Hash> {
    var mine := Select(rows, Everything(tenant));
    if mine == [] then None else mine[|mine| - 1].hash
  }

  /** The row for an event that is linked to the hash `prev`. */
  function RowWith(env: Env, prev: Option<Hash>, e: Event, createdAt: int): Row
    requires env.stored(e).Some?
  {
    var h := EventHash(env, if prev.Some? then prev.value else GENESIS, e);
    Row(env.stored(e).value.(tenant := e.tenant, eventId := e.eventId), createdAt, prev, Some(h))
  }

  function NewRow(env: Env, rows: seq<Row>, e: Event, createdAt: int): Row
    requires env.stored(e).Some?
  {
    RowWith(env, HeadOf(rows, e.tenant), e, createdAt)
  }

  predicate IdTaken(rows: seq<Row>, e: Event) {
    exists r <- rows :: r.event.tenant == e.tenant && r.event.eventId == e.eventId
  }

  /** The table after one emit; None when the insert raises. */
  function Emitted(env: Env, rows: seq<Row>, e: Event, createdAt: int): Option<seq<Row>> {
    if env.stored(e) == None || IdTaken(rows, e) then None
    else Some(Inserted(rows, NewRow(env, rows, e, createdAt)))
  }

  // ---- Verifying ----

  /** The hash a verifier carries into row `i`. */
  function Carried(rows: seq<Row>, i: nat): Hash
    requires i <= |rows|
  {
    if i == 0 then GENESIS else if rows[i - 1].hash.Some? then rows[i - 1].hash.value else GENESIS
  }

  predicate Links(env: Env, prev: Hash, r: Row) {
    PrevOf(r) == prev && r.hash == Some(EventHash(env, prev, r.event))
  }

  predicate LinksAt(env: Env, rows: seq<Row>, i: nat)
    requires i < |rows|
  {
    Links(env, Carried(rows, i), rows[i])
  }

  /** Every row links to the one before it. */
  ghost predicate Chain(env: Env, rows: seq<Row>) {
    forall i :: 0 <= i < |rows| ==> LinksAt(env, rows, i)
  }

  datatype Mismatch = Mismatch(
    eventId: nat, expectedPrev: Hash, rowPrev: Option<Hash>, expectedHash: Hash, rowHash: Option<Hash>)

  datatype Report = Report(ok: bool, checked: nat, firstError: Option<Mismatch>)

  class AuditTable {
    const env: Env
    var rows: seq<Row>

    constructor (env: Env)
      ensures this.env == env && rows == []
    {
      this.env := env;
      rows := [];
    }

    /** `ok` is false when the insert raises; then nothing changed. */
    method EmitEvent(e: Event, createdAt: int) returns (ok: bool)
      modifies this
      ensures ok <==> Emitted(env, old(rows), e, createdAt).Some?
      ensures rows == if ok then Emitted(env, old(rows), e, createdAt).value else old(rows)
    {
      var mine := Select(rows, Everything(e.tenant));
      var prev := if mine == [] then None else mine[|mine| - 1].hash;
      var h := env.sha256((if prev.Some? then prev.value else GENESIS) + [BAR] + env.canonical(e));
      var back := env.stored(e);
      var taken := exists r <- rows :: r.event.tenant == e.tenant && r.event.eventId == e.eventId;
      ok := back.Some? && !taken;
      if ok {
        rows := Inserted(rows, Row(back.value.(tenant := e.tenant, eventId := e.eventId), createdAt, prev, Some(h)));
      }
    }

    /** Walks the selected rows up to the limit; accepts exactly the chains, counts the rows before the
        first bad one, and reports that one. */
    method VerifyChain(q: Query, limit: int) returns (report: Report)
      ensures var selected := Limited(Select(rows, q), limit);
              && (report.ok <==> Chain(env, selected))
              && (report.ok <==> report.firstError == None)
              && report.checked <= |selected| && Chain(env, selected[..report.checked])
              && (report.ok ==> report.checked == |selected|)
              && (report.ok ==>
                    var found, most := |Select(rows, q)|, if limit < 1 then 1 else if limit > 5000 then 5000 else limit;
                    report.checked == if found <= most then found else most)
              && (!report.ok ==>
                    && report.checked < |selected|
                    && var prev := Carried(selected, report.checked);
                    && var r := selected[report.checked];
                    && !Links(env, prev, r)
                    && report.firstError ==
                       Some(Mismatch(r.event.eventId, prev, r.prev, EventHash(env, prev, r.event), r.hash)))
    {
      var selected := Limited(Select(rows, q), limit);
      var prev := GENESIS;
      for i := 0 to |selected|
        invariant prev == Carried(selected, i)
        invariant forall j :: 0 <= j < i ==> LinksAt(env, selected, j)
      {
        var r := selected[i];
        var expected := env.sha256(prev + [BAR] + env.canonical(r.event));
        assert LinksAt(env, selected, i) == (PrevOf(r) == prev && r.hash == Some(expected));
        if PrevOf(r) != prev || r.hash != Some(expected) {
          ChainPrefix(env, selected, i);
          return Report(false, i, Some(Mismatch(r.event.eventId, prev, r.prev, expected, r.hash)));
        }
        prev := r.hash.value;
      }
      assert selected[..|selected|] == selected;
      return Report(true, |selected|, None);
    }
  }

  lemma ChainPrefix(env: Env, rows: seq<Row>, n: nat)
    requires n <= |rows| && forall j :: 0 <= j < n ==> LinksAt(env, rows, j)
    ensures Chain(env, rows[..n])
  {
    forall j | 0 <= j < n ensures LinksAt(env, rows[..n], j) {
      assert LinksAt(env, rows, j);
    }
  }

  /** Dropping rows at the end of a chain cannot be noticed without knowing its last hash. */
  lemma TruncationIsNotDetected(env: Env, rows: seq<Row>, n: nat)
    requires Chain(env, rows) && n <= |rows|
    ensures Chain(env, rows[..n])
  {
    ChainPrefix(env, rows, n);
  }

  // ---- Evidence ----

  /** What has to be exhibited for two chains to disagree: rows `i` and `j` with different messages and
      the same hash; different events with the same canonical bytes; or a row whose hash is the genesis. */
  datatype Evidence = Collision(i: nat, j: nat) | SameBytes(i: nat, j: nat) | GenesisHash(i: nat)

  function MessageAt(env: Env, rows: seq<Row>, i: nat): Bytes
    requires i < |rows|
  {
    Message(env, Carried(rows, i), rows[i].event)
  }

  ghost predicate Shown(env: Env, a: seq<Row>, b: seq<Row>, x: Evidence) {
    match x
    case Collision(i, j) =>
      && i < |a| && j < |b| && MessageAt(env, a, i) != MessageAt(env, b, j)
      && env.sha256(MessageAt(env, a, i)) == env.sha256(MessageAt(env, b, j))
    case SameBytes(i, j) =>
      i < |a| && j < |b| && a[i].event != b[j].event && env.canonical(a[i].event) == env.canonical(b[j].event)
    case GenesisHash(i) =>
      || (i < |a| && env.sha256(MessageAt(env, a, i)) == GENESIS)
      || (i < |b| && env.sha256(MessageAt(env, b, i)) == GENESIS)
  }

  lemma SplitMessage(env: Env, p: Hash, e: Event, q: Hash, f: Event)
    requires Message(env, p, e) == Message(env, q, f)
    ensures p == q && env.canonical(e) == env.canonical(f)
  {
    var m, n := Message(env, p, e), Message(env, q, f);
    assert m[..64] == p && n[..64] == q;
    assert m[65..] == env.canonical(e) && n[65..] == env.canonical(f);
  }

  /** Two rows of two chains with the same hash: the same event after the same hash, or evidence. */
  lemma SameHash(env: Env, a: seq<Row>, b: seq<Row>, i: nat, j: nat) returns (x: Option<Evidence>)
    requires Chain(env, a) && Chain(env, b) && i < |a| && j < |b| && a[i].hash == b[j].hash
    ensures x == None ==> a[i].event == b[j].event && Carried(a, i) == Carried(b, j)
    ensures x.Some? ==> Shown(env, a, b, x.value)
  {
    assert LinksAt(env, a, i) && LinksAt(env, b, j);
    if MessageAt(env, a, i) != MessageAt(env, b, j) {
      x := Some(Collision(i, j));
    } else {
      SplitMessage(env, Carried(a, i), a[i].event, Carried(b, j), b[j].event);
      x := if a[i].event == b[j].event then None else Some(SameBytes(i, j));
    }
  }

  /** Row by row the same hashed fields, hashes and previous hashes. */
  ghost predicate Agree(a: seq<Row>, b: seq<Row>) {
    |a| == |b| && forall i :: 0 <= i < |a| ==>
      a[i].event == b[i].event && a[i].hash == b[i].hash && PrevOf(a[i]) == PrevOf(b[i])
  }

  lemma EmptyOrNot(env: Env, a: seq<Row>, b: seq<Row>)
    requires Chain(env, a) && Chain(env, b) && a == [] && b != [] && Carried(b, |b|) == GENESIS
    ensures Shown(env, a, b, GenesisHash(|b| - 1)) && Shown(env, b, a, GenesisHash(|b| - 1))
  {
    assert LinksAt(env, b, |b| - 1);
  }

  /** Main theorem: two tables that both verify and end in the same hash agree, event by event, on every
      hashed field, or they exhibit a collision, two events with the same bytes, or a genesis preimage. */
  lemma {:induction false} TamperEvidence(env: Env, a: seq<Row>, b: seq<Row>) returns (x: Option<Evidence>)
    requires Chain(env, a) && Chain(env, b)
    requires Carried(a, |a|) == Carried(b, |b|)
    ensures x == None ==> Agree(a, b)
    ensures x.Some? ==> Shown(env, a, b, x.value)
    decreases |a|
  {
    var m, n := |a| - 1, |b| - 1;
    if a == [] || b == [] {
      if a == [] && b == [] {
        return None;
      } else if a == [] {
        EmptyOrNot(env, a, b);
        return Some(GenesisHash(n));
      } else {
        EmptyOrNot(env, b, a);
        return Some(GenesisHash(m));
      }
    }
    LinkAt(env, a, m);
    LinkAt(env, b, n);
    hide Shown;
    hide Agree;
    x := SameHash(env, a, b, m, n);
    if x == None {
      LastDropped(env, a);
      LastDropped(env, b);
      x := TamperEvidence(env, a[..m], b[..n]);
      if x.Some? {
        ShownInFull(env, a, b, m, n, x.value);
      } else {
        AgreeInFull(env, a, b);
      }
    }
  }

  lemma AgreeInFull(env: Env, a: seq<Row>, b: seq<Row>)
    requires Chain(env, a) && Chain(env, b) && a != [] && b != []
    requires var m, n := |a| - 1, |b| - 1;
             && Agree(a[..m], b[..n]) && a[m].event == b[n].event && a[m].hash == b[n].hash
             && Carried(a, m) == Carried(b, n)
    ensures Agree(a, b)
  {
    assert LinksAt(env, a, |a| - 1) && LinksAt(env, b, |b| - 1);
    forall i | 0 <= i < |a| - 1
      ensures a[i].event == b[i].event && a[i].hash == b[i].hash && PrevOf(a[i]) == PrevOf(b[i])
    {
      assert a[i] == a[..|a| - 1][i] && b[i] == b[..|b| - 1][i];
    }
  }

  lemma LinkAt(env: Env, rows: seq<Row>, i: nat)
    requires Chain(env, rows) && i < |rows|
    ensures Links(env, Carried(rows, i), rows[i]) && rows[i].hash == Some(Carried(rows, i + 1))
  {
    assert LinksAt(env, rows, i);
  }

  lemma LastDropped(env: Env, rows: seq<Row>)
    requires Chain(env, rows) && rows != []
    ensures var m := |rows| - 1; Chain(env, rows[..m]) && Carried(rows[..m], m) == Carried(rows, m)
  {
    TruncationIsNotDetected(env, rows, |rows| - 1);
  }

  lemma ShownInFull(env: Env, a: seq<Row>, b: seq<Row>, m: nat, n: nat, x: Evidence)
    requires m <= |a| && n <= |b| && Shown(env, a[..m], b[..n], x)
    ensures Shown(env, a, b, x)
  {
    assert forall i :: 0 <= i < m ==> Carried(a[..m], i) == Carried(a, i);
    assert forall i :: 0 <= i < n ==> Carried(b[..n], i) == Carried(b, i);
  }
}
