/** The audit log in terms of clock readings and bytes: what a chain is byte by byte, which rows a query
    finds, and when the log of a tenant is the list of its emits. */
module AuditTimes {
  import opened Content
  import opened AuditChain
  import opened AuditTheorems
  import opened AuditInterleavings

  // ---- Chains in bytes ----

  /** Row `i` names the hash of the row before it, or sixty-four '0' at the start, and its own hash is that
      of these sixty-four characters, a '|' and the canonical bytes of its event. */
  ghost predicate LinkedInBytes(env: Env, rows: seq<Row>, i: nat)
    requires i < |rows|
  {
    var named: Bytes := if rows[i].prev.Some? then rows[i].prev.value else seq(64, _ => 0x30);
    && (if i == 0 then named == seq(64, _ => 0x30) else rows[i - 1].hash.Some? && rows[i - 1].hash.value == named)
    && rows[i].hash.Some? && rows[i].hash.value == env.sha256(named + [0x7C] + env.canonical(rows[i].event))
  }

  /** What verification accepts, byte by byte. */
  lemma ChainInBytes(env: Env, rows: seq<Row>)
    ensures Chain(env, rows) <==> forall i :: 0 <= i < |rows| ==> LinkedInBytes(env, rows, i)
  {
    hide LinksAt, LinkedInBytes;
    if Chain(env, rows) {
      forall i | 0 <= i < |rows| ensures LinkedInBytes(env, rows, i) {
        assert LinksAt(env, rows, i) && (i > 0 ==> LinksAt(env, rows, i - 1));
        LinkedIsHashed(env, rows, i);
        LinkInBytes(env, rows, i);
      }
    }
    if forall i :: 0 <= i < |rows| ==> LinkedInBytes(env, rows, i) {
      forall i | 0 <= i < |rows| ensures LinksAt(env, rows, i) {
        assert LinkedInBytes(env, rows, i) && (i > 0 ==> LinkedInBytes(env, rows, i - 1));
        LinkedIsHashed(env, rows, i);
        LinkInBytes(env, rows, i);
      }
    }
  }

  lemma LinkedIsHashed(env: Env, rows: seq<Row>, i: nat)
    requires i < |rows| && (i > 0 ==> LinksAt(env, rows, i - 1) || LinkedInBytes(env, rows, i - 1))
    ensures i > 0 ==> rows[i - 1].hash.Some?
  {
  }

  lemma LinkInBytes(env: Env, rows: seq<Row>, i: nat)
    requires i < |rows| && (i > 0 ==> rows[i - 1].hash.Some?)
    ensures LinksAt(env, rows, i) <==> LinkedInBytes(env, rows, i)
  {
    assert GENESIS == seq(64, _ => 0x30);
  }

  // ---- Which rows a query finds ----

  /** A hashed row of the tenant that carries the run id and the deliverable id, as far as any is named. */
  ghost predicate IsFound(r: Row, q: Query) {
    && r.event.tenant == q.tenant && r.hash.Some?
    && (q.run.Some? ==> r.event.run == q.run)
    && (q.deliverable.Some? ==> r.event.deliverable == q.deliverable)
  }

  /** A query finds exactly those rows, in table order and each once: it decides row by row. */
  lemma {:induction false} QueryFinds(rows: seq<Row>, more: seq<Row>, q: Query)
    ensures Select(rows + more, q) == Select(rows, q) + Select(more, q)
    ensures forall r :: Select([r], q) == if IsFound(r, q) then [r] else []
    decreases |more|
  {
    forall r ensures Select([r], q) == if IsFound(r, q) then [r] else [] {
      assert [r][..0] == [] && Select([], q) == [];
    }
    hide IsFound;
    var table := rows + more;
    if more == [] {
      assert table == rows;
    } else {
      assert table[..|table| - 1] == rows + more[..|more| - 1];
      QueryFinds(rows, more[..|more| - 1], q);
    }
  }

  // ---- Emits on a clock ----

  /** The emits of one tenant, in order. */
  function EmitsOf(emits: seq<Emit>, tenant: string): seq<Emit> {
    if emits == [] then []
    else
      var before, last := EmitsOf(emits[..|emits| - 1], tenant), emits[|emits| - 1];
      if last.e.tenant == tenant then before + [last] else before
  }

  /** Canonical ids, new for their tenant; within a tenant the clock goes forward, or stands still while the
      event ids increase. */
  ghost predicate Timely(env: Env, emits: seq<Emit>) {
    && (forall j :: 0 <= j < |emits| ==> env.stored(emits[j].e) == Some(emits[j].e))
    && forall j, k :: 0 <= j < k < |emits| && emits[j].e.tenant == emits[k].e.tenant ==>
         && emits[j].e.eventId != emits[k].e.eventId
         && (|| emits[j].createdAt < emits[k].createdAt
             || (emits[j].createdAt == emits[k].createdAt && emits[j].e.eventId < emits[k].e.eventId))
  }

  /** The log holds the emits, row by row. */
  ghost predicate LogHolds(log: seq<Row>, mine: seq<Emit>) {
    && |log| == |mine|
    && forall i :: 0 <= i < |log| ==> log[i].event == mine[i].e && log[i].createdAt == mine[i].createdAt
  }

  ghost predicate AllHashed(rows: seq<Row>) { forall r :: r in rows ==> r.hash.Some? }

  lemma {:induction false} EmitsAreAmong(emits: seq<Emit>, tenant: string)
    ensures forall m :: m in EmitsOf(emits, tenant) ==>
              exists j :: 0 <= j < |emits| && emits[j] == m && m.e.tenant == tenant
    decreases |emits|
  {
    if emits != [] {
      EmitsAreAmong(emits[..|emits| - 1], tenant);
    }
  }

  /** Every row of the tenant stands for one of its emits. */
  lemma RowIsAnEmit(emits: seq<Emit>, rows: seq<Row>, s: Row) returns (j: nat)
    requires AllHashed(rows) && s in rows
    requires LogHolds(LogOf(rows, s.event.tenant), EmitsOf(emits, s.event.tenant))
    ensures j < |emits| && emits[j].e == s.event && emits[j].createdAt == s.createdAt
  {
    var tenant := s.event.tenant;
    SelectsAllMatches(rows, Everything(tenant));
    var i :| 0 <= i < |LogOf(rows, tenant)| && LogOf(rows, tenant)[i] == s;
    var m := EmitsOf(emits, tenant)[i];
    EmitsAreAmong(emits, tenant);
    assert m in EmitsOf(emits, tenant);
    j :| 0 <= j < |emits| && emits[j] == m;
  }

  /** A timely emit is new and the newest of its tenant. */
  lemma TimelyEmitIsNewest(env: Env, emits: seq<Emit>, rows: seq<Row>)
    requires Timely(env, emits) && emits != [] && AllHashed(rows)
    requires forall tenant :: LogHolds(LogOf(rows, tenant), EmitsOf(emits[..|emits| - 1], tenant))
    ensures var last := emits[|emits| - 1];
            !IdTaken(rows, last.e) && IsNewest(rows, NewRow(env, rows, last.e, last.createdAt))
  {
    hide LogHolds, Select, EmitsOf;
    var last := emits[|emits| - 1];
    forall s | s in rows && s.event.tenant == last.e.tenant
      ensures s.event.eventId != last.e.eventId && NotLater(s, NewRow(env, rows, last.e, last.createdAt))
    {
      var j := RowIsAnEmit(emits[..|emits| - 1], rows, s);
      assert emits[j].e.tenant == last.e.tenant;
    }
  }

  /** On such a clock the tables are serial, and each log is the list of the tenant's emits. */
  lemma {:induction false} TimelyTables(env: Env, emits: seq<Emit>)
    requires Timely(env, emits)
    ensures Serial(env, emits) && AllHashed(Built(env, emits))
    ensures forall tenant :: LogHolds(LogOf(Built(env, emits), tenant), EmitsOf(emits, tenant))
    decreases |emits|
  {
    hide LogHolds, AllHashed, IsNewest;
    if emits == [] {
      NothingEmitted(env);
    } else {
      var before, last := emits[..|emits| - 1], emits[|emits| - 1];
      var rows := Built(env, before);
      TimelyTables(env, before);
      TimelyEmitIsNewest(env, emits, rows);
      SerialTablesAreChains(env, before);
      HashedAfterEmit(env, rows, last);
      forall tenant ensures LogHolds(LogOf(Built(env, emits), tenant), EmitsOf(emits, tenant)) {
        LogAfterEmit(env, rows, last, tenant, EmitsOf(before, tenant));
      }
    }
  }

  lemma NothingEmitted(env: Env)
    ensures Serial(env, []) && AllHashed(Built(env, []))
    ensures forall tenant :: LogHolds(LogOf(Built(env, []), tenant), EmitsOf([], tenant))
  {
  }

  lemma HashedAfterEmit(env: Env, rows: seq<Row>, last: Emit)
    requires AllHashed(rows) && env.stored(last.e).Some? && !IdTaken(rows, last.e)
    ensures AllHashed(Emitted(env, rows, last.e, last.createdAt).value)
  {
    hide EventHash, HeadOf;
    InsertedElements(rows, NewRow(env, rows, last.e, last.createdAt));
  }

  lemma LogAfterEmit(env: Env, rows: seq<Row>, last: Emit, tenant: string, mine: seq<Emit>)
    requires InOrder(rows) && Chain(env, LogOf(rows, last.e.tenant))
    requires env.stored(last.e) == Some(last.e) && !IdTaken(rows, last.e)
    requires IsNewest(rows, NewRow(env, rows, last.e, last.createdAt)) && LogHolds(LogOf(rows, tenant), mine)
    ensures var after := Emitted(env, rows, last.e, last.createdAt).value;
            LogHolds(LogOf(after, tenant), if last.e.tenant == tenant then mine + [last] else mine)
  {
    hide EventHash, HeadOf, Select, Inserted, Chain, InOrder, IsNewest;
    if last.e.tenant == tenant {
      NewestEmitKeepsChain(env, rows, last.e, last.createdAt);
    } else {
      OtherTenantsUnchanged(env, rows, last.e, last.createdAt, tenant);
    }
  }

  /** Main theorem: when the clock goes forward within each tenant, a tenant's log is the list of its emits
      in the order of emission, each row linked to the one before it. */
  lemma TimelyLogIsTheEmits(env: Env, emits: seq<Emit>, tenant: string)
    requires Timely(env, emits)
    ensures var log, mine := LogOf(Built(env, emits), tenant), EmitsOf(emits, tenant);
            LogHolds(log, mine) && Chain(env, log) && forall i :: 0 <= i < |log| ==> LinkedInBytes(env, log, i)
  {
    hide LogHolds, Chain, LinkedInBytes, Timely, Serial;
    TimelyTables(env, emits);
    SerialTablesAreChains(env, emits);
    ChainInBytes(env, LogOf(Built(env, emits), tenant));
  }

  /** What verification of that log walks and accepts. */
  lemma TimelyLogVerifies(env: Env, emits: seq<Emit>, tenant: string, limit: int)
    requires Timely(env, emits)
    ensures var walked := Limited(Select(Built(env, emits), Everything(tenant)), limit);
            var found, most := |EmitsOf(emits, tenant)|, if limit < 1 then 1 else if limit > 5000 then 5000 else limit;
            Chain(env, walked) && |walked| == if found <= most then found else most
  {
    TimelyLogIsTheEmits(env, emits, tenant);
    var log := Select(Built(env, emits), Everything(tenant));
    assert LogOf(Built(env, emits), tenant) == log;
    TruncationIsNotDetected(env, log, |Limited(log, limit)|);
    hide Chain, Select, Built;
  }

  /** A clock that goes back breaks the log: after timely emits, an emit of a tenant with a reading before
      that of an earlier emit of the same tenant leaves a log that is not accepted, short of evidence. */
  lemma BackdatedEmitBreaksLog(env: Env, emits: seq<Emit>, late: Emit, j: nat) returns (x: Option<Evidence>)
    requires Timely(env, emits) && env.stored(late.e) == Some(late.e)
    requires forall k :: 0 <= k < |emits| && emits[k].e.tenant == late.e.tenant ==> emits[k].e.eventId != late.e.eventId
    requires j < |emits| && emits[j].e.tenant == late.e.tenant && late.createdAt < emits[j].createdAt
    ensures var tenant := late.e.tenant;
            && (x == None ==> !Chain(env, LogOf(Built(env, emits + [late]), tenant)))
            && (x.Some? ==> Shown(env, LogOf(Built(env, emits), tenant), LogOf(Built(env, emits), tenant), x.value))
  {
    hide Timely, LogHolds, Chain, InOrder, UniqueIds, EventHash, HeadOf, Shown, Serial;
    var rows := Built(env, emits);
    TimelyTables(env, emits);
    SerialTablesAreChains(env, emits);
    assert (emits + [late])[..|emits|] == emits;
    assert !IdTaken(rows, late.e) by { IdIsNew(env, emits, late); }
    LastIsLater(env, emits, late, j);
    x := LateEmitBreaksChain(env, rows, late.e, late.createdAt);
  }

  lemma IdIsNew(env: Env, emits: seq<Emit>, late: Emit)
    requires Timely(env, emits)
    requires forall k :: 0 <= k < |emits| && emits[k].e.tenant == late.e.tenant ==> emits[k].e.eventId != late.e.eventId
    ensures !IdTaken(Built(env, emits), late.e)
  {
    hide Timely, LogHolds;
    TimelyTables(env, emits);
    if IdTaken(Built(env, emits), late.e) {
      var r :| r in Built(env, emits) && r.event.tenant == late.e.tenant && r.event.eventId == late.e.eventId;
      var k := RowIsAnEmit(emits, Built(env, emits), r);
      assert false;
    }
  }

  lemma {:induction false} EmitIsThere(emits: seq<Emit>, j: nat) returns (i: nat)
    requires j < |emits|
    ensures var mine := EmitsOf(emits, emits[j].e.tenant); i < |mine| && mine[i] == emits[j]
    decreases |emits|
  {
    var before := emits[..|emits| - 1];
    if j < |before| {
      i := EmitIsThere(before, j);
    } else {
      i := |EmitsOf(before, emits[j].e.tenant)|;
    }
  }

  lemma LastIsLater(env: Env, emits: seq<Emit>, late: Emit, j: nat)
    requires Timely(env, emits) && env.stored(late.e).Some?
    requires j < |emits| && emits[j].e.tenant == late.e.tenant && late.createdAt < emits[j].createdAt
    ensures var rows := Built(env, emits);
            var log := LogOf(rows, late.e.tenant);
            log != [] && !NotLater(log[|log| - 1], NewRow(env, rows, late.e, late.createdAt))
  {
    hide Timely, Serial, EventHash, HeadOf, Built, EmitsOf;
    var rows := Built(env, emits);
    var log := LogOf(rows, late.e.tenant);
    TimelyTables(env, emits);
    var i := EmitIsThere(emits, j);
    SerialTablesAreChains(env, emits);
    SelectInOrder(rows, Everything(late.e.tenant));
    hide Select;
    assert log[i].createdAt <= log[|log| - 1].createdAt;
  }
}
