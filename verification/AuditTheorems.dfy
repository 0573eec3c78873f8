/** Which emits keep a tenant's log verifiable, and what verifying part of a log can accept. */
module AuditTheorems {
  import opened Content
  import opened AuditChain

  // ---- Inserting into the ordered table ----

  /** Created earlier, or at the same time with no greater event id. */
  predicate NotLater(s: Row, r: Row) {
    s.createdAt < r.createdAt || (s.createdAt == r.createdAt && s.event.eventId <= r.event.eventId)
  }

  /** Rows are in the order (created_at, event_id). */
  ghost predicate InOrder(rows: seq<Row>) {
    forall i, j :: 0 <= i < j < |rows| ==> NotLater(rows[i], rows[j])
  }

  ghost predicate UniqueIds(rows: seq<Row>) {
    forall i, j :: 0 <= i < j < |rows| ==>
      rows[i].event.tenant != rows[j].event.tenant || rows[i].event.eventId != rows[j].event.eventId
  }

  lemma {:induction false} InsertedElements(rows: seq<Row>, r: Row)
    ensures |Inserted(rows, r)| == |rows| + 1
    ensures forall s :: s in Inserted(rows, r) <==> s in rows || s == r
    decreases |rows|
  {
    if rows != [] && Before(r, rows[|rows| - 1]) {
      InsertedElements(rows[..|rows| - 1], r);
      assert rows == rows[..|rows| - 1] + [rows[|rows| - 1]];
    }
  }

  lemma {:induction false} InsertedInOrder(rows: seq<Row>, r: Row)
    requires InOrder(rows)
    ensures InOrder(Inserted(rows, r))
    decreases |rows|
  {
    var after := Inserted(rows, r);
    if rows != [] && Before(r, rows[|rows| - 1]) {
      var before := rows[..|rows| - 1];
      InsertedInOrder(before, r);
      InsertedElements(before, r);
      forall i, j | 0 <= i < j < |after| ensures NotLater(after[i], after[j]) {
        if j == |after| - 1 {
          assert after[i] in Inserted(before, r);
          assert after[i] == r || exists m :: 0 <= m < |before| && before[m] == after[i];
        }
      }
    } else {
      forall i, j | 0 <= i < j < |after| ensures NotLater(after[i], after[j]) {
        if j == |rows| && i < |rows| - 1 {
          assert NotLater(rows[i], rows[|rows| - 1]);
        }
      }
    }
  }

  lemma {:induction false} InsertedUnique(rows: seq<Row>, r: Row)
    requires UniqueIds(rows)
    requires forall s :: s in rows ==> s.event.tenant != r.event.tenant || s.event.eventId != r.event.eventId
    ensures UniqueIds(Inserted(rows, r))
    decreases |rows|
  {
    if rows != [] && Before(r, rows[|rows| - 1]) {
      var before := rows[..|rows| - 1];
      var last := rows[|rows| - 1];
      InsertedUnique(before, r);
      InsertedElements(before, r);
      forall s | s in Inserted(before, r)
        ensures s.event.tenant != last.event.tenant || s.event.eventId != last.event.eventId
      {
        assert s == r || exists m :: 0 <= m < |before| && before[m] == s;
      }
    }
  }

  lemma NotBeforeAny(rows: seq<Row>, r: Row)
    requires InOrder(rows) && rows != [] && NotLater(rows[|rows| - 1], r)
    ensures forall s :: s in rows ==> NotLater(s, r)
  {
    forall i | 0 <= i < |rows| ensures NotLater(rows[i], r) {
      assert i < |rows| - 1 ==> NotLater(rows[i], rows[|rows| - 1]);
    }
  }

  lemma SelectLast(rows: seq<Row>, last: Row, q: Query)
    ensures Select(rows + [last], q) == if q.Matches(last) then Select(rows, q) + [last] else Select(rows, q)
  {
    assert (rows + [last])[..|rows|] == rows;
  }

  lemma InsertedLast(rows: seq<Row>, last: Row, r: Row)
    requires Before(r, last)
    ensures Inserted(rows + [last], r) == Inserted(rows, r) + [last]
  {
    assert (rows + [last])[..|rows|] == rows;
  }

  /** Selecting from the table with a new row is inserting into the selection, or leaves it alone. */
  lemma {:induction false} SelectInserted(rows: seq<Row>, r: Row, q: Query)
    requires InOrder(rows)
    ensures Select(Inserted(rows, r), q) == if q.Matches(r) then Inserted(Select(rows, q), r) else Select(rows, q)
    decreases |rows|
  {
    if rows == [] || !Before(r, rows[|rows| - 1]) {
      SelectLast(rows, r, q);
      if rows != [] {
        NotBeforeAny(rows, r);
      }
      InsertedAtEnd(Select(rows, q), r);
    } else {
      var before, last := rows[..|rows| - 1], rows[|rows| - 1];
      assert rows == before + [last];
      SelectInserted(before, r, q);
      SelectLast(Inserted(before, r), last, q);
      SelectLast(before, last, q);
      InsertedLast(Select(before, q), last, r);
    }
  }

  /** All rows belong to one tenant. */
  ghost predicate SingleTenant(rows: seq<Row>) {
    forall r, s :: r in rows && s in rows ==> r.event.tenant == s.event.tenant
  }

  lemma {:induction false} SelectUnique(rows: seq<Row>, q: Query)
    requires UniqueIds(rows)
    ensures UniqueIds(Select(rows, q)) && SingleTenant(Select(rows, q))
    decreases |rows|
  {
    if rows != [] {
      SelectUnique(rows[..|rows| - 1], q);
    }
  }

  // ---- One emit ----

  /** The new row comes after all rows of its tenant. */
  ghost predicate IsNewest(rows: seq<Row>, r: Row) {
    forall s :: s in rows && s.event.tenant == r.event.tenant ==> NotLater(s, r)
  }

  lemma {:induction false} InsertedAtEnd(rows: seq<Row>, r: Row)
    requires forall s :: s in rows ==> NotLater(s, r)
    ensures Inserted(rows, r) == rows + [r]
  {
    assert rows != [] ==> rows[|rows| - 1] in rows;
  }

  /** An emit leaves the logs of all other tenants alone. */
  lemma OtherTenantsUnchanged(env: Env, rows: seq<Row>, e: Event, createdAt: int, tenant: string)
    requires InOrder(rows) && Emitted(env, rows, e, createdAt).Some? && tenant != e.tenant
    ensures Select(Emitted(env, rows, e, createdAt).value, Everything(tenant)) == Select(rows, Everything(tenant))
  {
    SelectInserted(rows, NewRow(env, rows, e, createdAt), Everything(tenant));
  }

  /** An emit that is the newest of its tenant keeps the tenant's log a chain exactly when the event as
      the table gives it back has the hash of the event as it was emitted; in particular when the caller
      passed canonical ids, so that the two are the same. */
  lemma NewestEmitKeepsChain(env: Env, rows: seq<Row>, e: Event, createdAt: int)
    requires InOrder(rows) && Chain(env, Select(rows, Everything(e.tenant)))
    requires Emitted(env, rows, e, createdAt).Some? && IsNewest(rows, NewRow(env, rows, e, createdAt))
    ensures var mine := Select(rows, Everything(e.tenant));
            var r := NewRow(env, rows, e, createdAt);
            var after := Select(Emitted(env, rows, e, createdAt).value, Everything(e.tenant));
            && after == mine + [r]
            && (Chain(env, after) <==> EventHash(env, PrevOf(r), r.event) == EventHash(env, PrevOf(r), e))
            && (env.stored(e) == Some(e) ==> r.event == e && Chain(env, after))
  {
    var q := Everything(e.tenant);
    var mine := Select(rows, q);
    var r := NewRow(env, rows, e, createdAt);
    NewRowLinksToHead(env, rows, e, createdAt);
    SelectInserted(rows, r, q);
    InsertedAtEnd(mine, r);
    hide Select, Chain, Inserted, EventHash, Carried;
    ChainAppended(env, mine, r);
  }

  lemma ChainAppended(env: Env, rows: seq<Row>, r: Row)
    requires Chain(env, rows)
    ensures Chain(env, rows + [r]) <==> Links(env, Carried(rows, |rows|), r)
  {
    var after := rows + [r];
    hide Links;
    forall i | 0 <= i < |rows| ensures LinksAt(env, after, i) {
      assert LinksAt(env, rows, i) && Carried(after, i) == Carried(rows, i);
    }
    assert Carried(after, |rows|) == Carried(rows, |rows|);
    assert LinksAt(env, after, |rows|) <==> Links(env, Carried(rows, |rows|), r);
  }

  lemma {:induction false} InsertedPosition(rows: seq<Row>, r: Row) returns (p: nat)
    ensures p <= |rows| && Inserted(rows, r) == rows[..p] + [r] + rows[p..]
    ensures rows != [] && Before(r, rows[|rows| - 1]) ==> p < |rows|
    decreases |rows|
  {
    hide Before;
    if rows == [] || !Before(r, rows[|rows| - 1]) {
      p := |rows|;
      assert rows[..p] == rows && rows[p..] == [];
    } else {
      var before, last := rows[..|rows| - 1], rows[|rows| - 1];
      p := InsertedPosition(before, r);
      assert rows == before + [last];
      TailOf(before, last, p);
      assert before[..p] + [r] + before[p..] + [last] == before[..p] + [r] + (before[p..] + [last]);
    }
  }

  lemma TailOf(rows: seq<Row>, last: Row, p: nat)
    requires p <= |rows|
    ensures (rows + [last])[p..] == rows[p..] + [last] && (rows + [last])[..p] == rows[..p]
  {
  }

  /** No two rows of a chain have the same hash, and no row has the genesis hash, short of evidence. */
  lemma HashesAreDistinct(env: Env, rows: seq<Row>, i: nat, j: nat) returns (x: Option<Evidence>)
    requires Chain(env, rows) && UniqueIds(rows) && SingleTenant(rows)
    requires i < j <= |rows|
    ensures x == None ==> Carried(rows, i) != Carried(rows, j)
    ensures x.Some? ==> Shown(env, rows, rows, x.value)
  {
    LinkAt(env, rows, j - 1);
    x := None;
    if Carried(rows, i) == Carried(rows, j) {
      if i == 0 {
        x := Some(GenesisHash(j - 1));
      } else {
        LinkAt(env, rows, i - 1);
        x := SameHash(env, rows, rows, i - 1, j - 1);
        assert rows[i - 1] in rows && rows[j - 1] in rows;
      }
    }
  }

  lemma NewRowLinksToHead(env: Env, rows: seq<Row>, e: Event, createdAt: int)
    requires env.stored(e).Some?
    ensures var mine := Select(rows, Everything(e.tenant));
            PrevOf(NewRow(env, rows, e, createdAt)) == Carried(mine, |mine|)
  {
    var mine := Select(rows, Everything(e.tenant));
    assert mine != [] ==> mine[|mine| - 1] in mine;
  }

  /** An emit that is not the newest of its tenant, because the clock went back, breaks the tenant's log. */
  lemma LateEmitBreaksChain(env: Env, rows: seq<Row>, e: Event, createdAt: int) returns (x: Option<Evidence>)
    requires InOrder(rows) && UniqueIds(rows) && Chain(env, Select(rows, Everything(e.tenant)))
    requires Emitted(env, rows, e, createdAt).Some?
    requires var mine := Select(rows, Everything(e.tenant));
             mine != [] && !NotLater(mine[|mine| - 1], NewRow(env, rows, e, createdAt))
    ensures var mine := Select(rows, Everything(e.tenant));
            && (x == None ==> !Chain(env, Select(Emitted(env, rows, e, createdAt).value, Everything(e.tenant))))
            && (x.Some? ==> Shown(env, mine, mine, x.value))
  {
    hide Select, Inserted, EventHash, UniqueIds, InOrder, Chain, Shown, IdTaken, HeadOf, RowWith;
    var q := Everything(e.tenant);
    var mine := Select(rows, q);
    var r := NewRow(env, rows, e, createdAt);
    SelectUnique(rows, q);
    NewRowLinksToHead(env, rows, e, createdAt);
    SelectInserted(rows, r, q);
    MatchesOwnTenant(env, rows, e, createdAt);
    var p := InsertedPosition(mine, r);
    assert Select(Emitted(env, rows, e, createdAt).value, q) == mine[..p] + [r] + mine[p..];
    hide *;
    x := HashesAreDistinct(env, mine, p, |mine|);
    if x == None {
      MisplacedRow(env, mine, r, p);
    }
  }

  lemma MatchesOwnTenant(env: Env, rows: seq<Row>, e: Event, createdAt: int)
    requires env.stored(e).Some?
    ensures Everything(e.tenant).Matches(NewRow(env, rows, e, createdAt))
  {
  }

  /** A row between two others that was linked to something else than the row before it. */
  lemma MisplacedRow(env: Env, rows: seq<Row>, r: Row, p: nat)
    requires p <= |rows| && PrevOf(r) != Carried(rows, p)
    ensures !Chain(env, rows[..p] + [r] + rows[p..])
  {
    var after := rows[..p] + [r] + rows[p..];
    assert Carried(after, p) == Carried(rows, p);
    assert Chain(env, after) ==> LinksAt(env, after, p);
  }

  /** Two rows of a log that are linked to the same hash, as two emits that read the same head are, break
      it, wherever in the log they are. */
  lemma ForkBreaksChain(env: Env, log: seq<Row>, i: nat, j: nat) returns (x: Option<Evidence>)
    requires UniqueIds(log) && SingleTenant(log)
    requires i < j < |log| && PrevOf(log[i]) == PrevOf(log[j])
    ensures x == None ==> !Chain(env, log)
    ensures x.Some? ==> Shown(env, log, log, x.value)
  {
    x := None;
    if Chain(env, log) {
      LinkAt(env, log, i);
      LinkAt(env, log, j);
      x := HashesAreDistinct(env, log, i, j);
    }
  }

  // ---- Tables built by serial emits ----

  datatype Emit = Emit(e: Event, createdAt: int)

  function Built(env: Env, emits: seq<Emit>): seq<Row> {
    if emits == [] then []
    else
      var before := Built(env, emits[..|emits| - 1]);
      var last := emits[|emits| - 1];
      var after := Emitted(env, before, last.e, last.createdAt);
      if after.Some? then after.value else before
  }

  /** One emit after the other, for any tenants in any order: every id canonical and new, and every row
      newer than the rows of its tenant. */
  ghost predicate Serial(env: Env, emits: seq<Emit>) {
    emits == [] ||
    (var before := Built(env, emits[..|emits| - 1]);
     var last := emits[|emits| - 1];
     && Serial(env, emits[..|emits| - 1])
     && env.stored(last.e) == Some(last.e)
     && !IdTaken(before, last.e)
     && IsNewest(before, NewRow(env, before, last.e, last.createdAt)))
  }

  /** Every tenant's log is a chain. */
  lemma {:induction false} SerialTablesAreChains(env: Env, emits: seq<Emit>)
    requires Serial(env, emits)
    ensures InOrder(Built(env, emits)) && UniqueIds(Built(env, emits))
    ensures forall tenant :: Chain(env, Select(Built(env, emits), Everything(tenant)))
    decreases |emits|
  {
    if emits != [] {
      var before := Built(env, emits[..|emits| - 1]);
      var last := emits[|emits| - 1];
      SerialTablesAreChains(env, emits[..|emits| - 1]);
      var r := NewRow(env, before, last.e, last.createdAt);
      InsertedInOrder(before, r);
      InsertedUnique(before, r);
      NewestEmitKeepsChain(env, before, last.e, last.createdAt);
      forall tenant ensures Chain(env, Select(Built(env, emits), Everything(tenant))) {
        if tenant != last.e.tenant {
          OtherTenantsUnchanged(env, before, last.e, last.createdAt, tenant);
        }
      }
    }
  }

  /** Unfiltered, a tenant's log of a serial table is accepted up to the limit. */
  lemma SerialTablesVerify(env: Env, emits: seq<Emit>, tenant: string, limit: int)
    requires Serial(env, emits)
    ensures var log := Select(Built(env, emits), Everything(tenant));
            var selected := Limited(log, limit);
            Chain(env, selected) && |selected| == if |log| <= Clamp(limit) then |log| else Clamp(limit)
  {
    SerialTablesAreChains(env, emits);
    var log := Select(Built(env, emits), Everything(tenant));
    if |log| > Clamp(limit) {
      TruncationIsNotDetected(env, log, Clamp(limit));
    }
  }

  // ---- Filtered verification ----

  /** The rows a filter keeps, by position in the tenant's whole log; a row never moves towards the end. */
  ghost predicate Picks(log: seq<Row>, part: seq<Row>, positions: seq<nat>) {
    && |part| == |positions|
    && (forall i :: 0 <= i < |positions| ==> i <= positions[i] < |log| && part[i] == log[positions[i]])
  }

  lemma {:induction false} FilterPicks(rows: seq<Row>, q: Query) returns (positions: seq<nat>)
    ensures Picks(Select(rows, Everything(q.tenant)), Select(rows, q), positions)
    decreases |rows|
  {
    if rows == [] {
      positions := [];
    } else {
      var before := rows[..|rows| - 1];
      positions := FilterPicks(before, q);
      if q.Matches(rows[|rows| - 1]) {
        var n := |Select(before, Everything(q.tenant))|;
        SelectsNoMore(before, q);
        positions := positions + [n];
      }
    }
  }

  lemma {:induction false} SelectsNoMore(rows: seq<Row>, q: Query)
    ensures |Select(rows, q)| <= |Select(rows, Everything(q.tenant))|
    decreases |rows|
  {
    if rows != [] {
      SelectsNoMore(rows[..|rows| - 1], q);
    }
  }

  /** Rows picked from a chain that form a chain themselves are its first rows. */
  lemma {:induction false} ChainOfPicks(env: Env, log: seq<Row>, part: seq<Row>, positions: seq<nat>, n: nat)
      returns (x: Option<Evidence>)
    requires Chain(env, log) && UniqueIds(log) && SingleTenant(log)
    requires Picks(log, part, positions) && Chain(env, part) && n <= |part|
    ensures |part| <= |log|
    ensures x == None ==> part[..n] == log[..n]
    ensures x.Some? ==> Shown(env, log, log, x.value)
    decreases n
  {
    assert part != [] ==> |part| - 1 <= positions[|part| - 1];
    x := None;
    if n > 0 {
      x := ChainOfPicks(env, log, part, positions, n - 1);
      if x == None {
        x := NextPick(env, log, part, n - 1, positions[n - 1]);
      }
    }
  }

  /** One more row picked from position `j`, when the rows before it are the first ones of the log. */
  lemma NextPick(env: Env, log: seq<Row>, part: seq<Row>, i: nat, j: nat) returns (x: Option<Evidence>)
    requires Chain(env, log) && UniqueIds(log) && SingleTenant(log) && Chain(env, part)
    requires i < |part| && i <= j < |log| && part[i] == log[j] && part[..i] == log[..i]
    ensures x == None ==> part[..i + 1] == log[..i + 1]
    ensures x.Some? ==> Shown(env, log, log, x.value)
  {
    LinkAt(env, part, i);
    LinkAt(env, log, j);
    assert i > 0 ==> part[..i][i - 1] == log[..i][i - 1];
    assert Carried(part, i) == Carried(log, i);
    hide Chain, UniqueIds, SingleTenant, EventHash, Shown;
    x := None;
    if i < j {
      x := HashesAreDistinct(env, log, i, j);
    }
    if x == None {
      assert part[..i + 1] == part[..i] + [part[i]] && log[..i + 1] == log[..i] + [log[i]];
    }
  }

  /** Verifying a filtered, limited selection of a tenant's chain accepts exactly when the selection is an
      initial segment of the chain, short of evidence found in the chain itself. */
  lemma FilteredVerification(env: Env, rows: seq<Row>, q: Query, limit: int) returns (x: Option<Evidence>)
    requires UniqueIds(rows) && Chain(env, Select(rows, Everything(q.tenant)))
    ensures var log := Select(rows, Everything(q.tenant));
            var part := Limited(Select(rows, q), limit);
            && |part| <= |log|
            && (part == log[..|part|] ==> Chain(env, part))
            && (x == None ==> (Chain(env, part) <==> part == log[..|part|]))
            && (x.Some? ==> Shown(env, log, log, x.value))
  {
    var log := Select(rows, Everything(q.tenant));
    var part := Limited(Select(rows, q), limit);
    SelectUnique(rows, Everything(q.tenant));
    var positions := FilterPicks(rows, q);
    positions := positions[..|part|];
    assert Picks(log, part, positions);
    assert part != [] ==> |part| - 1 <= positions[|part| - 1];
    x := None;
    if Chain(env, part) {
      x := ChainOfPicks(env, log, part, positions, |part|);
      assert part[..|part|] == part;
    }
    TruncationIsNotDetected(env, log, |part|);
  }
}
