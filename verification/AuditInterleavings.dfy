/** Emits as the two statements they are, reading the head and inserting the row, in transactions that
    overlap in any way: exactly when a tenant's log stays a chain. */
module AuditInterleavings {
  import opened Content
  import opened AuditChain
  import opened AuditTheorems

  /** A transaction that has read the head and, while `isOpen`, has not inserted yet. */
  datatype Txn = Txn(e: Event, createdAt: int, prev: Option<Hash>, isOpen: bool)

  datatype World = World(rows: seq<Row>, txns: seq<Txn>)

  datatype Step = ReadHead(e: Event, createdAt: int) | Insert(t: nat)

  const Empty: World := World([], [])

  /** The insert goes through: the transaction is waiting for it and the table accepts the row. */
  predicate Inserts(env: Env, w: World, t: nat) {
    && t < |w.txns| && w.txns[t].isOpen
    && env.stored(w.txns[t].e).Some? && !IdTaken(w.rows, w.txns[t].e)
  }

  function RowOf(env: Env, txn: Txn): Row
    requires env.stored(txn.e).Some?
  {
    RowWith(env, txn.prev, txn.e, txn.createdAt)
  }

  /** An insert that raises ends its transaction; one without a waiting transaction is no step. */
  function After(env: Env, w: World, step: Step): World {
    match step
    case ReadHead(e, createdAt) => w.(txns := w.txns + [Txn(e, createdAt, HeadOf(w.rows, e.tenant), true)])
    case Insert(t) =>
      var rows := if Inserts(env, w, t) then Inserted(w.rows, RowOf(env, w.txns[t])) else w.rows;
      World(rows, if t < |w.txns| then w.txns[t := w.txns[t].(isOpen := false)] else w.txns)
  }

  function AfterAll(env: Env, steps: seq<Step>): World {
    if steps == [] then Empty else After(env, AfterAll(env, steps[..|steps| - 1]), steps[|steps| - 1])
  }

  function LogOf(rows: seq<Row>, tenant: string): seq<Row> { Select(rows, Everything(tenant)) }

  // ---- What every step keeps ----

  /** A hash that is none, or that of a row of the tenant. */
  ghost predicate IsKnown(rows: seq<Row>, tenant: string, prev: Option<Hash>) {
    prev == None || exists y :: y in rows && y.event.tenant == tenant && y.hash == prev
  }

  ghost predicate Inv(w: World) {
    && InOrder(w.rows) && UniqueIds(w.rows)
    && (forall r :: r in w.rows ==> r.hash.Some? && IsKnown(w.rows, r.event.tenant, r.prev))
    && (forall t :: 0 <= t < |w.txns| ==> IsKnown(w.rows, w.txns[t].e.tenant, w.txns[t].prev))
  }

  lemma HeadIsKnown(rows: seq<Row>, tenant: string)
    ensures IsKnown(rows, tenant, HeadOf(rows, tenant))
  {
    var mine := LogOf(rows, tenant);
    assert mine != [] ==> mine[|mine| - 1] in mine;
  }

  lemma KnownStaysKnown(rows: seq<Row>, r: Row, tenant: string, prev: Option<Hash>)
    requires IsKnown(rows, tenant, prev)
    ensures IsKnown(Inserted(rows, r), tenant, prev)
  {
    InsertedElements(rows, r);
  }

  lemma InsertKeepsInv(env: Env, w: World, t: nat)
    requires Inv(w) && Inserts(env, w, t)
    ensures Inv(After(env, w, Insert(t)))
  {
    var v := After(env, w, Insert(t));
    var r := RowOf(env, w.txns[t]);
    InsertedElements(w.rows, r);
    InsertedInOrder(w.rows, r);
    InsertedUnique(w.rows, r);
    hide Inserted, InOrder, UniqueIds, IsKnown, EventHash;
    forall s | s in v.rows ensures IsKnown(v.rows, s.event.tenant, s.prev) {
      KnownStaysKnown(w.rows, r, s.event.tenant, s.prev);
    }
    forall u | 0 <= u < |v.txns| ensures IsKnown(v.rows, v.txns[u].e.tenant, v.txns[u].prev) {
      KnownStaysKnown(w.rows, r, v.txns[u].e.tenant, v.txns[u].prev);
    }
  }

  lemma StepKeepsInv(env: Env, w: World, step: Step)
    requires Inv(w)
    ensures Inv(After(env, w, step))
  {
    match step
    case ReadHead(e, createdAt) => HeadIsKnown(w.rows, e.tenant);
    case Insert(t) =>
      if Inserts(env, w, t) {
        InsertKeepsInv(env, w, t);
      }
  }

  lemma {:induction false} WorldsAreSound(env: Env, steps: seq<Step>)
    ensures Inv(AfterAll(env, steps))
    decreases |steps|
  {
    if steps != [] {
      WorldsAreSound(env, steps[..|steps| - 1]);
      StepKeepsInv(env, AfterAll(env, steps[..|steps| - 1]), steps[|steps| - 1]);
    }
  }

  // ---- One insert ----

  /** No row of the log comes after the new one, and the new one links to the log's head. */
  ghost predicate IsClean(env: Env, log: seq<Row>, r: Row) {
    (forall s :: s in log ==> NotLater(s, r)) && Links(env, Carried(log, |log|), r)
  }

  lemma {:induction false} SelectInOrder(rows: seq<Row>, q: Query)
    requires InOrder(rows)
    ensures InOrder(Select(rows, q))
    decreases |rows|
  {
    if rows != [] {
      var before, last := rows[..|rows| - 1], rows[|rows| - 1];
      SelectInOrder(before, q);
      forall i | 0 <= i < |Select(before, q)| ensures NotLater(Select(before, q)[i], last) {
        assert Select(before, q)[i] in before;
      }
    }
  }

  /** A row inserted before the end of a log that ends up a chain: the row after it is linked to it, but
      was written knowing another hash, or none. */
  lemma InsertedEarly(env: Env, log: seq<Row>, r: Row, p: nat) returns (x: Evidence)
    requires p < |log| && r.hash.Some?
    requires var after := log[..p] + [r] + log[p..];
             Chain(env, after) && UniqueIds(after) && SingleTenant(after)
    requires log[p].prev == None || exists y :: y in log && y.hash == log[p].prev
    ensures var after := log[..p] + [r] + log[p..]; Shown(env, after, after, x)
  {
    var after := log[..p] + [r] + log[p..];
    assert after[p] == r && after[p + 1] == log[p];
    LinkAt(env, after, p);
    LinkAt(env, after, p + 1);
    if log[p].prev == None {
      x := GenesisHash(p);
    } else {
      var k :| 0 <= k < |log| && log[k].hash == log[p].prev;
      var m := if k < p then k else k + 1;
      assert after[m] == log[k];
      LinkAt(env, after, m);
      var evidence := HashesAreDistinct(env, after, if m < p then m + 1 else p + 1, if m < p then p + 1 else m + 1);
      x := evidence.value;
    }
  }

  /** After an insert the tenant's log is a chain exactly when it was one before and the insert was clean,
      short of evidence. */
  lemma InsertKeepsChainExactlyWhen(env: Env, rows: seq<Row>, r: Row) returns (x: Option<Evidence>)
    requires InOrder(rows) && UniqueIds(Inserted(rows, r)) && r.hash.Some?
    requires forall s :: s in rows ==> s.hash.Some? && IsKnown(rows, s.event.tenant, s.prev)
    ensures var log := LogOf(rows, r.event.tenant);
            var after := LogOf(Inserted(rows, r), r.event.tenant);
            && (IsClean(env, log, r) ==> after == log + [r])
            && (Chain(env, log) && IsClean(env, log, r) ==> Chain(env, after))
            && (x == None ==> (Chain(env, after) <==> Chain(env, log) && IsClean(env, log, r)))
            && (x.Some? ==> Shown(env, after, after, x.value))
  {
    var q := Everything(r.event.tenant);
    var log := Select(rows, q);
    var after := Select(Inserted(rows, r), q);
    SelectInserted(rows, r, q);
    SelectInOrder(rows, q);
    SelectUnique(Inserted(rows, r), q);
    assert after == Inserted(log, r);
    LogKnows(rows, r.event.tenant);
    x := WhereItWent(env, log, after, r);
  }

  lemma LogKnows(rows: seq<Row>, tenant: string)
    requires forall s :: s in rows ==> s.hash.Some? && IsKnown(rows, s.event.tenant, s.prev)
    ensures var log := LogOf(rows, tenant);
            forall s :: s in log ==> s.prev == None || exists y :: y in log && y.hash == s.prev
  {
    var log := LogOf(rows, tenant);
    SelectsAllMatches(rows, Everything(tenant));
    forall s | s in log && s.prev != None ensures exists y :: y in log && y.hash == s.prev {
      var y :| y in rows && y.event.tenant == tenant && y.hash == s.prev;
      assert y in log;
    }
  }

  lemma {:induction false} SelectsAllMatches(rows: seq<Row>, q: Query)
    ensures forall r :: r in rows && q.Matches(r) ==> r in Select(rows, q)
    decreases |rows|
  {
    if rows != [] {
      SelectsAllMatches(rows[..|rows| - 1], q);
      assert rows == rows[..|rows| - 1] + [rows[|rows| - 1]];
    }
  }

  lemma WhereItWent(env: Env, log: seq<Row>, after: seq<Row>, r: Row) returns (x: Option<Evidence>)
    requires InOrder(log) && after == Inserted(log, r) && UniqueIds(after) && SingleTenant(after) && r.hash.Some?
    requires forall s :: s in log ==> s.prev == None || exists y :: y in log && y.hash == s.prev
    ensures IsClean(env, log, r) ==> after == log + [r]
    ensures Chain(env, log) && IsClean(env, log, r) ==> Chain(env, after)
    ensures x == None ==> (Chain(env, after) <==> Chain(env, log) && IsClean(env, log, r))
    ensures x.Some? ==> Shown(env, after, after, x.value)
  {
    x := None;
    if log == [] || !Before(r, log[|log| - 1]) {
      assert after == log + [r];
      if log != [] {
        NotBeforeAny(log, r);
      }
      AtTheEnd(env, log, r);
    } else {
      assert log[|log| - 1] in log;
      var p := InsertedPosition(log, r);
      if Chain(env, after) {
        assert log[p] in log;
        var evidence := InsertedEarly(env, log, r, p);
        x := Some(evidence);
      }
    }
  }

  lemma AtTheEnd(env: Env, log: seq<Row>, r: Row)
    ensures Chain(env, log + [r]) <==> Chain(env, log) && Links(env, Carried(log, |log|), r)
  {
    if Chain(env, log + [r]) {
      TruncationIsNotDetected(env, log + [r], |log|);
      assert (log + [r])[..|log|] == log;
    }
    if Chain(env, log) {
      ChainAppended(env, log, r);
    }
  }

  // ---- All interleavings ----

  /** Every insert into the tenant's log was clean: at that moment the row was the newest of the tenant,
      the head was still the one the transaction had read, and the stored event had the hash of the emitted
      one. */
  ghost predicate AllClean(env: Env, steps: seq<Step>, tenant: string) {
    steps == [] ||
    (var w, step := AfterAll(env, steps[..|steps| - 1]), steps[|steps| - 1];
     && AllClean(env, steps[..|steps| - 1], tenant)
     && (step.Insert? && Inserts(env, w, step.t) && w.txns[step.t].e.tenant == tenant ==>
           IsClean(env, LogOf(w.rows, tenant), RowOf(env, w.txns[step.t]))))
  }

  /** What `IsClean` asks of a transaction. */
  lemma CleanMeans(env: Env, rows: seq<Row>, txn: Txn)
    requires env.stored(txn.e).Some?
    ensures var log := LogOf(rows, txn.e.tenant);
            var r := RowOf(env, txn);
            IsClean(env, log, r) <==>
              && (forall s :: s in log ==> NotLater(s, r))
              && PrevOf(r) == Carried(log, |log|)
              && EventHash(env, PrevOf(r), r.event) == EventHash(env, PrevOf(r), txn.e)
  {
  }

  /** Main theorem: however the emits of any tenants overlap, a tenant's log is a chain if and only if every
      insert into it was clean, or the log itself exhibits evidence against the hash. */
  lemma {:induction false} LogIsChainExactlyWhen(env: Env, steps: seq<Step>, tenant: string)
      returns (x: Option<Evidence>)
    ensures var log := LogOf(AfterAll(env, steps).rows, tenant);
            && (AllClean(env, steps, tenant) ==> Chain(env, log))
            && (x == None ==> (Chain(env, log) <==> AllClean(env, steps, tenant)))
            && (x.Some? ==> Shown(env, log, log, x.value))
    decreases |steps|
  {
    if steps == [] {
      x := None;
    } else {
      var before, step := steps[..|steps| - 1], steps[|steps| - 1];
      var w := AfterAll(env, before);
      x := LogIsChainExactlyWhen(env, before, tenant);
      WorldsAreSound(env, before);
      if step.Insert? && Inserts(env, w, step.t) {
        x := LastInsert(env, w, step.t, tenant, AllClean(env, before, tenant), x);
      }
    }
  }

  /** One more insert, when `clean` describes the log before it as the theorem says. */
  lemma LastInsert(env: Env, w: World, t: nat, tenant: string, clean: bool, e: Option<Evidence>)
      returns (x: Option<Evidence>)
    requires Inv(w) && Inserts(env, w, t)
    requires var log := LogOf(w.rows, tenant);
             && (clean ==> Chain(env, log)) && (e == None ==> (Chain(env, log) <==> clean))
             && (e.Some? ==> Shown(env, log, log, e.value))
    ensures var log := LogOf(w.rows, tenant);
            var after := LogOf(After(env, w, Insert(t)).rows, tenant);
            var r := RowOf(env, w.txns[t]);
            var cleanAfter := clean && (r.event.tenant == tenant ==> IsClean(env, log, r));
            && (cleanAfter ==> Chain(env, after))
            && (x == None ==> (Chain(env, after) <==> cleanAfter))
            && (x.Some? ==> Shown(env, after, after, x.value))
  {
    var r := RowOf(env, w.txns[t]);
    var log := LogOf(w.rows, tenant);
    InsertedUnique(w.rows, r);
    SelectInserted(w.rows, r, Everything(tenant));
    x := e;
    if r.event.tenant == tenant {
      var y := InsertKeepsChainExactlyWhen(env, w.rows, r);
      hide Select, Inserted, Chain, InOrder, UniqueIds;
      if y.Some? {
        x := y;
      } else if !IsClean(env, log, r) {
        x := None;
      } else if e.Some? {
        assert (log + [r])[..|log|] == log;
        ShownInFull(env, log + [r], log + [r], |log|, |log|, e.value);
      }
    }
  }

  // ---- Emits one after the other ----

  /** A list of whole emits, as steps: each reads the head and inserts at once. */
  function EmitSteps(emits: seq<Emit>): seq<Step> {
    if emits == [] then []
    else
      var n := |emits| - 1;
      EmitSteps(emits[..n]) + [ReadHead(emits[n].e, emits[n].createdAt), Insert(n)]
  }

  /** Every emit to the tenant that went through was the newest of the tenant and was stored with its hash. */
  ghost predicate AllNewest(env: Env, emits: seq<Emit>, tenant: string) {
    emits == [] ||
    (var n := |emits| - 1;
     var rows, last := Built(env, emits[..n]), emits[n];
     && AllNewest(env, emits[..n], tenant)
     && (last.e.tenant == tenant && Emitted(env, rows, last.e, last.createdAt).Some? ==>
           var r := NewRow(env, rows, last.e, last.createdAt);
           && (forall s :: s in LogOf(rows, tenant) ==> NotLater(s, r))
           && EventHash(env, PrevOf(r), r.event) == EventHash(env, PrevOf(r), last.e)))
  }

  lemma TwoSteps(env: Env, steps: seq<Step>, s: Step, t: Step)
    ensures AfterAll(env, steps + [s, t]) == After(env, After(env, AfterAll(env, steps), s), t)
    ensures forall tenant :: AllClean(env, steps + [s, t], tenant) <==>
              AllClean(env, steps + [s], tenant) &&
              var w := After(env, AfterAll(env, steps), s);
              (t.Insert? && Inserts(env, w, t.t) && w.txns[t.t].e.tenant == tenant ==>
                 IsClean(env, LogOf(w.rows, tenant), RowOf(env, w.txns[t.t])))
    ensures s.ReadHead? ==> forall tenant :: AllClean(env, steps + [s], tenant) <==> AllClean(env, steps, tenant)
  {
    hide After, IsClean, Inserts;
    assert (steps + [s, t])[..|steps| + 1] == steps + [s];
    assert (steps + [s])[..|steps|] == steps;
  }

  /** Whole emits in a row build the table of the atomic emits, and their inserts are clean exactly when
      they are the newest with their own hash. */
  lemma {:induction false} EmitsAreSteps(env: Env, emits: seq<Emit>, tenant: string)
    ensures var w := AfterAll(env, EmitSteps(emits)); w.rows == Built(env, emits) && |w.txns| == |emits|
    ensures AllClean(env, EmitSteps(emits), tenant) <==> AllNewest(env, emits, tenant)
    decreases |emits|
  {
    if emits != [] {
      var n := |emits| - 1;
      var last := emits[n];
      EmitsAreSteps(env, emits[..n], tenant);
      var steps := EmitSteps(emits[..n]);
      TwoSteps(env, steps, ReadHead(last.e, last.createdAt), Insert(n));
      var w := AfterAll(env, steps);
      var txn := Txn(last.e, last.createdAt, HeadOf(w.rows, last.e.tenant), true);
      assert After(env, w, ReadHead(last.e, last.createdAt)).txns[n] == txn;
      hide AllClean, AllNewest, AfterAll, EmitSteps, Select, Built, Inserted, IsClean, EventHash;
      LastEmit(env, w.rows, txn);
      UnfoldNewest(env, emits, tenant);
      UnfoldBuilt(env, emits);
      UnfoldSteps(emits);
    }
  }

  lemma UnfoldSteps(emits: seq<Emit>)
    requires emits != []
    ensures var n := |emits| - 1;
            EmitSteps(emits) == EmitSteps(emits[..n]) + [ReadHead(emits[n].e, emits[n].createdAt), Insert(n)]
  {
  }

  lemma UnfoldBuilt(env: Env, emits: seq<Emit>)
    requires emits != []
    ensures var n := |emits| - 1;
            var before := Built(env, emits[..n]);
            var after := Emitted(env, before, emits[n].e, emits[n].createdAt);
            Built(env, emits) == if after.Some? then after.value else before
  {
  }

  lemma UnfoldNewest(env: Env, emits: seq<Emit>, tenant: string)
    requires emits != []
    ensures var n := |emits| - 1;
            var rows, last := Built(env, emits[..n]), emits[n];
            AllNewest(env, emits, tenant) <==>
              && AllNewest(env, emits[..n], tenant)
              && (last.e.tenant == tenant && Emitted(env, rows, last.e, last.createdAt).Some? ==>
                    var r := NewRow(env, rows, last.e, last.createdAt);
                    && (forall s :: s in LogOf(rows, tenant) ==> NotLater(s, r))
                    && EventHash(env, PrevOf(r), r.event) == EventHash(env, PrevOf(r), last.e))
  {
  }

  /** A transaction that inserts right after reading the head links to the head. */
  lemma LastEmit(env: Env, rows: seq<Row>, txn: Txn)
    requires txn.prev == HeadOf(rows, txn.e.tenant)
    ensures env.stored(txn.e).Some? ==>
              && RowOf(env, txn) == NewRow(env, rows, txn.e, txn.createdAt)
              && var r := RowOf(env, txn);
              (IsClean(env, LogOf(rows, txn.e.tenant), r) <==>
                 && (forall s :: s in LogOf(rows, txn.e.tenant) ==> NotLater(s, r))
                 && EventHash(env, PrevOf(r), r.event) == EventHash(env, PrevOf(r), txn.e))
  {
    if env.stored(txn.e).Some? {
      NewRowLinksToHead(env, rows, txn.e, txn.createdAt);
      CleanMeans(env, rows, txn);
    }
  }

  /** For emits one after the other, the tenant's log is a chain if and only if each of the tenant's emits
      was the newest and was stored with its own hash, short of evidence in the log. */
  lemma EmitsKeepChainExactlyWhen(env: Env, emits: seq<Emit>, tenant: string) returns (x: Option<Evidence>)
    ensures var log := LogOf(Built(env, emits), tenant);
            && (AllNewest(env, emits, tenant) ==> Chain(env, log))
            && (x == None ==> (Chain(env, log) <==> AllNewest(env, emits, tenant)))
            && (x.Some? ==> Shown(env, log, log, x.value))
  {
    hide *;
    EmitsAreSteps(env, emits, tenant);
    x := LogIsChainExactlyWhen(env, EmitSteps(emits), tenant);
  }
}
