/** The stage rows that a completed run leaves behind, also when other attempts used its run id. */
module CompletedRuns {
  import opened Content
  import opened Pipeline
  import opened PipelineInvariant
  import opened StageRows
  import opened Store

  // ---- A completed run remembers all of its rows ----

  ghost predicate Remembers(p: Proc, row: nat) {
    || (exists j :: 0 <= j < |p.rowIds| && p.rowIds[j] == Some(row))
    || (p.pc.AtHandler? && p.pc.row == row)
    || (p.pc.AtFailRow? && p.pc.row == row)
    || (p.pc.AtDocpackEdge? && p.pc.row == row)
    || (p.pc.AtPriorEdge? && p.pc.row == row)
    || (p.pc.AtProducesEdge? && p.pc.row == row)
    || (p.pc.AtCacheRecord? && p.pc.row == row)
    || (p.pc.AtSuccessRow? && p.pc.row == row)
    || (p.pc.Raised? && p.pc.failedRow == Some(row))
    || p.pc.StoreError?
    || p.pc.Crashed?
  }

  /** Every stage row belongs to the run that inserted it, and that run knows it. */
  ghost predicate RowsAreKnown(w: World) {
    && |w.owner| == |w.tables.rows|
    && forall row :: 0 <= row < |w.owner| ==>
         && w.owner[row] < |w.procs|
         && w.tables.rows[row].run == w.procs[w.owner[row]].job.run
         && Remembers(w.procs[w.owner[row]], row)
  }

  lemma MemoryStays(env: Env, t: Tables, p: Proc, row: nat)
    requires WellFormed(p) && !p.pc.Stopped() && Remembers(p, row)
    ensures Remembers(Next(env, t, p).1, row)
  {
    var q := Next(env, t, p).1;
    NextMakesProgress(env, t, p);
    if j :| 0 <= j < |p.rowIds| && p.rowIds[j] == Some(row) {
      assert q.rowIds[j] == Some(row);
    } else if p.pc.AtSuccessRow? && !q.pc.StoreError? {
      assert q.rowIds[p.k] == Some(row);
    }
  }

  /** A call keeps every stage row's run; a row it inserts belongs to the run that made the call. */
  lemma CallInsertsOwnRow(env: Env, t: Tables, p: Proc)
    requires WellFormed(p) && !p.pc.Stopped()
    ensures var (u, q) := Next(env, t, p);
            && |t.rows| <= |u.rows| <= |t.rows| + 1
            && (forall row :: 0 <= row < |t.rows| ==> u.rows[row].run == t.rows[row].run)
            && (|u.rows| > |t.rows| ==> u.rows[|t.rows|].run == p.job.run && Remembers(q, |t.rows|))
  {
  }

  lemma StepKeepsRowsKnown(env: Env, w: World, step: Step)
    requires RowsAreKnown(w)
    ensures RowsAreKnown(After(env, w, step))
  {
    if step.Advance? && step.pid < |w.procs| && WellFormed(w.procs[step.pid]) && !w.procs[step.pid].pc.Stopped() {
      CallKeepsRowsKnown(env, w, step.pid);
    }
  }

  lemma CallKeepsRowsKnown(env: Env, w: World, pid: nat)
    requires RowsAreKnown(w) && pid < |w.procs| && WellFormed(w.procs[pid]) && !w.procs[pid].pc.Stopped()
    ensures RowsAreKnown(Advanced(env, w, pid))
  {
    hide Next, Remembers, WellFormed;
    var p := w.procs[pid];
    JobStaysInCall(env, w.tables, p);
    CallInsertsOwnRow(env, w.tables, p);
    forall row | 0 <= row < |w.owner| && w.owner[row] == pid ensures Remembers(Next(env, w.tables, p).1, row) {
      MemoryStays(env, w.tables, p, row);
    }
  }

  lemma JobStaysInCall(env: Env, t: Tables, p: Proc)
    requires WellFormed(p) && !p.pc.Stopped()
    ensures Next(env, t, p).1.job == p.job
  {
    NextMakesProgress(env, t, p);
  }

  lemma {:induction false} RowsAreKnownThroughout(env: Env, steps: seq<Step>)
    ensures RowsAreKnown(AfterAll(env, Empty, steps))
    decreases |steps|
  {
    if steps != [] {
      RowsAreKnownThroughout(env, steps[..|steps| - 1]);
      StepKeepsRowsKnown(env, AfterAll(env, Empty, steps[..|steps| - 1]), steps[|steps| - 1]);
    }
  }

  // ---- What every stage row looks like ----

  /** The stage input of stage `j` in the run. */
  function InputAt(p: Proc, j: nat): StageInput
    requires j < |p.job.stages| && j <= |p.outputs|
  {
    StageInputOf(p.job, j, p.outputs[..j])
  }

  /** The row stands for stage `j` of the run, whatever became of the stage. */
  ghost predicate IsRowOf(env: Env, p: Proc, j: nat, r: StageRow) {
    && j < |p.job.stages| && j <= |p.outputs|
    && var i := InputAt(p, j);
    && r.run == p.job.run && r.index == i.index && r.name == i.name && r.version == i.version
    && r.toolchain == p.job.toolchain && r.prompt == i.prompt && r.input == InputSha(env, i)
  }

  ghost predicate IsSomeRowOf(env: Env, p: Proc, r: StageRow) { exists j: nat :: IsRowOf(env, p, j, r) }

  /** Every stage row stands for a stage of the run that inserted it. */
  ghost predicate RowsHaveShape(env: Env, w: World) {
    && |w.owner| == |w.tables.rows|
    && forall row :: 0 <= row < |w.owner| ==>
         w.owner[row] < |w.procs| && IsSomeRowOf(env, w.procs[w.owner[row]], w.tables.rows[row])
  }

  /** Two rows that differ in nothing but how the stage went. */
  predicate SameStage(r: StageRow, s: StageRow) {
    s == r.(status := s.status, failClosed := s.failClosed, output := s.output, error := s.error)
  }

  /** A call never changes what stage a row stands for, and a row that it inserts stands for the stage the
      run is at; the run's finished stages stay what they were. */
  lemma CallKeepsStages(env: Env, t: Tables, p: Proc)
    requires WellFormed(p) && !p.pc.Stopped()
    ensures var (u, q) := Next(env, t, p);
            && |t.rows| <= |u.rows| <= |t.rows| + 1
            && (forall row :: 0 <= row < |t.rows| ==> SameStage(t.rows[row], u.rows[row]))
            && (|u.rows| > |t.rows| ==> IsRowOf(env, q, q.k, u.rows[|t.rows|]))
            && q.job == p.job && p.outputs <= q.outputs
  {
    assert p.outputs[..p.k] == p.outputs;
  }

  lemma RowStaysOfStage(env: Env, p: Proc, q: Proc, r: StageRow, s: StageRow)
    requires IsSomeRowOf(env, p, r) && SameStage(r, s) && q.job == p.job && p.outputs <= q.outputs
    ensures IsSomeRowOf(env, q, s)
  {
    var j: nat :| IsRowOf(env, p, j, r);
    assert q.outputs[..j] == p.outputs[..j];
    assert IsRowOf(env, q, j, s);
  }

  lemma StepKeepsShape(env: Env, w: World, step: Step)
    requires RowsHaveShape(env, w)
    ensures RowsHaveShape(env, After(env, w, step))
  {
    hide IsSomeRowOf, SameStage, Next, WellFormed;
    if step.Advance? && step.pid < |w.procs| && WellFormed(w.procs[step.pid]) && !w.procs[step.pid].pc.Stopped() {
      CallKeepsShape(env, w, step.pid);
    } else {
      var v := After(env, w, step);
      forall row | 0 <= row < |w.owner| ensures IsSomeRowOf(env, v.procs[w.owner[row]], v.tables.rows[row]) {
        SameItself(w.tables.rows[row]);
        RowStaysOfStage(env, w.procs[w.owner[row]], v.procs[w.owner[row]], w.tables.rows[row], v.tables.rows[row]);
      }
    }
  }

  lemma CallKeepsShape(env: Env, w: World, pid: nat)
    requires RowsHaveShape(env, w)
    requires pid < |w.procs| && WellFormed(w.procs[pid]) && !w.procs[pid].pc.Stopped()
    ensures RowsHaveShape(env, Advanced(env, w, pid))
  {
    hide IsSomeRowOf, SameStage, IsRowOf, Next, WellFormed;
    var v := Advanced(env, w, pid);
    var p, q := w.procs[pid], v.procs[pid];
    CallKeepsStages(env, w.tables, p);
    forall row | 0 <= row < |w.owner| ensures IsSomeRowOf(env, v.procs[w.owner[row]], v.tables.rows[row]) {
      RowStaysOfStage(env, w.procs[w.owner[row]], v.procs[w.owner[row]], w.tables.rows[row], v.tables.rows[row]);
    }
    if |v.owner| > |w.owner| {
      SomeRow(env, q, q.k, v.tables.rows[|w.owner|]);
    }
  }

  lemma SomeRow(env: Env, p: Proc, j: nat, r: StageRow)
    requires IsRowOf(env, p, j, r)
    ensures IsSomeRowOf(env, p, r)
  {
  }

  lemma SameItself(r: StageRow)
    ensures SameStage(r, r)
  {
  }

  lemma {:induction false} RowsHaveShapeThroughout(env: Env, steps: seq<Step>)
    ensures RowsHaveShape(env, AfterAll(env, Empty, steps))
    decreases |steps|
  {
    if steps != [] {
      RowsHaveShapeThroughout(env, steps[..|steps| - 1]);
      StepKeepsShape(env, AfterAll(env, Empty, steps[..|steps| - 1]), steps[|steps| - 1]);
    }
  }

  // ---- The stage rows of a completed run ----

  /** A run that returned. Whatever else used its run id ran the same job: attempts that crashed or were
      stopped before it, or repetitions of it. */
  ghost predicate Completed(env: Env, steps: seq<Step>, pid: nat) {
    var w := AfterAll(env, Empty, steps);
    && NoCollision(env, w.seen)
    && pid < |w.procs| && w.procs[pid].pc.Returned?
    && forall q :: 0 <= q < |w.procs| && w.procs[q].job.run == w.procs[pid].job.run ==>
        w.procs[q].job == w.procs[pid].job
  }

  /** Every stage row under the run id stands for a stage of the run, and a materialized one holds the
      output that the run returned for the stage. */
  lemma RowsOfCompletedRun(env: Env, steps: seq<Step>, pid: nat, r: StageRow) returns (j: nat)
    requires Completed(env, steps, pid)
    requires var w := AfterAll(env, Empty, steps); r in w.tables.rows && r.run == w.procs[pid].job.run
    ensures var p := AfterAll(env, Empty, steps).procs[pid];
            && |p.outputs| == |p.job.stages|
            && IsRowOf(env, p, j, r)
            && (IsUsable(r) ==> r.output == Some(p.outputs[j]))
            && (r.output.Some? ==> IsUsable(r))
  {
    hide AfterAll, NoCollision, IsRowOf, Fold, PcSound, TablesSound, InputSha;
    var w := AfterAll(env, Empty, steps);
    var p := w.procs[pid];
    ReachableWorldsAreSound(env, steps);
    RowsHaveShapeThroughout(env, steps);
    var row: nat :| row < |w.tables.rows| && w.tables.rows[row] == r;
    var q := w.procs[w.owner[row]];
    j := StageOfRow(env, q, r);
    assert ProcSound(env, w, pid, p) && ProcSound(env, w, w.owner[row], q);
    ReturnedIsComplete(env, w, pid, p);
    SameStageOfSameJob(env, q, p, j, r);
    DoneStageOfRow(env, w, pid, p, j, r);
  }

  lemma ReturnedIsComplete(env: Env, w: World, pid: nat, p: Proc)
    requires ProcSound(env, w, pid, p) && p.pc.Returned?
    ensures |p.outputs| == |p.job.stages|
  {
  }

  lemma StageOfRow(env: Env, p: Proc, r: StageRow) returns (j: nat)
    requires IsSomeRowOf(env, p, r)
    ensures IsRowOf(env, p, j, r) && r.run == p.job.run
  {
    j :| IsRowOf(env, p, j, r);
  }

  lemma SameStageOfSameJob(env: Env, q: Proc, p: Proc, j: nat, r: StageRow)
    requires IsRowOf(env, q, j, r) && q.job == p.job && |q.outputs| <= |p.outputs| == |p.job.stages|
    requires Fold(env, q.job, |q.outputs|) == Some(q.outputs) && Fold(env, p.job, |p.outputs|) == Some(p.outputs)
    ensures IsRowOf(env, p, j, r) && j < |p.outputs|
  {
    FoldOfPrefix(env, p.job, |p.outputs|, |q.outputs|);
    assert q.outputs == p.outputs[..|q.outputs|];
    assert q.outputs[..j] == p.outputs[..j];
  }

  lemma DoneStageOfRow(env: Env, w: World, pid: nat, p: Proc, j: nat, r: StageRow)
    requires TablesSound(env, w.tables, w.seen) && r in w.tables.rows
    requires Past(env, w, pid, p.job, p.outputs, p.rowIds) && j < |p.outputs| && IsRowOf(env, p, j, r)
    ensures (IsUsable(r) ==> r.output == Some(p.outputs[j])) && (r.output.Some? ==> IsUsable(r))
  {
    assert RowSound(w.tables, r);
    assert StageDone(env, w, pid, p.job, p.outputs, p.rowIds, j);
    hide RowSound, Past, TablesSound;
    UsableRowIsCached(w.tables, r);
  }

  lemma UsableRowIsCached(t: Tables, r: StageRow)
    requires RowSound(t, r)
    ensures IsUsable(r) ==> Cached(t, CacheKey(r.name, r.version, r.input)) == r.output
    ensures r.output.Some? ==> IsUsable(r)
  {
  }

  // ---- A run that is alone under its run id ----

  /** No other run shares the run id. */
  ghost predicate IsSole(w: World, pid: nat)
    requires pid < |w.procs|
  {
    forall q :: 0 <= q < |w.procs| && q != pid ==> w.procs[q].job.run != w.procs[pid].job.run
  }

  /** A run that returned, alone under its run id, in a world that the steps lead to. */
  ghost predicate Finished(env: Env, steps: seq<Step>, pid: nat) {
    var w := AfterAll(env, Empty, steps);
    && NoCollision(env, w.seen)
    && pid < |w.procs| && w.procs[pid].pc.Returned?
    && IsSole(w, pid)
  }

  /** The row that the run leaves for stage `j` when the stage was not answered by the cache. */
  function RowAt(env: Env, p: Proc, j: nat): StageRow
    requires j < |p.job.stages| && j < |p.outputs|
  {
    SuccessRow(env, p.job, InputAt(p, j), p.outputs[j])
  }

  /** The rows of the run are those of its stages that missed. */
  ghost predicate AreRowsOf(env: Env, p: Proc, rows: seq<StageRow>) {
    && |p.outputs| == |p.rowIds| == |p.job.stages|
    && forall r :: r in rows && r.run == p.job.run <==>
         exists j :: 0 <= j < |p.outputs| && p.rowIds[j].Some? && r == RowAt(env, p, j)
  }

  /** The run's stage rows are exactly one success row for each stage that missed the cache. */
  lemma RowsOfFinishedRun(env: Env, steps: seq<Step>, pid: nat)
    requires Finished(env, steps, pid)
    ensures var w := AfterAll(env, Empty, steps);
            var p := w.procs[pid];
            UniqueSlots(w.tables.rows) && AreRowsOf(env, p, w.tables.rows)
  {
    hide AfterAll, Fold, NoCollision, StageDone, PcSound, EntryExplained, RowSound, RowAt, InputSha, Remembers;
    var w := AfterAll(env, Empty, steps);
    var p := w.procs[pid];
    ReachableWorldsAreSound(env, steps);
    RowsAreKnownThroughout(env, steps);
    assert ProcSound(env, w, pid, p);
    ReturnedIsComplete(env, w, pid, p);
    forall j: nat | j < |p.outputs| && p.rowIds[j].Some?
      ensures RowAt(env, p, j) in w.tables.rows && RowAt(env, p, j).run == p.job.run
    {
      OwnRow(env, w, pid, p, j);
    }
    forall r | r in w.tables.rows && r.run == p.job.run
      ensures exists j :: 0 <= j < |p.outputs| && p.rowIds[j].Some? && r == RowAt(env, p, j)
    {
      var row: nat :| row < |w.tables.rows| && w.tables.rows[row] == r;
      assert w.owner[row] == pid;
      var j := RememberedStage(p, row);
      OwnRow(env, w, pid, p, j);
    }
  }

  /** The row of a stage that missed is in the table at the position that the run remembers. */
  lemma OwnRow(env: Env, w: World, pid: nat, p: Proc, j: nat)
    requires Past(env, w, pid, p.job, p.outputs, p.rowIds) && j < |p.outputs| && p.rowIds[j].Some?
    ensures var row := p.rowIds[j].value; row < |w.tables.rows| && w.tables.rows[row] == RowAt(env, p, j)
    ensures RowAt(env, p, j) in w.tables.rows && RowAt(env, p, j).run == p.job.run
  {
    assert StageDone(env, w, pid, p.job, p.outputs, p.rowIds, j);
  }

  lemma RememberedStage(p: Proc, row: nat) returns (j: nat)
    requires Remembers(p, row) && p.pc.Returned?
    ensures j < |p.rowIds| && p.rowIds[j] == Some(row)
  {
    j :| 0 <= j < |p.rowIds| && p.rowIds[j] == Some(row);
  }

  ghost predicate IndicesAscend(job: Job) {
    forall i, j :: 0 <= i < j < |job.stages| ==> job.stages[i].index < job.stages[j].index
  }
}
