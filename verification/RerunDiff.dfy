/** The run comparison against the orchestrator: where it finds the first difference between two completed
    runs of one job, before and after a change of prompt, toolchain or both. Each of them may have been
    resumed after attempts under its run id crashed or failed. */
module RerunDiff {
  import opened Content
  import opened Pipeline
  import opened PipelineInvariant
  import opened PipelineRun
  import opened PipelineTheorems
  import opened CompletedRuns
  import opened PlanExactness
  import opened RegenPlanner
  import opened RunDiff
  import opened StageRows
  import opened Store

  // ---- What a completed run shows ----

  /** What the rows under a run id show of a stage: nothing, when the cache answered it in every attempt; a
      row without an output, left by an attempt that did not get further; or a materialized row. */
  datatype Trace = NoRow | Unfinished | Materialized

  ghost function TraceOf(env: Env, p: Proc, rows: seq<StageRow>, j: nat): Trace {
    if !HasRow(env, p, rows, j) then NoRow else if IsMaterialized(env, p, rows, j) then Materialized else Unfinished
  }

  /** The entry of stage `j` in a stage map shows its trace, and the output that the run returned. */
  ghost predicate Shows(env: Env, p: Proc, rows: seq<StageRow>, stages: map<int, StageRow>, j: nat)
    requires j < |p.job.stages| && j < |p.outputs|
  {
    var i, trace := p.job.stages[j].index, TraceOf(env, p, rows, j);
    && (i in stages <==> trace != NoRow)
    && (i in stages ==>
          && IsRowOf(env, p, j, stages[i])
          && stages[i].output == if trace == Materialized then Some(p.outputs[j]) else None)
  }

  /** The stage map has entries for stages of the run only, and shows the trace of each. */
  ghost predicate IsMapOf(env: Env, p: Proc, rows: seq<StageRow>, stages: map<int, StageRow>) {
    && |p.outputs| == |p.job.stages|
    && (forall i :: i in stages ==> exists j :: 0 <= j < |p.job.stages| && p.job.stages[j].index == i)
    && forall j :: 0 <= j < |p.job.stages| ==> Shows(env, p, rows, stages, j)
  }

  lemma StagesOfCompletedRun(env: Env, steps: seq<Step>, pid: nat)
    requires Completed(env, steps, pid) && IndicesAscend(AfterAll(env, Empty, steps).procs[pid].job)
    ensures var w := AfterAll(env, Empty, steps);
            IsMapOf(env, w.procs[pid], w.tables.rows, StagesOf(w.tables, w.procs[pid].job.run))
  {
    hide AfterAll, NoCollision, StagesOf, IsRowOf, TablesSound, Shows;
    var w := AfterAll(env, Empty, steps);
    var p := w.procs[pid];
    var stages := StagesOf(w.tables, p.job.run);
    ReachableWorldsAreSound(env, steps);
    SlotsAreUnique(env, w);
    StagesAreTheRunsRows(w.tables, p.job.run);
    CompletedOutputs(env, steps, pid);
    forall i | i in stages ensures exists j :: 0 <= j < |p.job.stages| && p.job.stages[j].index == i {
      var j := RowsOfCompletedRun(env, steps, pid, stages[i]);
      RowIsAtStage(env, p, j, stages[i]);
    }
    forall j | 0 <= j < |p.job.stages| ensures Shows(env, p, w.tables.rows, stages, j) {
      EntryOfStage(env, steps, pid, j, stages);
    }
  }

  lemma SlotsAreUnique(env: Env, w: World)
    requires Inv(env, w)
    ensures UniqueSlots(w.tables.rows)
  {
  }

  lemma EntryOfStage(env: Env, steps: seq<Step>, pid: nat, j: nat, stages: map<int, StageRow>)
    requires Completed(env, steps, pid)
    requires var w := AfterAll(env, Empty, steps);
             var p := w.procs[pid];
             && IndicesAscend(p.job) && j < |p.job.stages| == |p.outputs|
             && AreStagesOf(stages, w.tables.rows, p.job.run)
    ensures var w := AfterAll(env, Empty, steps); Shows(env, w.procs[pid], w.tables.rows, stages, j)
  {
    hide AfterAll, NoCollision, IsRowOf;
    var w := AfterAll(env, Empty, steps);
    var p := w.procs[pid];
    var i := p.job.stages[j].index;
    forall r | r in w.tables.rows && IsRowOf(env, p, j, r) ensures i in stages && stages[i] == r {
      RowIsAtStage(env, p, j, r);
    }
    if i in stages {
      var r := stages[i];
      assert r in w.tables.rows && r.run == p.job.run && r.index == i;
      var h := RowsOfCompletedRun(env, steps, pid, r);
      RowIsAtStage(env, p, h, r);
      assert h == j;
    }
  }

  /** A run alone under its run id shows a materialized row for each stage that missed the cache. */
  lemma TracesOfFinishedRun(env: Env, steps: seq<Step>, pid: nat, j: nat)
    requires Finished(env, steps, pid)
    requires var p := AfterAll(env, Empty, steps).procs[pid]; IndicesAscend(p.job) && j < |p.job.stages|
    ensures var w := AfterAll(env, Empty, steps);
            var p := w.procs[pid];
            && |p.rowIds| == |p.job.stages|
            && TraceOf(env, p, w.tables.rows, j) == if p.rowIds[j].Some? then Materialized else NoRow
  {
    hide AfterAll, NoCollision, IsSole, HasRow, IsMaterialized;
    RowsOfSoleRun(env, steps, pid, j);
  }

  // ---- Two completed runs, before and after a change ----

  ghost predicate AreVariants(env: Env, steps: seq<Step>, pid: nat, qid: nat, req: Request) {
    && IsChange(req)
    && Completed(env, steps, pid) && Completed(env, steps, qid)
    && var w := AfterAll(env, Empty, steps);
    && IndicesAscend(w.procs[pid].job)
    && w.procs[qid].job == Regenerated(w.procs[pid].job, w.procs[qid].job.run, req)
  }

  lemma SameOutputsBeforeHit(env: Env, steps: seq<Step>, pid: nat, qid: nat, req: Request)
    requires AreVariants(env, steps, pid, qid, req)
    ensures var w := AfterAll(env, Empty, steps);
            var p, q := w.procs[pid], w.procs[qid];
            && |p.outputs| == |q.outputs| == |p.job.stages|
            && forall j :: 0 <= j < FirstHit(p.job, req) ==> p.outputs[j] == q.outputs[j]
  {
    hide AfterAll, NoCollision, Inv, Fold;
    var w := AfterAll(env, Empty, steps);
    var p, q := w.procs[pid], w.procs[qid];
    var first := FirstHit(p.job, req);
    ReachableWorldsAreSound(env, steps);
    CompletedOutputs(env, steps, pid);
    CompletedOutputs(env, steps, qid);
    PastOf(env, w, pid);
    PastOf(env, w, qid);
    FoldOfPrefix(env, p.job, |p.job.stages|, first);
    SameBeforeHit(env, p.job, q.job.run, req, first);
    SamePrefix(env, q.job, p.outputs[..first], q.outputs);
  }

  /** The rows show different outputs of the stage. */
  ghost predicate ShowOtherOutputs(env: Env, p: Proc, q: Proc, rows: seq<StageRow>, j: nat)
    requires j < |p.outputs| && j < |q.outputs|
  {
    var trace := TraceOf(env, p, rows, j);
    trace != TraceOf(env, q, rows, j) || (trace == Materialized && p.outputs[j] != q.outputs[j])
  }

  /** The two runs show something different for stage `j`: only one of them has a row for it, or both have
      one and show different outputs or a stage that the request hits. */
  ghost predicate Disagree(env: Env, p: Proc, q: Proc, rows: seq<StageRow>, req: Request, j: nat)
    requires j < |p.job.stages| && j < |p.outputs| && j < |q.outputs|
  {
    ShowOtherOutputs(env, p, q, rows, j) || (HasRow(env, p, rows, j) && HitsStage(p.job, req, j))
  }

  /** The first stage from `j` on about which the runs disagree; the number of stages when there is none. */
  ghost function FirstDisagreement(env: Env, p: Proc, q: Proc, rows: seq<StageRow>, req: Request, j: nat): (first: nat)
    requires j <= |p.job.stages| == |p.outputs| == |q.outputs|
    ensures j <= first <= |p.job.stages|
    ensures forall h :: j <= h < first ==> !Disagree(env, p, q, rows, req, h)
    ensures first < |p.job.stages| ==> Disagree(env, p, q, rows, req, first)
    decreases |p.job.stages| - j
  {
    if j == |p.job.stages| || Disagree(env, p, q, rows, req, j) then j
    else FirstDisagreement(env, p, q, rows, req, j + 1)
  }

  /** The classification of a disagreement about stage `j`. */
  ghost predicate ClassifiesStage(
      env: Env, p: Proc, q: Proc, rows: seq<StageRow>, req: Request, j: nat, c: Classification)
    requires j < |p.job.stages| && j < |p.outputs| && j < |q.outputs|
  {
    if HasRow(env, p, rows, j) != HasRow(env, q, rows, j) then c == Structure
    else
      && c != Structure
      && (OutputColumn in ClaimedColumns(c) <==> ShowOtherOutputs(env, p, q, rows, j))
      && (PromptColumn in ClaimedColumns(c) <==> p.job.stages[j].usesPrompt && HitsPrompt(p.job, req))
      && (ToolchainColumn in ClaimedColumns(c) <==> HitsToolchain(p.job, req))
  }

  /** The columns in which the rows of one stage differ before and after the change. */
  lemma RowsCompared(env: Env, p: Proc, q: Proc, j: nat, req: Request, a: StageRow, b: StageRow)
    requires IsChange(req) && q.job == Regenerated(p.job, q.job.run, req)
    requires IsRowOf(env, p, j, a) && IsRowOf(env, q, j, b)
    ensures j < |p.job.stages|
    ensures var changed := ChangedColumns(a, b);
            && (OutputColumn in changed <==> a.output != b.output)
            && (PromptColumn in changed <==> p.job.stages[j].usesPrompt && HitsPrompt(p.job, req))
            && (ToolchainColumn in changed <==> HitsToolchain(p.job, req))
            && (changed == {} <==> a.output == b.output && !HitsStage(p.job, req, j))
  {
    var changed := ChangedColumns(a, b);
    assert changed == {} <==> OutputColumn !in changed && PromptColumn !in changed && ToolchainColumn !in changed;
  }

  /** At the index of a stage the stage maps differ exactly when the runs disagree about the stage. */
  lemma StageDiffers(
      env: Env, p: Proc, q: Proc, rows: seq<StageRow>, ma: map<int, StageRow>, mb: map<int, StageRow>, j: nat,
      req: Request)
    requires IsChange(req) && q.job == Regenerated(p.job, q.job.run, req)
    requires j < |p.job.stages| && j < |p.outputs| && j < |q.outputs|
    requires Shows(env, p, rows, ma, j) && Shows(env, q, rows, mb, j)
    ensures var i := p.job.stages[j].index;
            && (Differs(ma, mb, i) <==> Disagree(env, p, q, rows, req, j))
            && forall c :: IsClassified(c, ma, mb, i) && Disagree(env, p, q, rows, req, j) ==>
                 ClassifiesStage(env, p, q, rows, req, j, c)
  {
    hide IsRowOf, HasRow, IsMaterialized, ChangedColumns, ClaimedColumns, IsChange;
    hide HitsStage, HitsPrompt, HitsToolchain;
    var i := p.job.stages[j].index;
    assert q.job.stages[j].index == i;
    if i in ma && i in mb {
      RowsCompared(env, p, q, j, req, ma[i], mb[i]);
    }
  }

  /** A first difference between maps over the stage indices of a job is one of those indices. */
  lemma FirstAmongStages(d: Report, ma: map<int, StageRow>, mb: map<int, StageRow>, job: Job, first: nat)
    requires IsReport(d, ma, mb) && IndicesAscend(job) && first <= |job.stages|
    requires forall i :: i in ma || i in mb ==> exists j :: 0 <= j < |job.stages| && job.stages[j].index == i
    requires forall j :: 0 <= j < first ==> !Differs(ma, mb, job.stages[j].index)
    requires first < |job.stages| ==> Differs(ma, mb, job.stages[first].index)
    ensures d.first == if first == |job.stages| then None else Some(job.stages[first].index)
  {
    if d.first.Some? {
      var j :| 0 <= j < |job.stages| && job.stages[j].index == d.first.value;
      assert j >= first;
    }
  }

  /** The report names the first stage about which the runs disagree, and classifies that disagreement. */
  ghost predicate LocatesDisagreement(env: Env, p: Proc, q: Proc, rows: seq<StageRow>, req: Request, d: Report) {
    && |p.job.stages| == |p.outputs| == |q.outputs|
    && var k := FirstDisagreement(env, p, q, rows, req, 0);
    if k == |p.job.stages| then d.first == None && d.classification == None
    else
      && d.first == Some(p.job.stages[k].index)
      && d.classification.Some? && ClassifiesStage(env, p, q, rows, req, k, d.classification.value)
  }

  /** The report on the two runs, from their stage maps. */
  lemma VariantsDiffer(
      env: Env, p: Proc, q: Proc, rows: seq<StageRow>, ma: map<int, StageRow>, mb: map<int, StageRow>, d: Report,
      req: Request)
    requires IsChange(req) && q.job == Regenerated(p.job, q.job.run, req)
    requires IsMapOf(env, p, rows, ma) && IsMapOf(env, q, rows, mb) && IsReport(d, ma, mb) && IndicesAscend(p.job)
    ensures LocatesDisagreement(env, p, q, rows, req, d)
  {
    hide Shows, Differs, ClassifiesStage, Disagree, IsChange;
    assert q.job.stages == p.job.stages;
    var k := FirstDisagreement(env, p, q, rows, req, 0);
    forall j | 0 <= j < |p.job.stages|
      ensures Differs(ma, mb, p.job.stages[j].index) <==> Disagree(env, p, q, rows, req, j)
    {
      StageDiffers(env, p, q, rows, ma, mb, j, req);
    }
    FirstAmongStages(d, ma, mb, p.job, k);
    if k < |p.job.stages| {
      StageDiffers(env, p, q, rows, ma, mb, k, req);
    }
  }

  /** What the comparison of the two runs reports, whatever the cache answered in either. */
  lemma VariantsAreLocated(env: Env, steps: seq<Step>, pid: nat, qid: nat, req: Request, d: Report)
    requires AreVariants(env, steps, pid, qid, req)
    requires var w := AfterAll(env, Empty, steps);
             IsReport(d, StagesOf(w.tables, w.procs[pid].job.run), StagesOf(w.tables, w.procs[qid].job.run))
    ensures var w := AfterAll(env, Empty, steps);
            LocatesDisagreement(env, w.procs[pid], w.procs[qid], w.tables.rows, req, d)
  {
    hide AfterAll, NoCollision, StagesOf, IsReport, IsMapOf, LocatesDisagreement, IsChange;
    var w := AfterAll(env, Empty, steps);
    var p, q := w.procs[pid], w.procs[qid];
    StagesOfCompletedRun(env, steps, pid);
    StagesOfCompletedRun(env, steps, qid);
    VariantsDiffer(env, p, q, w.tables.rows, StagesOf(w.tables, p.job.run), StagesOf(w.tables, q.job.run), d, req);
  }

  // ---- When the comparison finds the change ----

  /** Before the first stage that the request hits the runs disagree about a stage exactly when they show
      different traces; there, when one of them has a row. */
  lemma DisagreementsUpToHit(env: Env, steps: seq<Step>, pid: nat, qid: nat, req: Request)
    requires AreVariants(env, steps, pid, qid, req)
    ensures var w := AfterAll(env, Empty, steps);
            var p, q, rows := w.procs[pid], w.procs[qid], w.tables.rows;
            var first := FirstHit(p.job, req);
            && |p.job.stages| == |p.outputs| == |q.outputs|
            && (forall j :: 0 <= j < first ==> p.outputs[j] == q.outputs[j])
            && (forall j :: 0 <= j < first ==>
                  (Disagree(env, p, q, rows, req, j) <==> TraceOf(env, p, rows, j) != TraceOf(env, q, rows, j)))
            && (first < |p.job.stages| ==>
                  (Disagree(env, p, q, rows, req, first) <==>
                     HasRow(env, p, rows, first) || HasRow(env, q, rows, first)))
  {
    hide AfterAll, NoCollision, HasRow, IsMaterialized, HitsStage, IsChange;
    SameOutputsBeforeHit(env, steps, pid, qid, req);
  }

  /** The rows of the two runs show the change: up to the first stage that it hits they show the same
      traces, and that stage has a row in one of the runs. */
  ghost predicate ShowsTheChange(env: Env, p: Proc, q: Proc, rows: seq<StageRow>, req: Request) {
    var first := FirstHit(p.job, req);
    && first < |p.job.stages|
    && (forall j :: 0 <= j < first ==> TraceOf(env, p, rows, j) == TraceOf(env, q, rows, j))
    && (HasRow(env, p, rows, first) || HasRow(env, q, rows, first))
  }

  /** Exactly when the comparison localizes a change: it reports the first stage that the request hits if
      and only if the rows show it. */
  lemma ChangeIsFoundExactlyWhen(env: Env, steps: seq<Step>, pid: nat, qid: nat, req: Request, d: Report)
    requires AreVariants(env, steps, pid, qid, req)
    requires var w := AfterAll(env, Empty, steps);
             && IsReport(d, StagesOf(w.tables, w.procs[pid].job.run), StagesOf(w.tables, w.procs[qid].job.run))
             && FirstHit(w.procs[pid].job, req) < |w.procs[pid].job.stages|
    ensures var w := AfterAll(env, Empty, steps);
            var p, q := w.procs[pid], w.procs[qid];
            d.first == Some(p.job.stages[FirstHit(p.job, req)].index) <==>
            ShowsTheChange(env, p, q, w.tables.rows, req)
  {
    hide AfterAll, NoCollision, StagesOf, IsReport, Disagree, TraceOf, HasRow, ClassifiesStage, HitsStage, IsChange;
    VariantsAreLocated(env, steps, pid, qid, req, d);
    DisagreementsUpToHit(env, steps, pid, qid, req);
  }

  /** When all stages of both runs are materialized, the comparison finds the first stage that the request
      hits, and names what differs there; without such a stage it finds no difference. */
  lemma MaterializedRunsDifferAtTheChange(
      env: Env, steps: seq<Step>, pid: nat, qid: nat, req: Request, d: Report)
    requires AreVariants(env, steps, pid, qid, req)
    requires var w := AfterAll(env, Empty, steps);
             && AllMaterialized(env, w.procs[pid], w.tables.rows) && AllMaterialized(env, w.procs[qid], w.tables.rows)
             && IsReport(d, StagesOf(w.tables, w.procs[pid].job.run), StagesOf(w.tables, w.procs[qid].job.run))
    ensures var job := AfterAll(env, Empty, steps).procs[pid].job;
            var first := FirstHit(job, req);
            if first == |job.stages| then d.first == None
            else
              && d.first == Some(job.stages[first].index) && d.classification.Some?
              && var claimed := ClaimedColumns(d.classification.value);
              && (PromptColumn in claimed <==> job.stages[first].usesPrompt && HitsPrompt(job, req))
              && (ToolchainColumn in claimed <==> HitsToolchain(job, req))
  {
    hide AfterAll, NoCollision, StagesOf, IsReport, ClaimedColumns, IsRowOf, IsChange;
    var w := AfterAll(env, Empty, steps);
    var p, q, rows := w.procs[pid], w.procs[qid], w.tables.rows;
    VariantsAreLocated(env, steps, pid, qid, req, d);
    DisagreementsUpToHit(env, steps, pid, qid, req);
    assert q.job.stages == p.job.stages;
    forall j | 0 <= j < |p.job.stages|
      ensures HasRow(env, p, rows, j) && HasRow(env, q, rows, j)
      ensures TraceOf(env, p, rows, j) == TraceOf(env, q, rows, j)
    {
      assert IsMaterialized(env, p, rows, j) && IsMaterialized(env, q, rows, j);
    }
    hide HasRow, IsMaterialized, HitsStage, TraceOf;
    assert FirstDisagreement(env, p, q, rows, req, 0) == FirstHit(p.job, req);
  }

  // ---- A run against its own rerun ----

  lemma {:induction false} StoppedRunsStay(env: Env, w: World, steps: seq<Step>, pid: nat)
    requires pid < |w.procs| && w.procs[pid].pc.Stopped()
    ensures pid < |AfterAll(env, w, steps).procs| && AfterAll(env, w, steps).procs[pid] == w.procs[pid]
    decreases |steps|
  {
    if steps != [] {
      StoppedRunsStay(env, w, steps[..|steps| - 1], pid);
    }
  }

  /** No run of the first `n` has the run id. */
  predicate IsFresh(w: World, run: string, n: nat) {
    forall x :: 0 <= x < n && x < |w.procs| ==> w.procs[x].job.run != run
  }

  /** A rerun of a completed run under a fresh run id is answered by the cache before the first stage that
      the request hits, in whichever attempt under that id, and so leaves no rows there. */
  lemma RerunHasNoEarlyRows(
      env: Env, before: seq<Step>, after: seq<Step>, pid: nat, qid: nat, req: Request, j: nat)
    requires Completed(env, before, pid) && IsRerun(env, before, after, pid, qid, req)
    requires AreVariants(env, before + after, pid, qid, req)
    requires var w, v := AfterAll(env, Empty, before), AfterAll(env, Empty, before + after);
             && IsFresh(v, v.procs[qid].job.run, |w.procs|)
             && j < FirstHit(w.procs[pid].job, req)
    ensures var v := AfterAll(env, Empty, before + after); !HasRow(env, v.procs[qid], v.tables.rows, j)
  {
    hide AfterAll, NoCollision, FirstHit, IsRowOf, RowsFrom, Replaying, Remembers, IsChange;
    var w, v := AfterAll(env, Empty, before), AfterAll(env, Empty, before + after);
    var p, q := w.procs[pid], v.procs[qid];
    if r :| r in v.tables.rows && IsRowOf(env, q, j, r) {
      RowIsAtStage(env, q, j, r);
      var row: nat :| row < |v.tables.rows| && v.tables.rows[row] == r;
      RowsAreKnownThroughout(env, before + after);
      var x := v.owner[row];
      assert v.procs[x].job == q.job;
      RerunReusesEarlierStages(env, before, after, pid, x, req);
      var h := StageOfLateRow(v, x, FirstHit(p.job, req), row);
      assert false;
    }
  }

  lemma StageOfLateRow(w: World, pid: nat, n: nat, row: nat) returns (j: nat)
    requires pid < |w.procs| && RowsFrom(w, pid, n) && row < |w.owner| && w.owner[row] == pid
    ensures n <= j < |w.procs[pid].job.stages| && row < |w.tables.rows|
    ensures w.tables.rows[row].index == w.procs[pid].job.stages[j].index
  {
    assert IsFrom(w.procs[pid].job, n, w.tables.rows[row]);
    j :| n <= j < |w.procs[pid].job.stages| && w.tables.rows[row].index == w.procs[pid].job.stages[j].index;
  }

  /** The run has a row for stage `m` and for no earlier one. */
  ghost predicate IsFirstRow(env: Env, p: Proc, rows: seq<StageRow>, m: nat) {
    HasRow(env, p, rows, m) && forall j :: 0 <= j < m ==> !HasRow(env, p, rows, j)
  }

  /** The comparison of a completed run with its rerun localizes the change if and only if the old run left
      no rows before the first stage that the request hits, and one of the two runs has a row for that
      stage; otherwise, at the old run's first row, it reports a difference of structure, although the
      outputs are equal. */
  lemma RerunFindsTheChangeExactlyWhen(
      env: Env, before: seq<Step>, after: seq<Step>, pid: nat, qid: nat, req: Request, d: Report)
    requires Completed(env, before, pid) && IsRerun(env, before, after, pid, qid, req)
    requires AreVariants(env, before + after, pid, qid, req)
    requires var w, v := AfterAll(env, Empty, before), AfterAll(env, Empty, before + after);
             var p, q := v.procs[pid], v.procs[qid];
             && IsFresh(v, q.job.run, |w.procs|)
             && FirstHit(p.job, req) < |p.job.stages|
             && IsReport(d, StagesOf(v.tables, p.job.run), StagesOf(v.tables, q.job.run))
    ensures var v := AfterAll(env, Empty, before + after);
            var p, q, rows := v.procs[pid], v.procs[qid], v.tables.rows;
            var first := FirstHit(p.job, req);
            && |p.outputs| == |q.outputs| == |p.job.stages|
            && (d.first == Some(p.job.stages[first].index) <==>
                  && (forall j :: 0 <= j < first ==> !HasRow(env, p, rows, j))
                  && (HasRow(env, p, rows, first) || HasRow(env, q, rows, first)))
            && forall m: nat :: m < first && IsFirstRow(env, p, rows, m) ==>
                 && d.first == Some(p.job.stages[m].index) && d.classification == Some(Structure)
                 && p.outputs[m] == q.outputs[m]
  {
    hide AfterAll, NoCollision, StagesOf, IsReport, HasRow, TraceOf, IsChange, IsFresh, Disagree, Regenerated;
    hide ShowsTheChange, LocatesDisagreement, IndicesAscend, FirstHit, IsRerun, IsFirstRow;
    var w, v := AfterAll(env, Empty, before), AfterAll(env, Empty, before + after);
    var p, q, rows := v.procs[pid], v.procs[qid], v.tables.rows;
    SameRunLater(env, before, after, pid);
    VariantsAreLocated(env, before + after, pid, qid, req, d);
    DisagreementsUpToHit(env, before + after, pid, qid, req);
    ChangeIsFoundExactlyWhen(env, before + after, pid, qid, req, d);
    forall j: nat | j < FirstHit(p.job, req) ensures !HasRow(env, q, rows, j) {
      RerunHasNoEarlyRows(env, before, after, pid, qid, req, j);
    }
    ShownToRerun(env, p, q, rows, req);
    FirstReuseIsStructure(env, p, q, rows, req, d);
  }

  lemma ShownToRerun(env: Env, p: Proc, q: Proc, rows: seq<StageRow>, req: Request)
    requires FirstHit(p.job, req) < |p.job.stages|
    requires forall j: nat :: j < FirstHit(p.job, req) ==> !HasRow(env, q, rows, j)
    ensures var first := FirstHit(p.job, req);
            ShowsTheChange(env, p, q, rows, req) <==>
              && (forall j :: 0 <= j < first ==> !HasRow(env, p, rows, j))
              && (HasRow(env, p, rows, first) || HasRow(env, q, rows, first))
  {
    hide HasRow, IsMaterialized, FirstHit;
    assert forall j :: 0 <= j < FirstHit(p.job, req) ==>
                         (TraceOf(env, p, rows, j) == TraceOf(env, q, rows, j) <==> !HasRow(env, p, rows, j));
  }

  lemma SameRunLater(env: Env, before: seq<Step>, after: seq<Step>, pid: nat)
    requires Completed(env, before, pid)
    ensures var w, v := AfterAll(env, Empty, before), AfterAll(env, Empty, before + after);
            pid < |w.procs| && pid < |v.procs| && v.procs[pid] == w.procs[pid]
  {
    hide AfterAll, NoCollision;
    StepsThenSteps(env, Empty, before, after);
    StoppedRunsStay(env, AfterAll(env, Empty, before), after, pid);
  }

  lemma FirstReuseIsStructure(env: Env, p: Proc, q: Proc, rows: seq<StageRow>, req: Request, d: Report)
    requires LocatesDisagreement(env, p, q, rows, req, d)
    requires forall j :: 0 <= j < FirstHit(p.job, req) ==>
               && !HasRow(env, q, rows, j)
               && (Disagree(env, p, q, rows, req, j) <==> TraceOf(env, p, rows, j) != TraceOf(env, q, rows, j))
    ensures forall m: nat :: m < FirstHit(p.job, req) && IsFirstRow(env, p, rows, m) ==>
              d.first == Some(p.job.stages[m].index) && d.classification == Some(Structure)
  {
    hide Disagree, HasRow, IsMaterialized, FirstHit;
    forall m: nat | m < FirstHit(p.job, req) && IsFirstRow(env, p, rows, m)
      ensures d.first == Some(p.job.stages[m].index) && d.classification == Some(Structure)
    {
      assert TraceOf(env, p, rows, m) != TraceOf(env, q, rows, m);
      assert forall j :: 0 <= j < m ==> TraceOf(env, p, rows, j) == TraceOf(env, q, rows, j);
      assert FirstDisagreement(env, p, q, rows, req, 0) == m;
    }
  }
}
