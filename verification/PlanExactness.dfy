/** The planner against the orchestrator: for a completed run, does a plan restart it where a rerun with
    the new prompt and toolchain first differs, and reuse what that rerun will find in the cache? */
module PlanExactness {
  import opened CompletedRuns
  import opened Content
  import opened Store
  import opened Pipeline
  import opened PipelineInvariant
  import opened PipelineRun
  import opened PipelineTheorems
  import opened RegenPlanner
  import opened StageRows

  // ---- What a request changes ----

  /** The request replaces a prompt, a toolchain or both by another one. */
  predicate IsChange(req: Request) {
    && IsAccepted(req)
    && (req.oldPrompt.Some? <==> req.newPrompt.Some?)
    && (req.oldToolchain.Some? <==> req.newToolchain.Some?)
    && (req.oldPrompt.Some? ==> req.oldPrompt != req.newPrompt)
    && (req.oldToolchain.Some? ==> req.oldToolchain != req.newToolchain)
  }

  predicate HitsPrompt(job: Job, req: Request) { req.oldPrompt.Some? && job.prompt == req.oldPrompt }

  predicate HitsToolchain(job: Job, req: Request) { req.oldToolchain == Some(job.toolchain) }

  /** The stage uses something that the request replaces; every stage uses the toolchain. */
  predicate HitsStage(job: Job, req: Request, j: nat)
    requires j < |job.stages|
  {
    (job.stages[j].usesPrompt && HitsPrompt(job, req)) || HitsToolchain(job, req)
  }

  /** The first stage from `j` on that the request hits; the number of stages when there is none. */
  function FirstHitFrom(job: Job, req: Request, j: nat): (first: nat)
    requires j <= |job.stages|
    ensures j <= first <= |job.stages| && (first < |job.stages| ==> HitsStage(job, req, first))
    ensures forall h :: j <= h < first ==> !HitsStage(job, req, h)
    decreases |job.stages| - j
  {
    if j == |job.stages| || HitsStage(job, req, j) then j else FirstHitFrom(job, req, j + 1)
  }

  function FirstHit(job: Job, req: Request): (first: nat)
    ensures first <= |job.stages| && (first < |job.stages| ==> HitsStage(job, req, first))
    ensures forall h :: 0 <= h < first ==> !HitsStage(job, req, h)
  {
    FirstHitFrom(job, req, 0)
  }

  // ---- Where the plan restarts ----

  /** The run has a stage row for stage `j`, of its own or left by another attempt. */
  ghost predicate HasRow(env: Env, p: Proc, rows: seq<StageRow>, j: nat) {
    exists r :: r in rows && IsRowOf(env, p, j, r)
  }

  ghost predicate IsMaterialized(env: Env, p: Proc, rows: seq<StageRow>, j: nat) {
    exists r :: r in rows && IsRowOf(env, p, j, r) && IsUsable(r)
  }

  /** For a run that is alone under its run id, the stages with rows are those that missed the cache. */
  lemma RowsOfSoleRun(env: Env, steps: seq<Step>, pid: nat, j: nat)
    requires Finished(env, steps, pid)
    requires var p := AfterAll(env, Empty, steps).procs[pid]; IndicesAscend(p.job) && j < |p.job.stages|
    ensures var w := AfterAll(env, Empty, steps);
            var p := w.procs[pid];
            && Completed(env, steps, pid)
            && |p.rowIds| == |p.job.stages|
            && (HasRow(env, p, w.tables.rows, j) <==> p.rowIds[j].Some?)
            && (IsMaterialized(env, p, w.tables.rows, j) <==> p.rowIds[j].Some?)
  {
    hide AfterAll, NoCollision, UniqueSlots, IsRowOf, RowAt, IsUsable;
    var w := AfterAll(env, Empty, steps);
    var p := w.procs[pid];
    RowsOfFinishedRun(env, steps, pid);
    if p.rowIds[j].Some? {
      RowAtStands(env, p, j);
    }
    if r :| r in w.tables.rows && IsRowOf(env, p, j, r) {
      RowIsAtStage(env, p, j, r);
      var h :| 0 <= h < |p.outputs| && p.rowIds[h].Some? && r == RowAt(env, p, h);
      RowAtStands(env, p, h);
      RowIsAtStage(env, p, h, r);
      assert h == j;
    }
  }

  lemma RowAtStands(env: Env, p: Proc, j: nat)
    requires j < |p.job.stages| && j < |p.outputs|
    ensures IsRowOf(env, p, j, RowAt(env, p, j)) && IsUsable(RowAt(env, p, j))
  {
  }

  lemma RowIsAtStage(env: Env, p: Proc, j: nat, r: StageRow)
    requires IsRowOf(env, p, j, r)
    ensures j < |p.job.stages| && r.index == p.job.stages[j].index && r.run == p.job.run
  {
  }

  /** A plan has an item for the run exactly when some stage that the request hits has a stage row. */
  lemma ItemExistsExactlyWhen(env: Env, steps: seq<Step>, pid: nat, req: Request)
    requires Completed(env, steps, pid)
    ensures var w := AfterAll(env, Empty, steps);
            var p := w.procs[pid];
            Affected(w.tables.rows, req, p.job.run) <==>
            exists j :: 0 <= j < |p.job.stages| && HitsStage(p.job, req, j) && HasRow(env, p, w.tables.rows, j)
  {
    hide AfterAll, NoCollision, InputSha;
    var w := AfterAll(env, Empty, steps);
    var p := w.procs[pid];
    if r :| r in w.tables.rows && r.run == p.job.run && Matches(req, r) {
      var j := RowsOfCompletedRun(env, steps, pid, r);
      assert HasRow(env, p, w.tables.rows, j);
    }
    if j :| 0 <= j < |p.job.stages| && HitsStage(p.job, req, j) && HasRow(env, p, w.tables.rows, j) {
      var r :| r in w.tables.rows && IsRowOf(env, p, j, r);
      assert Matches(req, r);
    }
  }

  /** The plan item of a completed run, in terms of the run itself. */
  ghost predicate IsItemOf(env: Env, steps: seq<Step>, pid: nat, item: PlanItem, req: Request) {
    && Completed(env, steps, pid)
    && var w := AfterAll(env, Empty, steps);
    && IndicesAscend(w.procs[pid].job)
    && item.run == w.procs[pid].job.run
    && StartsRight(item, req, w.tables.rows)
    && SplitsRight(item, w.tables.rows)
  }

  lemma RowOfMatches(env: Env, p: Proc, j: nat, r: StageRow, req: Request)
    requires IsRowOf(env, p, j, r)
    ensures j < |p.job.stages| && (Matches(req, r) <==> HitsStage(p.job, req, j))
    ensures r.index == p.job.stages[j].index && r.run == p.job.run
  {
  }

  /** The stage that the plan restarts at: the first one that the request hits and that has a row. */
  lemma StartIsFirstRow(env: Env, steps: seq<Step>, pid: nat, item: PlanItem, req: Request) returns (s: nat)
    requires IsItemOf(env, steps, pid, item, req)
    ensures var w := AfterAll(env, Empty, steps);
            var p := w.procs[pid];
            && s < |p.job.stages| && HitsStage(p.job, req, s) && HasRow(env, p, w.tables.rows, s)
            && item.start == p.job.stages[s].index
            && forall h: nat :: h < s && HitsStage(p.job, req, h) ==> !HasRow(env, p, w.tables.rows, h)
  {
    hide AfterAll, SplitsRight, NoCollision, Matches, IsRowOf, Affected;
    var w := AfterAll(env, Empty, steps);
    var p := w.procs[pid];
    var r :| r in w.tables.rows && r.run == item.run && Matches(req, r) && r.index == item.start;
    s := RowsOfCompletedRun(env, steps, pid, r);
    RowOfMatches(env, p, s, r, req);
    forall h: nat | h < s && HitsStage(p.job, req, h) ensures !HasRow(env, p, w.tables.rows, h) {
      forall x | IsRowOf(env, p, h, x)
        ensures Matches(req, x) && x.index == p.job.stages[h].index && x.run == item.run
      {
        RowOfMatches(env, p, h, x, req);
      }
    }
  }

  /** The plan restarts the run at the first stage that the request hits exactly when that stage has a row;
      when the cache answered it in every attempt, the plan restarts later. */
  lemma PlanStartsRightExactlyWhen(env: Env, steps: seq<Step>, pid: nat, item: PlanItem, req: Request)
    requires IsItemOf(env, steps, pid, item, req)
    ensures var w := AfterAll(env, Empty, steps);
            var p := w.procs[pid];
            var first := FirstHit(p.job, req);
            && first < |p.job.stages|
            && p.job.stages[first].index <= item.start
            && (item.start == p.job.stages[first].index <==> HasRow(env, p, w.tables.rows, first))
  {
    hide AfterAll, StartsRight, SplitsRight, NoCollision, HasRow;
    var s := StartIsFirstRow(env, steps, pid, item, req);
    var p := AfterAll(env, Empty, steps).procs[pid];
    assert FirstHit(p.job, req) <= s;
  }

  /** Reused are exactly the materialized stages before the start, and the current outputs are what the run
      returned for the materialized stages. */
  lemma ReuseIsWhatWasReturned(env: Env, steps: seq<Step>, pid: nat, item: PlanItem, req: Request)
    requires IsItemOf(env, steps, pid, item, req)
    ensures var w := AfterAll(env, Empty, steps);
            var p := w.procs[pid];
            && |p.outputs| == |p.job.stages|
            && (forall i :: i in item.reuse <==>
                  i < item.start && IsMaterializedIndex(env, p, w.tables.rows, i))
            && (forall j: nat :: j < |p.job.stages| && IsMaterialized(env, p, w.tables.rows, j) ==>
                  var i := p.job.stages[j].index; i in item.current && item.current[i] == p.outputs[j])
  {
    hide AfterAll, StartsRight, NoCollision, IsRowOf;
    var w := AfterAll(env, Empty, steps);
    var p := w.procs[pid];
    CompletedOutputs(env, steps, pid);
    forall j: nat | j < |p.job.stages| && IsMaterialized(env, p, w.tables.rows, j)
      ensures HasUsable(w.tables.rows, item.run, p.job.stages[j].index)
      ensures var i := p.job.stages[j].index; i in item.current && item.current[i] == p.outputs[j]
    {
      var r :| r in w.tables.rows && IsRowOf(env, p, j, r) && IsUsable(r);
      RowOfMatches(env, p, j, r, req);
      var h := RowsOfCompletedRun(env, steps, pid, r);
      RowOfMatches(env, p, h, r, req);
      assert h == j;
    }
    forall i | HasUsable(w.tables.rows, item.run, i) ensures IsMaterializedIndex(env, p, w.tables.rows, i) {
      var r :| r in w.tables.rows && r.run == item.run && r.index == i && IsUsable(r);
      var j := RowsOfCompletedRun(env, steps, pid, r);
      RowOfMatches(env, p, j, r, req);
      assert IsMaterialized(env, p, w.tables.rows, j);
    }
  }

  /** The index of a materialized stage. */
  ghost predicate IsMaterializedIndex(env: Env, p: Proc, rows: seq<StageRow>, i: int) {
    exists j :: 0 <= j < |p.job.stages| && IsMaterialized(env, p, rows, j) && i == p.job.stages[j].index
  }

  lemma CompletedOutputs(env: Env, steps: seq<Step>, pid: nat)
    requires Completed(env, steps, pid)
    ensures var p := AfterAll(env, Empty, steps).procs[pid]; |p.outputs| == |p.job.stages|
  {
    ReachableWorldsAreSound(env, steps);
    var w := AfterAll(env, Empty, steps);
    assert ProcSound(env, w, pid, w.procs[pid]);
  }

  // ---- What a rerun after the change does ----

  /** The job with what the request hits in it replaced. */
  function Regenerated(job: Job, run: string, req: Request): Job {
    job.(run := run,
         prompt := if HitsPrompt(job, req) && req.newPrompt.Some? then req.newPrompt else job.prompt,
         toolchain := if HitsToolchain(job, req) && req.newToolchain.Some? then req.newToolchain.value
                      else job.toolchain)
  }

  /** Up to the first stage that the request hits, stage inputs and outputs are those of the run. */
  lemma {:induction false} SameBeforeHit(env: Env, job: Job, run: string, req: Request, k: nat)
    requires k <= FirstHit(job, req)
    ensures Fold(env, Regenerated(job, run, req), k) == Fold(env, job, k)
    ensures forall prior :: k < FirstHit(job, req) ==>
              StageInputOf(Regenerated(job, run, req), k, prior) == StageInputOf(job, k, prior)
  {
    assert k < FirstHit(job, req) ==> !HitsStage(job, req, k);
    if k > 0 {
      SameBeforeHit(env, job, run, req, k - 1);
    }
  }

  /** The first stage whose stage input, and so whose hash, changes on a rerun is the first that the request
      hits, unless the two inputs of that stage are a hash collision. */
  lemma FirstChangedStage(env: Env, steps: seq<Step>, pid: nat, run: string, req: Request)
    requires Completed(env, steps, pid) && IsChange(req)
    ensures var w := AfterAll(env, Empty, steps);
            var p := w.procs[pid];
            var job := Regenerated(p.job, run, req);
            var first := FirstHit(p.job, req);
            && |p.outputs| == |p.job.stages|
            && Fold(env, job, first) == Some(p.outputs[..first])
            && (forall j :: 0 <= j < first ==> StageInputOf(job, j, p.outputs[..j]) == InputAt(p, j))
            && (first < |p.job.stages| ==>
                  var changed := StageInputOf(job, first, p.outputs[..first]);
                  InputSha(env, changed) != InputSha(env, InputAt(p, first)) || Collides(env, w.seen + {changed}))
  {
    hide AfterAll, Inv, PcSound, InputSha, Collides;
    var w := AfterAll(env, Empty, steps);
    var p := w.procs[pid];
    RunCoversRerun(env, steps, pid, run, req);
    if FirstHit(p.job, req) < |p.job.stages| {
      ReachableWorldsAreSound(env, steps);
      SoundProc(env, w, pid);
      ChangedInput(env, w, pid, p, run, req);
    }
  }

  lemma SoundProc(env: Env, w: World, pid: nat)
    requires Inv(env, w) && pid < |w.procs|
    ensures ProcSound(env, w, pid, w.procs[pid])
  {
  }

  lemma RunCoversRerun(env: Env, steps: seq<Step>, pid: nat, run: string, req: Request)
    requires Completed(env, steps, pid)
    ensures var w := AfterAll(env, Empty, steps);
            var p := w.procs[pid];
            var job := Regenerated(p.job, run, req);
            var first := FirstHit(p.job, req);
            && |p.outputs| == |p.job.stages|
            && Fold(env, job, first) == Some(p.outputs[..first])
            && (forall j :: 0 <= j < first ==> StageInputOf(job, j, p.outputs[..j]) == InputAt(p, j))
            && Covered(env, w.tables, job, first)
  {
    hide AfterAll, Inv, PcSound, InputSha, Covered, Fold;
    var w := AfterAll(env, Empty, steps);
    ReachableWorldsAreSound(env, steps);
    SoundProc(env, w, pid);
    CompletedOutputs(env, steps, pid);
    PrefixIsCovered(env, w, pid, w.procs[pid], run, req);
  }

  lemma PrefixIsCovered(env: Env, w: World, pid: nat, p: Proc, run: string, req: Request)
    requires Past(env, w, pid, p.job, p.outputs, p.rowIds) && |p.outputs| == |p.job.stages|
    ensures var job := Regenerated(p.job, run, req);
            var first := FirstHit(p.job, req);
            && Fold(env, job, first) == Some(p.outputs[..first])
            && (forall j :: 0 <= j < first ==> StageInputOf(job, j, p.outputs[..j]) == InputAt(p, j))
            && Covered(env, w.tables, job, first)
  {
    var job := Regenerated(p.job, run, req);
    var first := FirstHit(p.job, req);
    FoldOfPrefix(env, p.job, |p.job.stages|, first);
    SameBeforeHit(env, p.job, run, req, first);
    hide Fold, InputSha, Owns;
    forall j | 0 <= j < first
      ensures StageInputOf(job, j, p.outputs[..j]) == InputAt(p, j)
      ensures KeyOf(env, StageInputOf(job, j, p.outputs[..first][..j])) in w.tables.cache
    {
      SameBeforeHit(env, p.job, run, req, j);
      assert StageDone(env, w, pid, p.job, p.outputs, p.rowIds, j);
      assert p.outputs[..first][..j] == p.outputs[..j];
    }
  }

  lemma ChangedInput(env: Env, w: World, pid: nat, p: Proc, run: string, req: Request)
    requires Past(env, w, pid, p.job, p.outputs, p.rowIds) && |p.outputs| == |p.job.stages|
    requires FirstHit(p.job, req) < |p.job.stages| && IsChange(req)
    ensures var first := FirstHit(p.job, req);
            var changed := StageInputOf(Regenerated(p.job, run, req), first, p.outputs[..first]);
            InputSha(env, changed) != InputSha(env, InputAt(p, first)) || Collides(env, w.seen + {changed})
  {
    hide Fold, InputSha, Owns;
    var first := FirstHit(p.job, req);
    assert StageDone(env, w, pid, p.job, p.outputs, p.rowIds, first);
    assert StageInputOf(Regenerated(p.job, run, req), first, p.outputs[..first]) != InputAt(p, first);
  }

  /** After the execution `before`, which the run `pid` belongs to, come the steps `after`, and in them, at
      any time, `qid` starts as a rerun of the job with what the request changes. */
  ghost predicate IsRerun(env: Env, before: seq<Step>, after: seq<Step>, pid: nat, qid: nat, req: Request) {
    var w, v := AfterAll(env, Empty, before), AfterAll(env, Empty, before + after);
    && NoCollision(env, v.seen)
    && pid < |w.procs| <= qid < |v.procs|
    && v.procs[qid].job == Regenerated(w.procs[pid].job, v.procs[qid].job.run, req)
  }

  lemma {:induction false} SoundThroughout(env: Env, w: World, steps: seq<Step>)
    requires Inv(env, w) && OwnersExist(w) && NoCollision(env, AfterAll(env, w, steps).seen)
    ensures var v := AfterAll(env, w, steps); Inv(env, v) && OwnersExist(v) && TablesGrow(w.tables, v.tables)
    decreases |steps|
  {
    hide Inv, NoCollision, OwnersExist, After;
    if steps != [] {
      var before, last := steps[..|steps| - 1], steps[|steps| - 1];
      var u := AfterAll(env, w, before);
      FewerSeen(env, u, last);
      SoundThroughout(env, w, before);
      StepKeepsInv(env, u, last);
      OwnersStay(env, u, last);
      StepGrowsTables(env, u, last);
    }
  }

  lemma FewerSeen(env: Env, w: World, step: Step)
    requires NoCollision(env, After(env, w, step).seen)
    ensures NoCollision(env, w.seen)
  {
    SeenGrows(env, w, step);
    hide After;
  }

  ghost predicate IsFrom(job: Job, n: nat, r: StageRow) {
    exists j :: n <= j < |job.stages| && r.index == job.stages[j].index
  }

  /** The stage rows that the run inserted are all for stages from `n` on. */
  ghost predicate RowsFrom(w: World, pid: nat, n: nat)
    requires pid < |w.procs|
  {
    && |w.owner| == |w.tables.rows|
    && forall row :: 0 <= row < |w.owner| && w.owner[row] == pid ==>
         IsFrom(w.procs[pid].job, n, w.tables.rows[row])
  }

  lemma LookingUpInsertsNoRow(env: Env, t: Tables, p: Proc)
    requires WellFormed(p) && (p.pc.AtInput? || p.pc.AtLookup? || p.pc.AtHitEdge?)
    ensures |Next(env, t, p).0.rows| == |t.rows|
  {
  }

  lemma CallKeepsRowsFrom(env: Env, w: World, mover: nat, pid: nat, n: nat)
    requires mover < |w.procs| && WellFormed(w.procs[mover]) && !w.procs[mover].pc.Stopped()
    requires pid < |w.procs| && Replaying(w, pid, n) && RowsFrom(w, pid, n)
    ensures RowsFrom(Advanced(env, w, mover), pid, n)
  {
    hide Next, IsRowOf, WellFormed;
    var p := w.procs[mover];
    var v := Advanced(env, w, mover);
    CallKeepsStages(env, w.tables, p);
    NextMakesProgress(env, w.tables, p);
    assert v.procs[pid].job == w.procs[pid].job;
    if |v.owner| > |w.owner| && mover == pid {
      if p.k < n {
        LookingUpInsertsNoRow(env, w.tables, p);
      }
      RowIsAtStage(env, v.procs[pid], v.procs[pid].k, v.tables.rows[|w.owner|]);
    }
  }

  lemma StepKeepsRowsFrom(env: Env, w: World, step: Step, pid: nat, n: nat)
    requires pid < |w.procs| && Replaying(w, pid, n) && RowsFrom(w, pid, n)
    ensures pid < |After(env, w, step).procs| && RowsFrom(After(env, w, step), pid, n)
  {
    hide WellFormed, Replaying;
    if step.Advance? && step.pid < |w.procs| && WellFormed(w.procs[step.pid]) && !w.procs[step.pid].pc.Stopped() {
      CallKeepsRowsFrom(env, w, step.pid, pid, n);
    }
  }

  /** A run that starts when the first `n` stages of its job are covered is answered by the cache there, and
      inserts rows only for later stages. */
  lemma {:induction false} LaterRunsReplay(env: Env, w: World, steps: seq<Step>, pid: nat, n: nat)
    requires Inv(env, w) && OwnersExist(w) && NoCollision(env, AfterAll(env, w, steps).seen)
    requires |w.procs| <= pid < |AfterAll(env, w, steps).procs|
    requires Covered(env, w.tables, AfterAll(env, w, steps).procs[pid].job, n)
    ensures var v := AfterAll(env, w, steps); Replaying(v, pid, n) && RowsFrom(v, pid, n)
    decreases |steps|
  {
    if steps != [] {
      hide Inv, Covered, Replaying, RowsFrom, NoCollision, OwnersExist;
      var before, last := steps[..|steps| - 1], steps[|steps| - 1];
      var u := AfterAll(env, w, before);
      FewerSeen(env, u, last);
      SoundThroughout(env, w, before);
      CoverageStays(env, w.tables, u.tables, AfterAll(env, w, steps).procs[pid].job, n);
      if pid < |u.procs| {
        JobsStay(env, u, last, pid);
        LaterRunsReplay(env, w, before, pid, n);
        ReplayingStays(env, u, last, pid, n);
        StepKeepsRowsFrom(env, u, last, pid, n);
      } else {
        JustStarted(env, u, last, pid, n);
      }
    }
  }

  lemma JustStarted(env: Env, w: World, step: Step, pid: nat, n: nat)
    requires Inv(env, w) && OwnersExist(w) && |w.procs| <= pid < |After(env, w, step).procs|
    requires n <= |After(env, w, step).procs[pid].job.stages|
    ensures Replaying(After(env, w, step), pid, n) && RowsFrom(After(env, w, step), pid, n)
  {
  }

  /** Whenever it starts and whatever else happens meanwhile, the rerun is answered by the cache at every
      stage before the first that the request hits, with the outputs of the old run, and inserts no rows
      there. */
  lemma RerunReusesEarlierStages(
      env: Env, before: seq<Step>, after: seq<Step>, pid: nat, qid: nat, req: Request)
    requires Completed(env, before, pid) && IsRerun(env, before, after, pid, qid, req)
    ensures var p := AfterAll(env, Empty, before).procs[pid];
            var v := AfterAll(env, Empty, before + after);
            var first := FirstHit(p.job, req);
            && |p.outputs| == |p.job.stages|
            && var q := v.procs[qid];
            && Replaying(v, qid, first) && RowsFrom(v, qid, first)
            && forall j :: 0 <= j < q.k && j < first ==> q.outputs[j] == p.outputs[j]
  {
    hide AfterAll, Inv, Covered, Replaying, RowsFrom, NoCollision, OwnersExist, PcSound, StageDone;
    var w, v := AfterAll(env, Empty, before), AfterAll(env, Empty, before + after);
    var p, q := w.procs[pid], v.procs[qid];
    var first := FirstHit(p.job, req);
    RunCoversRerun(env, before, pid, q.job.run, req);
    StepsThenSteps(env, Empty, before, after);
    SoundBefore(env, before);
    LaterRunsReplay(env, w, after, qid, first);
    ReachableWorldsAreSound(env, before + after);
    PastOf(env, v, qid);
    SamePrefix(env, q.job, q.outputs, p.outputs[..first]);
  }

  lemma SoundBefore(env: Env, steps: seq<Step>)
    requires NoCollision(env, AfterAll(env, Empty, steps).seen)
    ensures var w := AfterAll(env, Empty, steps); Inv(env, w) && OwnersExist(w)
  {
    ReachableWorldsAreSound(env, steps);
    NewRunOwnsNoRow(env, steps);
  }

  lemma PastOf(env: Env, w: World, pid: nat)
    requires Inv(env, w) && pid < |w.procs|
    ensures var p := w.procs[pid]; |p.outputs| == p.k <= |p.job.stages| && Fold(env, p.job, p.k) == Some(p.outputs)
  {
    assert ProcSound(env, w, pid, w.procs[pid]);
  }

  /** Two prefixes of one fold agree on the stages that both have. */
  lemma SamePrefix(env: Env, job: Job, xs: seq<Sha>, ys: seq<Sha>)
    requires |xs| <= |job.stages| && Fold(env, job, |xs|) == Some(xs)
    requires |ys| <= |job.stages| && Fold(env, job, |ys|) == Some(ys)
    ensures forall j :: 0 <= j < |xs| && j < |ys| ==> xs[j] == ys[j]
  {
    hide Fold;
    if |xs| <= |ys| {
      FoldOfPrefix(env, job, |ys|, |xs|);
      assert forall j :: 0 <= j < |xs| ==> ys[..|xs|][j] == ys[j];
    } else {
      FoldOfPrefix(env, job, |xs|, |ys|);
      assert forall j :: 0 <= j < |ys| ==> xs[..|ys|][j] == xs[j];
    }
  }

  function IndicesOf(stages: seq<Stage>): (indices: seq<int>)
    ensures |indices| == |stages|
    ensures forall j :: 0 <= j < |stages| ==> indices[j] == stages[j].index
  {
    if stages == [] then [] else [stages[0].index] + IndicesOf(stages[1..])
  }

  lemma ElementsOfPrefix(stages: seq<Stage>, first: nat, xs: seq<int>)
    requires first < |stages| && StrictlyUp(xs)
    requires forall i, j :: 0 <= i < j < |stages| ==> stages[i].index < stages[j].index
    requires forall i :: i in xs <==> i < stages[first].index && exists j :: 0 <= j < |stages| && i == stages[j].index
    ensures xs == IndicesOf(stages[..first])
  {
    var expected := IndicesOf(stages[..first]);
    forall i ensures i in xs <==> i in expected {
      if i in xs {
        var j :| 0 <= j < |stages| && i == stages[j].index;
        assert expected[j] == i;
      }
      if i in expected {
        var j :| 0 <= j < |expected| && expected[j] == i;
        assert i == stages[j].index;
      }
    }
    SameElementsAscending(xs, expected);
  }

  /** Every stage has a materialized row. A run alone under its run id that missed at every stage is one
      case, a crashed run that another attempt completed is another. */
  ghost predicate AllMaterialized(env: Env, p: Proc, rows: seq<StageRow>) {
    forall j: nat :: j < |p.job.stages| ==> IsMaterialized(env, p, rows, j)
  }

  lemma AllMissedIsMaterialized(env: Env, steps: seq<Step>, pid: nat)
    requires Finished(env, steps, pid) && IndicesAscend(AfterAll(env, Empty, steps).procs[pid].job)
    requires forall row :: row in AfterAll(env, Empty, steps).procs[pid].rowIds ==> row.Some?
    ensures var w := AfterAll(env, Empty, steps); AllMaterialized(env, w.procs[pid], w.tables.rows)
  {
    hide AfterAll, NoCollision, IsMaterialized, HasRow;
    var w := AfterAll(env, Empty, steps);
    var p := w.procs[pid];
    forall j: nat | j < |p.job.stages| ensures IsMaterialized(env, p, w.tables.rows, j) {
      RowsOfSoleRun(env, steps, pid, j);
      assert p.rowIds[j] in p.rowIds;
    }
  }

  /** When all stages are materialized, reused are exactly the stages before the first that is hit. */
  lemma ReuseIsThePrefix(env: Env, steps: seq<Step>, pid: nat, item: PlanItem, req: Request)
    requires IsItemOf(env, steps, pid, item, req)
    requires var w := AfterAll(env, Empty, steps); AllMaterialized(env, w.procs[pid], w.tables.rows)
    ensures var p := AfterAll(env, Empty, steps).procs[pid];
            var first := FirstHit(p.job, req);
            && first < |p.job.stages| && item.start == p.job.stages[first].index
            && item.reuse == IndicesOf(p.job.stages[..first])
  {
    var w := AfterAll(env, Empty, steps);
    var p := w.procs[pid];
    hide AfterAll, StartsRight, IndicesOf, NoCollision, IsRowOf;
    PlanStartsRightExactlyWhen(env, steps, pid, item, req);
    ReuseIsWhatWasReturned(env, steps, pid, item, req);
    var first := FirstHit(p.job, req);
    assert IsMaterialized(env, p, w.tables.rows, first);
    assert HasRow(env, p, w.tables.rows, first);
    hide IsMaterialized, HasRow;
    forall i ensures IsMaterializedIndex(env, p, w.tables.rows, i) <==>
                     exists j :: 0 <= j < |p.job.stages| && i == p.job.stages[j].index
    {
      assert forall j: nat :: j < |p.job.stages| ==> IsMaterialized(env, p, w.tables.rows, j);
    }
    ElementsOfPrefix(p.job.stages, first, item.reuse);
  }

  /** Exactness: when all stages are materialized, the plan restarts at the first stage whose stage-input
      hash changes, short of a collision, and it reuses exactly the stages before it; a rerun takes each of
      those from the cache, with the output that the plan lists as current. */
  lemma PlanIsExact(
      env: Env, before: seq<Step>, after: seq<Step>, pid: nat, qid: nat, req: Request, item: PlanItem)
    requires IsItemOf(env, before, pid, item, req) && IsChange(req)
    requires var w := AfterAll(env, Empty, before); AllMaterialized(env, w.procs[pid], w.tables.rows)
    requires IsRerun(env, before, after, pid, qid, req)
    ensures var w := AfterAll(env, Empty, before);
            var p := w.procs[pid];
            var v := AfterAll(env, Empty, before + after);
            var q := v.procs[qid];
            var first := FirstHit(p.job, req);
            && first < |p.job.stages| == |p.outputs|
            && item.start == p.job.stages[first].index
            && item.reuse == IndicesOf(p.job.stages[..first])
            && (forall j :: 0 <= j < first ==> StageInputOf(q.job, j, p.outputs[..j]) == InputAt(p, j))
            && (var changed := StageInputOf(q.job, first, p.outputs[..first]);
                InputSha(env, changed) != InputSha(env, InputAt(p, first)) || Collides(env, w.seen + {changed}))
            && Replaying(v, qid, first) && RowsFrom(v, qid, first)
            && forall j :: 0 <= j < q.k && j < first ==>
                 var i := p.job.stages[j].index; i in item.current && item.current[i] == q.outputs[j]
  {
    hide AfterAll, StartsRight, SplitsRight, NoCollision, Regenerated, IndicesOf, Collides, InputSha, RowsFrom;
    ReuseIsThePrefix(env, before, pid, item, req);
    ReuseIsWhatWasReturned(env, before, pid, item, req);
    FirstChangedStage(env, before, pid, AfterAll(env, Empty, before + after).procs[qid].job.run, req);
    RerunReusesEarlierStages(env, before, after, pid, qid, req);
  }

  // ---- Reasons ----

  predicate IsAllZeros(sha: Sha) { |sha| == 64 && forall c <- sha :: c == '0' }

  /** A stage row can only carry hashes of artifacts, so a row of zeros in a reachable table means that some
      bytes have sixty-four zeros for their hash. */
  lemma PhantomsAreHashes(env: Env, steps: seq<Step>, run: string, req: Request)
    requires HasPhantom(AfterAll(env, Empty, steps).tables.rows, req, run)
    ensures exists x: Bytes :: IsAllZeros(env.sha256(x))
  {
    var t := AfterAll(env, Empty, steps).tables;
    ArtifactsAreAddressed(env, steps);
    hide AfterAll;
    assert IsAllZeros(ZEROS);
    hide ZEROS, IsAllZeros;
    var r :| r in t.rows && r.run == run && Matches(req, r) && IsPhantom(req, r);
    assert env.sha256(t.artifacts[ZEROS]) == ZEROS;
  }

  /** On the tables of any execution the reason of a plan item is the one that its explanation supports, or
      some stored bytes have sixty-four zeros for their hash. */
  lemma ReasonsAgreeInEveryExecution(env: Env, steps: seq<Step>, e: ExplainItem, item: PlanItem, req: Request)
    requires var rows := AfterAll(env, Empty, steps).tables.rows;
             StartsRight(item, req, rows) && ExplainsItem(e, item, req, rows)
    ensures item.reason == ExplainedReason(e) || exists x: Bytes :: IsAllZeros(env.sha256(x))
  {
    var rows := AfterAll(env, Empty, steps).tables.rows;
    hide AfterAll, StartsRight, ExplainsItem, ExplainedReason, HasPhantom;
    ReasonAgreesExactlyWhen(e, item, req, rows);
    if HasPhantom(rows, req, item.run) {
      PhantomsAreHashes(env, steps, item.run, req);
    }
  }

  /** Some stage of the run that uses the replaced prompt has a row. */
  ghost predicate HasPromptRow(env: Env, p: Proc, rows: seq<StageRow>, req: Request) {
    HitsPrompt(p.job, req) &&
    exists j :: 0 <= j < |p.job.stages| && p.job.stages[j].usesPrompt && HasRow(env, p, rows, j)
  }

  /** For a completed or resumed run the reason says which of prompt and toolchain the request replaces in
      the stages that left a row, or some stored bytes have sixty-four zeros for their hash. */
  lemma ReasonOfCompletedRun(env: Env, steps: seq<Step>, pid: nat, item: PlanItem, req: Request)
    requires IsItemOf(env, steps, pid, item, req)
    ensures var w := AfterAll(env, Empty, steps);
            var p := w.procs[pid];
            var prompt, toolchain := HasPromptRow(env, p, w.tables.rows, req), HitsToolchain(p.job, req);
            || (&& (item.reason.PromptChange? <==> prompt && !toolchain)
                && (item.reason.ToolchainChange? <==> !prompt && toolchain)
                && (item.reason.MixedChange? <==> prompt && toolchain))
            || exists x: Bytes :: IsAllZeros(env.sha256(x))
  {
    hide AfterAll, SplitsRight, NoCollision, StartsRight, HasPhantom, IsAllZeros, CarriesPrompt, CarriesToolchain;
    var w := AfterAll(env, Empty, steps);
    var p := w.procs[pid];
    ReasonIsRightExactlyWhen(item, req, w.tables.rows);
    if HasPhantom(w.tables.rows, req, item.run) {
      PhantomsAreHashes(env, steps, item.run, req);
    } else {
      CarriedByCompletedRun(env, steps, pid, item, req);
    }
  }

  lemma CarriedByCompletedRun(env: Env, steps: seq<Step>, pid: nat, item: PlanItem, req: Request)
    requires IsItemOf(env, steps, pid, item, req)
    ensures var w := AfterAll(env, Empty, steps);
            var p := w.procs[pid];
            && (CarriesPrompt(w.tables.rows, item.run, req.oldPrompt) <==> HasPromptRow(env, p, w.tables.rows, req))
            && (CarriesToolchain(w.tables.rows, item.run, req.oldToolchain) <==> HitsToolchain(p.job, req))
  {
    hide AfterAll, SplitsRight, NoCollision, InputSha;
    var w := AfterAll(env, Empty, steps);
    var p := w.procs[pid];
    var rows := w.tables.rows;
    if CarriesPrompt(rows, item.run, req.oldPrompt) {
      var r :| r in rows && r.run == item.run && r.prompt == req.oldPrompt;
      var j := RowsOfCompletedRun(env, steps, pid, r);
      assert HasRow(env, p, rows, j);
    }
    if HasPromptRow(env, p, rows, req) {
      var j :| 0 <= j < |p.job.stages| && p.job.stages[j].usesPrompt && HasRow(env, p, rows, j);
      var r :| r in rows && IsRowOf(env, p, j, r);
      assert r.prompt == req.oldPrompt;
    }
    var first :| first in rows && first.run == item.run && Matches(req, first) && first.index == item.start;
    var s := RowsOfCompletedRun(env, steps, pid, first);
    assert first.toolchain == p.job.toolchain;
    if CarriesToolchain(rows, item.run, req.oldToolchain) {
      var r :| r in rows && r.run == item.run && Some(r.toolchain) == req.oldToolchain;
      var j := RowsOfCompletedRun(env, steps, pid, r);
    }
  }
}
