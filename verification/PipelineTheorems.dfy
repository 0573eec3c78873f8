/** What the invariant says about whole executions: completed runs agree with the uncached fold,
    lineage is complete, failures are closed and never cached, and replays call no handler. */
module PipelineTheorems {
  import opened Content
  import opened Store
  import opened Pipeline
  import opened PipelineInvariant

  /** An explicit collision: two different stage inputs of the execution with the same hash. */
  ghost predicate Collides(env: Env, seen: set<StageInput>) {
    exists a, b :: a in seen && b in seen && a != b && InputSha(env, a) == InputSha(env, b)
  }

  /** Main theorem: whatever the interleaving, uploads and crashes, a run that returns has returned the
      outputs of the uncached fold, or the execution exhibits a hash collision. */
  lemma CompletedRunsEqualTheFold(env: Env, steps: seq<Step>, pid: nat)
    requires var w := AfterAll(env, Empty, steps); pid < |w.procs| && w.procs[pid].pc.Returned?
    ensures var w := AfterAll(env, Empty, steps);
            var p := w.procs[pid];
            Fold(env, p.job, |p.job.stages|) == Some(p.outputs) || Collides(env, w.seen)
  {
    var w := AfterAll(env, Empty, steps);
    if NoCollision(env, w.seen) {
      ReachableWorldsAreSound(env, steps);
      assert ProcSound(env, w, pid, w.procs[pid]);
    }
  }

  /** A run that has stopped on its own, neither crashed nor stopped by the database, returned exactly
      when the fold is defined. */
  lemma OutcomeIsTheFolds(env: Env, steps: seq<Step>, pid: nat)
    requires var w := AfterAll(env, Empty, steps);
             && NoCollision(env, w.seen) && pid < |w.procs|
             && (w.procs[pid].pc.Returned? || w.procs[pid].pc.Raised?)
    ensures var p := AfterAll(env, Empty, steps).procs[pid];
            p.pc.Returned? <==> Fold(env, p.job, |p.job.stages|).Some?
  {
    var w := AfterAll(env, Empty, steps);
    var p := w.procs[pid];
    ReachableWorldsAreSound(env, steps);
    assert ProcSound(env, w, pid, p);
    if p.pc.Raised? && Fold(env, p.job, |p.job.stages|).Some? {
      FoldOfPrefix(env, p.job, |p.job.stages|, p.k + 1);
    }
  }

  /** A run that raised at stage `k` produced the fold's first `k` outputs, the fold stops there too, the
      error is stored, and the stage row, if one was inserted, is fail-closed and points to it. */
  lemma FailuresAreClosed(env: Env, steps: seq<Step>, pid: nat)
    requires var w := AfterAll(env, Empty, steps);
             NoCollision(env, w.seen) && pid < |w.procs| && w.procs[pid].pc.Raised?
    ensures var w := AfterAll(env, Empty, steps);
            var p := w.procs[pid];
            && p.k < |p.job.stages|
            && Fold(env, p.job, p.k) == Some(p.outputs)
            && Fold(env, p.job, p.k + 1) == None
            && p.pc.error == env.Digest(ErrorDocument(env, Current(p)))
            && p.pc.error in w.tables.artifacts
            && (p.pc.reason == InputInvalid <==> p.pc.failedRow == None)
            && (p.pc.failedRow.Some? ==>
                  && p.pc.failedRow.value < |w.tables.rows|
                  && w.tables.rows[p.pc.failedRow.value] == FailedRow(env, p.job, Current(p), p.pc.error))
  {
    ReachableWorldsAreSound(env, steps);
    var w := AfterAll(env, Empty, steps);
    assert ProcSound(env, w, pid, w.procs[pid]);
  }

  /** A stage input whose stage fails is never in the cache. */
  lemma FailuresAreNeverCached(env: Env, steps: seq<Step>, i: StageInput)
    requires NoCollision(env, AfterAll(env, Empty, steps).seen + {i})
    requires StageOutput(env, i) == None
    ensures KeyOf(env, i) !in AfterAll(env, Empty, steps).tables.cache
  {
    var w := AfterAll(env, Empty, steps);
    ReachableWorldsAreSound(env, steps);
    var key := KeyOf(env, i);
    assert key in w.tables.cache ==> EntryExplained(env, w.tables, w.seen, key);
  }

  // ---- Lineage ----

  ghost predicate Linked(t: Tables, from: Sha, to: Sha) {
    HasEdge(t, from, to, Consumes) || HasEdge(t, from, to, Produces)
  }

  ghost predicate IsPath(t: Tables, path: seq<Sha>) {
    forall j :: 0 <= j < |path| - 1 ==> Linked(t, path[j], path[j + 1])
  }

  ghost predicate Reaches(t: Tables, from: Sha, to: Sha) {
    exists path :: |path| > 0 && path[0] == from && path[|path| - 1] == to && IsPath(t, path)
  }

  lemma TwoEdgesReach(t: Tables, a: Sha, b: Sha, c: Sha)
    requires Linked(t, a, b) && Linked(t, b, c)
    ensures Reaches(t, a, c)
  {
    assert IsPath(t, [a, b, c]);
  }

  /** After a completed run, even one answered by the cache at every stage, every stage input has edges
      from the docpack and from each prior output and to its own output, and every returned output is
      reachable from the docpack and from each output before it. */
  lemma LineageIsComplete(env: Env, steps: seq<Step>, pid: nat, j: nat)
    requires var w := AfterAll(env, Empty, steps);
             && NoCollision(env, w.seen) && pid < |w.procs| && w.procs[pid].pc.Returned?
             && j < |w.procs[pid].outputs|
    ensures var w := AfterAll(env, Empty, steps);
            var p := w.procs[pid];
            && |p.outputs| == |p.job.stages|
            && var i := StageInputOf(p.job, j, p.outputs[..j]);
            && Explains(env, w.tables, i, p.outputs[j])
            && Reaches(w.tables, p.job.docpack, p.outputs[j])
            && (forall h :: 0 <= h < j ==> Reaches(w.tables, p.outputs[h], p.outputs[j]))
  {
    var w := AfterAll(env, Empty, steps);
    var p := w.procs[pid];
    ReachableWorldsAreSound(env, steps);
    assert ProcSound(env, w, pid, p);
    var i := StageInputOf(p.job, j, p.outputs[..j]);
    assert StageDone(env, w, pid, p.job, p.outputs, p.rowIds, j);
    CacheTellsTheTruth(env, w, i);
    var sha := InputSha(env, i);
    TwoEdgesReach(w.tables, p.job.docpack, sha, p.outputs[j]);
    forall h | 0 <= h < j ensures Reaches(w.tables, p.outputs[h], p.outputs[j]) {
      assert HasEdge(w.tables, i.priorOutputs[h], sha, Consumes);
      TwoEdgesReach(w.tables, p.outputs[h], sha, p.outputs[j]);
    }
  }

  // ---- Replay and resume ----

  /** Every one of the first `n` stages of the job, fed with the fold's outputs, is in the cache. */
  ghost predicate Covered(env: Env, t: Tables, job: Job, n: nat) {
    && n <= |job.stages|
    && Fold(env, job, n).Some?
    && forall j :: 0 <= j < n ==> KeyOf(env, StageInputOf(job, j, Fold(env, job, n).value[..j])) in t.cache
  }

  /** A run that the cache has answered at every stage before stage `n`. When `n` is the whole job, the
      run owns no stage row and has not been stopped by anything but a crash. */
  ghost predicate Replaying(w: World, pid: nat, n: nat)
    requires pid < |w.procs|
  {
    var p := w.procs[pid];
    && WellFormed(p)
    && (forall j :: 0 <= j < p.k && j < n ==> p.rowIds[j] == None)
    && (p.k < n ==> p.pc.AtInput? || p.pc.AtLookup? || p.pc.AtHitEdge? || p.pc.Crashed?)
    && ((p.k < n || n == |p.job.stages|) ==> pid !in w.owner)
  }

  lemma CallGrowsTables(env: Env, t: Tables, p: Proc)
    requires WellFormed(p) && !p.pc.Stopped()
    ensures TablesGrow(t, Next(env, t, p).0)
  {
    hide NextStage, AfterPrior, AfterHandler, HandlerDocument, SlotTaken, StageInputOf, InFlight;
  }

  lemma StepGrowsTables(env: Env, w: World, step: Step)
    ensures TablesGrow(w.tables, After(env, w, step).tables)
  {
    if step.Advance? && step.pid < |w.procs| && WellFormed(w.procs[step.pid]) && !w.procs[step.pid].pc.Stopped() {
      CallGrowsTables(env, w.tables, w.procs[step.pid]);
      hide Next, WellFormed;
    }
  }

  lemma CoverageStays(env: Env, t: Tables, u: Tables, job: Job, n: nat)
    requires Covered(env, t, job, n) && TablesGrow(t, u)
    ensures Covered(env, u, job, n)
  {
  }

  lemma PastCovers(env: Env, w: World, pid: nat, p: Proc)
    requires ProcSound(env, w, pid, p)
    ensures Covered(env, w.tables, p.job, p.k)
  {
    forall j | 0 <= j < p.k ensures KeyOf(env, StageInputOf(p.job, j, p.outputs[..j])) in w.tables.cache {
      assert StageDone(env, w, pid, p.job, p.outputs, p.rowIds, j);
    }
  }

  /** Jobs that differ only in the run id have the same stage inputs. */
  lemma FoldIgnoresRunId(env: Env, job: Job, run: string, k: nat)
    requires k <= |job.stages|
    ensures Fold(env, job.(run := run), k) == Fold(env, job, k)
  {
    if k > 0 {
      FoldIgnoresRunId(env, job, run, k - 1);
    }
  }

  lemma CoverageIgnoresRunId(env: Env, t: Tables, job: Job, run: string, n: nat)
    requires Covered(env, t, job, n)
    ensures Covered(env, t, job.(run := run), n)
  {
    FoldIgnoresRunId(env, job, run, n);
  }

  lemma CoveredInputsAreCached(env: Env, w: World, pid: nat, p: Proc, n: nat)
    requires ProcSound(env, w, pid, p) && Covered(env, w.tables, p.job, n) && p.k < n
    ensures StageOutput(env, Current(p)).Some? && KeyOf(env, Current(p)) in w.tables.cache
  {
    FoldOfPrefix(env, p.job, n, p.k);
    FoldOfPrefix(env, p.job, n, p.k + 1);
  }

  lemma ReplayingMoves(env: Env, w: World, pid: nat, n: nat)
    requires CanMove(env, w, pid) && w.procs[pid].k < n
    requires Covered(env, w.tables, w.procs[pid].job, n) && Replaying(w, pid, n)
    ensures Replaying(Advanced(env, w, pid), pid, n)
  {
    var p := w.procs[pid];
    assert ProcSound(env, w, pid, p);
    CoveredInputsAreCached(env, w, pid, p, n);
    match p.pc {
      case AtInput =>
      case AtLookup =>
      case AtHitEdge(hit) =>
        CacheTellsTheTruth(env, w, Current(p));
        assert Advanced(env, w, pid).procs[pid] == NextStage(p, hit, None);
    }
  }

  /** A run past stage `n` keeps the memory of how its first stages went. */
  lemma PastReplayMoves(env: Env, w: World, pid: nat, n: nat)
    requires CanMove(env, w, pid) && n <= w.procs[pid].k && Replaying(w, pid, n)
    ensures Replaying(Advanced(env, w, pid), pid, n)
  {
    NextMakesProgress(env, w.tables, w.procs[pid]);
    var q := Advanced(env, w, pid).procs[pid];
    assert q == Next(env, w.tables, w.procs[pid]).1;
    forall j | 0 <= j < q.k && j < n ensures q.rowIds[j] == None {
      assert q.rowIds[j] == w.procs[pid].rowIds[j];
    }
  }

  lemma OtherStepsLetReplay(env: Env, w: World, step: Step, pid: nat, n: nat)
    requires pid < |w.procs| && Replaying(w, pid, n) && step != Advance(pid)
    ensures pid < |After(env, w, step).procs| && Replaying(After(env, w, step), pid, n)
  {
    var v := After(env, w, step);
    assert v.procs[pid] == w.procs[pid] || v.procs[pid] == w.procs[pid].(pc := Crashed);
    assert v.owner == w.owner || (step.Advance? && v.owner == w.owner + [step.pid]);
  }

  lemma ReplayingStays(env: Env, w: World, step: Step, pid: nat, n: nat)
    requires Inv(env, w) && NoCollision(env, After(env, w, step).seen)
    requires pid < |w.procs| && Covered(env, w.tables, w.procs[pid].job, n) && Replaying(w, pid, n)
    ensures pid < |After(env, w, step).procs| && Replaying(After(env, w, step), pid, n)
  {
    if step != Advance(pid) {
      OtherStepsLetReplay(env, w, step, pid, n);
    } else if !w.procs[pid].pc.Stopped() {
      if w.procs[pid].k < n {
        ReplayingMoves(env, w, pid, n);
      } else {
        PastReplayMoves(env, w, pid, n);
      }
    }
  }

  lemma JobsStay(env: Env, w: World, step: Step, pid: nat)
    requires pid < |w.procs|
    ensures pid < |After(env, w, step).procs| && After(env, w, step).procs[pid].job == w.procs[pid].job
  {
    if step == Advance(pid) && WellFormed(w.procs[pid]) && !w.procs[pid].pc.Stopped() {
      NextMakesProgress(env, w.tables, w.procs[pid]);
    }
  }

  lemma {:induction false} ReplaysThroughout(env: Env, w: World, steps: seq<Step>, pid: nat, n: nat)
    requires Inv(env, w) && NoCollision(env, AfterAll(env, w, steps).seen)
    requires pid < |w.procs| && Covered(env, w.tables, w.procs[pid].job, n) && Replaying(w, pid, n)
    ensures var v := AfterAll(env, w, steps);
            && Inv(env, v) && TablesGrow(w.tables, v.tables)
            && pid < |v.procs| && v.procs[pid].job == w.procs[pid].job && Replaying(v, pid, n)
    decreases |steps|
  {
    if steps != [] {
      var last := |steps| - 1;
      var u := AfterAll(env, w, steps[..last]);
      SeenGrows(env, u, steps[last]);
      ReplaysThroughout(env, w, steps[..last], pid, n);
      CoverageStays(env, w.tables, u.tables, w.procs[pid].job, n);
      ReplayingStays(env, u, steps[last], pid, n);
      JobsStay(env, u, steps[last], pid);
      StepKeepsInv(env, u, steps[last]);
      StepGrowsTables(env, u, steps[last]);
    }
  }

  /** The execution `before`, then a new run of the job of `pid` under the run id `run`, then `after`. */
  function Rerun(env: Env, before: seq<Step>, pid: nat, run: string, after: seq<Step>): World
    requires pid < |AfterAll(env, Empty, before).procs|
  {
    var w := AfterAll(env, Empty, before);
    AfterAll(env, After(env, w, Start(w.procs[pid].job.(run := run))), after)
  }

  lemma {:induction false} SeenGrowsThroughout(env: Env, w: World, steps: seq<Step>)
    ensures w.seen <= AfterAll(env, w, steps).seen
    decreases |steps|
  {
    if steps != [] {
      SeenGrowsThroughout(env, w, steps[..|steps| - 1]);
      SeenGrows(env, AfterAll(env, w, steps[..|steps| - 1]), steps[|steps| - 1]);
    }
  }

  /** Resume: a rerun of a job, started at any time after a run of it has finished `k` stages, calls no
      handler and inserts no stage row before stage `k`, whatever other runs do meanwhile. */
  lemma RerunSkipsFinishedStages(env: Env, before: seq<Step>, pid: nat, run: string, after: seq<Step>)
    requires pid < |AfterAll(env, Empty, before).procs|
    requires NoCollision(env, Rerun(env, before, pid, run, after).seen)
    ensures var w := AfterAll(env, Empty, before);
            var v := Rerun(env, before, pid, run, after);
            && Inv(env, v) && |w.procs| < |v.procs|
            && v.procs[|w.procs|].job == w.procs[pid].job.(run := run)
            && Replaying(v, |w.procs|, w.procs[pid].k)
  {
    var w := AfterAll(env, Empty, before);
    var job := w.procs[pid].job.(run := run);
    var u := After(env, w, Start(job));
    SeenGrowsThroughout(env, u, after);
    ReachableWorldsAreSound(env, before);
    assert ProcSound(env, w, pid, w.procs[pid]);
    StepKeepsInv(env, w, Start(job));
    PastCovers(env, w, pid, w.procs[pid]);
    CoverageIgnoresRunId(env, w.tables, w.procs[pid].job, run, w.procs[pid].k);
    NewRunOwnsNoRow(env, before);
    ReplaysThroughout(env, u, after, |w.procs|, w.procs[pid].k);
  }

  ghost predicate OwnersExist(w: World) {
    forall row :: 0 <= row < |w.owner| ==> w.owner[row] < |w.procs|
  }

  lemma OwnersStay(env: Env, w: World, step: Step)
    requires OwnersExist(w)
    ensures OwnersExist(After(env, w, step))
  {
  }

  lemma {:induction false} NewRunOwnsNoRow(env: Env, steps: seq<Step>)
    ensures OwnersExist(AfterAll(env, Empty, steps))
    decreases |steps|
  {
    if steps != [] {
      NewRunOwnsNoRow(env, steps[..|steps| - 1]);
      OwnersStay(env, AfterAll(env, Empty, steps[..|steps| - 1]), steps[|steps| - 1]);
    }
  }

  /** Replay: a rerun of a job that has returned once is only ever storing inputs, looking them up and
      recording hits; it never owns a stage row, and when it returns, it returns the same list. */
  lemma ReplayReturnsTheSameList(env: Env, before: seq<Step>, pid: nat, run: string, after: seq<Step>)
    requires var w := AfterAll(env, Empty, before); pid < |w.procs| && w.procs[pid].pc.Returned?
    requires NoCollision(env, Rerun(env, before, pid, run, after).seen)
    ensures var w := AfterAll(env, Empty, before);
            var v := Rerun(env, before, pid, run, after);
            && |w.procs| < |v.procs|
            && var q := v.procs[|w.procs|];
            && |w.procs| !in v.owner
            && (q.pc.AtInput? || q.pc.AtLookup? || q.pc.AtHitEdge? || q.pc.Crashed? || q.pc.Returned?)
            && (q.pc.Returned? ==> q.outputs == w.procs[pid].outputs)
  {
    var w := AfterAll(env, Empty, before);
    var v := Rerun(env, before, pid, run, after);
    RerunSkipsFinishedStages(env, before, pid, run, after);
    SeenGrowsThroughout(env, After(env, w, Start(w.procs[pid].job.(run := run))), after);
    ReachableWorldsAreSound(env, before);
    var p, q := w.procs[pid], v.procs[|w.procs|];
    assert ProcSound(env, w, pid, p) && ProcSound(env, v, |w.procs|, q);
    FoldIgnoresRunId(env, p.job, run, |p.job.stages|);
  }

  /** After a failure, any run under the same run id that comes to a stage with the same index and misses
      the cache is stopped by the UNIQUE constraint on (run, stage index), whatever its job is otherwise:
      a corrected prompt or other parameters do not help. */
  lemma RetryUnderTheSameRunIdRaises(env: Env, steps: seq<Step>, pid: nat, retry: nat)
    requires var w := AfterAll(env, Empty, steps);
             && NoCollision(env, w.seen) && pid < |w.procs| && retry < |w.procs|
             && w.procs[pid].pc.Raised? && w.procs[pid].pc.reason != InputInvalid
             && w.procs[retry].pc.AtInsert?
             && w.procs[retry].job.run == w.procs[pid].job.run
             && w.procs[retry].k < |w.procs[retry].job.stages| && w.procs[pid].k < |w.procs[pid].job.stages|
             && w.procs[retry].job.stages[w.procs[retry].k].index == w.procs[pid].job.stages[w.procs[pid].k].index
    ensures var w := AfterAll(env, Empty, steps);
            var v := After(env, w, Advance(retry));
            v.procs[retry].pc == StoreError && v.tables == w.tables
  {
    hide After;
    var w := AfterAll(env, Empty, steps);
    var p, q := w.procs[pid], w.procs[retry];
    ReachableWorldsAreSound(env, steps);
    assert ProcSound(env, w, pid, p) && ProcSound(env, w, retry, q);
    assert p.pc.failedRow.value < |w.tables.rows| && w.tables.rows[p.pc.failedRow.value] in w.tables.rows;
    assert SlotTaken(w.tables, q.job.run, q.job.stages[q.k].index);
    TakenSlotRaises(env, w, retry);
  }

  lemma TakenSlotRaises(env: Env, w: World, pid: nat)
    requires pid < |w.procs| && WellFormed(w.procs[pid]) && w.procs[pid].pc.AtInsert?
    requires SlotTaken(w.tables, w.procs[pid].job.run, Current(w.procs[pid]).index)
    ensures var v := After(env, w, Advance(pid)); v.procs[pid].pc == StoreError && v.tables == w.tables
  {
  }

  /** The database stops a run in exactly two places: at the insert, when the run id is not registered,
      the toolchain or the prompt is not stored, or the stage's slot is taken; and at the first edge,
      when the docpack is not stored. Every other call of every run goes through. */
  lemma StoreRaisesExactlyWhen(env: Env, steps: seq<Step>, pid: nat)
    requires var w := AfterAll(env, Empty, steps);
             && NoCollision(env, After(env, w, Advance(pid)).seen)
             && pid < |w.procs| && !w.procs[pid].pc.Stopped()
    ensures var w := AfterAll(env, Empty, steps);
            var p := w.procs[pid];
            var t := w.tables;
            && WellFormed(p)
            && var i := Current(p);
            After(env, w, Advance(pid)).procs[pid].pc == StoreError <==>
              || (p.pc.AtInsert? &&
                    (|| p.job.run !in t.runs
                     || SlotTaken(t, p.job.run, i.index)
                     || p.job.toolchain !in t.artifacts
                     || (i.prompt.Some? && i.prompt.value !in t.artifacts)))
              || (p.pc.AtDocpackEdge? && p.job.docpack !in t.artifacts)
  {
    hide After, TablesSound, Past;
    var w := AfterAll(env, Empty, steps);
    SeenGrows(env, w, Advance(pid));
    ReachableWorldsAreSound(env, steps);
    var p := w.procs[pid];
    assert ProcSound(env, w, pid, p);
    CallOf(env, w, pid);
    if p.pc.AtInsert? {
      InsertRaisesExactlyWhen(env, w, pid, p);
    } else if p.pc.AtDocpackEdge? {
      DocpackEdgeRaisesExactlyWhen(env, w, pid, p);
    } else {
      OtherCallsGoThrough(env, w, pid, p);
    }
  }

  lemma CallOf(env: Env, w: World, pid: nat)
    requires pid < |w.procs| && WellFormed(w.procs[pid]) && !w.procs[pid].pc.Stopped()
    ensures After(env, w, Advance(pid)).procs[pid] == Next(env, w.tables, w.procs[pid]).1
  {
  }

  lemma InsertRaisesExactlyWhen(env: Env, w: World, pid: nat, p: Proc)
    requires ProcSound(env, w, pid, p) && p.pc.AtInsert?
    ensures var t, i := w.tables, Current(p);
            Next(env, t, p).1.pc == StoreError <==>
              || p.job.run !in t.runs
              || SlotTaken(t, p.job.run, i.index)
              || p.job.toolchain !in t.artifacts
              || (i.prompt.Some? && i.prompt.value !in t.artifacts)
  {
  }

  lemma DocpackEdgeRaisesExactlyWhen(env: Env, w: World, pid: nat, p: Proc)
    requires ProcSound(env, w, pid, p) && p.pc.AtDocpackEdge?
    ensures Next(env, w.tables, p).1.pc == StoreError <==> p.job.docpack !in w.tables.artifacts
  {
  }

  /** Whatever the call refers to is stored already. */
  lemma OtherCallsGoThrough(env: Env, w: World, pid: nat, p: Proc)
    requires Inv(env, w) && NoCollision(env, w.seen) && ProcSound(env, w, pid, p)
    requires !p.pc.Stopped() && !p.pc.AtInsert? && !p.pc.AtDocpackEdge?
    ensures Next(env, w.tables, p).1.pc != StoreError
  {
    hide Fold, StageDone, NoCollision;
    match p.pc {
      case AtHitEdge(hit) => CacheTellsTheTruth(env, w, Current(p));
      case AtPriorEdge(row, output, next) => OutputsAreStored(env, w, pid, p, next);
      case _ =>
    }
  }

  lemma OutputsAreStored(env: Env, w: World, pid: nat, p: Proc, j: nat)
    requires Inv(env, w) && NoCollision(env, w.seen) && ProcSound(env, w, pid, p) && j < |p.outputs|
    ensures p.outputs[j] in w.tables.artifacts
  {
    assert StageDone(env, w, pid, p.job, p.outputs, p.rowIds, j);
    CacheTellsTheTruth(env, w, StageInputOf(p.job, j, p.outputs[..j]));
  }

  // ---- Progress ----

  /** A bound on the store calls a run still makes. */
  function CallBudget(p: Proc): nat
    requires WellFormed(p)
  {
    var stagesLeft: nat, callsAtMost: nat := |p.job.stages| - p.k, |p.job.stages| + 11;
    stagesLeft * callsAtMost + CallsLeft(p)
  }

  lemma NextUsesBudget(env: Env, t: Tables, p: Proc)
    requires WellFormed(p) && !p.pc.Stopped()
    ensures WellFormed(Next(env, t, p).1) && CallBudget(Next(env, t, p).1) < CallBudget(p)
  {
    NextMakesProgress(env, t, p);
    var q := Next(env, t, p).1;
    var n := |p.job.stages|;
    if q.k == p.k + 1 {
      assert (n - p.k) * (n + 11) == (n - q.k) * (n + 11) + (n + 11);
    }
  }

  function AdvancesOf(steps: seq<Step>, pid: nat): nat {
    if steps == [] then 0
    else AdvancesOf(steps[..|steps| - 1], pid) + (if steps[|steps| - 1] == Advance(pid) then 1 else 0)
  }

  /** Every run ends: a run that has been scheduled as often as its budget says has stopped, whatever
      the other runs do in between. */
  lemma {:induction false} EveryRunStops(env: Env, w: World, steps: seq<Step>, pid: nat)
    requires pid < |w.procs| && WellFormed(w.procs[pid])
    ensures var v := AfterAll(env, w, steps);
            && pid < |v.procs| && WellFormed(v.procs[pid])
            && (v.procs[pid].pc.Stopped() ||
                CallBudget(v.procs[pid]) + AdvancesOf(steps, pid) <= CallBudget(w.procs[pid]))
    decreases |steps|
  {
    if steps != [] {
      var last := |steps| - 1;
      var u := AfterAll(env, w, steps[..last]);
      EveryRunStops(env, w, steps[..last], pid);
      if steps[last] == Advance(pid) && !u.procs[pid].pc.Stopped() {
        NextUsesBudget(env, u.tables, u.procs[pid]);
      }
    }
  }

  lemma {:induction false} NoCrashWithoutAStep(env: Env, w: World, steps: seq<Step>, pid: nat)
    requires pid < |w.procs| && !w.procs[pid].pc.Crashed? && Crash(pid) !in steps
    ensures pid < |AfterAll(env, w, steps).procs| && !AfterAll(env, w, steps).procs[pid].pc.Crashed?
    decreases |steps|
  {
    if steps != [] {
      var last := |steps| - 1;
      assert steps[last] in steps && forall s :: s in steps[..last] ==> s in steps;
      NoCrashWithoutAStep(env, w, steps[..last], pid);
      StepDoesNotCrash(env, AfterAll(env, w, steps[..last]), steps[last], pid);
    }
  }

  lemma StepDoesNotCrash(env: Env, w: World, step: Step, pid: nat)
    requires pid < |w.procs| && !w.procs[pid].pc.Crashed? && step != Crash(pid)
    ensures pid < |After(env, w, step).procs| && !After(env, w, step).procs[pid].pc.Crashed?
  {
  }

  /** Replay, in full: a rerun of a job that has returned once, scheduled as often as its budget says and
      not crashed, has returned the same list, has inserted no stage row and so called no handler, whatever
      other runs, crashes and uploads happened meanwhile. */
  lemma RerunReturnsTheSameList(env: Env, before: seq<Step>, pid: nat, run: string, after: seq<Step>)
    requires var w := AfterAll(env, Empty, before);
             && pid < |w.procs| && w.procs[pid].pc.Returned?
             && Crash(|w.procs|) !in after
             && AdvancesOf(after, |w.procs|) >= CallBudget(Started(w.procs[pid].job.(run := run)))
    requires NoCollision(env, Rerun(env, before, pid, run, after).seen)
    ensures var w := AfterAll(env, Empty, before);
            var v := Rerun(env, before, pid, run, after);
            && |w.procs| < |v.procs|
            && v.procs[|w.procs|].pc.Returned?
            && v.procs[|w.procs|].outputs == w.procs[pid].outputs
            && |w.procs| !in v.owner
  {
    hide AfterAll, NoCollision, CallBudget, AdvancesOf;
    var w := AfterAll(env, Empty, before);
    var job := w.procs[pid].job.(run := run);
    var u := After(env, w, Start(job));
    assert u.procs == w.procs + [Started(job)];
    ReplayReturnsTheSameList(env, before, pid, run, after);
    EveryRunStops(env, u, after, |w.procs|);
    NoCrashWithoutAStep(env, u, after, |w.procs|);
    BudgetIsLeft(AfterAll(env, u, after).procs[|w.procs|]);
  }

  lemma BudgetIsLeft(p: Proc)
    requires WellFormed(p)
    ensures !p.pc.Stopped() ==> CallBudget(p) > 0
  {
    var left, most := |p.job.stages| - p.k, |p.job.stages| + 11;
    assert left * most >= 0;
    assert !p.pc.Stopped() ==> CallsLeft(p) > 0;
    hide CallsLeft, WellFormed;
  }

  // ---- What the store holds, without any assumption on the hash ----

  /** Every artifact is stored under its own hash. */
  ghost predicate IsAddressed(env: Env, t: Tables) {
    forall sha :: sha in t.artifacts ==> env.sha256(t.artifacts[sha]) == sha
  }

  /** The foreign keys of the stage rows. */
  ghost predicate RowsPointToArtifacts(t: Tables) {
    forall r :: r in t.rows ==> r.toolchain in t.artifacts && (r.prompt.Some? ==> r.prompt.value in t.artifacts)
  }

  lemma CallKeepsAddresses(env: Env, t: Tables, p: Proc)
    requires WellFormed(p) && !p.pc.Stopped() && IsAddressed(env, t) && RowsPointToArtifacts(t)
    ensures var u := Next(env, t, p).0; IsAddressed(env, u) && RowsPointToArtifacts(u)
  {
    CallStoresAddressed(env, t, p);
    CallKeepsRowKeys(env, t, p);
  }

  lemma CallStoresAddressed(env: Env, t: Tables, p: Proc)
    requires WellFormed(p) && !p.pc.Stopped() && IsAddressed(env, t)
    ensures IsAddressed(env, Next(env, t, p).0)
  {
    hide NextStage, AfterPrior, AfterHandler, HandlerDocument, SlotTaken, StageInputOf, InFlight;
  }

  lemma CallKeepsRowKeys(env: Env, t: Tables, p: Proc)
    requires WellFormed(p) && !p.pc.Stopped() && RowsPointToArtifacts(t)
    ensures RowsPointToArtifacts(Next(env, t, p).0)
  {
    hide NextStage, AfterPrior, AfterHandler, HandlerDocument, SlotTaken, StageInputOf, InFlight;
  }

  lemma StepKeepsAddresses(env: Env, w: World, step: Step)
    requires IsAddressed(env, w.tables) && RowsPointToArtifacts(w.tables)
    ensures var t := After(env, w, step).tables; IsAddressed(env, t) && RowsPointToArtifacts(t)
  {
    if step.Advance? && step.pid < |w.procs| && WellFormed(w.procs[step.pid]) && !w.procs[step.pid].pc.Stopped() {
      CallKeepsAddresses(env, w.tables, w.procs[step.pid]);
      hide Next, WellFormed;
    }
  }

  lemma {:induction false} ArtifactsAreAddressed(env: Env, steps: seq<Step>)
    ensures var t := AfterAll(env, Empty, steps).tables; IsAddressed(env, t) && RowsPointToArtifacts(t)
    decreases |steps|
  {
    if steps != [] {
      ArtifactsAreAddressed(env, steps[..|steps| - 1]);
      StepKeepsAddresses(env, AfterAll(env, Empty, steps[..|steps| - 1]), steps[|steps| - 1]);
    }
  }
}
