/** What stage inputs hold, and what follows from it in executions: whose work a cache hit is, what a
    returned output and a stored error are, and when a run gets through. */
module StageInputs {
  import opened CompletedRuns
  import opened Content
  import opened Pipeline
  import opened PipelineInvariant
  import opened PipelineRun
  import opened PipelineTheorems
  import opened Store

  // ---- What a stage input holds ----

  /** The stage's own index, name and version, everything that the job gives to its stages, the prompt where
      the stage uses it, and the outputs so far. */
  predicate IsInputOf(i: StageInput, job: Job, k: nat, prior: seq<Sha>)
    requires k < |job.stages|
  {
    var s := job.stages[k];
    && i.index == s.index && i.name == s.name && i.version == s.version
    && i.docpack == job.docpack && i.toolchain == job.toolchain && i.params == job.params
    && i.prompt == (if s.usesPrompt then job.prompt else None)
    && i.priorOutputs == prior
  }

  lemma InputHolds(job: Job, k: nat, prior: seq<Sha>)
    requires k < |job.stages|
    ensures IsInputOf(StageInputOf(job, k, prior), job, k, prior)
  {
  }

  /** Two stages do the same work: nothing that a stage input holds tells them apart. */
  predicate SameWork(a: Job, j: nat, x: seq<Sha>, b: Job, k: nat, y: seq<Sha>)
    requires j < |a.stages| && k < |b.stages|
  {
    var s, t := a.stages[j], b.stages[k];
    && s.index == t.index && s.name == t.name && s.version == t.version
    && a.docpack == b.docpack && a.toolchain == b.toolchain && a.params == b.params
    && (if s.usesPrompt then a.prompt else None) == (if t.usesPrompt then b.prompt else None)
    && x == y
  }

  /** Equal stage inputs mean the same work, and the same work has one stage input. */
  lemma EqualInputsExactlyWhen(a: Job, j: nat, x: seq<Sha>, b: Job, k: nat, y: seq<Sha>)
    requires j < |a.stages| && k < |b.stages|
    ensures StageInputOf(a, j, x) == StageInputOf(b, k, y) <==> SameWork(a, j, x, b, k, y)
  {
    InputHolds(a, j, x);
    InputHolds(b, k, y);
  }

  // ---- Whose work a cache hit is ----

  /** The run `q` was at its stage `m` when it made the entry: the key is that of this stage's input, and the
      run has inserted a row for the stage. */
  ghost predicate IsOrigin(env: Env, w: World, key: CacheKey, q: nat, m: nat) {
    && q < |w.procs| && |w.owner| == |w.tables.rows|
    && var p := w.procs[q];
    && m < |p.job.stages| && m <= |p.outputs|
    && InputAt(p, m) in w.seen && KeyOf(env, InputAt(p, m)) == key
    && exists row :: 0 <= row < |w.owner| && w.owner[row] == q && IsRowOf(env, p, m, w.tables.rows[row])
  }

  ghost predicate HasOrigin(env: Env, w: World, key: CacheKey) {
    exists q: nat, m: nat :: IsOrigin(env, w, key, q, m)
  }

  ghost predicate CacheHasOrigins(env: Env, w: World) {
    forall key :: key in w.tables.cache ==> HasOrigin(env, w, key)
  }

  lemma NewEntryIsOwn(env: Env, t: Tables, p: Proc)
    requires WellFormed(p) && !p.pc.Stopped()
    ensures forall key :: key in Next(env, t, p).0.cache ==>
              key in t.cache || (p.pc.AtCacheRecord? && key == KeyOf(env, Current(p)))
  {
    hide StageInputOf, InputSha, HandlerDocument, AfterHandler, SlotTaken, NextStage, AfterPrior;
  }

  /** What a world keeps of the one before it. */
  ghost predicate Follows(w: World, v: World) {
    && |w.owner| == |w.tables.rows| && |v.owner| == |v.tables.rows|
    && w.seen <= v.seen && w.owner <= v.owner && |w.procs| <= |v.procs|
    && (forall row :: 0 <= row < |w.owner| ==> SameStage(w.tables.rows[row], v.tables.rows[row]))
    && (forall q :: 0 <= q < |w.procs| ==>
          v.procs[q].job == w.procs[q].job && w.procs[q].outputs <= v.procs[q].outputs)
  }

  lemma StepFollows(env: Env, w: World, step: Step)
    requires |w.owner| == |w.tables.rows|
    ensures Follows(w, After(env, w, step))
  {
    hide Next, WellFormed, SameStage;
    forall r: StageRow ensures SameStage(r, r) {
      SameItself(r);
    }
    if step.Advance? && step.pid < |w.procs| && WellFormed(w.procs[step.pid]) && !w.procs[step.pid].pc.Stopped() {
      CallKeepsStages(env, w.tables, w.procs[step.pid]);
    }
  }

  lemma OriginStays(env: Env, w: World, v: World, key: CacheKey)
    requires Follows(w, v) && HasOrigin(env, w, key)
    ensures HasOrigin(env, v, key)
  {
    hide IsRowOf, SameStage, KeyOf;
    var q: nat, m: nat :| IsOrigin(env, w, key, q, m);
    var p, c := w.procs[q], v.procs[q];
    assert c.outputs[..m] == p.outputs[..m];
    var row :| 0 <= row < |w.owner| && w.owner[row] == q && IsRowOf(env, p, m, w.tables.rows[row]);
    RowStays(env, p, c, m, w.tables.rows[row], v.tables.rows[row]);
    assert IsOrigin(env, v, key, q, m);
  }

  lemma RowStays(env: Env, p: Proc, q: Proc, m: nat, r: StageRow, s: StageRow)
    requires IsRowOf(env, p, m, r) && SameStage(r, s) && q.job == p.job && p.outputs <= q.outputs
    ensures IsRowOf(env, q, m, s)
  {
    assert q.outputs[..m] == p.outputs[..m];
  }

  /** The call that records an entry is made by a run that has inserted the row of its stage. */
  lemma NewEntryHasOrigin(env: Env, w: World, pid: nat)
    requires Inv(env, w) && pid < |w.procs| && w.procs[pid].pc.AtCacheRecord?
    requires Follows(w, Advanced(env, w, pid))
    ensures HasOrigin(env, Advanced(env, w, pid), KeyOf(env, Current(w.procs[pid])))
  {
    hide Next, HasOrigin, Follows, TablesSound, Past, KeyOf, Explains;
    var p := w.procs[pid];
    RecordingRunIsOrigin(env, w, pid);
    OriginStays(env, w, Advanced(env, w, pid), KeyOf(env, Current(p)));
  }

  lemma RecordingRunIsOrigin(env: Env, w: World, pid: nat)
    requires Inv(env, w) && pid < |w.procs| && w.procs[pid].pc.AtCacheRecord?
    ensures var p := w.procs[pid]; p.k < |p.job.stages| && HasOrigin(env, w, KeyOf(env, Current(p)))
  {
    hide TablesSound, Past, KeyOf, Explains;
    var p := w.procs[pid];
    assert ProcSound(env, w, pid, p);
    assert p.outputs[..p.k] == p.outputs;
    assert IsRowOf(env, p, p.k, w.tables.rows[p.pc.row]);
    hide IsRowOf, Inv, ProcSound;
    assert IsOrigin(env, w, KeyOf(env, Current(p)), pid, p.k);
  }

  lemma StepKeepsOrigins(env: Env, w: World, step: Step)
    requires Inv(env, w) && CacheHasOrigins(env, w)
    ensures CacheHasOrigins(env, After(env, w, step))
  {
    hide Next, WellFormed, HasOrigin, Follows;
    var v := After(env, w, step);
    StepFollows(env, w, step);
    forall key | key in w.tables.cache ensures HasOrigin(env, v, key) {
      OriginStays(env, w, v, key);
    }
    if step.Advance? && step.pid < |w.procs| && WellFormed(w.procs[step.pid]) && !w.procs[step.pid].pc.Stopped() {
      NewEntryIsOwn(env, w.tables, w.procs[step.pid]);
      if w.procs[step.pid].pc.AtCacheRecord? {
        NewEntryHasOrigin(env, w, step.pid);
      }
    }
  }

  lemma {:induction false} OriginsThroughout(env: Env, steps: seq<Step>)
    requires NoCollision(env, AfterAll(env, Empty, steps).seen)
    ensures CacheHasOrigins(env, AfterAll(env, Empty, steps))
    decreases |steps|
  {
    hide CacheHasOrigins, After, NoCollision, Inv;
    if steps == [] {
      NoEntriesYet(env);
    } else {
      var before, last := steps[..|steps| - 1], steps[|steps| - 1];
      EarlierSeen(env, AfterAll(env, Empty, before), last);
      ReachableWorldsAreSound(env, before);
      OriginsThroughout(env, before);
      StepKeepsOrigins(env, AfterAll(env, Empty, before), last);
    }
  }

  lemma NoEntriesYet(env: Env)
    ensures CacheHasOrigins(env, AfterAll(env, Empty, []))
  {
  }

  lemma EarlierSeen(env: Env, w: World, step: Step)
    requires NoCollision(env, After(env, w, step).seen)
    ensures NoCollision(env, w.seen)
  {
    SeenGrows(env, w, step);
    hide After;
  }

  /** The cache has answered stage `j` of the run: the stage is over and has no row, or the run is about to
      record the hit. */
  predicate IsHit(p: Proc, j: nat, answer: Sha) {
    || (j < |p.rowIds| && j < |p.outputs| && p.rowIds[j] == None && p.outputs[j] == answer)
    || (j == p.k && p.pc == AtHitEdge(answer))
  }

  /** The input of the answered stage is known, and its entry is the answer. */
  lemma HitIsCached(env: Env, w: World, pid: nat, j: nat, answer: Sha)
    requires Inv(env, w) && pid < |w.procs| && IsHit(w.procs[pid], j, answer)
    ensures var p := w.procs[pid];
            && j < |p.job.stages| && j <= |p.outputs|
            && InputAt(p, j) in w.seen && Cached(w.tables, KeyOf(env, InputAt(p, j))) == Some(answer)
  {
    var p := w.procs[pid];
    assert ProcSound(env, w, pid, p);
    if j < |p.outputs| {
      assert StageDone(env, w, pid, p.job, p.outputs, p.rowIds, j);
    } else {
      assert p.outputs[..j] == p.outputs;
    }
  }

  /** Main theorem: a cache hit is the work of a run that did the same work. In every execution without a
      hash collision, whatever the cache answers at a stage was computed at a stage of the same index, name
      and version, by a run with the same docpack, toolchain and params, the same prompt where it is used and
      the same outputs before it; that run inserted a row for it, and the answer is the digest of what the
      handler of that name and version returns for that input. */
  lemma HitsAreTheSameWork(env: Env, steps: seq<Step>, pid: nat, j: nat, answer: Sha) returns (q: nat, m: nat)
    requires var w := AfterAll(env, Empty, steps);
             NoCollision(env, w.seen) && pid < |w.procs| && IsHit(w.procs[pid], j, answer)
    ensures var w := AfterAll(env, Empty, steps);
            var p := w.procs[pid];
            && q < |w.procs|
            && var c := w.procs[q];
            && j < |p.job.stages| && j <= |p.outputs| && m < |c.job.stages| && m <= |c.outputs|
            && SameWork(p.job, j, p.outputs[..j], c.job, m, c.outputs[..m])
            && (exists row :: 0 <= row < |w.owner| && w.owner[row] == q
                              && row < |w.tables.rows| && IsRowOf(env, c, m, w.tables.rows[row]))
            && IsComputed(env, p.job, j, p.outputs[..j], answer)
  {
    hide AfterAll, IsRowOf, Inv, SameWork, TablesSound;
    var w := AfterAll(env, Empty, steps);
    ReachableWorldsAreSound(env, steps);
    OriginsThroughout(env, steps);
    HitIsCached(env, w, pid, j, answer);
    var i := InputAt(w.procs[pid], j);
    assert HasOrigin(env, w, KeyOf(env, i));
    q, m :| IsOrigin(env, w, KeyOf(env, i), q, m);
    assert InputAt(w.procs[q], m) == i;
    hide NoCollision;
    var p, c := w.procs[pid], w.procs[q];
    EqualInputsExactlyWhen(p.job, j, p.outputs[..j], c.job, m, c.outputs[..m]);
    OutputIsComputed(env, w, p.job, j, p.outputs[..j], answer);
  }

  // ---- What outputs and errors are ----

  /** The answer is the digest of what the stage's own handler returns for an input that holds what the job
      and the outputs so far give it; input and output are valid. */
  ghost predicate IsComputed(env: Env, job: Job, k: nat, prior: seq<Sha>, answer: Sha)
    requires k < |job.stages|
  {
    exists i, json ::
      && IsInputOf(i, job, k, prior)
      && env.validate(Input(i)) == None
      && env.handler(job.stages[k].name, job.stages[k].version, i) == Returns(json)
      && env.validate(Value(json)) == None
      && answer == env.sha256(env.canonical(Value(json)))
  }

  lemma StageOutputIsComputed(env: Env, job: Job, k: nat, prior: seq<Sha>, answer: Sha)
    requires k < |job.stages| && StageOutput(env, StageInputOf(job, k, prior)) == Some(answer)
    ensures IsComputed(env, job, k, prior, answer)
  {
    var i := StageInputOf(job, k, prior);
    InputHolds(job, k, prior);
    assert env.handler(job.stages[k].name, job.stages[k].version, i).Returns?;
    var json := env.handler(job.stages[k].name, job.stages[k].version, i).json;
    assert answer == env.sha256(env.canonical(Value(json)));
    hide IsInputOf, StageInputOf;
  }

  lemma OutputIsComputed(env: Env, w: World, job: Job, k: nat, prior: seq<Sha>, answer: Sha)
    requires Inv(env, w) && NoCollision(env, w.seen) && k < |job.stages|
    requires var i := StageInputOf(job, k, prior); i in w.seen && Cached(w.tables, KeyOf(env, i)) == Some(answer)
    ensures IsComputed(env, job, k, prior, answer)
  {
    hide IsComputed;
    CacheTellsTheTruth(env, w, StageInputOf(job, k, prior));
    StageOutputIsComputed(env, job, k, prior, answer);
  }

  /** Main theorem: what a run has returned, stage by stage, without the fold: each output is the digest of
      what the stage's handler returns for the docpack, the outputs before it, the prompt where it is used,
      the toolchain and the params of the job. It is cached under name, version and input hash. */
  lemma OutputsAreComputed(env: Env, steps: seq<Step>, pid: nat, j: nat)
    requires var w := AfterAll(env, Empty, steps);
             NoCollision(env, w.seen) && pid < |w.procs| && j < |w.procs[pid].outputs|
    ensures var w := AfterAll(env, Empty, steps);
            var p := w.procs[pid];
            && j < |p.job.stages|
            && IsComputed(env, p.job, j, p.outputs[..j], p.outputs[j])
            && exists i ::
                 && IsInputOf(i, p.job, j, p.outputs[..j])
                 && var sha := env.sha256(env.canonical(Input(i)));
                 && sha in w.tables.artifacts && p.outputs[j] in w.tables.artifacts
                 && var key := CacheKey(p.job.stages[j].name, p.job.stages[j].version, sha);
                 key in w.tables.cache && w.tables.cache[key] == p.outputs[j]
  {
    hide AfterAll, IsComputed, IsInputOf;
    var w := AfterAll(env, Empty, steps);
    var p := w.procs[pid];
    ReachableWorldsAreSound(env, steps);
    assert ProcSound(env, w, pid, p);
    assert StageDone(env, w, pid, p.job, p.outputs, p.rowIds, j);
    hide Inv;
    OutputIsComputed(env, w, p.job, j, p.outputs[..j], p.outputs[j]);
    InputHolds(p.job, j, p.outputs[..j]);
    CacheTellsTheTruth(env, w, StageInputOf(p.job, j, p.outputs[..j]));
  }

  /** The document whose digest is stored for a failing stage. */
  ghost predicate IsErrorOf(env: Env, job: Job, k: nat, i: StageInput, reason: Reason, d: Document)
    requires k < |job.stages|
  {
    var s := job.stages[k];
    match reason
    case InputInvalid => exists error :: env.validate(Input(i)) == Some(error) && d == Value(error)
    case HandlerThrew =>
      && env.validate(Input(i)) == None
      && exists message ::
           && env.handler(s.name, s.version, i) == Throws(message)
           && d == ExecutionError(s.index, s.name, s.version, message)
    case OutputInvalid =>
      && env.validate(Input(i)) == None
      && exists json, error ::
           && env.handler(s.name, s.version, i) == Returns(json)
           && env.validate(Value(json)) == Some(error) && d == Value(error)
  }

  /** Main theorem: what a failure leaves behind. A run that raised at stage `k` has stored the validator's
      record of the invalid input, the execution error of the handler that threw, with its message, or the
      validator's record of the invalid output. Its stage row, if one was inserted, is fail-closed, without
      an output, and names the stored error. */
  lemma StoredErrorIs(env: Env, steps: seq<Step>, pid: nat) returns (i: StageInput, d: Document)
    requires var w := AfterAll(env, Empty, steps);
             NoCollision(env, w.seen) && pid < |w.procs| && w.procs[pid].pc.Raised?
    ensures var w := AfterAll(env, Empty, steps);
            var p := w.procs[pid];
            && p.k < |p.job.stages| && IsInputOf(i, p.job, p.k, p.outputs)
            && IsErrorOf(env, p.job, p.k, i, p.pc.reason, d)
            && p.pc.error == env.sha256(env.canonical(d)) && p.pc.error in w.tables.artifacts
            && (p.pc.failedRow.Some? <==> p.pc.reason != InputInvalid)
            && (p.pc.failedRow.Some? ==>
                  && p.pc.failedRow.value < |w.tables.rows|
                  && var r := w.tables.rows[p.pc.failedRow.value];
                  && r.run == p.job.run && r.index == p.job.stages[p.k].index
                  && r.status == Failed && r.failClosed && r.output == None && r.error == Some(p.pc.error))
  {
    hide AfterAll, Past, TablesSound, NoCollision;
    var w := AfterAll(env, Empty, steps);
    var p := w.procs[pid];
    ReachableWorldsAreSound(env, steps);
    assert ProcSound(env, w, pid, p);
    i, d := Current(p), ErrorDocument(env, Current(p));
    InputHolds(p.job, p.k, p.outputs);
  }

  /** What the outcome of a run of the job says: every output of the list is computed by its stage, or the
      error is stored for the stage that failed. */
  ghost predicate OutcomeIsTrue(env: Env, t: Tables, job: Job, k: nat, outputs: seq<Sha>, outcome: Outcome) {
    match outcome
    case Outputs(list) =>
      && |list| == |job.stages|
      && forall j :: 0 <= j < |list| ==> IsComputed(env, job, j, list[..j], list[j])
    case StageError(reason, error) =>
      && k < |job.stages| && error in t.artifacts
      && exists i, d ::
           && IsInputOf(i, job, k, outputs) && IsErrorOf(env, job, k, i, reason, d)
           && error == env.sha256(env.canonical(d))
    case DatabaseError => true
  }

  /** Main theorem: what `Run` answers on the tables of any reachable world, in terms of handlers, validator and
      digests alone: a list whose outputs are computed stage by stage, or the stored error of the stage it
      stopped at with the right reason, or a database error; or the execution exhibits a hash collision. */
  lemma RunTellsTheTruth(env: Env, before: seq<Step>, job: Job) returns (steps: seq<Step>)
    ensures before <= steps
    ensures var w := AfterAll(env, Empty, before);
            var v := AfterAll(env, Empty, steps);
            var (t, p) := Alone(env, w.tables, Started(job));
            && v.tables == t && |w.procs| < |v.procs| && v.procs[|w.procs|] == p
            && (OutcomeIsTrue(env, t, job, p.k, p.outputs, OutcomeOf(p)) || Collides(env, v.seen))
  {
    hide AfterAll, Alone, IsComputed, IsInputOf, IsErrorOf, Fold, NoCollision, Collides;
    var w := AfterAll(env, Empty, before);
    steps := RunReturnsTheFold(env, before, job);
    JobStaysAlone(env, w.tables, Started(job));
    var v, pid := AfterAll(env, Empty, steps), |w.procs|;
    var p := v.procs[pid];
    if NoCollision(env, v.seen) {
      if p.pc.Returned? {
        ReachableWorldsAreSound(env, steps);
        ReturnedInFull(env, v, pid);
        forall j | 0 <= j < |p.outputs| ensures IsComputed(env, job, j, p.outputs[..j], p.outputs[j]) {
          OutputsAreComputed(env, steps, pid, j);
        }
      } else if p.pc.Raised? {
        var i, d := StoredErrorIs(env, steps, pid);
      }
    } else {
      assert Collides(env, v.seen) by { CollisionOrNone(env, v.seen); }
    }
  }

  lemma CollisionOrNone(env: Env, seen: set<StageInput>)
    ensures NoCollision(env, seen) || Collides(env, seen)
  {
  }

  lemma ReturnedInFull(env: Env, w: World, pid: nat)
    requires Inv(env, w) && pid < |w.procs| && w.procs[pid].pc.Returned?
    ensures |w.procs[pid].outputs| == |w.procs[pid].job.stages|
  {
    assert ProcSound(env, w, pid, w.procs[pid]);
  }

  // ---- When a run gets through ----

  ghost predicate IndicesDiffer(job: Job) {
    forall i, j :: 0 <= i < j < |job.stages| ==> job.stages[i].index != job.stages[j].index
  }

  /** What the foreign keys ask of a job. */
  ghost predicate IsProvided(t: Tables, job: Job) {
    && job.run in t.runs && job.docpack in t.artifacts && job.toolchain in t.artifacts
    && forall k :: 0 <= k < |job.stages| && job.stages[k].usesPrompt && job.prompt.Some? ==>
         job.prompt.value in t.artifacts
  }

  /** The rows under the run id of a run alone under it are those of its finished stages. */
  lemma OwnSlotIsFree(env: Env, w: World, pid: nat)
    requires Inv(env, w) && RowsAreKnown(w) && pid < |w.procs| && IsSole(w, pid)
    requires w.procs[pid].pc.AtInsert? && IndicesDiffer(w.procs[pid].job)
    ensures var p := w.procs[pid];
            WellFormed(p) && p.k < |p.job.stages| && !SlotTaken(w.tables, p.job.run, Current(p).index)
  {
    hide TablesSound, PcSound, Fold, InputSha;
    var p := w.procs[pid];
    assert ProcSound(env, w, pid, p);
    forall row: nat | row < |w.tables.rows| && w.tables.rows[row].run == p.job.run
      ensures w.tables.rows[row].index != p.job.stages[p.k].index
    {
      assert w.owner[row] == pid && Remembers(p, row);
      var j :| 0 <= j < |p.rowIds| && p.rowIds[j] == Some(row);
      assert StageDone(env, w, pid, p.job, p.outputs, p.rowIds, j);
    }
  }

  /** Nothing stands in the way of the run. */
  ghost predicate IsFree(env: Env, w: World, pid: nat) {
    && Inv(env, w) && RowsAreKnown(w)
    && pid < |w.procs| && !w.procs[pid].pc.StoreError?
    && IsProvided(w.tables, w.procs[pid].job) && IndicesDiffer(w.procs[pid].job)
  }

  lemma CallGoesThrough(env: Env, w: World, pid: nat)
    requires IsFree(env, w, pid) && IsSole(w, pid) && NoCollision(env, w.seen) && !w.procs[pid].pc.Stopped()
    ensures WellFormed(w.procs[pid]) && !Next(env, w.tables, w.procs[pid]).1.pc.StoreError?
  {
    hide Past, TablesSound, Next, RowsAreKnown;
    var p := w.procs[pid];
    assert ProcSound(env, w, pid, p);
    if p.pc.AtInsert? {
      OwnSlotIsFree(env, w, pid);
      InsertRaisesExactlyWhen(env, w, pid, p);
    } else if p.pc.AtDocpackEdge? {
      DocpackEdgeRaisesExactlyWhen(env, w, pid, p);
    } else {
      OtherCallsGoThrough(env, w, pid, p);
    }
  }

  lemma StepKeepsFree(env: Env, w: World, step: Step, pid: nat)
    requires IsFree(env, w, pid) && IsSole(w, pid) && NoCollision(env, After(env, w, step).seen)
    ensures IsFree(env, After(env, w, step), pid)
  {
    hide Inv, RowsAreKnown, NoCollision, IsSole, Next, WellFormed;
    StepKeepsInv(env, w, step);
    StepKeepsRowsKnown(env, w, step);
    StepGrowsTables(env, w, step);
    JobsStay(env, w, step, pid);
    if step == Advance(pid) && !w.procs[pid].pc.Stopped() {
      EarlierSeen(env, w, step);
      CallGoesThrough(env, w, pid);
    }
  }

  lemma SoleBefore(env: Env, w: World, step: Step, pid: nat)
    requires pid < |w.procs| && pid < |After(env, w, step).procs| && IsSole(After(env, w, step), pid)
    ensures IsSole(w, pid)
  {
    forall q | 0 <= q < |w.procs|
      ensures q < |After(env, w, step).procs| && After(env, w, step).procs[q].job == w.procs[q].job
    {
      JobsStay(env, w, step, q);
    }
    hide After;
  }

  lemma {:induction false} FreeThroughout(env: Env, w: World, steps: seq<Step>, pid: nat)
    requires IsFree(env, w, pid) && NoCollision(env, AfterAll(env, w, steps).seen)
    requires pid < |AfterAll(env, w, steps).procs| && IsSole(AfterAll(env, w, steps), pid)
    ensures IsFree(env, AfterAll(env, w, steps), pid)
    ensures AfterAll(env, w, steps).procs[pid].job == w.procs[pid].job
    decreases |steps|
  {
    hide NoCollision, After, IsSole;
    if steps != [] {
      var before, last := steps[..|steps| - 1], steps[|steps| - 1];
      var u := AfterAll(env, w, before);
      EveryRunIsThere(env, w, before, pid);
      EarlierSeen(env, u, last);
      SoleBefore(env, u, last, pid);
      FreeThroughout(env, w, before, pid);
      StepKeepsFree(env, u, last, pid);
      JobsStay(env, u, last, pid);
    }
  }

  lemma {:induction false} EveryRunIsThere(env: Env, w: World, steps: seq<Step>, pid: nat)
    requires pid < |w.procs|
    ensures pid < |AfterAll(env, w, steps).procs|
    decreases |steps|
  {
    if steps != [] {
      var before, last := steps[..|steps| - 1], steps[|steps| - 1];
      EveryRunIsThere(env, w, before, pid);
      JobsStay(env, AfterAll(env, w, before), last, pid);
      hide After;
    }
  }

  lemma FoldDecides(env: Env, w: World, pid: nat)
    requires Inv(env, w) && pid < |w.procs| && Fold(env, w.procs[pid].job, |w.procs[pid].job.stages|).Some?
    requires w.procs[pid].pc.Returned? || w.procs[pid].pc.Raised?
    ensures var p := w.procs[pid];
            p.pc.Returned? && Fold(env, p.job, |p.job.stages|) == Some(p.outputs)
  {
    var p := w.procs[pid];
    assert ProcSound(env, w, pid, p);
    if p.pc.Raised? {
      FoldOfPrefix(env, p.job, |p.job.stages|, p.k + 1);
    }
  }

  /** Main theorem: a run gets through. A run alone under a registered run id, with its docpack, toolchain and
      prompt stored, distinct stage indices and a defined fold, which is scheduled as often as its call
      budget says and not crashed, has returned the fold's outputs, whatever other runs, uploads and crashes
      happen meanwhile. */
  lemma SoleRunsReturn(env: Env, before: seq<Step>, job: Job, after: seq<Step>)
    requires var w := AfterAll(env, Empty, before);
             && IsProvided(w.tables, job) && IndicesDiffer(job) && Fold(env, job, |job.stages|).Some?
             && Crash(|w.procs|) !in after
             && AdvancesOf(after, |w.procs|) >= CallBudget(Started(job))
    requires var w := AfterAll(env, Empty, before);
             var v := AfterAll(env, After(env, w, Start(job)), after);
             && NoCollision(env, v.seen)
             && |w.procs| < |v.procs| && IsSole(v, |w.procs|)
    ensures var w := AfterAll(env, Empty, before);
            var q := AfterAll(env, After(env, w, Start(job)), after).procs[|w.procs|];
            q.pc.Returned? && q.job == job && Fold(env, job, |job.stages|) == Some(q.outputs)
  {
    hide AfterAll, NoCollision, CallBudget, AdvancesOf, Fold, IsSole, Inv, RowsAreKnown;
    var w := AfterAll(env, Empty, before);
    var u, pid := After(env, w, Start(job)), |w.procs|;
    assert u.procs == w.procs + [Started(job)];
    SeenGrowsThroughout(env, u, after);
    NoCollisionAmongFewer(env, u.seen, AfterAll(env, u, after).seen);
    StartsFree(env, before, job);
    FreeThroughout(env, u, after, pid);
    EveryRunStops(env, u, after, pid);
    NoCrashWithoutAStep(env, u, after, pid);
    var v := AfterAll(env, u, after);
    BudgetIsLeft(v.procs[pid]);
    FoldDecides(env, v, pid);
  }

  lemma NoCollisionAmongFewer(env: Env, seen: set<StageInput>, more: set<StageInput>)
    requires NoCollision(env, more) && seen <= more
    ensures NoCollision(env, seen)
  {
  }

  lemma StartsFree(env: Env, before: seq<Step>, job: Job)
    requires var w := AfterAll(env, Empty, before);
             IsProvided(w.tables, job) && IndicesDiffer(job) && NoCollision(env, After(env, w, Start(job)).seen)
    ensures var w := AfterAll(env, Empty, before); IsFree(env, After(env, w, Start(job)), |w.procs|)
  {
    hide AfterAll, NoCollision, Inv, RowsAreKnown;
    var w := AfterAll(env, Empty, before);
    ReachableWorldsAreSound(env, before);
    RowsAreKnownThroughout(env, before);
    StepKeepsInv(env, w, Start(job));
    StepKeepsRowsKnown(env, w, Start(job));
  }
}
