/** `Orchestrator.run` itself: the stage loop over a store that is updated in place, proved to do
    exactly what the machine does when one run has the store to itself. */
module PipelineRun {
  import opened Content
  import opened Store
  import opened Pipeline
  import opened PipelineTheorems

  /** One store call of a run alone. */
  lemma OneCall(env: Env, t: Tables, p: Proc, u: Tables, q: Proc)
    requires WellFormed(p) && !p.pc.Stopped() && Next(env, t, p) == (u, q)
    ensures WellFormed(q) && Alone(env, t, p) == Alone(env, u, q)
  {
    NextMakesProgress(env, t, p);
  }

  /** How the call ends: with the list of output hashes, or with an exception. */
  datatype Outcome = Outputs(outputs: seq<Sha>) | StageError(reason: Reason, error: Sha) | DatabaseError

  function OutcomeOf(p: Proc): Outcome {
    match p.pc
    case Returned => Outputs(p.outputs)
    case Raised(reason, error, _) => StageError(reason, error)
    case _ => DatabaseError
  }

  /** How one stage ends: with the hash to append, or with the exception the run ends with. */
  datatype StageEnd = Appended(output: Sha) | Stops(outcome: Outcome)

  /** The ghost run `p` is in round `k` of the loop, with the outputs the code has. */
  ghost predicate InRound(p: Proc, job: Job, k: nat, outputs: seq<Sha>) {
    k < |job.stages| && WellFormed(p) && p.job == job && p.k == k && p.outputs == outputs
  }

  /** The round has ended: the run is at its next round, at its end, or stopped by an exception. */
  ghost predicate EndsRound(end: StageEnd, q: Proc, job: Job, k: nat, outputs: seq<Sha>) {
    && WellFormed(q)
    && match end
       case Appended(output) =>
         && q.job == job && q.k == k + 1 && q.outputs == outputs + [output]
         && q.pc == if k + 1 == |job.stages| then Returned else AtInput
       case Stops(outcome) => q.pc.Stopped() && outcome == OutcomeOf(q)
  }

  /** The store calls that look a stage up, record a hit, and insert the row of a miss. */
  lemma LookupCalls(env: Env, t: Tables, p: Proc)
    requires WellFormed(p) && p.k < |p.job.stages|
    ensures var i, sha := Current(p), InputSha(env, Current(p));
            && (p.pc == AtLookup ==>
                  var hit := Cached(t, KeyOf(env, i));
                  Next(env, t, p) == (t, p.(pc := if hit.Some? then AtHitEdge(hit.value) else AtInsert)))
            && (p.pc.AtHitEdge? ==>
                  Next(env, t, p) == Commit(t, WithEdge(t, Edge(sha, p.pc.hit, Produces, None)), p,
                                            NextStage(p, p.pc.hit, None)))
            && (p.pc == AtInsert ==>
                  Next(env, t, p) == Commit(t, WithRow(t, InFlight(p.job.run, p.job.toolchain, i, sha)), p,
                                            p.(pc := AtHandler(|t.rows|))))
  {
    hide InputSha, StageInputOf;
  }

  /** The store calls that close a stage, one by one. */
  lemma ClosingCalls(env: Env, t: Tables, p: Proc, row: nat, output: Sha)
    requires WellFormed(p) && p.k < |p.job.stages|
    ensures var i, sha := Current(p), InputSha(env, Current(p));
            && (p.pc == AtDocpackEdge(row, output) ==>
                  Next(env, t, p) == Commit(t, WithEdge(t, Edge(p.job.docpack, sha, Consumes, Some(row))), p,
                                            p.(pc := AfterPrior(p, row, output, 0))))
            && (p.pc == AtProducesEdge(row, output) ==>
                  Next(env, t, p) == Commit(t, WithEdge(t, Edge(sha, output, Produces, Some(row))), p,
                                            p.(pc := AtCacheRecord(row, output))))
            && (p.pc == AtCacheRecord(row, output) ==>
                  Next(env, t, p) == Commit(t, WithCacheEntry(t, KeyOf(env, i), output), p,
                                            p.(pc := AtSuccessRow(row, output))))
            && (p.pc == AtSuccessRow(row, output) ==>
                  Next(env, t, p) == Commit(t, WithSuccess(t, row, output), p, NextStage(p, output, Some(row))))
  {
  }

  lemma PriorCall(env: Env, t: Tables, p: Proc, row: nat, output: Sha, next: nat)
    requires WellFormed(p) && p.pc == AtPriorEdge(row, output, next)
    ensures Next(env, t, p) ==
            Commit(t, WithEdge(t, Edge(p.outputs[next], InputSha(env, Current(p)), Consumes, Some(row))), p,
                   p.(pc := AfterPrior(p, row, output, next + 1)))
  {
  }

  function Succeeded(r: StageRow, output: Sha): StageRow { r.(status := Success, output := Some(output)) }

  /** The edges from the prior outputs, in their order. */
  function PriorEdges(outputs: seq<Sha>, sha: Sha, row: nat): seq<Edge> {
    if outputs == [] then []
    else PriorEdges(outputs[..|outputs| - 1], sha, row) + [Edge(outputs[|outputs| - 1], sha, Consumes, Some(row))]
  }

  lemma NoPriorEdges(sha: Sha, row: nat)
    ensures PriorEdges([], sha, row) == []
  {
  }

  lemma NextPriorEdge(outputs: seq<Sha>, sha: Sha, row: nat, j: nat)
    requires j < |outputs|
    ensures PriorEdges(outputs[..j + 1], sha, row) ==
            PriorEdges(outputs[..j], sha, row) + [Edge(outputs[j], sha, Consumes, Some(row))]
  {
    assert outputs[..j + 1][..j] == outputs[..j];
  }

  function WithEntry(cache: map<CacheKey, Sha>, key: CacheKey, output: Sha): map<CacheKey, Sha> {
    if key in cache then cache else cache[key := output]
  }

  class Orchestrator {
    const env: Env
    const db: Database

    constructor (env: Env, db: Database)
      ensures this.env == env && this.db == db
    {
      this.env := env;
      this.db := db;
    }

    method Run(job: Job) returns (outcome: Outcome)
      modifies db
      ensures var (t, p) := Alone(env, old(db.Contents()), Started(job));
              db.Contents() == t && outcome == OutcomeOf(p)
    {
      var outputs: seq<Sha> := [];
      ghost var start := old(db.Contents());
      ghost var p := Started(job);
      for k := 0 to |job.stages|
        invariant WellFormed(p) && p.job == job && p.k == k && p.outputs == outputs
        invariant p.pc == if k == |job.stages| then Returned else AtInput
        invariant Alone(env, db.Contents(), p) == Alone(env, start, Started(job))
      {
        var end, q := RunStage(job, k, outputs, p);
        if end.Stops? {
          return end.outcome;
        }
        outputs := outputs + [end.output];
        p := q;
      }
      return Outputs(outputs);
    }

    /** One round of the loop, up to appending the output. */
    method RunStage(job: Job, k: nat, outputs: seq<Sha>, ghost p: Proc) returns (end: StageEnd, ghost q: Proc)
      requires InRound(p, job, k, outputs) && p.pc == AtInput
      modifies db
      ensures EndsRound(end, q, job, k, outputs) && Alone(env, db.Contents(), q) == Alone(env, old(db.Contents()), p)
    {
      var i := StageInputOf(job, k, outputs);
      ghost var t := db.Contents();
      var invalid := env.validate(Input(i));
      if invalid.Some? {
        var error := db.PutDocument(env, Value(invalid.value));
        q := p.(pc := Raised(InputInvalid, error, None));
        OneCall(env, t, p, db.Contents(), q);
        return Stops(StageError(InputInvalid, error)), q;
      }
      var sha := db.PutDocument(env, Input(i));
      q := p.(pc := AtLookup);
      OneCall(env, t, p, db.Contents(), q);
      end, q := LookUpOrCompute(job, k, outputs, i, sha, q);
    }

    method LookUpOrCompute(job: Job, k: nat, outputs: seq<Sha>, i: StageInput, sha: Sha, ghost p: Proc)
      returns (end: StageEnd, ghost q: Proc)
      requires InRound(p, job, k, outputs) && p.pc == AtLookup && i == Current(p) && sha == InputSha(env, i)
      modifies db
      ensures EndsRound(end, q, job, k, outputs) && Alone(env, db.Contents(), q) == Alone(env, old(db.Contents()), p)
      ensures var hit := Cached(old(db.Contents()), CacheKey(i.name, i.version, sha));
              end.Appended? ==>
                if hit.Some? then
                  && end.output == hit.value
                  && WithEdge(old(db.Contents()), Edge(sha, hit.value, Produces, None)) == Some(db.Contents())
                else
                  db.rows == old(db.rows) + [Succeeded(InFlight(job.run, job.toolchain, i, sha), end.output)]
    {
      hide Next, Alone, InputSha, StageInputOf;
      LookupCalls(env, db.Contents(), p);
      ghost var t := db.Contents();
      var hit := db.CacheLookup(CacheKey(i.name, i.version, sha));
      if hit.Some? {
        ghost var r := p.(pc := AtHitEdge(hit.value));
        LookupCalls(env, t, r);
        OneCall(env, t, p, t, r);
        var ok := db.RecordEdge(Edge(sha, hit.value, Produces, None));
        q := if ok then NextStage(r, hit.value, None) else r.(pc := StoreError);
        OneCall(env, t, r, db.Contents(), q);
        return if ok then Appended(hit.value) else Stops(DatabaseError), q;
      }
      ghost var r := p.(pc := AtInsert);
      LookupCalls(env, t, r);
      OneCall(env, t, p, t, r);
      var ok, row := db.InsertStageRun(InFlight(job.run, job.toolchain, i, sha));
      q := r.(pc := if ok then AtHandler(row) else StoreError);
      OneCall(env, t, r, db.Contents(), q);
      if !ok {
        return Stops(DatabaseError), q;
      }
      end, q := Execute(job, k, outputs, i, sha, row, q);
    }

    /** On a cache miss, once the stage row is in: call the handler and close the stage. */
    method Execute(job: Job, k: nat, outputs: seq<Sha>, i: StageInput, sha: Sha, row: nat, ghost p: Proc)
      returns (end: StageEnd, ghost q: Proc)
      requires InRound(p, job, k, outputs) && p.pc == AtHandler(row) && i == Current(p) && sha == InputSha(env, i)
      modifies db
      ensures EndsRound(end, q, job, k, outputs) && Alone(env, db.Contents(), q) == Alone(env, old(db.Contents()), p)
      ensures end.Appended? ==>
                row < |old(db.rows)| && db.rows == old(db.rows)[row := Succeeded(old(db.rows)[row], end.output)]
    {
      ghost var t := db.Contents();
      var result := env.handler(i.name, i.version, i);
      match result
      case Throws(message) =>
        var error := db.PutDocument(env, ExecutionError(i.index, i.name, i.version, message));
        q := p.(pc := AtFailRow(row, error, HandlerThrew));
        OneCall(env, t, p, db.Contents(), q);
        end, q := FailClosed(row, error, HandlerThrew, q);
      case Returns(json) =>
        var invalid := env.validate(Value(json));
        if invalid.Some? {
          var error := db.PutDocument(env, Value(invalid.value));
          q := p.(pc := AtFailRow(row, error, OutputInvalid));
          OneCall(env, t, p, db.Contents(), q);
          end, q := FailClosed(row, error, OutputInvalid, q);
        } else {
          var output := db.PutDocument(env, Value(json));
          q := p.(pc := AtDocpackEdge(row, output));
          OneCall(env, t, p, db.Contents(), q);
          end, q := Succeed(job, k, outputs, i, sha, row, output, q);
        }
    }

    method FailClosed(row: nat, error: Sha, reason: Reason, ghost p: Proc) returns (end: StageEnd, ghost q: Proc)
      requires WellFormed(p) && p.pc == AtFailRow(row, error, reason)
      modifies db
      ensures WellFormed(q) && Alone(env, db.Contents(), q) == Alone(env, old(db.Contents()), p)
      ensures end.Stops? && q.pc.Stopped() && end.outcome == OutcomeOf(q)
    {
      ghost var t := db.Contents();
      var ok := db.FinalizeFailClosed(row, error);
      q := p.(pc := if ok then Raised(reason, error, Some(row)) else StoreError);
      OneCall(env, t, p, db.Contents(), q);
      end := Stops(if ok then StageError(reason, error) else DatabaseError);
    }

    /** Record the lineage edges, fill the cache and finalize the row. */
    method Succeed(job: Job, k: nat, outputs: seq<Sha>, i: StageInput, sha: Sha, row: nat, output: Sha, ghost p: Proc)
      returns (end: StageEnd, ghost q: Proc)
      requires InRound(p, job, k, outputs) && p.pc == AtDocpackEdge(row, output)
      requires i == Current(p) && sha == InputSha(env, i)
      modifies db
      ensures EndsRound(end, q, job, k, outputs) && Alone(env, db.Contents(), q) == Alone(env, old(db.Contents()), p)
      ensures end.Appended? ==>
                && end.output == output && row < |old(db.rows)|
                && db.edges == old(db.edges) + [Edge(job.docpack, sha, Consumes, Some(row))]
                               + PriorEdges(outputs, sha, row) + [Edge(sha, output, Produces, Some(row))]
                && db.cache == WithEntry(old(db.cache), CacheKey(i.name, i.version, sha), output)
                && db.rows == old(db.rows)[row := Succeeded(old(db.rows)[row], output)]
                && db.artifacts == old(db.artifacts) && db.runs == old(db.runs)
    {
      hide Next, Alone, InputSha, PriorEdges;
      ghost var t := db.Contents();
      ClosingCalls(env, t, p, row, output);
      NoPriorEdges(sha, row);
      var ok := db.RecordEdge(Edge(job.docpack, sha, Consumes, Some(row)));
      q := p.(pc := if ok then AfterPrior(p, row, output, 0) else StoreError);
      OneCall(env, t, p, db.Contents(), q);
      if !ok {
        return Stops(DatabaseError), q;
      }
      for j := 0 to |outputs|
        invariant q == p.(pc := AfterPrior(p, row, output, j)) && WellFormed(q)
        invariant Alone(env, db.Contents(), q) == Alone(env, old(db.Contents()), p)
        invariant row < |db.rows|
        invariant db.edges == old(db.edges) + [Edge(job.docpack, sha, Consumes, Some(row))]
                              + PriorEdges(outputs[..j], sha, row)
        invariant db.Contents() == old(db.Contents()).(edges := db.edges)
      {
        t := db.Contents();
        ghost var r := q;
        PriorCall(env, t, r, row, output, j);
        NextPriorEdge(outputs, sha, row, j);
        ok := db.RecordEdge(Edge(outputs[j], sha, Consumes, Some(row)));
        q := p.(pc := if ok then AfterPrior(p, row, output, j + 1) else StoreError);
        OneCall(env, t, r, db.Contents(), q);
        if !ok {
          return Stops(DatabaseError), q;
        }
      }
      assert outputs[..|outputs|] == outputs;
      end, q := Close(job, k, outputs, i, sha, row, output, q);
    }

    /** The last edge, the cache entry and the success row. */
    method Close(job: Job, k: nat, outputs: seq<Sha>, i: StageInput, sha: Sha, row: nat, output: Sha, ghost p: Proc)
      returns (end: StageEnd, ghost q: Proc)
      requires InRound(p, job, k, outputs) && p.pc == AtProducesEdge(row, output)
      requires i == Current(p) && sha == InputSha(env, i)
      modifies db
      ensures EndsRound(end, q, job, k, outputs) && Alone(env, db.Contents(), q) == Alone(env, old(db.Contents()), p)
      ensures end.Appended? ==>
                && end.output == output && row < |old(db.rows)|
                && db.edges == old(db.edges) + [Edge(sha, output, Produces, Some(row))]
                && db.cache == WithEntry(old(db.cache), CacheKey(i.name, i.version, sha), output)
                && db.rows == old(db.rows)[row := Succeeded(old(db.rows)[row], output)]
                && db.artifacts == old(db.artifacts) && db.runs == old(db.runs)
    {
      hide Next, Alone, InputSha, StageInputOf;
      ghost var t := db.Contents();
      ClosingCalls(env, t, p, row, output);
      var ok := db.RecordEdge(Edge(sha, output, Produces, Some(row)));
      q := p.(pc := if ok then AtCacheRecord(row, output) else StoreError);
      OneCall(env, t, p, db.Contents(), q);
      if !ok {
        return Stops(DatabaseError), q;
      }
      t := db.Contents();
      ghost var r := q;
      ClosingCalls(env, t, r, row, output);
      ok := db.CacheRecord(CacheKey(i.name, i.version, sha), output);
      q := p.(pc := if ok then AtSuccessRow(row, output) else StoreError);
      OneCall(env, t, r, db.Contents(), q);
      if !ok {
        return Stops(DatabaseError), q;
      }
      t := db.Contents();
      r := q;
      ClosingCalls(env, t, r, row, output);
      ok := db.FinalizeSuccess(row, output);
      q := if ok then NextStage(r, output, Some(row)) else r.(pc := StoreError);
      OneCall(env, t, r, db.Contents(), q);
      return if ok then Appended(output) else Stops(DatabaseError), q;
    }
  }

  /** A run alone is one of the machine's executions: some number of its own steps in a row. */
  lemma {:induction false} AloneIsAnExecution(env: Env, w: World, pid: nat) returns (steps: seq<Step>)
    requires pid < |w.procs| && WellFormed(w.procs[pid])
    ensures forall s :: s in steps ==> s == Advance(pid)
    ensures var v := AfterAll(env, w, steps);
            pid < |v.procs| && (v.tables, v.procs[pid]) == Alone(env, w.tables, w.procs[pid])
    decreases |w.procs[pid].job.stages| - w.procs[pid].k, CallsLeft(w.procs[pid])
  {
    var p := w.procs[pid];
    if p.pc.Stopped() {
      steps := [];
    } else {
      NextMakesProgress(env, w.tables, p);
      var rest := AloneIsAnExecution(env, After(env, w, Advance(pid)), pid);
      steps := [Advance(pid)] + rest;
      StepFirst(env, w, Advance(pid), rest);
    }
  }

  lemma {:induction false} StepFirst(env: Env, w: World, first: Step, rest: seq<Step>)
    ensures AfterAll(env, w, [first] + rest) == AfterAll(env, After(env, w, first), rest)
    decreases |rest|
  {
    var steps := [first] + rest;
    if rest == [] {
      assert steps[..0] == [];
      assert AfterAll(env, w, steps[..0]) == w;
    } else {
      assert steps[..|steps| - 1] == [first] + rest[..|rest| - 1];
      StepFirst(env, w, first, rest[..|rest| - 1]);
    }
  }

  lemma {:induction false} StepsThenSteps(env: Env, w: World, first: seq<Step>, rest: seq<Step>)
    ensures AfterAll(env, w, first + rest) == AfterAll(env, AfterAll(env, w, first), rest)
    decreases |rest|
  {
    var steps := first + rest;
    if rest == [] {
      assert steps == first;
    } else {
      assert steps[..|steps| - 1] == first + rest[..|rest| - 1];
      StepsThenSteps(env, w, first, rest[..|rest| - 1]);
    }
  }

  /** What `Run` computes on the tables of any reachable world: when it returns a list, that list is the
      fold's, or the execution it belongs to, given in full, exhibits a hash collision. */
  lemma RunReturnsTheFold(env: Env, before: seq<Step>, job: Job) returns (steps: seq<Step>)
    ensures before <= steps
    ensures var w := AfterAll(env, Empty, before);
            var v := AfterAll(env, Empty, steps);
            var (t, p) := Alone(env, w.tables, Started(job));
            && v.tables == t && |w.procs| < |v.procs| && v.procs[|w.procs|] == p
            && (OutcomeOf(p).Outputs? ==>
                  Fold(env, job, |job.stages|) == Some(OutcomeOf(p).outputs) || Collides(env, v.seen))
  {
    var w := AfterAll(env, Empty, before);
    var started := After(env, w, Start(job));
    var alone := AloneIsAnExecution(env, started, |w.procs|);
    steps := before + ([Start(job)] + alone);
    StepFirst(env, w, Start(job), alone);
    StepsThenSteps(env, Empty, before, [Start(job)] + alone);
    JobStaysAlone(env, w.tables, Started(job));
    if Alone(env, w.tables, Started(job)).1.pc.Returned? {
      CompletedRunsEqualTheFold(env, steps, |w.procs|);
    }
  }

  lemma {:induction false} JobStaysAlone(env: Env, t: Tables, p: Proc)
    requires WellFormed(p)
    ensures Alone(env, t, p).1.job == p.job && Alone(env, t, p).1.pc.Stopped()
    decreases |p.job.stages| - p.k, CallsLeft(p)
  {
    if !p.pc.Stopped() {
      NextMakesProgress(env, t, p);
      JobStaysAlone(env, Next(env, t, p).0, Next(env, t, p).1);
    }
  }
}
