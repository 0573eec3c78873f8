/** What fixtures are for: recordings verify, verified fixtures hold the same bytes, and drift between
    fixtures is never found earlier than the run comparison finds a difference. */
module FixtureTheorems {
  import opened Content
  import opened Fixtures
  import opened Pipeline
  import opened PipelineInvariant
  import opened PipelineTheorems
  import opened CompletedRuns
  import opened PlanExactness
  import opened RunDiff
  import opened StageRows
  import opened Store

  // ---- Recordings verify ----

  /** A recorded fixture verifies exactly when every captured artifact is stored under its own hash. */
  lemma RecordingVerifiesExactlyWhen(env: Env, t: Tables, run: string, docpack: Sha, f: Fixture, v: Verification)
    requires IsRecording(env, t, run, docpack, f) && IsVerification(env, None, f, v)
    ensures v.ok <==>
              forall sha :: Captured(t, RunRows(t.rows, run), docpack, sha) ==> env.sha256(t.artifacts[sha]) == sha
    ensures v.missing == {}
  {
    forall sha | sha in f.files ensures sha in v.mismatched <==> env.sha256(t.artifacts[sha]) != sha {
      assert sha in f.manifest.artifacts.Keys;
    }
    assert v.missing == {};
    if forall sha :: Captured(t, RunRows(t.rows, run), docpack, sha) ==> env.sha256(t.artifacts[sha]) == sha {
      assert v.mismatched <= {};
      assert v.schemaFailures <= {};
    }
  }

  /** Whatever runs, uploads and crashes went before, a fixture recorded from the store verifies. */
  lemma RecordingsVerify(env: Env, steps: seq<Step>, run: string, docpack: Sha, f: Fixture, v: Verification)
    requires IsRecording(env, AfterAll(env, Empty, steps).tables, run, docpack, f) && IsVerification(env, None, f, v)
    ensures v.ok
  {
    ArtifactsAreAddressed(env, steps);
    RecordingVerifiesExactlyWhen(env, AfterAll(env, Empty, steps).tables, run, docpack, f, v);
  }

  /** What verification decides: a fixture is good exactly when every file of its manifest is there, has the
      hash that is its name and that the manifest gives it, and fits the schema, if one is checked. */
  lemma VerifiedExactlyWhen(env: Env, fits: Option<Bytes -> bool>, f: Fixture, v: Verification)
    requires IsVerification(env, fits, f, v)
    ensures v.ok <==>
              forall sha :: sha in f.manifest.artifacts ==>
                && sha in f.files && env.sha256(f.files[sha]) == sha && f.manifest.artifacts[sha].sha == sha
                && (fits.Some? ==> fits.value(f.files[sha]))
  {
    if v.ok {
      forall sha | sha in f.manifest.artifacts
        ensures sha in f.files && env.sha256(f.files[sha]) == sha && f.manifest.artifacts[sha].sha == sha
        ensures fits.Some? ==> fits.value(f.files[sha])
      {
        assert sha !in v.missing && sha !in v.mismatched && sha !in v.schemaFailures;
      }
    } else {
      assert v.missing != {} ==> exists sha :: sha in v.missing;
      assert v.mismatched != {} ==> exists sha :: sha in v.mismatched;
      assert v.schemaFailures != {} ==> exists sha :: sha in v.schemaFailures;
    }
  }

  // ---- A completed run can be recorded ----

  /** Different bytes with one hash. */
  predicate BytesCollide(env: Env, x: Bytes, y: Bytes) { x != y && env.sha256(x) == env.sha256(y) }

  lemma CompletedRowIsStored(env: Env, steps: seq<Step>, pid: nat, j: nat)
    requires Completed(env, steps, pid)
    requires j < |AfterAll(env, Empty, steps).procs[pid].outputs|
    ensures var w := AfterAll(env, Empty, steps);
            var p := w.procs[pid];
            && j < |p.job.stages|
            && InputSha(env, InputAt(p, j)) in w.tables.artifacts
            && p.outputs[j] in w.tables.artifacts
            && p.job.docpack in w.tables.artifacts
  {
    var w := AfterAll(env, Empty, steps);
    var p := w.procs[pid];
    ReachableWorldsAreSound(env, steps);
    assert ProcSound(env, w, pid, p);
    assert StageDone(env, w, pid, p.job, p.outputs, p.rowIds, j);
    CacheTellsTheTruth(env, w, InputAt(p, j));
    assert HasEdge(w.tables, p.job.docpack, InputSha(env, InputAt(p, j)), Consumes);
  }

  /** When `docpackOf` reads stage inputs back, a completed run with a stage row under its run id can be
      recorded, with the docpack of its job, unless other bytes with the hash of a stage input were stored
      in its place. */
  lemma CompletedRunsCanBeRecorded(
      env: Env, docpackOf: Bytes -> Option<Sha>, steps: seq<Step>, pid: nat) returns (input: StageInput)
    requires Completed(env, steps, pid)
    requires forall i :: docpackOf(env.canonical(Input(i))) == Some(i.docpack)
    requires var w := AfterAll(env, Empty, steps); RunRows(w.tables.rows, w.procs[pid].job.run) != []
    ensures var w := AfterAll(env, Empty, steps);
            var job := w.procs[pid].job;
            var rows := RunRows(w.tables.rows, job.run);
            && AllStored(w.tables, rows)
            && rows[0].input == InputSha(env, input) && rows[0].input in w.tables.artifacts
            && job.docpack in w.tables.artifacts
            && (InferredDocpack(docpackOf, w.tables, rows) == Some(job.docpack) ||
                BytesCollide(env, w.tables.artifacts[rows[0].input], env.canonical(Input(input))))
  {
    var w := AfterAll(env, Empty, steps);
    var p := w.procs[pid];
    var rows := RunRows(w.tables.rows, p.job.run);
    RunRowsAre(w.tables.rows, p.job.run);
    ArtifactsAreAddressed(env, steps);
    hide AfterAll, NoCollision, RunRows, InputSha;
    forall r | r in rows ensures IsStored(w.tables, r) {
      var j := RowsOfCompletedRun(env, steps, pid, r);
      CompletedRowIsStored(env, steps, pid, j);
    }
    assert rows[0] in rows;
    var j := RowsOfCompletedRun(env, steps, pid, rows[0]);
    CompletedRowIsStored(env, steps, pid, j);
    input := InputAt(p, j);
    StoredInput(env, w.tables, rows[0], input);
  }

  lemma StoredInput(env: Env, t: Tables, r: StageRow, input: StageInput)
    requires IsAddressed(env, t) && r.input in t.artifacts && r.input == InputSha(env, input)
    ensures var stored, canonical := t.artifacts[r.input], env.canonical(Input(input));
            stored == canonical || BytesCollide(env, stored, canonical)
  {
  }

  /** A completed run has nothing to record exactly when the cache answered it at every stage and no other
      attempt under its run id has inserted a row. */
  lemma NothingToRecordExactlyWhen(env: Env, steps: seq<Step>, pid: nat)
    requires Completed(env, steps, pid)
    ensures var w := AfterAll(env, Empty, steps);
            var p := w.procs[pid];
            RunRows(w.tables.rows, p.job.run) == [] <==>
              && (forall row :: row in p.rowIds ==> row == None)
              && forall q: nat :: q < |w.procs| && q != pid && w.procs[q].job.run == p.job.run ==> q !in w.owner
  {
    hide AfterAll, NoCollision, Inv, RunRows, Remembers, RowAt;
    var w := AfterAll(env, Empty, steps);
    var p := w.procs[pid];
    var rows := RunRows(w.tables.rows, p.job.run);
    RunRowsAre(w.tables.rows, p.job.run);
    RowsAreKnownThroughout(env, steps);
    if rows != [] {
      assert rows[0] in rows;
      var row: nat :| row < |w.tables.rows| && w.tables.rows[row] == rows[0];
      if w.owner[row] == pid {
        var j := RememberedStage(p, row);
        assert p.rowIds[j] in p.rowIds;
      }
    }
    forall row: nat | row < |w.owner| && w.procs[w.owner[row]].job.run == p.job.run ensures rows != [] {
      assert w.tables.rows[row] in rows;
    }
    forall j: nat | j < |p.rowIds| && p.rowIds[j].Some? ensures rows != [] {
      ReachableWorldsAreSound(env, steps);
      MissedRow(env, w, pid, j);
      assert RowAt(env, p, j) in rows;
    }
  }

  lemma MissedRow(env: Env, w: World, pid: nat, j: nat)
    requires Inv(env, w) && pid < |w.procs| && j < |w.procs[pid].rowIds| && w.procs[pid].rowIds[j].Some?
    ensures var p := w.procs[pid];
            && j < |p.outputs| && j < |p.job.stages|
            && RowAt(env, p, j) in w.tables.rows && RowAt(env, p, j).run == p.job.run
  {
    assert ProcSound(env, w, pid, w.procs[pid]);
    OwnRow(env, w, pid, w.procs[pid], j);
  }

  // ---- Verified fixtures hold the same bytes ----

  ghost predicate SameBytes(a: Fixture, b: Fixture) {
    forall sha :: sha in a.manifest.artifacts ==> sha in a.files && sha in b.files && a.files[sha] == b.files[sha]
  }

  ghost predicate FixturesCollide(env: Env, a: Fixture, b: Fixture) {
    exists sha :: sha in a.files && sha in b.files && BytesCollide(env, a.files[sha], b.files[sha])
  }

  /** Two fixtures that both verify, with no artifact added or removed between them, hold the same bytes, or
      they exhibit a collision. */
  lemma VerifiedFixturesHoldTheSameBytes(
      env: Env, fits: Option<Bytes -> bool>, a: Fixture, b: Fixture, va: Verification, vb: Verification, d: Difference)
    requires IsVerification(env, fits, a, va) && IsVerification(env, fits, b, vb) && va.ok && vb.ok
    requires IsDifference(d, a.manifest, b.manifest) && d.added == {} && d.removed == {}
    ensures a.manifest.artifacts.Keys == b.manifest.artifacts.Keys
    ensures forall sha :: sha in a.manifest.artifacts ==>
        a.manifest.artifacts[sha].sha == b.manifest.artifacts[sha].sha == sha
    ensures SameBytes(a, b) || FixturesCollide(env, a, b)
  {
    forall sha ensures sha in a.manifest.artifacts.Keys <==> sha in b.manifest.artifacts.Keys {
      assert sha !in d.added && sha !in d.removed;
    }
    forall sha | sha in a.manifest.artifacts
      ensures sha in a.files && sha in b.files && env.sha256(a.files[sha]) == env.sha256(b.files[sha]) == sha
      ensures a.manifest.artifacts[sha].sha == b.manifest.artifacts[sha].sha == sha
    {
      assert sha !in va.missing && sha !in vb.missing && sha !in va.mismatched && sha !in vb.mismatched;
    }
    if !SameBytes(a, b) {
      var sha :| sha in a.manifest.artifacts && a.files[sha] != b.files[sha];
      assert BytesCollide(env, a.files[sha], b.files[sha]);
    }
  }

  /** For recordings, equal bytes also mean equal metadata: a changed entry exhibits a collision. */
  lemma ChangedMetadataIsACollision(
      env: Env, t: Tables, u: Tables, runA: string, runB: string, docpackA: Sha, docpackB: Sha,
      a: Fixture, b: Fixture, va: Verification, vb: Verification, d: Difference, sha: Sha)
    requires IsRecording(env, t, runA, docpackA, a) && IsRecording(env, u, runB, docpackB, b)
    requires IsVerification(env, None, a, va) && IsVerification(env, None, b, vb) && va.ok && vb.ok
    requires IsDifference(d, a.manifest, b.manifest) && sha in d.changedMeta
    ensures sha in a.files && sha in b.files && BytesCollide(env, a.files[sha], b.files[sha])
  {
    assert sha in a.manifest.artifacts.Keys && sha in b.manifest.artifacts.Keys;
    assert sha !in va.mismatched && sha !in vb.mismatched;
  }

  // ---- Drift between recordings ----

  /** The boundaries of a recording are its stage map without all but the outputs. */
  lemma {:induction false} BoundariesOfStages(rows: seq<StageRow>)
    ensures BoundaryMap(BoundariesOf(rows)).Keys == StageMap(rows).Keys
    ensures forall i :: i in StageMap(rows) ==> BoundaryMap(BoundariesOf(rows))[i] == StageMap(rows)[i].output
    decreases |rows|
  {
    if rows != [] {
      var before, last := rows[..|rows| - 1], rows[|rows| - 1];
      BoundariesOfStages(before);
      assert BoundariesOf(rows)[..|rows| - 1] == BoundariesOf(before);
    }
  }

  /** The output that a stage map shows at an index; a missing stage shows none. */
  function ShownOutput(stages: map<int, StageRow>, i: int): Option<Sha> {
    if i in stages then stages[i].output else None
  }

  lemma RecordedOutputs(env: Env, t: Tables, run: string, docpack: Sha, f: Fixture, i: int)
    requires IsRecording(env, t, run, docpack, f)
    ensures OutputAt(BoundaryMap(f.manifest.boundaries), i) == ShownOutput(StagesOf(t, run), i)
  {
    assert f.manifest.boundaries == BoundariesOf(RunRows(t.rows, run));
    BoundariesOfStages(RunRows(t.rows, run));
    assert i in BoundaryMap(f.manifest.boundaries).Keys <==> i in StagesOf(t, run).Keys;
  }

  lemma DriftIsADifference(ma: map<int, StageRow>, mb: map<int, StageRow>, i: int)
    requires ShownOutput(ma, i) != ShownOutput(mb, i)
    ensures Differs(ma, mb, i)
  {
    if i in ma && i in mb {
      assert OutputColumn in ChangedColumns(ma[i], mb[i]);
    }
  }

  /** The drifts between two recordings are exactly the stages at which the two runs show different outputs,
      each with the output of the first run and that of the second. */
  lemma DriftsShowOutputs(
      env: Env, t: Tables, runA: string, runB: string, docpackA: Sha, docpackB: Sha,
      a: Fixture, b: Fixture, e: Difference)
    requires IsRecording(env, t, runA, docpackA, a) && IsRecording(env, t, runB, docpackB, b)
    requires IsDifference(e, a.manifest, b.manifest)
    ensures forall drift :: drift in e.drifts <==>
              && drift.a == ShownOutput(StagesOf(t, runA), drift.index)
              && drift.b == ShownOutput(StagesOf(t, runB), drift.index)
              && drift.a != drift.b
  {
    forall i
      ensures OutputAt(BoundaryMap(a.manifest.boundaries), i) == ShownOutput(StagesOf(t, runA), i)
      ensures OutputAt(BoundaryMap(b.manifest.boundaries), i) == ShownOutput(StagesOf(t, runB), i)
    {
      RecordedOutputs(env, t, runA, docpackA, a, i);
      RecordedOutputs(env, t, runB, docpackB, b, i);
    }
    hide BoundaryMap, StagesOf, OutputAt, ShownOutput;
  }

  /** The first boundary drift between two recorded runs is never before the first difference of the run
      comparison, and it is there exactly when the two runs show different outputs at that stage. */
  lemma DriftIsNeverEarlier(
      env: Env, t: Tables, runA: string, runB: string, docpackA: Sha, docpackB: Sha,
      a: Fixture, b: Fixture, d: Report, e: Difference)
    requires IsRecording(env, t, runA, docpackA, a) && IsRecording(env, t, runB, docpackB, b)
    requires IsReport(d, StagesOf(t, runA), StagesOf(t, runB)) && IsDifference(e, a.manifest, b.manifest)
    ensures e.first.Some? ==> d.first.Some? && d.first.value <= e.first.value
    ensures d.first.Some? ==>
              (e.first == d.first <==>
                 ShownOutput(StagesOf(t, runA), d.first.value) != ShownOutput(StagesOf(t, runB), d.first.value))
  {
    var ma, mb := StagesOf(t, runA), StagesOf(t, runB);
    var am, bm := BoundaryMap(a.manifest.boundaries), BoundaryMap(b.manifest.boundaries);
    forall i
      ensures Drifts(am, bm, i) <==> ShownOutput(ma, i) != ShownOutput(mb, i)
      ensures Drifts(am, bm, i) ==> Differs(ma, mb, i)
    {
      RecordedOutputs(env, t, runA, docpackA, a, i);
      RecordedOutputs(env, t, runB, docpackB, b, i);
      if Drifts(am, bm, i) {
        DriftIsADifference(ma, mb, i);
      }
    }
    FirstsCompare(ma, mb, am, bm, d.first, e.first);
  }

  lemma FirstsCompare(
      ma: map<int, StageRow>, mb: map<int, StageRow>, am: map<int, Option<Sha>>, bm: map<int, Option<Sha>>,
      difference: Option<int>, drift: Option<int>)
    requires IsFirstDifference(ma, mb, difference) && IsFirstDrift(am, bm, drift)
    requires forall i :: Drifts(am, bm, i) ==> Differs(ma, mb, i)
    ensures drift.Some? ==> difference.Some? && difference.value <= drift.value
    ensures difference.Some? ==> (drift == difference <==> Drifts(am, bm, difference.value))
  {
    hide Drifts, Differs;
    if drift.Some? {
      assert Differs(ma, mb, drift.value);
    }
  }
}
