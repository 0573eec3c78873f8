/** Regression fixtures: recording a run's artifacts with a self-verifying manifest, verifying a fixture, and
    localizing the drift between two fixtures. A fixture's files are a map from name to content. */
module Fixtures {
  import opened Content
  import opened RunDiff
  import opened StageRows
  import opened Store

  datatype Meta = Meta(byteLength: nat, sha: Sha)

  datatype Boundary = Boundary(
    index: int, name: string, version: string, status: Status,
    toolchain: Sha, prompt: Option<Sha>, input: Sha, output: Option<Sha>)

  datatype Manifest = Manifest(run: string, docpack: Sha, artifacts: map<Sha, Meta>, boundaries: seq<Boundary>)

  datatype Fixture = Fixture(manifest: Manifest, files: map<Sha, Bytes>)

  datatype RecordResult = Recorded(fixture: Fixture) | NoStageRuns | ArtifactNotFound | NoDocpack

  function BoundaryOf(r: StageRow): Boundary {
    Boundary(r.index, r.name, r.version, r.status, r.toolchain, r.prompt, r.input, r.output)
  }

  function BoundariesOf(rows: seq<StageRow>): (boundaries: seq<Boundary>)
    ensures |boundaries| == |rows|
    ensures forall k :: 0 <= k < |rows| ==> boundaries[k] == BoundaryOf(rows[k])
  {
    if rows == [] then [] else BoundariesOf(rows[..|rows| - 1]) + [BoundaryOf(rows[|rows| - 1])]
  }

  function MetaOf(env: Env, content: Bytes): Meta { Meta(|content|, env.sha256(content)) }

  // ---- Recording ----

  /** The artifacts that a stage row points to as input or output. */
  ghost predicate PointsTo(rows: seq<StageRow>, sha: Sha) {
    exists r :: r in rows && (r.input == sha || r.output == Some(sha))
  }

  /** The toolchains and prompts of the rows, which are captured only when they are stored. */
  ghost predicate Uses(rows: seq<StageRow>, sha: Sha) {
    exists r :: r in rows && (r.toolchain == sha || r.prompt == Some(sha))
  }

  /** The closure of a run: the docpack, all inputs and outputs, and the stored toolchains and prompts. */
  ghost predicate Captured(t: Tables, rows: seq<StageRow>, docpack: Sha, sha: Sha) {
    sha == docpack || PointsTo(rows, sha) || (Uses(rows, sha) && sha in t.artifacts)
  }

  /** One boundary for each row, in their order, with the row's columns. */
  ghost predicate AreBoundaries(boundaries: seq<Boundary>, rows: seq<StageRow>) {
    && |boundaries| == |rows|
    && forall k :: 0 <= k < |rows| ==>
         var b, r := boundaries[k], rows[k];
         && b.index == r.index && b.name == r.name && b.version == r.version && b.status == r.status
         && b.toolchain == r.toolchain && b.prompt == r.prompt && b.input == r.input && b.output == r.output
  }

  ghost predicate IsRecording(env: Env, t: Tables, run: string, docpack: Sha, f: Fixture) {
    var rows := RunRows(t.rows, run);
    && f.manifest.run == run && f.manifest.docpack == docpack
    && (forall sha :: sha in f.files <==> Captured(t, rows, docpack, sha))
    && (forall sha :: sha in f.files ==> sha in t.artifacts && f.files[sha] == t.artifacts[sha])
    && f.manifest.artifacts.Keys == f.files.Keys
    && (forall sha :: sha in f.files ==>
          var meta := f.manifest.artifacts[sha];
          meta.byteLength == |f.files[sha]| && meta.sha == env.sha256(f.files[sha]))
    && AreBoundaries(f.manifest.boundaries, rows)
  }

  ghost predicate AllStored(t: Tables, rows: seq<StageRow>) {
    forall r :: r in rows ==> IsStored(t, r)
  }

  /** The docpack that the stored input of the first row names. `docpackOf` reads it from the JSON of a stage
      input; None when there is none. */
  ghost function InferredDocpack(docpackOf: Bytes -> Option<Sha>, t: Tables, rows: seq<StageRow>): Option<Sha> {
    if rows != [] && rows[0].input in t.artifacts then docpackOf(t.artifacts[rows[0].input]) else None
  }

  method RecordFixture(env: Env, docpackOf: Bytes -> Option<Sha>, t: Tables, run: string) returns (result: RecordResult)
    ensures var rows := RunRows(t.rows, run);
            var docpack := InferredDocpack(docpackOf, t, rows);
            && (result.NoStageRuns? <==> rows == [])
            && (result.NoDocpack? <==> rows != [] && rows[0].input in t.artifacts && docpack.None?)
            && (result.Recorded? <==> docpack.Some? && docpack.value in t.artifacts && AllStored(t, rows))
            && (result.Recorded? ==> IsRecording(env, t, run, docpack.value, result.fixture))
  {
    var rows := RunRows(t.rows, run);
    if rows == [] {
      return NoStageRuns;
    }
    assert rows[0] in rows;
    if rows[0].input !in t.artifacts {
      return ArtifactNotFound;
    }
    var inferred := docpackOf(t.artifacts[rows[0].input]);
    if inferred.None? {
      return NoDocpack;
    }
    var docpack := inferred.value;
    if docpack !in t.artifacts {
      return ArtifactNotFound;
    }
    var files: map<Sha, Bytes> :=
      map[rows[0].input := t.artifacts[rows[0].input]][docpack := t.artifacts[docpack]];
    var captured, used, boundaries := CaptureRows(t, rows, files);
    if captured.None? {
      return ArtifactNotFound;
    }
    files := AddStored(t, used, captured.value);
    var meta := map sha | sha in files :: MetaOf(env, files[sha]);
    result := Recorded(Fixture(Manifest(run, docpack, meta, boundaries), files));
  }

  /** The loop over the run's stage rows; None when an input or output is not stored. */
  method CaptureRows(t: Tables, rows: seq<StageRow>, start: map<Sha, Bytes>)
    returns (captured: Option<map<Sha, Bytes>>, used: set<Sha>, boundaries: seq<Boundary>)
    requires forall sha :: sha in start ==> sha in t.artifacts && start[sha] == t.artifacts[sha]
    ensures captured.Some? <==> AllStored(t, rows)
    ensures captured.Some? ==>
      && boundaries == BoundariesOf(rows)
      && (forall sha :: sha in used <==> Uses(rows, sha))
      && (forall sha :: sha in captured.value <==> sha in start || PointsTo(rows, sha))
      && (forall sha :: sha in captured.value ==> sha in t.artifacts && captured.value[sha] == t.artifacts[sha])
  {
    hide Uses, PointsTo, AllStored, BoundariesOf, IsStored, BoundaryOf;
    NoRowsYet(t);
    assert rows[..0] == [];
    var files := start;
    used, boundaries := {}, [];
    for i := 0 to |rows|
      invariant AllStored(t, rows[..i])
      invariant boundaries == BoundariesOf(rows[..i])
      invariant forall sha :: sha in used <==> Uses(rows[..i], sha)
      invariant forall sha :: sha in files <==> sha in start || PointsTo(rows[..i], sha)
      invariant forall sha :: sha in files ==> sha in t.artifacts && files[sha] == t.artifacts[sha]
    {
      RowsGrow(t, rows, i);
      used := used + {rows[i].toolchain} + (if rows[i].prompt.Some? then {rows[i].prompt.value} else {});
      var grown := CaptureRow(t, rows[i], files);
      if grown.None? {
        return None, used, boundaries;
      }
      files := grown.value;
      boundaries := boundaries + [BoundaryOf(rows[i])];
    }
    assert rows[..|rows|] == rows;
    captured := Some(files);
  }

  lemma NoRowsYet(t: Tables)
    ensures AllStored(t, []) && BoundariesOf([]) == [] && forall sha :: !Uses([], sha) && !PointsTo([], sha)
  {
  }

  predicate IsStored(t: Tables, r: StageRow) {
    r.input in t.artifacts && (r.output.Some? ==> r.output.value in t.artifacts)
  }

  method CaptureRow(t: Tables, r: StageRow, files: map<Sha, Bytes>) returns (grown: Option<map<Sha, Bytes>>)
    requires forall sha :: sha in files ==> sha in t.artifacts && files[sha] == t.artifacts[sha]
    ensures grown.Some? <==> IsStored(t, r)
    ensures grown.Some? ==>
      && (forall sha :: sha in grown.value <==> sha in files || r.input == sha || r.output == Some(sha))
      && (forall sha :: sha in grown.value ==> sha in t.artifacts && grown.value[sha] == t.artifacts[sha])
  {
    if r.input !in t.artifacts {
      return None;
    }
    var captured := files[r.input := t.artifacts[r.input]];
    if r.output.Some? {
      if r.output.value !in t.artifacts {
        return None;
      }
      captured := captured[r.output.value := t.artifacts[r.output.value]];
    }
    return Some(captured);
  }

  lemma RowsGrow(t: Tables, rows: seq<StageRow>, i: nat)
    requires i < |rows|
    ensures BoundariesOf(rows[..i + 1]) == BoundariesOf(rows[..i]) + [BoundaryOf(rows[i])]
    ensures AllStored(t, rows[..i + 1]) <==> AllStored(t, rows[..i]) && IsStored(t, rows[i])
    ensures AllStored(t, rows) ==> IsStored(t, rows[i])
    ensures forall sha :: Uses(rows[..i + 1], sha) <==>
              Uses(rows[..i], sha) || rows[i].toolchain == sha || rows[i].prompt == Some(sha)
    ensures forall sha :: PointsTo(rows[..i + 1], sha) <==>
              PointsTo(rows[..i], sha) || rows[i].input == sha || rows[i].output == Some(sha)
  {
    assert rows[i] in rows;
    assert rows[..i + 1][..i] == rows[..i];
    assert forall r :: r in rows[..i + 1] <==> r in rows[..i] || r == rows[i] by {
      assert rows[..i + 1] == rows[..i] + [rows[i]];
    }
    var upto := rows[..i + 1];
    forall sha | Uses(rows[..i], sha) || rows[i].toolchain == sha || rows[i].prompt == Some(sha)
        ensures Uses(upto, sha) {
      assert rows[i] in upto && forall r :: r in rows[..i] ==> r in upto;
    }
    forall sha | PointsTo(rows[..i], sha) || rows[i].input == sha || rows[i].output == Some(sha)
        ensures PointsTo(upto, sha) {
      assert rows[i] in upto && forall r :: r in rows[..i] ==> r in upto;
    }
  }

  /** The loop over toolchains and prompts, in no particular order; what is not stored is skipped. */
  method AddStored(t: Tables, used: set<Sha>, captured: map<Sha, Bytes>) returns (files: map<Sha, Bytes>)
    requires forall sha :: sha in captured ==> sha in t.artifacts && captured[sha] == t.artifacts[sha]
    ensures forall sha :: sha in files <==> sha in captured || (sha in used && sha in t.artifacts)
    ensures forall sha :: sha in files ==> sha in t.artifacts && files[sha] == t.artifacts[sha]
  {
    files := captured;
    var left := used;
    while left != {}
      invariant left <= used
      invariant forall sha :: sha in files <==> sha in captured || (sha in used - left && sha in t.artifacts)
      invariant forall sha :: sha in files ==> sha in t.artifacts && files[sha] == t.artifacts[sha]
      decreases left
    {
      var sha :| sha in left;
      left := left - {sha};
      if sha in t.artifacts {
        files := files[sha := t.artifacts[sha]];
      }
    }
  }

  // ---- Verifying ----

  datatype Verification = Verification(ok: bool, missing: set<Sha>, mismatched: set<Sha>, schemaFailures: set<Sha>)

  predicate IsMismatch(env: Env, f: Fixture, sha: Sha) {
    && sha in f.manifest.artifacts && sha in f.files
    && (env.sha256(f.files[sha]) != sha || env.sha256(f.files[sha]) != f.manifest.artifacts[sha].sha)
  }

  predicate IsSchemaFailure(fits: Option<Bytes -> bool>, f: Fixture, sha: Sha) {
    fits.Some? && sha in f.manifest.artifacts && sha in f.files && !fits.value(f.files[sha])
  }

  ghost predicate IsVerification(env: Env, fits: Option<Bytes -> bool>, f: Fixture, v: Verification) {
    && v.missing == f.manifest.artifacts.Keys - f.files.Keys
    && (forall sha :: sha in v.mismatched <==> IsMismatch(env, f, sha))
    && (forall sha :: sha in v.schemaFailures <==> IsSchemaFailure(fits, f, sha))
    && (v.ok <==> v.missing == {} && v.mismatched == {} && v.schemaFailures == {})
  }

  /** `fits` stands for the optional schema check; it accepts whatever is not a JSON object. */
  method VerifyFixture(env: Env, fits: Option<Bytes -> bool>, f: Fixture) returns (v: Verification)
    ensures IsVerification(env, fits, f, v)
  {
    var ok := true;
    var missing: set<Sha>, mismatched: set<Sha>, failures: set<Sha> := {}, {}, {};
    var all := f.manifest.artifacts.Keys;
    var left := all;
    while left != {}
      invariant left <= all
      invariant missing == (all - left) - f.files.Keys
      invariant forall sha :: sha in mismatched <==> sha !in left && IsMismatch(env, f, sha)
      invariant ok <==> missing == {} && mismatched == {}
      decreases left
    {
      var sha :| sha in left;
      left := left - {sha};
      if sha !in f.files {
        ok, missing := false, missing + {sha};
        continue;
      }
      var computed := env.sha256(f.files[sha]);
      if computed != sha || computed != f.manifest.artifacts[sha].sha {
        ok, mismatched := false, mismatched + {sha};
      }
    }
    if fits.Some? {
      left := all;
      while left != {}
        invariant left <= all
        invariant forall sha :: sha in failures <==> sha !in left && IsSchemaFailure(fits, f, sha)
        invariant ok <==> missing == {} && mismatched == {} && failures == {}
        decreases left
      {
        var sha :| sha in left;
        left := left - {sha};
        if sha in f.files {
          if !fits.value(f.files[sha]) {
            ok, failures := false, failures + {sha};
          }
        }
      }
    }
    v := Verification(ok, missing, mismatched, failures);
  }

  // ---- Comparing ----

  datatype Drift = Drift(index: int, a: Option<Sha>, b: Option<Sha>)

  datatype Difference = Difference(
    added: set<Sha>, removed: set<Sha>, changedMeta: set<Sha>, drifts: seq<Drift>, first: Option<int>)

  /** A later boundary for an index replaces an earlier one. */
  function BoundaryMap(boundaries: seq<Boundary>): map<int, Option<Sha>> {
    if boundaries == [] then map[]
    else
      var last := boundaries[|boundaries| - 1];
      BoundaryMap(boundaries[..|boundaries| - 1])[last.index := last.output]
  }

  /** `dict.get`: a missing boundary reads like one without an output. */
  function OutputAt(m: map<int, Option<Sha>>, i: int): Option<Sha> { if i in m then m[i] else None }

  predicate Drifts(am: map<int, Option<Sha>>, bm: map<int, Option<Sha>>, i: int) { OutputAt(am, i) != OutputAt(bm, i) }

  predicate IsDrift(am: map<int, Option<Sha>>, bm: map<int, Option<Sha>>, d: Drift) {
    Drifts(am, bm, d.index) && d.a == OutputAt(am, d.index) && d.b == OutputAt(bm, d.index)
  }

  ghost predicate IsFirstDrift(am: map<int, Option<Sha>>, bm: map<int, Option<Sha>>, first: Option<int>) {
    match first
    case None => forall i :: !Drifts(am, bm, i)
    case Some(i) => Drifts(am, bm, i) && forall j :: j < i ==> !Drifts(am, bm, j)
  }

  ghost predicate IsDifference(d: Difference, a: Manifest, b: Manifest) {
    var am, bm := BoundaryMap(a.boundaries), BoundaryMap(b.boundaries);
    && d.added == b.artifacts.Keys - a.artifacts.Keys
    && d.removed == a.artifacts.Keys - b.artifacts.Keys
    && (forall sha :: sha in d.changedMeta <==>
          sha in a.artifacts && sha in b.artifacts && a.artifacts[sha] != b.artifacts[sha])
    && IsFirstDrift(am, bm, d.first)
    && (forall drift :: drift in d.drifts <==> IsDrift(am, bm, drift))
    && (forall j, k :: 0 <= j < k < |d.drifts| ==> d.drifts[j].index < d.drifts[k].index)
  }

  method BuildBoundaryMap(boundaries: seq<Boundary>) returns (m: map<int, Option<Sha>>)
    ensures m == BoundaryMap(boundaries)
  {
    m := map[];
    for i := 0 to |boundaries|
      invariant m == BoundaryMap(boundaries[..i])
    {
      assert boundaries[..i + 1][..i] == boundaries[..i];
      m := m[boundaries[i].index := boundaries[i].output];
    }
    assert boundaries[..|boundaries|] == boundaries;
  }

  method DiffFixtures(a: Fixture, b: Fixture) returns (d: Difference)
    ensures IsDifference(d, a.manifest, b.manifest)
  {
    var aArt, bArt := a.manifest.artifacts, b.manifest.artifacts;
    var changed := set sha | sha in aArt.Keys * bArt.Keys && aArt[sha] != bArt[sha];
    var am := BuildBoundaryMap(a.manifest.boundaries);
    var bm := BuildBoundaryMap(b.manifest.boundaries);
    var drifts, first := FindDrifts(am, bm);
    d := Difference(bArt.Keys - aArt.Keys, aArt.Keys - bArt.Keys, changed, drifts, first);
  }

  /** The drifts at the given indices, in their order. */
  function DriftsAmong(am: map<int, Option<Sha>>, bm: map<int, Option<Sha>>, indices: seq<int>): seq<Drift> {
    if indices == [] then []
    else
      var before, i := DriftsAmong(am, bm, indices[..|indices| - 1]), indices[|indices| - 1];
      if Drifts(am, bm, i) then before + [Drift(i, OutputAt(am, i), OutputAt(bm, i))] else before
  }

  lemma {:induction false} DriftsAmongAre(am: map<int, Option<Sha>>, bm: map<int, Option<Sha>>, indices: seq<int>)
    requires StrictlyUp(indices)
    ensures var drifts := DriftsAmong(am, bm, indices);
            && (forall d :: d in drifts <==> d.index in indices && IsDrift(am, bm, d))
            && (forall j, k :: 0 <= j < k < |drifts| ==> drifts[j].index < drifts[k].index)
    decreases |indices|
  {
    if indices != [] {
      var before, last := indices[..|indices| - 1], indices[|indices| - 1];
      DriftsAmongAre(am, bm, before);
      assert indices == before + [last];
      forall j | 0 <= j < |DriftsAmong(am, bm, before)| ensures DriftsAmong(am, bm, before)[j].index < last {
        assert DriftsAmong(am, bm, before)[j] in DriftsAmong(am, bm, before);
      }
    }
  }

  method FindDrifts(am: map<int, Option<Sha>>, bm: map<int, Option<Sha>>)
      returns (drifts: seq<Drift>, first: Option<int>)
    ensures IsFirstDrift(am, bm, first)
    ensures forall d :: d in drifts <==> IsDrift(am, bm, d)
    ensures forall j, k :: 0 <= j < k < |drifts| ==> drifts[j].index < drifts[k].index
  {
    hide DriftsAmong, IsFirstDrift, SortedIndices;
    var indices := SortedIndices(am.Keys + bm.Keys);
    NoDriftsYet(am, bm, indices);
    drifts, first := [], None;
    for k := 0 to |indices|
      invariant drifts == DriftsAmong(am, bm, indices[..k])
      invariant first == if drifts == [] then None else Some(drifts[0].index)
    {
      var i := indices[k];
      NextDrift(am, bm, indices, k);
      if OutputAt(am, i) != OutputAt(bm, i) {
        drifts := drifts + [Drift(i, OutputAt(am, i), OutputAt(bm, i))];
        if first == None {
          first := Some(i);
        }
      }
    }
    assert indices[..|indices|] == indices;
    AllDrifts(am, bm);
  }

  lemma NoDriftsYet(am: map<int, Option<Sha>>, bm: map<int, Option<Sha>>, indices: seq<int>)
    ensures DriftsAmong(am, bm, indices[..0]) == []
  {
  }

  lemma NextDrift(am: map<int, Option<Sha>>, bm: map<int, Option<Sha>>, indices: seq<int>, k: nat)
    requires k < |indices|
    ensures var before, i := DriftsAmong(am, bm, indices[..k]), indices[k];
            DriftsAmong(am, bm, indices[..k + 1]) ==
            if Drifts(am, bm, i) then before + [Drift(i, OutputAt(am, i), OutputAt(bm, i))] else before
  {
    assert indices[..k + 1][..k] == indices[..k];
  }

  lemma AllDrifts(am: map<int, Option<Sha>>, bm: map<int, Option<Sha>>)
    ensures var drifts := DriftsAmong(am, bm, SortedIndices(am.Keys + bm.Keys));
            && IsFirstDrift(am, bm, if drifts == [] then None else Some(drifts[0].index))
            && (forall d :: d in drifts <==> IsDrift(am, bm, d))
            && (forall j, k :: 0 <= j < k < |drifts| ==> drifts[j].index < drifts[k].index)
  {
    var indices := SortedIndices(am.Keys + bm.Keys);
    DriftsAmongAre(am, bm, indices);
    hide DriftsAmong, IsFirstDrift, SortedIndices;
    forall d | IsDrift(am, bm, d) ensures d in DriftsAmong(am, bm, indices) {
      DriftsAreIndexed(am, bm, d.index);
    }
    FirstOfAll(am, bm, DriftsAmong(am, bm, indices));
  }

  lemma DriftsAreIndexed(am: map<int, Option<Sha>>, bm: map<int, Option<Sha>>, i: int)
    requires Drifts(am, bm, i)
    ensures i in SortedIndices(am.Keys + bm.Keys)
  {
    assert i in am.Keys + bm.Keys;
  }

  lemma FirstOfAll(am: map<int, Option<Sha>>, bm: map<int, Option<Sha>>, drifts: seq<Drift>)
    requires forall d :: d in drifts <==> IsDrift(am, bm, d)
    requires forall j, k :: 0 <= j < k < |drifts| ==> drifts[j].index < drifts[k].index
    ensures IsFirstDrift(am, bm, if drifts == [] then None else Some(drifts[0].index))
  {
    hide Drifts, OutputAt;
    forall i | Drifts(am, bm, i) ensures drifts != [] && drifts[0].index <= i {
      assert Drift(i, OutputAt(am, i), OutputAt(bm, i)) in drifts;
    }
    assert drifts != [] ==> drifts[0] in drifts;
  }
}
