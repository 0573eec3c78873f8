/** What every step of every run keeps: the invariant of worlds in which runs share one store. */
module PipelineInvariant {
  import opened Content
  import opened Store
  import opened Pipeline

  /** No two different stage inputs among `seen` have the same hash. */
  ghost predicate NoCollision(env: Env, seen: set<StageInput>) {
    forall a, b :: a in seen && b in seen && InputSha(env, a) == InputSha(env, b) ==> a == b
  }

  ghost predicate HasEdge(t: Tables, from: Sha, to: Sha, kind: EdgeKind) {
    exists e :: e in t.edges && e.from == from && e.to == to && e.kind == kind
  }

  ghost predicate PriorLinked(t: Tables, sha: Sha, prior: seq<Sha>, n: nat)
    requires n <= |prior|
  {
    forall j :: 0 <= j < n ==> HasEdge(t, prior[j], sha, Consumes)
  }

  /** The stage input `i`, stored as `sha`, has edges from its docpack and from every prior output. */
  ghost predicate Lineage(t: Tables, i: StageInput, sha: Sha) {
    HasEdge(t, i.docpack, sha, Consumes) && PriorLinked(t, sha, i.priorOutputs, |i.priorOutputs|)
  }

  /** `i` is a stored stage input whose validated handler result is the stored `output`, with all edges. */
  ghost predicate Explains(env: Env, t: Tables, i: StageInput, output: Sha) {
    var sha := InputSha(env, i);
    && StageOutput(env, i) == Some(output)
    && sha in t.artifacts
    && output in t.artifacts
    && Lineage(t, i, sha)
    && HasEdge(t, sha, output, Produces)
  }

  ghost predicate EntryExplained(env: Env, t: Tables, seen: set<StageInput>, key: CacheKey)
    requires key in t.cache
  {
    exists i :: i in seen && key == KeyOf(env, i) && Explains(env, t, i, t.cache[key])
  }

  ghost predicate RowSound(t: Tables, r: StageRow) {
    && r.run in t.runs
    && r.toolchain in t.artifacts
    && r.input in t.artifacts
    && (r.prompt.Some? ==> r.prompt.value in t.artifacts)
    && (r.status == Success ==>
          var key := CacheKey(r.name, r.version, r.input);
          !r.failClosed && r.error == None && key in t.cache && r.output == Some(t.cache[key]))
    && (r.status == Failed ==>
          r.output == None && (if r.failClosed then r.error.Some? && r.error.value in t.artifacts else r.error == None))
  }

  ghost predicate TablesSound(env: Env, t: Tables, seen: set<StageInput>) {
    && (forall s :: s in t.artifacts ==> env.sha256(t.artifacts[s]) == s)
    && (forall e :: e in t.edges ==> e.from in t.artifacts && e.to in t.artifacts)
    && (forall key :: key in t.cache ==> EntryExplained(env, t, seen, key))
    && (forall r :: 0 <= r < |t.rows| ==> RowSound(t, t.rows[r]))
    && (forall r, s :: 0 <= r < s < |t.rows| ==> t.rows[r].run != t.rows[s].run || t.rows[r].index != t.rows[s].index)
  }

  ghost predicate Owns(w: World, pid: nat, row: nat, content: StageRow) {
    row < |w.tables.rows| && row < |w.owner| && w.owner[row] == pid && w.tables.rows[row] == content
  }

  /** The stage row of the input `i` once it has been finalized as a success. */
  function SuccessRow(env: Env, job: Job, i: StageInput, output: Sha): StageRow {
    InFlight(job.run, job.toolchain, i, InputSha(env, i)).(status := Success, output := Some(output))
  }

  /** The stage row of the input `i` once its stage has failed. */
  function FailedRow(env: Env, job: Job, i: StageInput, error: Sha): StageRow {
    InFlight(job.run, job.toolchain, i, InputSha(env, i)).(failClosed := true, error := Some(error))
  }

  /** Stage `j` of a run is finished: it is cached with the run's output, and its row, if any, says so. */
  ghost predicate StageDone(env: Env, w: World, pid: nat, job: Job, outputs: seq<Sha>, rowIds: seq<Option<nat>>, j: nat)
    requires j < |outputs| == |rowIds| <= |job.stages|
  {
    var i := StageInputOf(job, j, outputs[..j]);
    && i in w.seen
    && Cached(w.tables, KeyOf(env, i)) == Some(outputs[j])
    && (rowIds[j].Some? ==> Owns(w, pid, rowIds[j].value, SuccessRow(env, job, i, outputs[j])))
  }

  /** The finished stages of a run: their outputs are the fold's, and each of them is done. */
  ghost predicate Past(env: Env, w: World, pid: nat, job: Job, outputs: seq<Sha>, rowIds: seq<Option<nat>>) {
    && |outputs| == |rowIds| <= |job.stages|
    && Fold(env, job, |outputs|) == Some(outputs)
    && (forall j :: 0 <= j < |outputs| ==> StageDone(env, w, pid, job, outputs, rowIds, j))
  }

  ghost predicate InputReady(env: Env, w: World, i: StageInput) {
    env.IsValid(Input(i)) && i in w.seen && InputSha(env, i) in w.tables.artifacts
  }

  ghost predicate Computed(env: Env, w: World, pid: nat, p: Proc, row: nat, output: Sha)
    requires p.k < |p.job.stages|
  {
    var i := Current(p);
    && InputReady(env, w, i)
    && Owns(w, pid, row, InFlight(p.job.run, p.job.toolchain, i, InputSha(env, i)))
    && StageOutput(env, i) == Some(output)
    && output in w.tables.artifacts
  }

  ghost predicate Fails(env: Env, i: StageInput, reason: Reason) {
    match reason
    case InputInvalid => !env.IsValid(Input(i))
    case HandlerThrew => env.IsValid(Input(i)) && env.handler(i.name, i.version, i).Throws?
    case OutputInvalid =>
      && env.IsValid(Input(i)) && env.handler(i.name, i.version, i).Returns?
      && !env.IsValid(Value(env.handler(i.name, i.version, i).json))
  }

  /** The document a failing stage leaves behind. */
  function ErrorDocument(env: Env, i: StageInput): Document {
    match env.validate(Input(i))
    case Some(error) => Value(error)
    case None => HandlerDocument(env, i)
  }

  ghost predicate ErrorStored(env: Env, t: Tables, i: StageInput, reason: Reason, error: Sha) {
    Fails(env, i, reason) && error == env.Digest(ErrorDocument(env, i)) && error in t.artifacts
  }

  ghost predicate PcSound(env: Env, w: World, pid: nat, p: Proc)
    requires WellFormed(p)
  {
    if p.pc.Returned? then p.k == |p.job.stages|
    else if p.k == |p.job.stages| then false
    else
      var i := Current(p);
      var t := w.tables;
      var sha := InputSha(env, i);
      match p.pc
      case AtLookup => InputReady(env, w, i)
      case AtInsert => InputReady(env, w, i)
      case AtHitEdge(hit) => InputReady(env, w, i) && Cached(t, KeyOf(env, i)) == Some(hit)
      case AtHandler(row) => InputReady(env, w, i) && Owns(w, pid, row, InFlight(p.job.run, p.job.toolchain, i, sha))
      case AtFailRow(row, error, reason) =>
        && InputReady(env, w, i) && Owns(w, pid, row, InFlight(p.job.run, p.job.toolchain, i, sha))
        && ErrorStored(env, t, i, reason, error) && reason != InputInvalid
      case AtDocpackEdge(row, output) => Computed(env, w, pid, p, row, output)
      case AtPriorEdge(row, output, next) =>
        && Computed(env, w, pid, p, row, output)
        && HasEdge(t, p.job.docpack, sha, Consumes) && PriorLinked(t, sha, p.outputs, next)
      case AtProducesEdge(row, output) => Computed(env, w, pid, p, row, output) && Lineage(t, i, sha)
      case AtCacheRecord(row, output) => Computed(env, w, pid, p, row, output) && Explains(env, t, i, output)
      case AtSuccessRow(row, output) =>
        Computed(env, w, pid, p, row, output) && Cached(t, KeyOf(env, i)) == Some(output)
      case Raised(reason, error, row) =>
        && ErrorStored(env, t, i, reason, error)
        && (reason == InputInvalid <==> row == None)
        && (row.Some? ==> Owns(w, pid, row.value, FailedRow(env, p.job, i, error)))
      case _ => true
  }

  ghost predicate ProcSound(env: Env, w: World, pid: nat, p: Proc) {
    && WellFormed(p)
    && Past(env, w, pid, p.job, p.outputs, p.rowIds)
    && PcSound(env, w, pid, p)
  }

  ghost predicate Inv(env: Env, w: World) {
    && TablesSound(env, w.tables, w.seen)
    && |w.owner| == |w.tables.rows|
    && (forall pid :: 0 <= pid < |w.procs| ==> ProcSound(env, w, pid, w.procs[pid]))
  }

  // ---- What a step of one run leaves alone ----

  /** Tables only grow, and no stage row of another run changes. */
  ghost predicate TablesGrow(t: Tables, u: Tables) {
    && (forall s :: s in t.artifacts ==> s in u.artifacts && u.artifacts[s] == t.artifacts[s])
    && t.edges <= u.edges
    && (forall key :: key in t.cache ==> key in u.cache && u.cache[key] == t.cache[key])
    && t.runs <= u.runs
    && |t.rows| <= |u.rows|
  }

  ghost predicate Grows(w: World, v: World, pid: nat) {
    && TablesGrow(w.tables, v.tables)
    && w.seen <= v.seen
    && w.owner <= v.owner
    && |w.owner| == |w.tables.rows|
    && (forall r :: 0 <= r < |w.owner| && w.owner[r] != pid ==> v.tables.rows[r] == w.tables.rows[r])
  }

  lemma EdgesStay(t: Tables, u: Tables, from: Sha, to: Sha, kind: EdgeKind)
    requires TablesGrow(t, u) && HasEdge(t, from, to, kind)
    ensures HasEdge(u, from, to, kind)
  {
    var e :| e in t.edges && e.from == from && e.to == to && e.kind == kind;
    assert e in u.edges;
  }

  lemma LinksStay(t: Tables, u: Tables, sha: Sha, prior: seq<Sha>, n: nat)
    requires TablesGrow(t, u) && n <= |prior| && PriorLinked(t, sha, prior, n)
    ensures PriorLinked(u, sha, prior, n)
  {
    forall j | 0 <= j < n ensures HasEdge(u, prior[j], sha, Consumes) {
      EdgesStay(t, u, prior[j], sha, Consumes);
    }
  }

  lemma LineageStays(t: Tables, u: Tables, i: StageInput, sha: Sha)
    requires TablesGrow(t, u) && Lineage(t, i, sha)
    ensures Lineage(u, i, sha)
  {
    EdgesStay(t, u, i.docpack, sha, Consumes);
    LinksStay(t, u, sha, i.priorOutputs, |i.priorOutputs|);
  }

  lemma ExplanationStays(env: Env, t: Tables, u: Tables, i: StageInput, output: Sha)
    requires TablesGrow(t, u) && Explains(env, t, i, output)
    ensures Explains(env, u, i, output)
  {
    LineageStays(t, u, i, InputSha(env, i));
    EdgesStay(t, u, InputSha(env, i), output, Produces);
  }

  lemma EntryStaysExplained(env: Env, t: Tables, u: Tables, seen: set<StageInput>, more: set<StageInput>, key: CacheKey)
    requires TablesGrow(t, u) && seen <= more && key in t.cache && EntryExplained(env, t, seen, key)
    ensures EntryExplained(env, u, more, key)
  {
    var i :| i in seen && key == KeyOf(env, i) && Explains(env, t, i, t.cache[key]);
    ExplanationStays(env, t, u, i, t.cache[key]);
  }

  lemma PcStaysSound(env: Env, w: World, v: World, pid: nat, p: Proc, mover: nat)
    requires Grows(w, v, mover) && mover != pid && WellFormed(p) && PcSound(env, w, pid, p)
    ensures PcSound(env, v, pid, p)
  {
    if p.k < |p.job.stages| {
      var i := Current(p);
      var sha := InputSha(env, i);
      match p.pc
      case AtPriorEdge(row, output, next) =>
        EdgesStay(w.tables, v.tables, p.job.docpack, sha, Consumes);
        LinksStay(w.tables, v.tables, sha, p.outputs, next);
      case AtProducesEdge(row, output) => LineageStays(w.tables, v.tables, i, sha);
      case AtCacheRecord(row, output) => ExplanationStays(env, w.tables, v.tables, i, output);
      case _ =>
    }
  }

  /** A run's past survives every move that leaves the rows of its finished stages alone. */
  lemma PastStays(
      env: Env, w: World, v: World, pid: nat, job: Job, outputs: seq<Sha>, rowIds: seq<Option<nat>>, mover: nat)
    requires Past(env, w, pid, job, outputs, rowIds) && Grows(w, v, mover)
    requires forall j, row: nat :: 0 <= j < |rowIds| && rowIds[j] == Some(row) && row < |w.tables.rows| ==>
               mover != pid || v.tables.rows[row] == w.tables.rows[row]
    ensures Past(env, v, pid, job, outputs, rowIds)
  {
    forall j | 0 <= j < |outputs| ensures StageDone(env, v, pid, job, outputs, rowIds, j) {
      assert StageDone(env, w, pid, job, outputs, rowIds, j);
    }
  }

  lemma OthersStaySound(env: Env, w: World, v: World, pid: nat, p: Proc, mover: nat)
    requires Grows(w, v, mover) && mover != pid && ProcSound(env, w, pid, p)
    ensures ProcSound(env, v, pid, p)
  {
    PastStays(env, w, v, pid, p.job, p.outputs, p.rowIds, mover);
    PcStaysSound(env, w, v, pid, p, mover);
  }

  // ---- Each store call keeps the tables sound ----

  lemma TablesStaySound(env: Env, t: Tables, u: Tables, seen: set<StageInput>, more: set<StageInput>)
    requires TablesSound(env, t, seen) && TablesGrow(t, u) && seen <= more
    requires forall s :: s in u.artifacts && s !in t.artifacts ==> env.sha256(u.artifacts[s]) == s
    requires forall e :: e in u.edges && e !in t.edges ==> e.from in u.artifacts && e.to in u.artifacts
    requires forall key :: key in u.cache && key !in t.cache ==> EntryExplained(env, u, more, key)
    requires u.rows == t.rows
    ensures TablesSound(env, u, more)
  {
    hide EntryExplained;
    forall key | key in u.cache ensures EntryExplained(env, u, more, key) {
      if key in t.cache {
        EntryStaysExplained(env, t, u, seen, more, key);
      }
    }
    forall r | 0 <= r < |u.rows| ensures RowSound(u, u.rows[r]) {
      assert RowSound(t, t.rows[r]);
    }
  }

  lemma NewRowKeepsTables(env: Env, t: Tables, row: StageRow, seen: set<StageInput>)
    requires TablesSound(env, t, seen) && WithRow(t, row).Some?
    requires row.status == Failed && !row.failClosed && row.output == None && row.error == None
    ensures TablesGrow(t, WithRow(t, row).value) && TablesSound(env, WithRow(t, row).value, seen)
  {
    hide EntryExplained;
    var u := WithRow(t, row).value;
    forall key | key in u.cache ensures EntryExplained(env, u, seen, key) {
      EntryStaysExplained(env, t, u, seen, seen, key);
    }
    forall r | 0 <= r < |u.rows| ensures RowSound(u, u.rows[r]) {
      assert r < |t.rows| ==> RowSound(t, t.rows[r]);
    }
    forall r | 0 <= r < |t.rows| ensures t.rows[r].run != row.run || t.rows[r].index != row.index {
      assert t.rows[r] in t.rows;
    }
  }

  lemma ChangedRowKeepsTables(env: Env, t: Tables, row: nat, content: StageRow, seen: set<StageInput>)
    requires TablesSound(env, t, seen) && row < |t.rows|
    requires RowSound(t, content) && content.run == t.rows[row].run && content.index == t.rows[row].index
    ensures var u := t.(rows := t.rows[row := content]); TablesGrow(t, u) && TablesSound(env, u, seen)
  {
    hide EntryExplained;
    var u := t.(rows := t.rows[row := content]);
    forall key | key in u.cache ensures EntryExplained(env, u, seen, key) {
      EntryStaysExplained(env, t, u, seen, seen, key);
    }
    forall r | 0 <= r < |u.rows| ensures RowSound(u, u.rows[r]) {
      assert RowSound(t, t.rows[r]);
    }
  }

  // ---- The run that moves ----

  lemma FoldOfPrefix(env: Env, job: Job, k: nat, j: nat)
    requires j <= k <= |job.stages| && Fold(env, job, k).Some?
    ensures Fold(env, job, j) == Some(Fold(env, job, k).value[..j])
  {
    if j < k {
      FoldOfPrefix(env, job, k - 1, j);
      var outputs := Fold(env, job, k).value;
      assert outputs[..k - 1] == Fold(env, job, k - 1).value;
      assert outputs[..j] == outputs[..k - 1][..j];
    } else {
      assert Fold(env, job, k).value[..j] == Fold(env, job, k).value;
    }
  }

  /** After the last call of a stage: its output is the fold's next output, and it is done. */
  lemma FinishedStage(env: Env, v: World, pid: nat, p: Proc, output: Sha, row: Option<nat>)
    requires WellFormed(p) && p.k < |p.job.stages|
    requires Past(env, v, pid, p.job, p.outputs, p.rowIds) && StageOutput(env, Current(p)) == Some(output)
    requires Current(p) in v.seen && Cached(v.tables, KeyOf(env, Current(p))) == Some(output)
    requires row.Some? ==> Owns(v, pid, row.value, SuccessRow(env, p.job, Current(p), output))
    ensures ProcSound(env, v, pid, NextStage(p, output, row))
  {
    var q := NextStage(p, output, row);
    assert Fold(env, q.job, q.k) == Some(q.outputs);
    forall j | 0 <= j < q.k ensures StageDone(env, v, pid, q.job, q.outputs, q.rowIds, j) {
      if j < p.k {
        assert StageDone(env, v, pid, p.job, p.outputs, p.rowIds, j);
        assert q.outputs[..j] == p.outputs[..j];
      } else {
        assert q.outputs[..j] == p.outputs;
      }
    }
  }

  /** A cache entry under the key of a stage input we have seen holds that very input's output. */
  lemma CacheTellsTheTruth(env: Env, w: World, i: StageInput)
    requires TablesSound(env, w.tables, w.seen) && NoCollision(env, w.seen)
    requires i in w.seen && KeyOf(env, i) in w.tables.cache
    ensures Explains(env, w.tables, i, w.tables.cache[KeyOf(env, i)])
  {
    var key := KeyOf(env, i);
    assert EntryExplained(env, w.tables, w.seen, key);
    var x :| x in w.seen && key == KeyOf(env, x) && Explains(env, w.tables, x, w.tables.cache[key]);
    assert x == i;
  }

  ghost predicate CanMove(env: Env, w: World, pid: nat) {
    && Inv(env, w)
    && pid < |w.procs|
    && !w.procs[pid].pc.Stopped()
    && NoCollision(env, Advanced(env, w, pid).seen)
  }

  /** What one move has to establish; the rest of the invariant follows. */
  ghost predicate MovedSoundly(env: Env, w: World, pid: nat)
    requires pid < |w.procs| && WellFormed(w.procs[pid]) && !w.procs[pid].pc.Stopped()
  {
    var v := Advanced(env, w, pid);
    && Grows(w, v, pid)
    && TablesSound(env, v.tables, v.seen)
    && |v.owner| == |v.tables.rows|
    && ProcSound(env, v, pid, v.procs[pid])
  }

  lemma MoveKeepsInv(env: Env, w: World, pid: nat)
    requires CanMove(env, w, pid) && MovedSoundly(env, w, pid)
    ensures Inv(env, Advanced(env, w, pid))
  {
    var v := Advanced(env, w, pid);
    forall q | 0 <= q < |v.procs| ensures ProcSound(env, v, q, v.procs[q]) {
      if q != pid {
        OthersStaySound(env, w, v, q, w.procs[q], pid);
      }
    }
  }

  /** A move inside a stage changes no finished stage. */
  lemma PastStaysInMove(env: Env, w: World, v: World, pid: nat, p: Proc, open: nat)
    requires Inv(env, w) && ProcSound(env, w, pid, p) && Grows(w, v, pid)
    requires forall r :: 0 <= r < |w.tables.rows| && r != open ==> v.tables.rows[r] == w.tables.rows[r]
    requires open < |w.tables.rows| ==> w.tables.rows[open].status == Failed
    ensures Past(env, v, pid, p.job, p.outputs, p.rowIds)
  {
    forall j, row: nat | 0 <= j < |p.rowIds| && p.rowIds[j] == Some(row) && row < |w.tables.rows|
      ensures v.tables.rows[row] == w.tables.rows[row]
    {
      assert StageDone(env, w, pid, p.job, p.outputs, p.rowIds, j);
    }
    PastStays(env, w, v, pid, p.job, p.outputs, p.rowIds, pid);
  }

  lemma InputMove(env: Env, w: World, pid: nat)
    requires CanMove(env, w, pid) && w.procs[pid].pc.AtInput?
    ensures MovedSoundly(env, w, pid)
  {
    hide WithEdge, WithRow, WithCacheEntry, WithSuccess, WithFailClosed, NextStage, AfterPrior, AfterHandler;
    hide TablesSound, NoCollision;
    hide Fold, StageOutput, Past, EntryExplained, RowSound, Lineage;
    var v := Advanced(env, w, pid);
    TablesStaySound(env, w.tables, v.tables, w.seen, v.seen);
    PastStaysInMove(env, w, v, pid, w.procs[pid], |w.tables.rows|);
  }

  lemma LookupMove(env: Env, w: World, pid: nat)
    requires CanMove(env, w, pid) && w.procs[pid].pc.AtLookup?
    ensures MovedSoundly(env, w, pid)
  {
    hide Fold, StageOutput, Past, EntryExplained, RowSound, Lineage;
    PastStaysInMove(env, w, Advanced(env, w, pid), pid, w.procs[pid], |w.tables.rows|);
  }

  lemma HandlerMove(env: Env, w: World, pid: nat)
    requires CanMove(env, w, pid) && w.procs[pid].pc.AtHandler?
    ensures MovedSoundly(env, w, pid)
  {
    hide WithEdge, WithRow, WithCacheEntry, WithSuccess, WithFailClosed, NextStage, AfterPrior, TablesSound;
    hide NoCollision, HasEdge;
    hide Fold, Past, EntryExplained, RowSound, Lineage;
    var v := Advanced(env, w, pid);
    TablesStaySound(env, w.tables, v.tables, w.seen, v.seen);
    PastStaysInMove(env, w, v, pid, w.procs[pid], |w.tables.rows|);
  }

  lemma InsertMove(env: Env, w: World, pid: nat)
    requires CanMove(env, w, pid) && w.procs[pid].pc.AtInsert?
    ensures MovedSoundly(env, w, pid)
  {
    hide WithEdge, WithCacheEntry, WithSuccess, WithFailClosed, NextStage, AfterPrior, AfterHandler, NoCollision;
    hide Fold, StageOutput, Past, EntryExplained, RowSound, Lineage;
    var p := w.procs[pid];
    var v := Advanced(env, w, pid);
    var row := InFlight(p.job.run, p.job.toolchain, Current(p), InputSha(env, Current(p)));
    if WithRow(w.tables, row).Some? {
      NewRowKeepsTables(env, w.tables, row, w.seen);
    }
    PastStaysInMove(env, w, v, pid, p, |w.tables.rows|);
  }

  /** What any call that records an edge keeps, and the edge it leaves behind. */
  lemma EdgeRecorded(env: Env, w: World, v: World, pid: nat, e: Edge)
    requires Inv(env, w) && pid < |w.procs|
    requires v.tables == (if WithEdge(w.tables, e).Some? then WithEdge(w.tables, e).value else w.tables)
    requires v.seen == w.seen && v.owner == w.owner
    ensures Grows(w, v, pid) && TablesSound(env, v.tables, v.seen)
    ensures Past(env, v, pid, w.procs[pid].job, w.procs[pid].outputs, w.procs[pid].rowIds)
    ensures WithEdge(w.tables, e).Some? ==> HasEdge(v.tables, e.from, e.to, e.kind)
  {
    hide Fold, StageOutput, Past, EntryExplained, RowSound, PcSound;
    TablesStaySound(env, w.tables, v.tables, w.seen, v.seen);
    PastStaysInMove(env, w, v, pid, w.procs[pid], |w.tables.rows|);
    if WithEdge(w.tables, e).Some? {
      assert e in v.tables.edges;
    }
  }

  lemma DocpackEdgeMove(env: Env, w: World, pid: nat)
    requires CanMove(env, w, pid) && w.procs[pid].pc.AtDocpackEdge?
    ensures MovedSoundly(env, w, pid)
  {
    hide Fold, StageOutput, Past, EntryExplained, RowSound;
    var p := w.procs[pid];
    EdgeRecorded(env, w, Advanced(env, w, pid), pid,
                 Edge(p.job.docpack, InputSha(env, Current(p)), Consumes, Some(p.pc.row)));
  }

  lemma PriorEdgeMove(env: Env, w: World, pid: nat)
    requires CanMove(env, w, pid) && w.procs[pid].pc.AtPriorEdge?
    ensures MovedSoundly(env, w, pid)
  {
    hide Fold, StageOutput, Past, EntryExplained, RowSound;
    var p := w.procs[pid];
    var v := Advanced(env, w, pid);
    var sha := InputSha(env, Current(p));
    EdgeRecorded(env, w, v, pid, Edge(p.outputs[p.pc.next], sha, Consumes, Some(p.pc.row)));
    EdgesStay(w.tables, v.tables, p.job.docpack, sha, Consumes);
    LinksStay(w.tables, v.tables, sha, p.outputs, p.pc.next);
  }

  lemma ProducesEdgeMove(env: Env, w: World, pid: nat)
    requires CanMove(env, w, pid) && w.procs[pid].pc.AtProducesEdge?
    ensures MovedSoundly(env, w, pid)
  {
    hide Fold, StageOutput, Past, EntryExplained, RowSound;
    var p := w.procs[pid];
    var v := Advanced(env, w, pid);
    var sha := InputSha(env, Current(p));
    EdgeRecorded(env, w, v, pid, Edge(sha, p.pc.output, Produces, Some(p.pc.row)));
    LineageStays(w.tables, v.tables, Current(p), sha);
  }

  lemma HitMove(env: Env, w: World, pid: nat)
    requires CanMove(env, w, pid) && w.procs[pid].pc.AtHitEdge?
    ensures MovedSoundly(env, w, pid)
  {
    hide Fold, Past, EntryExplained, RowSound, StageDone, Lineage, HasEdge;
    var p := w.procs[pid];
    var v := Advanced(env, w, pid);
    TablesStaySound(env, w.tables, v.tables, w.seen, v.seen);
    PastStaysInMove(env, w, v, pid, p, |w.tables.rows|);
    CacheTellsTheTruth(env, w, Current(p));
    if !v.procs[pid].pc.StoreError? {
      FinishedStage(env, v, pid, p, p.pc.hit, None);
    }
  }

  lemma CacheMove(env: Env, w: World, pid: nat)
    requires CanMove(env, w, pid) && w.procs[pid].pc.AtCacheRecord?
    ensures MovedSoundly(env, w, pid)
  {
    hide WithEdge, WithRow, WithSuccess, WithFailClosed, NextStage, AfterPrior, AfterHandler, NoCollision;
    hide Fold, StageOutput, Past, EntryExplained, RowSound, StageDone, Lineage, HasEdge;
    var p := w.procs[pid];
    var i := Current(p);
    assert ProcSound(env, w, pid, p) && Explains(env, w.tables, i, p.pc.output);
    hide Explains, TablesSound;
    if KeyOf(env, i) in w.tables.cache {
      CacheTellsTheTruth(env, w, i);
      SameExplanation(env, w.tables, i, p.pc.output, w.tables.cache[KeyOf(env, i)]);
    }
    EntryKeepsTables(env, w.tables, i, p.pc.output, w.seen);
    PastStaysInMove(env, w, Advanced(env, w, pid), pid, p, |w.tables.rows|);
  }

  lemma SameExplanation(env: Env, t: Tables, i: StageInput, x: Sha, y: Sha)
    requires Explains(env, t, i, x) && Explains(env, t, i, y)
    ensures x == y
  {
  }

  /** Recording the output of an explained input under its key. */
  lemma EntryKeepsTables(env: Env, t: Tables, i: StageInput, output: Sha, seen: set<StageInput>)
    requires TablesSound(env, t, seen) && i in seen && Explains(env, t, i, output)
    ensures var u := WithCacheEntry(t, KeyOf(env, i), output);
            && u.Some? && TablesGrow(t, u.value) && TablesSound(env, u.value, seen)
            && u.value.rows == t.rows && u.value.artifacts == t.artifacts && KeyOf(env, i) in u.value.cache
  {
    hide Lineage, HasEdge, StageOutput, RowSound;
    var u := WithCacheEntry(t, KeyOf(env, i), output).value;
    ExplanationStays(env, t, u, i, output);
    hide Explains;
    assert KeyOf(env, i) !in t.cache ==> EntryExplained(env, u, seen, KeyOf(env, i));
    hide EntryExplained;
    TablesStaySound(env, t, u, seen, seen);
  }

  lemma SucceedMove(env: Env, w: World, pid: nat)
    requires CanMove(env, w, pid) && w.procs[pid].pc.AtSuccessRow?
    ensures MovedSoundly(env, w, pid)
  {
    hide Fold, Past, EntryExplained, StageDone, Lineage, HasEdge;
    var p := w.procs[pid];
    var v := Advanced(env, w, pid);
    var row := p.pc.row;
    var content := SuccessRow(env, p.job, Current(p), p.pc.output);
    assert ProcSound(env, w, pid, p);
    assert RowSound(w.tables, w.tables.rows[row]);
    assert v.tables == w.tables.(rows := w.tables.rows[row := content]);
    assert RowSound(w.tables, content);
    hide TablesSound, RowSound;
    ChangedRowKeepsTables(env, w.tables, row, content, w.seen);
    PastStaysInMove(env, w, v, pid, p, row);
    FinishedStage(env, v, pid, p, p.pc.output, Some(row));
  }

  /** The call that fails a stage turns its in-flight row into the failed one. */
  lemma FailsRow(env: Env, w: World, pid: nat)
    requires CanMove(env, w, pid) && w.procs[pid].pc.AtFailRow?
    ensures var p := w.procs[pid];
            var AtFailRow(row, error, reason) := p.pc;
            var content := FailedRow(env, p.job, Current(p), error);
            && row < |w.tables.rows| && w.tables.rows[row].status == Failed
            && content.run == w.tables.rows[row].run && content.index == w.tables.rows[row].index
            && RowSound(w.tables, content)
            && Next(env, w.tables, p)
               == (w.tables.(rows := w.tables.rows[row := content]), p.(pc := Raised(reason, error, Some(row))))
  {
    hide Fold, Past, EntryExplained, StageDone, Lineage, HasEdge, StageOutput, HandlerDocument, NoCollision, Fails;
    var p := w.procs[pid];
    assert ProcSound(env, w, pid, p);
    assert RowSound(w.tables, w.tables.rows[p.pc.row]);
  }

  lemma FailMove(env: Env, w: World, pid: nat)
    requires CanMove(env, w, pid) && w.procs[pid].pc.AtFailRow?
    ensures MovedSoundly(env, w, pid)
  {
    hide Fold, Past, EntryExplained, StageDone, StageOutput, HandlerDocument, NoCollision, RowSound, Fails, Next;
    var p := w.procs[pid];
    assert ProcSound(env, w, pid, p);
    hide TablesSound;
    FailsRow(env, w, pid);
    ChangedRowKeepsTables(env, w.tables, p.pc.row, FailedRow(env, p.job, Current(p), p.pc.error), w.seen);
    PastStaysInMove(env, w, Advanced(env, w, pid), pid, p, p.pc.row);
  }

  lemma AdvanceKeepsInv(env: Env, w: World, pid: nat)
    requires CanMove(env, w, pid)
    ensures Inv(env, Advanced(env, w, pid))
  {
    match w.procs[pid].pc {
      case AtInput => InputMove(env, w, pid);
      case AtLookup => LookupMove(env, w, pid);
      case AtInsert => InsertMove(env, w, pid);
      case AtHandler(_) => HandlerMove(env, w, pid);
      case AtHitEdge(_) => HitMove(env, w, pid);
      case AtCacheRecord(_, _) => CacheMove(env, w, pid);
      case AtSuccessRow(_, _) => SucceedMove(env, w, pid);
      case AtFailRow(_, _, _) => FailMove(env, w, pid);
      case AtDocpackEdge(_, _) => DocpackEdgeMove(env, w, pid);
      case AtPriorEdge(_, _, _) => PriorEdgeMove(env, w, pid);
      case AtProducesEdge(_, _) => ProducesEdgeMove(env, w, pid);
    }
    MoveKeepsInv(env, w, pid);
  }

  // ---- Every step, and every reachable world ----

  lemma StepKeepsInv(env: Env, w: World, step: Step)
    requires Inv(env, w) && NoCollision(env, After(env, w, step).seen)
    ensures Inv(env, After(env, w, step))
  {
    match step
    case Advance(pid) =>
      if pid < |w.procs| && !w.procs[pid].pc.Stopped() {
        AdvanceKeepsInv(env, w, pid);
      }
    case Crash(pid) => CrashKeepsInv(env, w, pid);
    case Start(job) => StartKeepsInv(env, w, job);
    case Upload(content) => UploadKeepsInv(env, w, content);
    case Register(run) => RegisterKeepsInv(env, w, run);
  }

  lemma CrashKeepsInv(env: Env, w: World, pid: nat)
    requires Inv(env, w)
    ensures Inv(env, After(env, w, Crash(pid)))
  {
    hide Fold, StageOutput, Explains, RowSound, EntryExplained, StageDone;
    var v := After(env, w, Crash(pid));
    forall q | 0 <= q < |v.procs| ensures ProcSound(env, v, q, v.procs[q]) {
      OthersStaySound(env, w, v, q, w.procs[q], q + 1);
    }
  }

  lemma StartKeepsInv(env: Env, w: World, job: Job)
    requires Inv(env, w)
    ensures Inv(env, After(env, w, Start(job)))
  {
    hide StageOutput, Explains, RowSound, EntryExplained, InputReady;
    var v := After(env, w, Start(job));
    assert Past(env, v, |w.procs|, job, [], []);
    OnlyTablesGrow(env, w, v);
  }

  lemma UploadKeepsInv(env: Env, w: World, content: Bytes)
    requires Inv(env, w)
    ensures Inv(env, After(env, w, Upload(content)))
  {
    hide Fold, StageOutput, Explains, RowSound, EntryExplained, ProcSound;
    var v := After(env, w, Upload(content));
    TablesStaySound(env, w.tables, v.tables, w.seen, v.seen);
    OnlyTablesGrow(env, w, v);
  }

  lemma RegisterKeepsInv(env: Env, w: World, run: string)
    requires Inv(env, w)
    ensures Inv(env, After(env, w, Register(run)))
  {
    hide Fold, StageOutput, Explains, RowSound, EntryExplained, ProcSound;
    var v := After(env, w, Register(run));
    TablesStaySound(env, w.tables, v.tables, w.seen, v.seen);
    OnlyTablesGrow(env, w, v);
  }

  /** Steps that move no run: every run stays as sound as it was. */
  lemma OnlyTablesGrow(env: Env, w: World, v: World)
    requires Inv(env, w) && TablesGrow(w.tables, v.tables)
    requires v.seen == w.seen && v.owner == w.owner && v.tables.rows == w.tables.rows && w.procs <= v.procs
    ensures forall pid :: 0 <= pid < |w.procs| ==> ProcSound(env, v, pid, v.procs[pid])
  {
    forall pid | 0 <= pid < |w.procs| ensures ProcSound(env, v, pid, v.procs[pid]) {
      OthersStaySound(env, w, v, pid, w.procs[pid], pid + 1);
    }
  }

  lemma SeenGrows(env: Env, w: World, step: Step)
    ensures w.seen <= After(env, w, step).seen
  {
  }

  /** The invariant holds in every world that any interleaving of steps leads to. */
  lemma {:induction false} ReachableWorldsAreSound(env: Env, steps: seq<Step>)
    requires NoCollision(env, AfterAll(env, Empty, steps).seen)
    ensures Inv(env, AfterAll(env, Empty, steps))
    decreases |steps|
  {
    if steps != [] {
      var before := steps[..|steps| - 1];
      SeenGrows(env, AfterAll(env, Empty, before), steps[|steps| - 1]);
      ReachableWorldsAreSound(env, before);
      StepKeepsInv(env, AfterAll(env, Empty, before), steps[|steps| - 1]);
    }
  }
}
