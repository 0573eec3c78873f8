/** `Orchestrator.run` as a machine that makes one store call at a time, the plain fold of the
    stage handlers it must agree with, and worlds in which many runs share one store. */
module Pipeline {
  import opened Content
  import opened Store

  /** `outputVersion` is carried by a stage but never looked at. */
  datatype Stage = Stage(index: int, name: string, version: string, outputVersion: string, usesPrompt: bool)

  datatype Job = Job(
    run: string, docpack: Sha, toolchain: Sha, prompt: Option<Sha>, stages: seq<Stage>, params: Json)

  function StageInputOf(job: Job, k: nat, prior: seq<Sha>): StageInput
    requires k < |job.stages|
  {
    var s := job.stages[k];
    StageInput(s.index, s.name, s.version, job.docpack, prior,
               if s.usesPrompt then job.prompt else None, job.toolchain, job.params)
  }

  function InputSha(env: Env, i: StageInput): Sha { env.Digest(Input(i)) }

  function KeyOf(env: Env, i: StageInput): CacheKey { CacheKey(i.name, i.version, InputSha(env, i)) }

  /** The hash of what a stage makes of its input, when input, handler and output are all in order. */
  function StageOutput(env: Env, i: StageInput): Option<Sha> {
    if !env.IsValid(Input(i)) then None
    else match env.handler(i.name, i.version, i)
      case Throws(_) => None
      case Returns(json) => if env.IsValid(Value(json)) then Some(env.Digest(Value(json))) else None
  }

  /** The uncached pipeline: the outputs of the first `k` stages, each fed with the ones before it. */
  function Fold(env: Env, job: Job, k: nat): (outputs: Option<seq<Sha>>)
    requires k <= |job.stages|
    ensures outputs.Some? ==> |outputs.value| == k
  {
    if k == 0 then Some([])
    else match Fold(env, job, k - 1)
      case None => None
      case Some(prior) =>
        match StageOutput(env, StageInputOf(job, k - 1, prior))
        case None => None
        case Some(output) => Some(prior + [output])
  }

  datatype Reason = InputInvalid | HandlerThrew | OutputInvalid

  /** Where a run is: at its next store call, or stopped. `Raised` keeps the stored error and the
      fail-closed row; an invalid stage input has no row. `AtInput` validates and stores the stage input;
      `AtHandler` calls the handler, validates what it returns, and stores the output or the error. */
  datatype Pc =
    | AtInput
    | AtLookup
    | AtHitEdge(hit: Sha)
    | AtInsert
    | AtHandler(row: nat)
    | AtFailRow(row: nat, error: Sha, reason: Reason)
    | AtDocpackEdge(row: nat, output: Sha)
    | AtPriorEdge(row: nat, output: Sha, next: nat)
    | AtProducesEdge(row: nat, output: Sha)
    | AtCacheRecord(row: nat, output: Sha)
    | AtSuccessRow(row: nat, output: Sha)
    | Returned
    | Raised(reason: Reason, error: Sha, failedRow: Option<nat>)
    | StoreError
    | Crashed
  {
    predicate Stopped() { Returned? || Raised? || StoreError? || Crashed? }
  }

  /** A run at stage position `k`. `outputs` is both the list to return and the prior outputs.
      `rowIds` remembers the stage row of each finished stage, or None when the cache answered. */
  datatype Proc = Proc(job: Job, k: nat, outputs: seq<Sha>, rowIds: seq<Option<nat>>, pc: Pc)

  predicate WellFormed(p: Proc) {
    && p.k <= |p.job.stages|
    && |p.outputs| == p.k
    && |p.rowIds| == p.k
    && (!p.pc.Stopped() ==> p.k < |p.job.stages|)
    && (p.pc.AtPriorEdge? ==> p.pc.next < p.k)
  }

  function Started(job: Job): Proc {
    Proc(job, 0, [], [], if |job.stages| == 0 then Returned else AtInput)
  }

  function Current(p: Proc): StageInput
    requires p.k < |p.job.stages|
  {
    StageInputOf(p.job, p.k, p.outputs)
  }

  /** The end of the loop body: append the output and go to the next stage. */
  function NextStage(p: Proc, output: Sha, row: Option<nat>): Proc {
    Proc(p.job, p.k + 1, p.outputs + [output], p.rowIds + [row],
         if p.k + 1 >= |p.job.stages| then Returned else AtInput)
  }

  /** What the handler leads to: the document to store and where the run goes with the hash of it. */
  function HandlerDocument(env: Env, i: StageInput): Document {
    match env.handler(i.name, i.version, i)
    case Throws(message) => ExecutionError(i.index, i.name, i.version, message)
    case Returns(json) =>
      match env.validate(Value(json))
      case None => Value(json)
      case Some(error) => Value(error)
  }

  function AfterHandler(env: Env, i: StageInput, row: nat): Pc {
    var sha := env.Digest(HandlerDocument(env, i));
    match env.handler(i.name, i.version, i)
    case Throws(_) => AtFailRow(row, sha, HandlerThrew)
    case Returns(json) =>
      if env.IsValid(Value(json)) then AtDocpackEdge(row, sha) else AtFailRow(row, sha, OutputInvalid)
  }

  function AfterPrior(p: Proc, row: nat, output: Sha, next: nat): Pc {
    if next < |p.outputs| then AtPriorEdge(row, output, next) else AtProducesEdge(row, output)
  }

  /** A store call that may raise: the run goes on when it does not. */
  function Commit(t: Tables, after: Option<Tables>, p: Proc, next: Proc): (Tables, Proc) {
    if after.Some? then (after.value, next) else (t, p.(pc := StoreError))
  }

  function Next(env: Env, t: Tables, p: Proc): (Tables, Proc)
    requires WellFormed(p) && !p.pc.Stopped()
  {
    var i := Current(p);
    var sha := InputSha(env, i);
    match p.pc
    case AtInput =>
      (match env.validate(Input(i))
       case None => (WithDocument(env, t, Input(i)), p.(pc := AtLookup))
       case Some(error) =>
         (WithDocument(env, t, Value(error)), p.(pc := Raised(InputInvalid, env.Digest(Value(error)), None))))
    case AtLookup =>
      (match Cached(t, KeyOf(env, i))
       case Some(hit) => (t, p.(pc := AtHitEdge(hit)))
       case None => (t, p.(pc := AtInsert)))
    case AtHitEdge(hit) =>
      Commit(t, WithEdge(t, Edge(sha, hit, Produces, None)), p, NextStage(p, hit, None))
    case AtInsert =>
      Commit(t, WithRow(t, InFlight(p.job.run, p.job.toolchain, i, sha)), p, p.(pc := AtHandler(|t.rows|)))
    case AtHandler(row) =>
      (WithDocument(env, t, HandlerDocument(env, i)), p.(pc := AfterHandler(env, i, row)))
    case AtFailRow(row, error, reason) =>
      Commit(t, WithFailClosed(t, row, error), p, p.(pc := Raised(reason, error, Some(row))))
    case AtDocpackEdge(row, output) =>
      Commit(t, WithEdge(t, Edge(p.job.docpack, sha, Consumes, Some(row))), p, p.(pc := AfterPrior(p, row, output, 0)))
    case AtPriorEdge(row, output, next) =>
      Commit(t, WithEdge(t, Edge(p.outputs[next], sha, Consumes, Some(row))), p,
             p.(pc := AfterPrior(p, row, output, next + 1)))
    case AtProducesEdge(row, output) =>
      Commit(t, WithEdge(t, Edge(sha, output, Produces, Some(row))), p, p.(pc := AtCacheRecord(row, output)))
    case AtCacheRecord(row, output) =>
      Commit(t, WithCacheEntry(t, KeyOf(env, i), output), p, p.(pc := AtSuccessRow(row, output)))
    case AtSuccessRow(row, output) =>
      Commit(t, WithSuccess(t, row, output), p, NextStage(p, output, Some(row)))
  }

  /** Store calls left in the current stage; the run ends when stages and calls are used up. */
  function CallsLeft(p: Proc): nat
    requires WellFormed(p)
  {
    match p.pc
    case AtInput => p.k + 10
    case AtLookup => p.k + 9
    case AtInsert => p.k + 8
    case AtHandler(_) => p.k + 7
    case AtDocpackEdge(_, _) => p.k + 6
    case AtPriorEdge(_, _, next) => p.k - next + 5
    case AtProducesEdge(_, _) => 4
    case AtCacheRecord(_, _) => 3
    case AtSuccessRow(_, _) => 2
    case AtHitEdge(_) => 2
    case AtFailRow(_, _, _) => 1
    case _ => 0
  }

  lemma NextMakesProgress(env: Env, t: Tables, p: Proc)
    requires WellFormed(p) && !p.pc.Stopped()
    ensures var q := Next(env, t, p).1;
            && WellFormed(q)
            && q.job == p.job
            && p.rowIds <= q.rowIds
            && ((q.k == p.k && CallsLeft(q) < CallsLeft(p)) || q.k == p.k + 1)
  {
    hide WithDocument, WithEdge, WithRow, WithCacheEntry, WithSuccess, WithFailClosed, Cached, StageInputOf, InputSha;
    hide HandlerDocument;
  }

  /** One run with the store to itself, from where it is to where it stops. */
  function Alone(env: Env, t: Tables, p: Proc): (Tables, Proc)
    requires WellFormed(p)
    decreases |p.job.stages| - p.k, CallsLeft(p)
  {
    if p.pc.Stopped() then (t, p)
    else
      var (t', p') := Next(env, t, p);
      assert WellFormed(p') by { NextMakesProgress(env, t, p); }
      assert p'.job == p.job && (p'.k == p.k ==> CallsLeft(p') < CallsLeft(p)) && p.k <= p'.k <= |p'.job.stages| by {
        NextMakesProgress(env, t, p);
      }
      Alone(env, t', p')
  }

  /** A store and the runs that share it. `seen` are the valid stage inputs stored so far, `owner` says
      which run inserted each stage row; both only record history and steer nothing. */
  datatype World = World(tables: Tables, procs: seq<Proc>, seen: set<StageInput>, owner: seq<nat>)

  datatype Step =
    | Start(job: Job)
    | Advance(pid: nat)
    | Crash(pid: nat)
    | Upload(content: Bytes)
    | Register(run: string)

  function Advanced(env: Env, w: World, pid: nat): World
    requires pid < |w.procs| && WellFormed(w.procs[pid]) && !w.procs[pid].pc.Stopped()
  {
    var p := w.procs[pid];
    var (t, p') := Next(env, w.tables, p);
    World(t, w.procs[pid := p'],
          if p.pc.AtInput? && p'.pc.AtLookup? then w.seen + {Current(p)} else w.seen,
          if |t.rows| > |w.tables.rows| then w.owner + [pid] else w.owner)
  }

  /** The world after one step. A step of a run that does not exist or has stopped changes nothing. */
  function After(env: Env, w: World, step: Step): World {
    match step
    case Start(job) => w.(procs := w.procs + [Started(job)])
    case Advance(pid) =>
      if pid < |w.procs| && WellFormed(w.procs[pid]) && !w.procs[pid].pc.Stopped() then Advanced(env, w, pid) else w
    case Crash(pid) =>
      if pid < |w.procs| && !w.procs[pid].pc.Stopped() then
        w.(procs := w.procs[pid := w.procs[pid].(pc := Crashed)])
      else
        w
    case Upload(content) => w.(tables := StoredWith(w.tables, env.sha256(content), content))
    case Register(run) => w.(tables := w.tables.(runs := w.tables.runs + {run}))
  }

  function AfterAll(env: Env, w: World, steps: seq<Step>): World
    decreases |steps|
  {
    if steps == [] then w else After(env, AfterAll(env, w, steps[..|steps| - 1]), steps[|steps| - 1])
  }

  const Empty: World := World(Tables(map[], [], map[], [], {}), [], {}, [])
}
