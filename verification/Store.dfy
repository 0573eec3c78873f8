/** The tables behind the orchestrator's store adapter, and one method for each adapter function.

    Every adapter function runs in one transaction, so each is modelled as one atomic change of the
    tables. The functions say what a transaction does to the tables; `None` is a database error (a
    foreign key or a UNIQUE constraint), which leaves the tables unchanged. The methods of `Database`
    make the same changes in place. */
module Store {
  import opened Content

  /** What the orchestrator hashes and stores: a stage input, an execution error, or any other JSON. */
  datatype StageInput = StageInput(
    index: int, name: string, version: string,
    docpack: Sha, priorOutputs: seq<Sha>, prompt: Option<Sha>, toolchain: Sha, params: Json)

  datatype Document =
    | Input(input: StageInput)
    | ExecutionError(index: int, name: string, version: string, message: string)
    | Value(json: Json)

  datatype CacheKey = CacheKey(name: string, version: string, input: Sha)

  datatype EdgeKind = Consumes | Produces

  datatype Edge = Edge(from: Sha, to: Sha, kind: EdgeKind, row: Option<nat>)

  datatype Status = Success | Failed

  datatype StageRow = StageRow(
    run: string, index: int, name: string, version: string,
    toolchain: Sha, prompt: Option<Sha>, input: Sha,
    status: Status, failClosed: bool, output: Option<Sha>, error: Option<Sha>)

  /** `runs` is the set of registered pipeline runs; the id of a stage row is its position. */
  datatype Tables = Tables(
    artifacts: map<Sha, Bytes>,
    edges: seq<Edge>,
    cache: map<CacheKey, Sha>,
    rows: seq<StageRow>,
    runs: set<string>)

  function StoredWith(t: Tables, sha: Sha, content: Bytes): Tables {
    if sha in t.artifacts then t else t.(artifacts := t.artifacts[sha := content])
  }

  function WithEdge(t: Tables, e: Edge): Option<Tables> {
    if e.from in t.artifacts && e.to in t.artifacts && (e.row.Some? ==> e.row.value < |t.rows|) then
      Some(t.(edges := t.edges + [e]))
    else
      None
  }

  function Cached(t: Tables, key: CacheKey): Option<Sha> {
    if key in t.cache then Some(t.cache[key]) else None
  }

  /** INSERT ... ON CONFLICT DO NOTHING: an entry that is there already stays as it is. */
  function WithCacheEntry(t: Tables, key: CacheKey, output: Sha): Option<Tables> {
    if key in t.cache then Some(t)
    else if key.input in t.artifacts && output in t.artifacts then Some(t.(cache := t.cache[key := output]))
    else None
  }

  /** A row that was inserted and not finalized yet. */
  function InFlight(run: string, toolchain: Sha, i: StageInput, input: Sha): StageRow {
    StageRow(run, i.index, i.name, i.version, toolchain, i.prompt, input, Failed, false, None, None)
  }

  predicate SlotTaken(t: Tables, run: string, index: int) {
    exists r <- t.rows :: r.run == run && r.index == index
  }

  function WithRow(t: Tables, row: StageRow): Option<Tables> {
    if && row.run in t.runs
       && !SlotTaken(t, row.run, row.index)
       && row.toolchain in t.artifacts
       && row.input in t.artifacts
       && (row.prompt.Some? ==> row.prompt.value in t.artifacts)
    then
      Some(t.(rows := t.rows + [row]))
    else
      None
  }

  /** UPDATE ... WHERE stage_run_id: an id without a row changes nothing. */
  function WithSuccess(t: Tables, row: nat, output: Sha): Option<Tables> {
    if row >= |t.rows| then Some(t)
    else if output in t.artifacts then
      Some(t.(rows := t.rows[row := t.rows[row].(status := Success, output := Some(output))]))
    else
      None
  }

  function WithFailClosed(t: Tables, row: nat, error: Sha): Option<Tables> {
    if row >= |t.rows| then Some(t)
    else if error in t.artifacts then
      Some(t.(rows := t.rows[row := t.rows[row].(status := Failed, failClosed := true, error := Some(error))]))
    else
      None
  }

  /** The hash function, the canonical encoding, the schema validator and the stage handlers. Nothing
      is assumed about any of them. `validate` gives the error record of an invalid document. */
  datatype HandlerResult = Returns(json: Json) | Throws(message: string)

  datatype Env = Env(
    sha256: Bytes -> Sha,
    canonical: Document -> Bytes,
    validate: Document -> Option<Json>,
    handler: (string, string, StageInput) -> HandlerResult)
  {
    function Digest(d: Document): Sha { sha256(canonical(d)) }
    predicate IsValid(d: Document) { validate(d).None? }
  }

  function WithDocument(env: Env, t: Tables, d: Document): Tables {
    StoredWith(t, env.Digest(d), env.canonical(d))
  }

  class Database {
    var artifacts: map<Sha, Bytes>
    var edges: seq<Edge>
    var cache: map<CacheKey, Sha>
    var rows: seq<StageRow>
    var runs: set<string>

    ghost function Contents(): Tables
      reads this
    {
      Tables(artifacts, edges, cache, rows, runs)
    }

    method PutArtifact(env: Env, content: Bytes) returns (sha: Sha)
      modifies this
      ensures sha == env.sha256(content)
      ensures Contents() == StoredWith(old(Contents()), sha, content)
    {
      sha := env.sha256(content);
      if sha !in artifacts {
        artifacts := artifacts[sha := content];
      }
    }

    /** A document is stored as its canonical bytes. */
    method PutDocument(env: Env, d: Document) returns (sha: Sha)
      modifies this
      ensures sha == env.Digest(d)
      ensures Contents() == WithDocument(env, old(Contents()), d)
    {
      sha := PutArtifact(env, env.canonical(d));
    }

    /** `ok` is false when the database raises; then nothing changed. */
    method RecordEdge(e: Edge) returns (ok: bool)
      modifies this
      ensures ok <==> WithEdge(old(Contents()), e).Some?
      ensures Contents() == if ok then WithEdge(old(Contents()), e).value else old(Contents())
    {
      ok := e.from in artifacts && e.to in artifacts && (e.row.Some? ==> e.row.value < |rows|);
      if ok {
        edges := edges + [e];
      }
    }

    method CacheLookup(key: CacheKey) returns (hit: Option<Sha>)
      ensures hit.Some? <==> key in cache
      ensures hit.Some? ==> hit.value == cache[key]
    {
      hit := if key in cache then Some(cache[key]) else None;
    }

    method CacheRecord(key: CacheKey, output: Sha) returns (ok: bool)
      modifies this
      ensures ok <==> WithCacheEntry(old(Contents()), key, output).Some?
      ensures Contents() == if ok then WithCacheEntry(old(Contents()), key, output).value else old(Contents())
    {
      if key in cache {
        return true;
      }
      ok := key.input in artifacts && output in artifacts;
      if ok {
        cache := cache[key := output];
      }
    }

    method InsertStageRun(row: StageRow) returns (ok: bool, id: nat)
      modifies this
      ensures ok <==> WithRow(old(Contents()), row).Some?
      ensures Contents() == if ok then WithRow(old(Contents()), row).value else old(Contents())
      ensures id == |old(rows)|
    {
      id := |rows|;
      var taken := exists r <- rows :: r.run == row.run && r.index == row.index;
      ok := row.run in runs && !taken && row.toolchain in artifacts && row.input in artifacts &&
            (row.prompt.Some? ==> row.prompt.value in artifacts);
      if ok {
        rows := rows + [row];
      }
    }

    method FinalizeSuccess(id: nat, output: Sha) returns (ok: bool)
      modifies this
      ensures ok <==> WithSuccess(old(Contents()), id, output).Some?
      ensures Contents() == if ok then WithSuccess(old(Contents()), id, output).value else old(Contents())
    {
      ok := id < |rows| ==> output in artifacts;
      if ok && id < |rows| {
        rows := rows[id := rows[id].(status := Success, output := Some(output))];
      }
    }

    method FinalizeFailClosed(id: nat, error: Sha) returns (ok: bool)
      modifies this
      ensures ok <==> WithFailClosed(old(Contents()), id, error).Some?
      ensures Contents() == if ok then WithFailClosed(old(Contents()), id, error).value else old(Contents())
    {
      ok := id < |rows| ==> error in artifacts;
      if ok && id < |rows| {
        rows := rows[id := rows[id].(status := Failed, failClosed := true, error := Some(error))];
      }
    }
  }
}
