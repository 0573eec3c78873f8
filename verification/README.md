# Verified models of the DADI services

This project models the parts of the repository that carry real logic, in Dafny, and proves what they are
for. `dafny verify dfyconfig.toml` checks all of it.

- **Pipeline** (`Store`, `Pipeline`, `PipelineInvariant`, `PipelineTheorems`, `PipelineRun`, `CompletedRuns`,
  `StageInputs`): the memoized fail-closed stage loop. Each store function is one transaction, so a run is a machine that makes one store
  call per step; a world is one shared store with any number of runs, and its steps are starting a run, one
  store call of a run, a crash of a run, an artifact upload and the registration of a run id, in any order.
  Handlers, schema validator, canonical encoding and hash function are arbitrary functions. Theorems about
  hashes hold, or the execution exhibits two different stage inputs with one hash. `Orchestrator.Run` is the
  loop itself, over a `Database` whose fields it updates, and is proved equal to the machine running alone.
- **Rate limiting** (`TokenBucket`, `RateLimiter`, `RedisLimiter`, `RedisTheorems`, `RedisClock`): the in-memory
  bucket, and the Redis bucket as a protocol of many clients with WATCH, read, EXEC, lost replies, faults and
  expiry; with a clock, on which a hash expires an hour after its last write at the earliest and a request
  commits some time after it read the clock. Arithmetic is over `real`.
- **JSON diff** (`JsonDiff`, `JsonDiffTheorems`, `JsonTexts`): `diffJson` on JSON trees with own keys, patching
  with its result, and the texts of the paths it returns.
- **Audit chain** (`AuditChain`, `AuditTheorems`, `AuditInterleavings`, `AuditTimes`): emitting into a table ordered by
  (created_at, event_id), at once or as overlapping transactions that read the head and insert, verification
  of a filtered and limited selection, and what disagreement between two chains exhibits.
- **Planner and comparisons** (`StageRows`, `RegenPlanner`, `PlanExactness`, `RunDiff`, `RerunDiff`, `Fixtures`,
  `FixtureTheorems`): the regeneration planner and its explanation, the run comparison, and fixtures, each
  also against the runs that the pipeline machine produces.
- **Base64url** (`Base64Url`): key export and key import, with the encoding of section 5 of RFC 4648 and
  Base64urlUInt of section 2 of RFC 7518.

What the proofs show to hold only under a condition, or not at all:

- After a failure no run under the same run id gets past that stage index unless the cache answers it: the
  insert of the row raises (`RetryUnderTheSameRunIdRaises`).
- The plan for a change of prompt, toolchain or both restarts a run at the right stage exactly when the first
  stage that the change hits has a stage row; otherwise it restarts later, or has no item
  (`PlanStartsRightExactlyWhen`, `ItemExistsExactlyWhen`). Cache hits leave no rows.
- For the same reason the comparison of a run with a run after such a change finds that stage exactly when up
  to there the same stages have the same kind of row in both, and that stage has a row in one of them
  (`ChangeIsFoundExactlyWhen`); against a rerun, exactly when the old run had no rows before that stage
  (`RerunFindsTheChangeExactlyWhen`). And a run answered by the cache throughout cannot be recorded as a
  fixture, unless another attempt under its run id left a row (`NothingToRecordExactlyWhen`).
- The one-hour expiry of Redis buckets can be noticed. A request reads the clock once and then retries, so it
  may commit long afterwards. In all executions with fixed limits in which no request commits more than `lag`
  seconds after it read the clock, the decisions are those of the in-memory bucket exactly when a bucket left
  idle for 3600 - `lag` seconds is full again, or admits nothing (`ClockedAgreementExactlyWhen`). Without a
  clock, for executions with fixed limits and timestamps that show the full hour, `lag` is zero
  (`ExpiryInvisibleExactlyWhen`). On the default lanes the largest such `lag` is 3540 seconds for bytes and
  meta and 3500 for the others (`DefaultLanesHideExpiryExactlyWhen`); nothing in the source bounds it.
- The text of a diff path is ambiguous exactly when a key holds a '.' or ends in an array position
  (`KeyIsAmbiguousExactlyWhen`, `OtherKeysCollide`).
- With overlapping emits a tenant's audit log stays a chain exactly when each insert still finds the head its
  transaction read, is the newest, and stores the event with its hash (`LogIsChainExactlyWhen`); a truncated
  chain verifies (`TruncationIsNotDetected`).
- Zero is published as the empty text, not as "AA" (`ZeroIsEmpty`).

## Model

| member | source | states |
|---|---|---|
| Store.Database.PutArtifact | services/orchestrator/dadi_orchestrator/store_adapter.py:8-21 | the content is stored under its computed hash, which is returned, and what was stored there before stays |
| Store.Database.RecordEdge | services/orchestrator/dadi_orchestrator/store_adapter.py:34-40 | the edge is appended exactly when both ends and the stage row exist; otherwise the call raises and nothing changes |
| Store.Database.CacheLookup | services/orchestrator/dadi_orchestrator/store_adapter.py:42-49 | an output exactly when the key has an entry, and then the entry's |
| Store.Database.CacheRecord | services/orchestrator/dadi_orchestrator/store_adapter.py:51-59 | a present entry stays as it is; a new one needs its input and output stored |
| Store.Database.InsertStageRun | services/orchestrator/dadi_orchestrator/store_adapter.py:61-75 | an in-flight row is appended unless its run, artifacts or free slot are missing |
| Store.Database.FinalizeSuccess | services/orchestrator/dadi_orchestrator/store_adapter.py:77-83 | exactly the row with the id becomes a success with the output |
| Store.Database.FinalizeFailClosed | services/orchestrator/dadi_orchestrator/store_adapter.py:85-92 | exactly the row with the id becomes fail-closed with the error |
| PipelineRun.Orchestrator.Run | services/orchestrator/dadi_orchestrator/orchestrator.py:37-153 | the loop leaves the store and gives the outcome that the one-call-at-a-time machine reaches alone |
| PipelineRun.Orchestrator.RunStage | services/orchestrator/dadi_orchestrator/orchestrator.py:52-151 | one round of the loop is the machine's way through one stage: it ends at the next stage with the output appended, or stopped |
| PipelineRun.Orchestrator.LookUpOrCompute | services/orchestrator/dadi_orchestrator/orchestrator.py:84-99 | a hit appends its output and changes nothing in the store but one edge without a row; a completed miss adds exactly one row, the in-flight row finalized with the output; both are the machine's way through the stage |
| PipelineRun.Orchestrator.Execute | services/orchestrator/dadi_orchestrator/orchestrator.py:101-140 | handler, validation and storing of output or error are the machine's calls; a completed stage changes exactly its own row |
| PipelineRun.Orchestrator.FailClosed | services/orchestrator/dadi_orchestrator/orchestrator.py:117-131 | the row is finalized fail-closed and the run stops with the error |
| PipelineRun.Orchestrator.Succeed | services/orchestrator/dadi_orchestrator/orchestrator.py:142-151 | a completed stage has recorded, in this order, the edges from the docpack, from every prior output and to its output, has its cache entry and its success row, and changed nothing else |
| PipelineRun.Orchestrator.Close | services/orchestrator/dadi_orchestrator/orchestrator.py:145-151 | the last edge, the cache entry, kept if there was one, and the success row, and nothing else; stopped by the database after some of them, as the machine is |
| PipelineRun.AloneIsAnExecution | services/orchestrator/dadi_orchestrator/orchestrator.py:37-153 | a run alone is one of the machine's interleavings, so everything proved of those holds of it |
| PipelineRun.RunReturnsTheFold | services/orchestrator/dadi_orchestrator/orchestrator.py:37-153 | a list returned on the store of any reachable world is the uncached fold's, or the given execution has a hash collision |
| PipelineInvariant.StepKeepsInv | services/orchestrator/dadi_orchestrator/orchestrator.py:52-153 | every step of every run, crash, upload and registration keeps the invariant of store and runs |
| PipelineInvariant.ReachableWorldsAreSound | services/orchestrator/dadi_orchestrator/orchestrator.py:101-148 | in every reachable world each cache entry has its input and output stored, is the hash of the validated handler result for that input, and has its edges; success rows equal the cache; fail-closed rows point to stored errors; one row per run and index |
| PipelineInvariant.CacheTellsTheTruth | services/orchestrator/dadi_orchestrator/orchestrator.py:84-89 | a hit for a stored stage input is that input's own output |
| PipelineTheorems.CompletedRunsEqualTheFold | services/orchestrator/dadi_orchestrator/orchestrator.py:52-153 | under any interleaving and crashes, a run that returns has returned the outputs of the uncached fold, or the execution has a hash collision |
| PipelineTheorems.OutcomeIsTheFolds | services/orchestrator/dadi_orchestrator/orchestrator.py:52-153 | a run that stops on its own returns if and only if the fold is defined |
| PipelineTheorems.FailuresAreClosed | services/orchestrator/dadi_orchestrator/orchestrator.py:63-131 | a run that raised at stage k has the fold's first k outputs, the fold fails at k too, the error is stored, and a row, if inserted, is fail-closed and points to it |
| PipelineTheorems.FailuresAreNeverCached | services/orchestrator/dadi_orchestrator/orchestrator.py:101-148 | no stage input whose stage fails is ever in the cache |
| PipelineTheorems.LineageIsComplete | services/orchestrator/dadi_orchestrator/orchestrator.py:142-147 | after a completed run, even one of hits only, every stage input has edges from the docpack and each prior output and to its output, and every output is reachable from the docpack |
| PipelineTheorems.RerunSkipsFinishedStages | services/orchestrator/dadi_orchestrator/orchestrator.py:84-89 | a rerun started after k finished stages inserts no row and calls no handler before stage k, whatever other runs do |
| PipelineTheorems.ReplayReturnsTheSameList | services/orchestrator/dadi_orchestrator/orchestrator.py:84-89 | at every moment a rerun of a returned job owns no stage row and is only storing, looking up and recording hits |
| PipelineTheorems.RerunReturnsTheSameList | services/orchestrator/dadi_orchestrator/orchestrator.py:84-89 | a rerun scheduled as often as its call budget says and not crashed has returned the same list without a stage row, whatever other runs did |
| PipelineTheorems.RetryUnderTheSameRunIdRaises | services/orchestrator/sql/schema.sql:78 | after a failure any run under the same run id that misses at a stage with the same index raises at the insert and changes nothing, whatever its prompt or parameters |
| PipelineTheorems.StoreRaisesExactlyWhen | services/orchestrator/dadi_orchestrator/store_adapter.py:34-92 | a store call of a run raises if and only if it is the insert with a missing run, toolchain or prompt or a taken slot, or the first edge with a missing docpack |
| PipelineTheorems.EveryRunStops | services/orchestrator/dadi_orchestrator/orchestrator.py:52-153 | a run scheduled as often as its call budget says has stopped |
| PipelineTheorems.ArtifactsAreAddressed | services/orchestrator/dadi_orchestrator/store_adapter.py:8-21 | in every execution, without any assumption on the hash, every artifact is stored under its own hash and every row's toolchain and prompt are stored |
| StageInputs.EqualInputsExactlyWhen | services/orchestrator/dadi_orchestrator/orchestrator.py:53-61 | two stage inputs are equal if and only if the stages have the same index, name and version and the jobs the same docpack, toolchain and params, the same prompt where it is used and the same outputs before |
| StageInputs.OriginsThroughout | services/orchestrator/dadi_orchestrator/orchestrator.py:84-148 | in every execution each cache entry was made for a stage of some run that had inserted a row for it |
| StageInputs.HitsAreTheSameWork | services/orchestrator/dadi_orchestrator/orchestrator.py:84-89 | whatever the cache answers was computed at a stage of the same index, name and version, by a run with the same docpack, toolchain, params, prompt and outputs before, and is the digest of what the handler of that name and version returns for that input |
| StageInputs.OutputsAreComputed | services/orchestrator/dadi_orchestrator/orchestrator.py:53-148 | each returned output is the digest of what the stage's own handler returns for the job's docpack, toolchain, params, prompt where used and the outputs before; it is cached under name, version and input hash |
| StageInputs.StoredErrorIs | services/orchestrator/dadi_orchestrator/orchestrator.py:63-131 | a failure has stored the validator's record of the invalid input, the execution error with the handler's message, or the validator's record of the invalid output, and its row, if any, is fail-closed with that error |
| StageInputs.RunTellsTheTruth | services/orchestrator/dadi_orchestrator/orchestrator.py:37-153 | on the store of any reachable world `Run` answers with a list whose outputs are computed stage by stage, or with the stored error of the stage it stopped at and the right reason, or with a database error, or the execution collides |
| StageInputs.SoleRunsReturn | services/orchestrator/dadi_orchestrator/orchestrator.py:37-153 | a run alone under a registered id, with its artifacts stored, distinct indices and a defined fold, scheduled often enough and not crashed, has returned the fold's outputs whatever else happens |
| TokenBucket.TokensStayInRange | services/gateway/dadi_gateway/rate_limit.py:43-50 | tokens stay between zero and the capacity over every sequence of calls, whatever the clock does |
| TokenBucket.AdmissionsArePaid | services/gateway/dadi_gateway/rate_limit.py:43-50 | admissions and tokens left are at most the tokens at the start plus the refill for positive clock steps |
| TokenBucket.WindowBound | services/gateway/dadi_gateway/rate_limit.py:31-50 | in every window of calls admissions are at most the capacity plus the refill for its positive clock steps |
| TokenBucket.LimiterIsAdmissible | services/gateway/dadi_gateway/rate_limit.py:34-50 | whatever the clock does, every window admits at most capacity plus rate times its positive clock steps |
| TokenBucket.NoRuleAdmitsMore | services/gateway/dadi_gateway/rate_limit.py:34-50 | whatever the clock does, no rule that keeps the window contract has admitted more than the limiter after any number of requests |
| TokenBucket.OrderedWindow | services/gateway/dadi_gateway/rate_limit.py:31-50 | on a clock that never goes back the window contract is capacity plus rate times duration |
| RateLimiter.InMemoryRateLimiter.Allow | services/gateway/dadi_gateway/rate_limit.py:34-50 | the addressed bucket, created full if missing, makes one call, every other bucket is unchanged, buckets stay distinct objects |
| RateLimiter.BucketCell.Take | services/gateway/dadi_gateway/rate_limit.py:42-50 | refill, timestamp and withdrawal in place are one call of the bucket |
| RateLimiter.KeysAreIndependent | services/gateway/dadi_gateway/rate_limit.py:31-50 | the decisions on a key are those of one bucket called at the key's own times, whatever other keys are asked for |
| RateLimiter.WindowOfRequests | services/gateway/dadi_gateway/rate_limit.py:31-50 | a window of a trace is a trace from the buckets at its start |
| RateLimiter.KeyBound | services/gateway/dadi_gateway/rate_limit.py:31-50 | admissions on a key are at most capacity plus rate times the positive clock steps between its requests, which is the elapsed time for a clock that never goes back |
| RateLimiter.NewLimiterOnKey | services/gateway/dadi_gateway/rate_limit.py:31-50 | on each key of a new limiter, for any trace and clock, every window admits at most capacity plus rate times the positive clock steps, and no rule that does so has admitted more; the limits are those of the key's first request |
| RedisLimiter.RedisRateLimiter.Allow | services/gateway/dadi_gateway/rate_limit_redis.py:34-69 | over any rounds, with anything done by others before the read and before EXEC, lost replies and exceptions, what the loop does to Redis is an execution of the protocol machine, and it returns what the machine records for its client |
| RedisLimiter.RedisRateLimiter.Attempt | services/gateway/dadi_gateway/rate_limit_redis.py:41-69 | one round is the machine's WATCH, read and EXEC, cut short by an exception where it occurs |
| RedisLimiter.FailedRoundMeansProgress | services/gateway/dadi_gateway/rate_limit_redis.py:58-69 | a round that reaches EXEC without an exception and does not finish was overtaken by another write or an expiry of the key |
| RedisLimiter.RedisRateLimiter.Compute | services/gateway/dadi_gateway/rate_limit_redis.py:43-56 | read, refill and withdrawal of one round are one call of a bucket with the request's own limits |
| RedisLimiter.StepKeepsInv | services/gateway/dadi_gateway/rate_limit_redis.py:40-69 | every protocol step keeps: hashes are the serial ones, decisions are serial, and a read that was not touched is current |
| RedisLimiter.ProtocolLinearizes | services/gateway/dadi_gateway/rate_limit_redis.py:34-69 | under any interleaving, failed EXEC, lost reply and expiry, hashes and decisions are those of a serial run in commit order, and every finished request has exactly one acknowledged commit with its decision |
| RedisLimiter.GrantsAreCommitted | services/gateway/dadi_gateway/rate_limit_redis.py:58-63 | on every key the requests let through are at most the commits that took a token |
| RedisTheorems.CommitsAreFunded | services/gateway/dadi_gateway/rate_limit_redis.py:43-63 | whatever limits the requests bring along, admissions on a key and tokens left are paid for by the capacities of the commits that found no hash and the refill of the others |
| RedisTheorems.FundingIsBounded | services/gateway/dadi_gateway/rate_limit_redis.py:43-63 | under fixed limits that funding is at most one capacity for each bucket and the refill for positive steps of the committed timestamps |
| RedisTheorems.ProtocolIsFunded | services/gateway/dadi_gateway/rate_limit_redis.py:34-69 | across all clients and for any limits, requests let through on a key are at most what the key was given |
| RedisTheorems.ProtocolBound | services/gateway/dadi_gateway/rate_limit_redis.py:34-69 | under fixed limits, requests let through are at most capacity times one plus the expiries, plus rate times the positive steps of committed timestamps |
| RedisTheorems.ProtocolWindowBound | services/gateway/dadi_gateway/rate_limit_redis.py:34-69 | when an idle bucket is full again before its expiry can be noticed, every window of commits, and all requests let through, are at most capacity plus rate times the positive clock steps |
| RedisTheorems.ProtocolKeepsLedger | services/gateway/dadi_gateway/rate_limit_redis.py:43-63 | under fixed limits every commit finds what the commit before left plus the refill for a positive step of the committed timestamps, up to the capacity, or a full bucket |
| RedisTheorems.NoRuleAdmitsMoreThanProtocol | services/gateway/dadi_gateway/rate_limit_redis.py:34-69 | under fixed limits, whatever the order of the committed clock readings and however often the hash expires, no rule that keeps the window contract has admitted more of the commits |
| RedisTheorems.ExpiryIsInvisible | services/gateway/dadi_gateway/rate_limit_redis.py:43-63 | when the refill over the least gap that the timestamps show at an expiry reaches the capacity, the expiring bucket decides like the in-memory one that never expires |
| RedisClock.ClockShowsTheHour | services/gateway/dadi_gateway/rate_limit_redis.py:36-63 | on the clock, a commit that finds the hash of its key expired carries a timestamp at least an hour less the lag after that of the last commit |
| RedisClock.ExpiryIsVisible | services/gateway/dadi_gateway/rate_limit_redis.py:60-61 | when a bucket left idle for an hour less the lag is not full again, there is an execution with that lag, two full bursts of one client per request, in which the two limiters decide differently |
| RedisClock.ClockedAgreementExactlyWhen | services/gateway/dadi_gateway/rate_limit_redis.py:34-69 | agreement with the in-memory bucket in all executions with fixed limits in which no request commits more than the lag after its clock read, if and only if a bucket left idle for an hour less the lag is full again or admits nothing |
| RedisClock.ExpiryInvisibleExactlyWhen | services/gateway/dadi_gateway/rate_limit_redis.py:43-63 | agreement with the in-memory bucket in every execution with fixed limits and timestamps that show the full hour at an expiry, if and only if an idle bucket refills within the hour or admits nothing |
| RedisClock.DefaultLanesHideExpiryExactlyWhen | services/gateway/dadi_gateway/rate_limit.py:71-84 | on every default lane both limiters make the same decisions in all executions on the clock with at most the lag, if and only if the lag is at most 3540 seconds for bytes and meta and 3500 for the others |
| RedisClock.LanesInNumbers | services/gateway/dadi_gateway/rate_limit.py:71-84 | the burst that each unused default lane lets through at one instant, and the number it lets through in an hour at most |
| JsonDiff.DiffJson | ui/artifact-browser/app/components/diffUtil.ts:10-43 | the recursive method returns the rendered items of the specification, for any answer of the reference comparison on containers |
| JsonDiff.DiffArrays | ui/artifact-browser/app/components/diffUtil.ts:15-25 | the array branch pushes the items of every index in order |
| JsonDiff.DiffObjects | ui/artifact-browser/app/components/diffUtil.ts:28-40 | the object branch pushes the items of every key of the sorted union |
| JsonDiffTheorems.RoundTrip | ui/artifact-browser/app/components/diffUtil.ts:10-43 | patching a with the diff of a and b gives b, for all JSON values |
| JsonDiffTheorems.EmptyExactlyWhenEqual | ui/artifact-browser/app/components/diffUtil.ts:10-43 | the diff is empty if and only if the values are equal |
| JsonDiffTheorems.DiffIsSymmetric | ui/artifact-browser/app/components/diffUtil.ts:10-43 | the diff of b and a is item by item the mirror of the diff of a and b |
| JsonDiffTheorems.PathsAreApart | ui/artifact-browser/app/components/diffUtil.ts:14-42 | no item's path is a prefix of another's |
| JsonDiffTheorems.RenderIsInjective | ui/artifact-browser/app/components/diffUtil.ts:19-34 | different paths have different texts when no key holds a '.' or ends in an array position such as '[0]' |
| JsonDiffTheorems.KeyIsAmbiguousExactlyWhen | ui/artifact-browser/app/components/diffUtil.ts:19-34 | the text of a key is also the text of another path if and only if the key holds a '.' or ends in an array position |
| JsonDiffTheorems.PathTextsAreDistinct | ui/artifact-browser/app/components/diffUtil.ts:19-34 | the path texts of a diff are pairwise distinct when no key of the documents is of that kind |
| JsonDiffTheorems.OtherKeysCollide | ui/artifact-browser/app/components/diffUtil.ts:19-34 | for every key of that kind there are documents with it in whose diff two items share their text |
| JsonTexts.ReadsExactly | ui/artifact-browser/app/components/diffUtil.ts:19-34 | a text is that of a path if and only if it reads as '.' and key or '[', decimal position, ']' for each step |
| JsonTexts.DecimalReadsBack | ui/artifact-browser/app/components/diffUtil.ts:19-34 | the digits of a position read back, digit by digit, as the position, without a leading zero |
| JsonTexts.PlainMeans | ui/artifact-browser/app/components/diffUtil.ts:19-34 | a key is plain if and only if it holds no '.' and none of its endings is a bracketed decimal position |
| JsonTexts.ReturnedItemsTell | ui/artifact-browser/app/components/diffUtil.ts:10-43 | every returned item spells a path at which a is the value in the first document and b that in the second, and its kind says which of the two is absent |
| JsonTexts.PatchedWithTexts | ui/artifact-browser/app/components/diffUtil.ts:10-43 | for documents with plain keys the returned items can be read in exactly one way, and patching the first document with them gives the second |
| JsonTexts.ItemsAscend | ui/artifact-browser/app/components/diffUtil.ts:15-42 | the items come in the order of their paths, positions ascending and keys by code units |
| JsonTexts.LeMeans | ui/artifact-browser/app/components/diffUtil.ts:32-33 | the order of the keys is by the first differing code unit, a prefix first |
| AuditChain.AuditTable.EmitEvent | services/gateway/dadi_gateway/audit.py:26-66 | the row linked to the tenant's head is inserted at its place, or the insert raises and nothing changes |
| AuditChain.AuditTable.VerifyChain | services/gateway/dadi_gateway/audit.py:118-176 | accepts exactly the chains; counts the rows before the first bad one and reports that row |
| AuditChain.TamperEvidence | services/gateway/dadi_gateway/audit.py:145-176 | two tables that verify and share the last hash agree event by event on every hashed field, or exhibit a collision, equal bytes of two events, or a preimage of the genesis hash |
| AuditChain.TruncationIsNotDetected | services/gateway/dadi_gateway/audit.py:145-176 | every initial segment of a chain is accepted |
| AuditTheorems.NewestEmitKeepsChain | services/gateway/dadi_gateway/audit.py:39-64 | the newest emit keeps the tenant's log a chain if and only if the stored event has the hash of the emitted one |
| AuditTheorems.OtherTenantsUnchanged | services/gateway/dadi_gateway/audit.py:39-64 | an emit leaves every other tenant's log as it is |
| AuditTheorems.LateEmitBreaksChain | services/gateway/dadi_gateway/audit.py:40-44 | an emit that is not the newest of its tenant breaks the log, short of evidence against the hash |
| AuditTheorems.ForkBreaksChain | services/gateway/dadi_gateway/audit.py:39-64 | two rows anywhere in a log that link to the same hash break it, short of evidence |
| AuditInterleavings.LogIsChainExactlyWhen | services/gateway/dadi_gateway/audit.py:39-64 | however head reads and inserts of any tenants overlap, a tenant's log is a chain if and only if at every insert into it the head was still the one read, the row was the newest and the stored event has its hash, short of evidence in the log |
| AuditInterleavings.InsertKeepsChainExactlyWhen | services/gateway/dadi_gateway/audit.py:60-64 | after one insert the log is a chain if and only if it was one and the insert was of that kind, short of evidence |
| AuditInterleavings.EmitsAreSteps | services/gateway/dadi_gateway/audit.py:39-64 | whole emits one after the other are the interleaving in which every insert directly follows its head read |
| AuditInterleavings.EmitsKeepChainExactlyWhen | services/gateway/dadi_gateway/audit.py:39-64 | after any list of whole emits a tenant's log is a chain if and only if each of the tenant's emits was the newest and stored with its own hash, short of evidence |
| AuditTheorems.SerialTablesAreChains | services/gateway/dadi_gateway/audit.py:39-64 | serial emits of any tenants in any order leave every tenant's log a chain, in order, with unique ids |
| AuditTheorems.SerialTablesVerify | services/gateway/dadi_gateway/audit.py:125-176 | the unfiltered log of a serial table is accepted, with the smaller of limit and length as the count |
| AuditTheorems.FilteredVerification | services/gateway/dadi_gateway/audit.py:127-176 | a filtered, limited selection of a chain is accepted if and only if it is an initial segment of it, short of evidence |
| AuditTimes.ChainInBytes | services/gateway/dadi_gateway/audit.py:143-176 | what verification accepts, byte by byte: each row names the hash of the row before, or sixty-four '0', and has the hash of these characters, '|' and its canonical event |
| AuditTimes.QueryFinds | services/gateway/dadi_gateway/audit.py:127-138 | a query finds exactly the hashed rows of its tenant with its run id and deliverable id, as far as named, in table order and each once |
| AuditTimes.TimelyLogIsTheEmits | services/gateway/dadi_gateway/audit.py:26-66 | when the clock goes forward within each tenant, or stands still while ids increase, a tenant's log is the list of its emits in order, and a chain |
| AuditTimes.TimelyLogVerifies | services/gateway/dadi_gateway/audit.py:118-176 | verification of that log accepts, and walks the smaller of the number of emits and the limit brought between 1 and 5000 |
| AuditTimes.BackdatedEmitBreaksLog | services/gateway/dadi_gateway/audit.py:39-64 | an emit with an earlier clock reading than an emit of its tenant before it leaves a log that is rejected, short of evidence |
| StageRows.RunRowsAre | services/regen-planner/dadi_regen/planner.py:92-96 | the rows selected for a run are exactly its rows, and with one row per index they strictly ascend |
| RegenPlanner.Planner.PlanRegeneration | services/regen-planner/dadi_regen/planner.py:17-137 | rejects exactly the requests without a complete pair; otherwise stores and returns one item for each affected run, in order, with the right start, counts, reason and split |
| RegenPlanner.Planner.BuildItem | services/regen-planner/dadi_regen/planner.py:86-121 | an item starts at the least matching index, reuses exactly the materialized stages before it, recomputes from it to the run's last stage, and lists all materialized outputs |
| RegenPlanner.Planner.Collect | services/regen-planner/dadi_regen/planner.py:98-108 | last index, reusable indices in ascending order and current outputs of a run's rows |
| RegenPlanner.Planner.GetPlanExplain | services/regen-planner/dadi_regen/planner.py:161-225 | one explanation for each item of a stored plan, against the rows as they are now; none for an unknown plan |
| RegenPlanner.Planner.FindMatches | services/regen-planner/dadi_regen/planner.py:190-208 | the matching rows in index order, each with the hashes it really hits |
| RegenPlanner.ItemsAreTheAffectedRuns | services/regen-planner/dadi_regen/planner.py:53-66 | a run has an item if and only if it has a matching row, and only one |
| RegenPlanner.PlanSeparates | services/regen-planner/dadi_regen/planner.py:101-111 | every matching stage is recomputed and none reused, the two lists are disjoint, and every stage is reused, recomputed or not materialized |
| RegenPlanner.ExplanationAgrees | services/regen-planner/dadi_regen/planner.py:190-218 | on unchanged rows the earliest match is the start and the matches are as many as the affected stage runs |
| RegenPlanner.ReasonAgreesExactlyWhen | services/regen-planner/dadi_regen/planner.py:68-88 | plan and explanation give one reason if and only if no matching row carries all zeros in a column whose old hash is absent |
| PlanExactness.ReasonsAgreeInEveryExecution | services/regen-planner/dadi_regen/planner.py:68-88 | on the tables of any execution plan and explanation give one reason, or some bytes hash to sixty-four zeros |
| RegenPlanner.ReasonIsRightExactlyWhen | services/regen-planner/dadi_regen/planner.py:10-15 | the reason of an item says which of the old prompt and the old toolchain the rows of the run carry, if and only if no matching row carries all zeros in a column whose old hash is absent |
| RegenPlanner.ExplainedReasonIsRight | services/regen-planner/dadi_regen/planner.py:190-218 | the explained reason always says which of the two the rows carry |
| RegenPlanner.AffectedCountsStages | services/regen-planner/dadi_regen/planner.py:53-66 | the affected count of an item is the number of matching stage indices of its run |
| PlanExactness.ReasonOfCompletedRun | services/regen-planner/dadi_regen/planner.py:10-15 | for a completed or resumed run the reason says which of its prompt, in a stage with a row, and its toolchain the request replaces, or some stored bytes hash to sixty-four zeros |
| CompletedRuns.RowsAreKnownThroughout | services/orchestrator/dadi_orchestrator/orchestrator.py:91-99 | in every reachable world each stage row carries the run id of the run that inserted it, and that run remembers it |
| CompletedRuns.RowsHaveShapeThroughout | services/orchestrator/dadi_orchestrator/orchestrator.py:91-99 | in every execution each stage row stands for a stage of the run that inserted it, with that stage's own input, prompt and toolchain |
| CompletedRuns.RowsOfCompletedRun | services/orchestrator/dadi_orchestrator/orchestrator.py:84-99 | of a completed run, also one resumed after attempts under its run id crashed or failed, every row stands for one of its stages, and a materialized row holds the output the run returned |
| CompletedRuns.RowsOfFinishedRun | services/orchestrator/dadi_orchestrator/orchestrator.py:84-99 | of a completed run alone under its run id the rows are exactly one success row for each stage that missed the cache |
| PlanExactness.RowsOfSoleRun | services/orchestrator/dadi_orchestrator/orchestrator.py:84-99 | for a run alone under its run id, having a row, having a materialized row and having missed the cache are the same |
| PlanExactness.ItemExistsExactlyWhen | services/regen-planner/dadi_regen/planner.py:40-66 | a completed or resumed run has an item if and only if some stage that the request hits, by prompt or toolchain, has a row |
| PlanExactness.PlanStartsRightExactlyWhen | services/regen-planner/dadi_regen/planner.py:86-121 | the plan starts at the first stage that the request hits if and only if that stage has a row, and never before it |
| PlanExactness.ReuseIsWhatWasReturned | services/regen-planner/dadi_regen/planner.py:101-108 | reused are exactly the materialized stages before the start, and current outputs are what the run returned |
| PlanExactness.FirstChangedStage | services/orchestrator/dadi_orchestrator/orchestrator.py:53-82 | after a change of prompt, toolchain or both the first stage input that changes is that of the first stage that it hits; its hash changes, or there is a collision |
| PlanExactness.RerunReusesEarlierStages | services/orchestrator/dadi_orchestrator/orchestrator.py:84-89 | a rerun, started at any later time, is answered by the cache at every earlier stage, with the old outputs, and leaves no rows there, whatever else runs meanwhile |
| PlanExactness.AllMissedIsMaterialized | services/orchestrator/dadi_orchestrator/orchestrator.py:91-151 | a run alone under its run id that missed the cache throughout has left a materialized row for every stage |
| PlanExactness.PlanIsExact | services/regen-planner/dadi_regen/planner.py:86-121 | when every stage is materialized, as after a run that missed throughout, start is the first stage whose input hash changes, short of a collision, reuse is exactly the stages before it, and any later rerun takes each of them from the cache with its listed current output |
| RunDiff.BuildStageMap | services/gateway/dadi_gateway/diff_routes.py:17-44 | the loop builds the stage map in which the last row of an index wins |
| RunDiff.StagesAreTheRunsRows | services/gateway/dadi_gateway/diff_routes.py:17-44 | the stage map of a run holds exactly its rows, each under its index |
| RunDiff.DiffRuns | services/gateway/dadi_gateway/diff_routes.py:47-141 | no report exactly when a run is missing; otherwise a right report on the two stage maps |
| RunDiff.DiffStages | services/gateway/dadi_gateway/diff_routes.py:79-132 | the first index is the least one at which presence or (output, prompt, toolchain) differs, and every index has its comparison, in ascending order |
| RunDiff.CompareStage | services/gateway/dadi_gateway/diff_routes.py:84-132 | one index: which kind of comparison, what is the same, and the classification of a difference |
| RunDiff.Classify | services/gateway/dadi_gateway/diff_routes.py:107-122 | the classification names exactly the columns that differ |
| RunDiff.NoDifferenceExactlyWhen | services/gateway/dadi_gateway/diff_routes.py:79-132 | no first index if and only if both runs have the same stages with the same outputs, prompts and toolchains |
| RunDiff.SwappedRuns | services/gateway/dadi_gateway/diff_routes.py:79-132 | swapping the runs keeps first index and classification and mirrors every comparison |
| RunDiff.ReportMeans | services/gateway/dadi_gateway/diff_routes.py:84-132 | at the first difference the stage is there in one run only, or the classification names exactly the columns that differ, each label spelled out; each comparison says of each column whether it is the same |
| RerunDiff.StagesOfCompletedRun | services/gateway/dadi_gateway/diff_routes.py:62-77 | the stage map of a completed or resumed run has an entry for exactly the stages with a row, each standing for that stage, with the output the run returned when the row is materialized and none otherwise |
| RerunDiff.TracesOfFinishedRun | services/gateway/dadi_gateway/diff_routes.py:62-77 | a run alone under its run id shows a materialized row for exactly the stages that missed the cache |
| RerunDiff.VariantsAreLocated | services/gateway/dadi_gateway/diff_routes.py:79-132 | for two completed or resumed runs of a job, before and after a change of prompt, toolchain or both, whatever the cache answered, the first index is that of the first stage with a row in one run only, or with rows in both that show other outputs or a stage that the change hits, and the classification says which |
| RerunDiff.ChangeIsFoundExactlyWhen | services/gateway/dadi_gateway/diff_routes.py:79-132 | the comparison reports the first stage that the change hits if and only if before it each stage shows the same in both runs, no row, an unfinished or a materialized one, and it has a row in one of them |
| RerunDiff.MaterializedRunsDifferAtTheChange | services/gateway/dadi_gateway/diff_routes.py:79-132 | when all stages of both are materialized, they first differ at the first stage that the change hits, where prompt and toolchain are named exactly as they changed; without one they do not differ |
| RerunDiff.RerunFindsTheChangeExactlyWhen | services/gateway/dadi_gateway/diff_routes.py:84-98 | against its own rerun under a fresh run id, also one resumed after failed attempts, a run is localized at the change if and only if it had no rows before that stage and one of them has a row there; otherwise its first row is reported as a difference of structure, with equal outputs |
| Fixtures.RecordFixture | tools/regress/dadi_regress/record.py:18-109 | which error when, and otherwise a fixture that holds exactly the run's inputs, outputs, docpack and stored toolchains and prompts, with their lengths and hashes and all boundaries |
| Fixtures.CaptureRows | tools/regress/dadi_regress/record.py:57-80 | the loop captures every input and output, or fails when one is not stored |
| Fixtures.AddStored | tools/regress/dadi_regress/record.py:82-91 | in any order, exactly the stored toolchains and prompts are added |
| Fixtures.VerifyFixture | tools/regress/dadi_regress/verify.py:11-60 | missing files, mismatches and schema failures are exactly the listed ones, and ok means there are none |
| Fixtures.DiffFixtures | tools/regress/dadi_regress/diff.py:8-54 | added, removed and changed artifacts, all boundary drifts in ascending order, and the least of them |
| Fixtures.FindDrifts | tools/regress/dadi_regress/diff.py:35-44 | the drifts are exactly the indices whose outputs differ, ascending, and the first is the least |
| FixtureTheorems.RecordingVerifiesExactlyWhen | tools/regress/dadi_regress/verify.py:23-34 | a recorded fixture verifies if and only if every captured artifact is stored under its own hash |
| FixtureTheorems.VerifiedExactlyWhen | tools/regress/dadi_regress/verify.py:23-55 | a fixture is good if and only if every file of its manifest is there, has the hash that is its name and its manifest's, and fits the schema if one is checked |
| FixtureTheorems.RecordingsVerify | tools/regress/dadi_regress/record.py:57-99 | a fixture recorded from any store that runs, uploads and crashes lead to verifies |
| FixtureTheorems.CompletedRunsCanBeRecorded | tools/regress/dadi_regress/record.py:28-55 | a completed or resumed run with a stage row under its run id can be recorded with its job's docpack, or other bytes with the hash of a stage input are stored |
| FixtureTheorems.NothingToRecordExactlyWhen | tools/regress/dadi_regress/record.py:37-38 | a completed or resumed run has no stage rows to record if and only if the cache answered every stage and no other attempt under its run id inserted a row |
| FixtureTheorems.VerifiedFixturesHoldTheSameBytes | tools/regress/dadi_regress/verify.py:23-34 | two verified fixtures with nothing added or removed hold the same bytes, or exhibit a collision |
| FixtureTheorems.ChangedMetadataIsACollision | tools/regress/dadi_regress/diff.py:22-26 | between verified recordings a changed metadata entry exhibits a collision |
| FixtureTheorems.DriftIsNeverEarlier | tools/regress/dadi_regress/diff.py:28-44 | the first drift of two recordings is never before the run comparison's first index, and equals it if and only if the outputs shown there differ |
| FixtureTheorems.DriftsShowOutputs | tools/regress/dadi_regress/diff.py:28-44 | the drifts between two recordings are exactly the stages at which the two runs show different outputs, each with the first run's and the second's |
| Base64Url.EncodedIsUrlText | scripts/export_release_public_keys.py:7-8 | the text has only letters, digits, '-' and '_', and the decoder restores exactly the padding that was stripped |
| Base64Url.EncodedSpells | scripts/export_release_public_keys.py:7-8 | character i is the symbol, by its code, of bits 6i to 6i+5 of the bytes, and there are as many characters as cover all bits |
| Base64Url.EitherAlphabet | scripts/verify_asset_attestation.py:12-14 | the decoder reads '+' and '/' like '-' and '_', and skips characters outside both alphabets |
| Base64Url.OnlyAsciiIsDecoded | scripts/verify_asset_attestation.py:12-14 | text with a character outside ASCII is refused |
| Base64Url.BytesRoundTrip | scripts/verify_asset_attestation.py:12-14 | decoding the text of any byte string gives it back |
| Base64Url.UrlTextIsAcceptedExactlyWhen | scripts/verify_asset_attestation.py:12-14 | text of the alphabet is accepted if and only if its length is not one more than a multiple of four |
| Base64Url.ToBytesFits | scripts/export_release_public_keys.py:10-12 | conversion to a number of bytes fails exactly on overflow, and reading back big-endian undoes it |
| Base64Url.FromBytesIsBigEndian | scripts/verify_asset_attestation.py:27-35 | the first byte counts most |
| Base64Url.ByteCountIsLeast | scripts/export_release_public_keys.py:10-12 | the byte count from the bit length holds the number, and one byte less does not |
| Base64Url.BytesAreMinimal | scripts/export_release_public_keys.py:10-12 | no shorter byte string has the value |
| Base64Url.IntegerRoundTrip | scripts/verify_asset_attestation.py:27-35 | for every natural number export does not fail, and import gives it back |
| Base64Url.ZeroIsEmpty | scripts/export_release_public_keys.py:10-12 | zero is exported as the empty text, while "AA" is read as zero too |

## Left out

- HTTP routes, middleware, authentication, JWT, KMS and the database and Redis clients: only the atomic reads and writes they stand for are modelled.
- Tenants: the tables of the pipeline, the planner, the run comparison and the fixtures are those of one tenant; the audit table holds all tenants.
- JSON Schema validation: the validator is an arbitrary function from a document to an optional error record.
- `json.dumps` and the hash: the canonical encoding and SHA-256 are arbitrary functions; the model does not say that they are injective.
- Stage handlers are functions of name, schema version and stage input; artifacts they read through their context, side effects on their input and results that are not JSON objects are not modelled.
- `StageSpec.output_schema_version` is carried along but never looked at, as in the source.
- The race of two inserts of the same artifact, where the later transaction fails, is a crash of that run in the model; columns of the artifact table other than hash and content are left out.
- Store writes that do not come from a run, an upload or the registration of a run, such as posting a cache entry, are not steps of the pipeline machine.
- Deletion of artifacts, runs and rows, and replacement of stored rows.
- Floating point: rates, tokens and times are reals, so rounding is not modelled.
- `classify_lane`, the reading of limits from the environment, and the choice between the two limiters.
- RedisLimiter.RedisRateLimiter.Allow: does not say that a loop that is overtaken in every round ends; the source loops until a round is undisturbed.
- Redis servers before 6.0.9, where an expired watched key does not make EXEC fail.
- Inherited properties of JavaScript objects: `k in a` is modelled on own keys only; numbers are reals, without NaN.
- `get_audit` and the other audit routes, and the inverse of the database's own conversions: what a column gives back for an event is an arbitrary function.
- AuditTheorems.SerialTablesAreChains: assumes serial emits that are the newest of their tenant, with canonical ids, which the source does not enforce; `AuditInterleavings.LogIsChainExactlyWhen` says what happens in all other cases.
- Audit transactions read and insert in one step each, and other transactions see a row from its insert on; rolled-back transactions and locks of the database are left out.
- Planner requests with a pipeline or date filter: the source passes their parameters in another order than the placeholders of the query.
- Empty hashes in planner requests count as absent, as in the source; both are `None` here.
- PlanExactness.PlanIsExact: assumes a request with complete pairs of different hashes; the source also accepts one that adds a lone old hash, whose stages the plan restarts although nothing replaces it. What such a plan does is stated by `PlanStartsRightExactlyWhen` and `ReuseIsWhatWasReturned`.
- `mark_executed` and plan status; plan ids are positions in the list of stored plans.
- The copies of the planner and the diff under deploy/reference and in the gateway.
- Pipeline id and status of the compared runs, which the run comparison only passes through.
- Artifacts kept outside the database when recording; the zip and directory layout of fixtures; the order in which added, removed, missing and mismatched artifacts are listed.
- Base64 decoding of text that is not ASCII is an error, as in the source; the library's decoder is modelled from its documented behaviour, which skips characters outside the alphabet.
- Ed25519 and RSA keys themselves, signatures, and the rest of the release scripts.
