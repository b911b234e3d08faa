# Acceptance tooling, modelled and verified

The repository's `scripts/` directory holds the acceptance tooling of an agent service: a runner that kills
one worker at an exact point of a turn and proves another takes over, the gate that judges its report, a
backend isolator that borrows Redis, S3 and PostgreSQL resources for one run, a two-file candidate publisher,
a source fingerprint, a load generator, key builders for a migration fixture, and a wait for gateway endpoints
to hold still. This project models those parts in Dafny and proves what they promise.

Everything outside the process (Docker, the fault controller, Redis, S3, PostgreSQL, the file system, kubectl,
HTTP, the clock) answers arbitrarily: a call may return anything its protocol allows, raise any of the
errors the code tells apart, or take effect and lose its reply. Code that updates state step by step is a class
or a method with loops. Protocols between several parties are state machines whose theorems quantify over every
sequence of steps. SHA-256 is a free constructor, so equal digests mean equal inputs. Times and latencies are
reals.

## Modules

| file | what it holds |
|---|---|
| `Text`, `StringOrder`, `Prefixes`, `Utf8`, `Base64Url` | options, code-point order and sorting, separators, encodings |
| `FaultStage`, `StageWorld`, `StageRunner` | the fault-stage runner and the outside world it drives |
| `FaultGate` | the gate that validates the runner's report, and the report itself |
| `RuntimeRecovery` | the parent's scenario loop and the repair of a killed worker |
| `RedisReservation`, `PostgresPlane` | many runs reserving and releasing at once |
| `DataPlanes`, `Provisioning` | one run taking and giving back its three data planes |
| `RunnerViews` | what one runner sees of the machines above is what `DataPlanes` lets happen to it |
| `CandidateLock`, `CandidateInstall`, `PublicationSessions` | the content-addressed lock, the two-file installation, sessions sharing it |
| `SourceFilter`, `SourceFingerprint`, `FingerprintOrder` | ignored paths, bounded walk, framing, what the walk order decides |
| `LoadGenerator`, `LatencyStats` | scheduled tasks under a semaphore, outcome accounting, percentiles, histogram |
| `ProjectionKeys` | tenant-isolated Redis keys, emptiness check, seeding |
| `EndpointStability` | endpoint observation and the stability wait |

## Where the code does less than it seems to promise

Each of these is proved, with the exact condition under which the promise does hold.

- The runner treats an empty control id as no control and would not release it. Only the protocol's type admits
  such an id; `RunCase` promises one acknowledged release for every other, and the gate rejects a blank one
  (`PassingCaseAccepted`).
- The gate accepts passing cases only from the v2 scheduler (`ProducerMeetsConsumer`).
- A fencing child whose report cannot be read triggers no recovery and blocks nothing (`RealReport`).
- A second release by a run flushes another run's Redis database exactly when run ids can repeat
  (`OwnFlushesIffDistinct`).
- A second cleanup drops another run's PostgreSQL database exactly when cleanup may repeat and names collide
  (`OwnDropsIff`), because the ownership check looks at a role shared by all runs.
- Cleanup catches labelled errors only: any other error ends it, and the planes after it are neither tried nor
  reported (`Cleanup`). Nine kinds of lost reply, failed close or failed rollback can leave a resource that no flag
  records; the services record each where it happens, and without one nothing is left behind (`Provision`).
- If the rollback of a candidate installation fails, the backup is deleted all the same and the new binding stays
  beside the old lock; between sessions the pair is whole exactly when no rollback can fail
  (`WholeBetweenSessionsIff`). The lock verifier still rejects every such mixture (`AcceptedIsWhole`).
- The request is signed after `inflight` is raised and outside the `try` that lowers it. The concurrency bounds
  `inflight` in every run exactly when signing cannot fail or there are no more tasks than permits
  (`WithinConcurrencyIff`).
- A negative or undefined latency is put in the last histogram bucket but is not over any threshold
  (`BucketsAboveThreshold`).
- Addresses that hold the separator character can make two different endpoint sets look equal
  (`SeparatorConfuses`): two sets share a digest exactly when cutting every address at its separators gives the same
  pieces (`SameDigestIff`).
- The reason a fingerprint is unavailable depends on the walk order (`ReasonDependsOnOrder`): it does exactly when two
  reasons are possible for the entries (`OrderMattersIff`), and when all files can be statted exactly if the
  smallest reach the file limit within the byte limit and the largest do not (`LimitsDependOnOrderIff`).

## Model

| member | source | states |
|---|---|---|
| `StageRunner.Runner.RunCase` | scripts/fault_stage_acceptance.py:647-958 | Under any outside failures: a control is armed only once every preflight worker but the target was stopped, and every acknowledged arming with a non-empty id gets a release of that id; every kill (at most one) follows a matching `entered` marker of the armed control, the acknowledgement and a fresh look; cleanup precedes restoration; the killed container is not started before cleanup ends; from then on every stopped or killed container is started, or a look shows that it is running, unreachable or not the expected one; the preflight pool is a recorded listing. The status is not run exactly when the try block ended in that error, and a pass exactly when it ended well, the last cleanup attempt succeeded and every stopped or killed container was seen healthy again under its preflight worker id. A raised arming or turn observation ends the try block with its fault; the last reading of the control decides the rest: a fault, another `entered` marker (fail), kills not acknowledged (not run), or time running out with a row seen (fail) or none (not run). A try block that ended well means that the killed container was seen exited or dead after its kill, that a survivor stopped by this case was seen in service under its preflight worker id after that, that a recovery answer received after that proves the takeover from the armed worker and its old token, that the final verification returned, and that the one release was acknowledged (non-empty id); on a pass the marker trail is the stage's |
| `StageRunner.ProvenMeans` | scripts/fault_stage_acceptance.py:842-893 | What a proven case means, record by record: the killed container shown down, then a stopped survivor shown healthy under its own identity, then the answer that another worker owns the turn once under a newer lease, then its final verification |
| `StageRunner.Runner.Preflight` | scripts/fault_stage_acceptance.py:656-682 | Passes exactly when the enqueue checkpoint is available where asked for, the case was set up, the explicit container is fit for a kill and it is one member of a clean listing; otherwise the fault is that of the first of these to fail |
| `StageRunner.Runner.ListInventory` | scripts/fault_stage_acceptance.py:1006-1032 | Returns the last listing, every earlier one being empty; an empty result only after six listings or the convergence time |
| `StageRunner.Runner.Kill` | scripts/fault_stage_acceptance.py:825-842 | The kill is justified by the look made right before it and by the marker read back; refused with that look's own fault, on a changed worker, or when the kill call failed |
| `StageRunner.Runner.AwaitMarker` | scripts/fault_stage_acceptance.py:1225-1243 | Returns normally only on a reading that matches the armed identity in every field; gives up on an unfinished control only once the timeout has passed |
| `StageRunner.Runner.ArmAtEnqueue` | scripts/fault_stage_acceptance.py:684-722 | Every recorded arming comes after a returned stop of each preflight worker; the control is armed for the target's worker, and only the target is started; the armed event carries what the one recorded publication accepted, the outbox row on v2 |
| `StageRunner.Runner.ArmAtProcessing` | scripts/fault_stage_acceptance.py:723-808 | Every recorded arming comes after a returned stop of each worker but the target; the armed event names the target's worker and the turn it is processing; a turn it refuses is refused for what it lacks, for its owner or for a missing tool key, in that order |
| `StageRunner.Runner.RecoverWithSurvivors` | scripts/fault_stage_acceptance.py:1034-1124 | Starts only stopped survivors, never the killed container, which stays down; the evidence returned is a recorded answer received after a survivor was seen in service under its preflight worker id; it gives up only after every stopped survivor was asked in vain, on another answer than silence, or on a survivor that could not be started |
| `StageRunner.Runner.StartAndWait` | scripts/fault_stage_acceptance.py:1126-1153 | Starts the container exactly when the first look shows the expected one not running; at most T/2+4 inspections for timeout T; no sleep reaches past T after the first look; normal return exactly if a later look shows a running, healthy container with the expected identity; otherwise the start failed, the last look showed another container, or the timeout has passed |
| `StageRunner.Runner.WaitForTerminated` | scripts/fault_stage_acceptance.py:1155-1172 | Returns normally only when the last recorded look at the container shows it exited or dead with the expected identity, and gives up only on a look that shows another container or after the timeout; its pauses double up to two seconds, only the last cut short |
| `StageRunner.Runner.CleanupWithRetry` | scripts/fault_stage_acceptance.py:1250-1273 | One to four attempts, stopping at the first success; success exactly when the last attempt succeeded; the pauses between them are 0.5, 1 and 2 seconds |
| `StageRunner.Runner.Finish` | scripts/fault_stage_acceptance.py:903-949 | From any state of the case: release, cleanup and restoration in that order; every owed container is started, or a look shows it cannot or need not be |
| `StageRunner.Runner.StopWorkers` | scripts/fault_stage_acceptance.py:960-971 | Never stops the excluded worker; on return every other listed worker has a returned stop on record; the stops remembered for restoration are exactly those that returned |
| `StageRunner.Runner.EnsureWorkerPool` | scripts/fault_stage_acceptance.py:973-1004 | Returns the last listing, and only if it shows at least four live workers of the project, each with a process of its own; starts only listed workers that were out of service, and none unless the whole listing is the project's, identified and distinct; on success each worker of that listing served or was brought back; a failure is the listing's own fault, an empty pool, or a pool not in order |
| `StageRunner.Runner.RunAll` | scripts/fault_stage_acceptance.py:622-645 | One result per selected stage, in order; empty or repeating selections are refused before any kill; on every exit the kill log of all cases has grown by at most one per stage; every case but the first begins right after the listing of a full pool; before any case it fails only for a spent budget |
| `FaultStage.ValidateWorkers` | scripts/fault_stage_acceptance.py:485-528 | Accepts exactly a clean inventory of at least the required number of retained workers; a refusal names the first offender's fault, or that the crew is empty, too small or not told apart by process |
| `FaultStage.CleanInventoryMeaning` | scripts/fault_stage_acceptance.py:485-528 | An inventory is clean exactly when every retained worker is the project's, live, identified and no two share an id |
| `FaultStage.ValidateRecovery` | scripts/fault_stage_acceptance.py:549-577 | Passes exactly when a live survivor owns a newer lease over one contiguous turn, with stale rejection where required |
| `FaultStage.ContiguousIsRange` | scripts/fault_stage_acceptance.py:572-577 | Contiguous sequences are exactly the range from the first element |
| `FaultGate.FaultStageMarkers` | scripts/fault_injection_gate.py:1678-1711 | No marker error exactly when the last marker of each required name passes and all are stamped |
| `FaultGate.ValidateEnvelope` | scripts/fault_injection_gate.py:1724-1767 | No error exactly when schema, mode, run id, nonce digest and times are right and every launch field and a process id are in the provenance |
| `FaultGate.ValidateFaultStageChild` | scripts/fault_injection_gate.py:1714-1837 | No error exactly when origin, cases, stage selection and gate words are acceptable |
| `FaultGate.AcceptedPassIsEvidence` | scripts/fault_injection_gate.py:1768-1837 | An accepted passing child has, for every requested stage, a passing case with every required marker |
| `FaultGate.TrailIsRequired` | scripts/fault_injection_gate.py:83-125 | The runner's v2 marker trail is the gate's required set; without v2 one required marker is missing |
| `FaultGate.TrailIsShown` | scripts/fault_injection_gate.py:1678-1711 | The markers of a case show exactly the names on its trail |
| `FaultGate.PassingCaseAccepted` | scripts/fault_injection_gate.py:1768-1805 | A passing case of the runner is accepted exactly on v2 under a non-blank control id |
| `FaultGate.ReportOfRun` | scripts/fault_stage_acceptance.py:2404-2447 | The aggregated report of a passing run carries exactly its results, in order, under a passing gate |
| `FaultGate.ReportWord` | scripts/fault_stage_acceptance.py:2404-2432 | For any results: pass exactly when they cover the selection and the last of each stage passes, fail exactly when they cover it and a last one fails |
| `FaultGate.ReportCases` | scripts/fault_stage_acceptance.py:2416-2442 | For any results the cases are the last result of each selected stage that has one, in the order of the selection |
| `FaultGate.ProducerMeetsConsumer` | scripts/fault_stage_acceptance.py:2404-2447 | For any stage selection, the report of a passing run is accepted by the gate exactly when its origin is, on v2 with non-blank control ids |
| `RuntimeRecovery.Host.RuntimeWorkerRecovery` | scripts/fault_injection_gate.py:1476-1656 | Starts nothing or exactly the killed container, and that only right after looks that attested every retained container and showed this one ended and all others up. Not run exactly when the retained evidence or those first looks do not allow a repair (container ids distinct, as the code makes them); a pass only if the last looks show at least the required number up, the killed one among them; a fail only after a refused start or a full waiting window without such looks |
| `RuntimeRecovery.Host.Attest` | scripts/fault_injection_gate.py:1550-1567 | Succeeds only when recorded looks show every retained container carrying the attested project, service, source and image |
| `RuntimeRecovery.RealReport` | scripts/fault_injection_gate.py:2743-2801 | The children recorded are exactly the runtime scenarios that no earlier unconfirmed fencing recovery blocks, in order; a runtime scenario passes exactly when its child ended passing and, for fencing, its recovery passed, a fault-stage scenario has its own child's status and a blocked one is not run; the gate passes exactly when every step does, and then every recorded child ended passing; it fails exactly when a step does; at most one container is started |
| `RedisReservation.EveryRunKeepsInv` | scripts/backend_isolation.py:177-231 | The reservation invariant holds in every interleaving, with lost replies and GET and FLUSHDB as separate steps |
| `RedisReservation.ScanInOrder` | scripts/backend_isolation.py:177-211 | In every run candidates are tried one by one in order, and what a runner owns is the candidate it tried last |
| `RedisReservation.NoTwoHolders` | scripts/backend_isolation.py:36-44 | No logical database ever has two holders |
| `RedisReservation.EveryFlushIsOwn` | scripts/backend_isolation.py:214-231 | For distinct ids every flush, repeated releases included, follows the run's own claim of that database when it was empty |
| `RedisReservation.DatabaseZeroUntouched` | scripts/backend_isolation.py:183-188 | Database 0 changes only by its own clients |
| `RedisReservation.WorkloadSurvives` | scripts/backend_isolation.py:186-188 | A key present before any claim stays until a client deletes it |
| `RedisReservation.SharedIdFlushesOther` | scripts/backend_isolation.py:214-231 | A run in which one id used twice makes a second release flush the other's database |
| `RedisReservation.OwnFlushesIffDistinct` | scripts/backend_isolation.py:177-231 | Every run flushes only its own databases exactly when ids are distinct |
| `PostgresPlane.NamesCollideIff` | scripts/backend_isolation.py:56-70 | A safe token always gives a legal name; two tokens share one exactly when their characters at the places that are not hyphens are the same in order |
| `PostgresPlane.EveryRunKeepsInv` | scripts/backend_isolation.py:246-337 | What every create, check, drop and cleanup step keeps, in every interleaving |
| `PostgresPlane.DropsOnlyOwn` | scripts/backend_isolation.py:320-337 | No interleaving drops another run's database if cleanup runs once or names do not collide |
| `PostgresPlane.CanUndo` | scripts/backend_isolation.py:290-337 | From every reachable state a runner whose grants failed, or that is done, can remove its own database in two steps |
| `PostgresPlane.SecondCleanupDropsOther` | scripts/backend_isolation.py:512-520 | A run in which a repeated cleanup drops another run's live database |
| `PostgresPlane.OwnDropsIff` | scripts/backend_isolation.py:512-520 | Only own databases are dropped in every run exactly when cleanup cannot repeat or names are distinct |
| `RunnerViews.OwnRedisStepSeen` | scripts/backend_isolation.py:177-231 | A run's own script takes its candidate or nothing and its flush gives back what it checked, as `DataPlanes` has it |
| `RunnerViews.MarkersStayPut` | scripts/backend_isolation.py:177-231 | For distinct ids, no steps of others change which databases hold a run's marker |
| `RunnerViews.DatabaseStaysPut` | scripts/backend_isolation.py:246-337 | If cleanup runs once or names do not collide, no steps of others drop a run's database or pass theirs off as its own |
| `DataPlanes.RedisServer.Reserve` | scripts/backend_isolation.py:177-211 | Asks the candidates in range in order, up to the one it returns or fails at, and gives up only after all of them; every database newly held is a candidate in range and the returned one, or has a lost reply or failed close recorded since; every recorded lost reply is such a database |
| `DataPlanes.RedisServer.Release` | scripts/backend_isolation.py:214-231 | Flushes only a database that carries this run's marker; success means it is gone; an error without a label escapes exactly when the closing call failed |
| `DataPlanes.BucketService.Create` | scripts/backend_isolation.py:350-398 | Success means a bucket holding just the marker; after a failure a bucket stands only if a lost creation reply or a failed rollback was recorded; an existing bucket is left alone; without a failing call it succeeds or the name was taken; an error escapes unlabelled exactly when no client could be made |
| `DataPlanes.BucketService.Delete` | scripts/backend_isolation.py:401-442 | Nothing is deleted unless the marker matches; without faults it ends with every object and the bucket gone, for any pages; a failed call loses the bucket only through a recorded deletion without reply; an error escapes unlabelled exactly when no client could be made |
| `DataPlanes.BucketService.Empty` | scripts/backend_isolation.py:416-437 | The pagination loop terminates and, without faults, leaves no object |
| `DataPlanes.TokenAdvances` | scripts/backend_isolation.py:417-437 | Following a continuation token leaves strictly fewer keys ahead |
| `DataPlanes.DatabaseServer.Create` | scripts/backend_isolation.py:246-304 | Success means the database stands; after a failure it stands only if one of five faults was recorded, and for two of them it does; an existing one is never dropped; without a failing call it succeeds or the name was taken; success also means the extensions and grants went through once; an error escapes unlabelled exactly when a connection, query or close outside the handlers raised |
| `DataPlanes.DatabaseServer.Drop` | scripts/backend_isolation.py:307-337 | Drops at most one database, this run's if it stands; a label always comes from this plane; an error escapes unlabelled exactly when a connection, query or close outside the handlers raised |
| `Provisioning.BackendIsolation.Cleanup` | scripts/backend_isolation.py:512-544 | In the order PostgreSQL, S3, Redis, tries exactly the flagged planes up to the first unlabelled error; each tried plane is gone or reported; other planes are untouched |
| `Provisioning.LabelsAreReports` | scripts/backend_isolation.py:512-544 | The returned labels are exactly those the planes reported |
| `Provisioning.BackendIsolation.Fill` | scripts/backend_isolation.py:613-627 | Each flag stands for a creation that returned; an unflagged plane stands only if it did before or a fault of its own was recorded; at most the run's own database is dropped on the way; if nothing failed or was refused, it fails only on a taken name or in the migration; success means one round of grants and then one migration |
| `Provisioning.Provision` | scripts/backend_isolation.py:566-642 | Success means all three planes newly stand and are flagged. Otherwise cleanup ran at most once, after at most the one drop of a failed creation; an acknowledged claim had its removal called unless an earlier removal raised an unlabelled error; earlier resources and other runs' databases are untouched; on refusal whatever of this run is still there is reported (for Redis, the acknowledged claim only) or has its fault recorded since the call; with no fault recorded nothing is left and nothing escapes; it refuses only after asking every candidate, on a recorded fault or refusal, on a taken name or in the migration |
| `CandidateLock.ValidateBinding` | scripts/candidate_lock.py:35-80 | No reason exactly when the binding is valid for this checkout and release |
| `CandidateLock.ImmutableIff` | scripts/candidate_lock.py:27-28 | An image is immutable exactly when its reference is a host, a port if any, a path and `@` with its own digest |
| `CandidateLock.BoundToCheckout` | scripts/candidate_lock.py:35-80 | A binding is valid in one checkout only, and under one configured release |
| `CandidateLock.CreateLock` | scripts/candidate_lock.py:83-104 | Locks exactly a valid binding under a configured release, and the lock verifies |
| `CandidateLock.VerifyLock` | scripts/candidate_lock.py:107-124 | No reason exactly when the pair verifies; the hash reason appears exactly when the hash differs |
| `CandidateLock.VerifiedIffMade` | scripts/candidate_lock.py:83-124 | A pair verifies exactly when the binding is valid and the lock is the one made for it |
| `CandidateLock.MixedPairRejected` | scripts/candidate_lock.py:107-124 | A lock made for one binding is rejected beside any other |
| `CandidateInstall.Disk.Install` | scripts/candidate_session.py:88-139 | Both new on return, both original after a fault with rollback, no temporary file left; readers only ever find old/old, new/old or new/new; a failed rollback leaves exactly new/old; installed exactly when every file operation returned, dead exactly when one died, cancelled only when one was interrupted |
| `CandidateInstall.Disk.Prepare` | scripts/candidate_session.py:115-120 | Targets untouched; on return the staged files are complete and every existing target has a complete copy |
| `CandidateInstall.Disk.Rollback` | scripts/candidate_session.py:125-135 | For any installed flags, returning means both targets hold their original content or absence |
| `CandidateInstall.MixedAcceptedIff` | scripts/candidate_lock.py:107-124 | The mixed state over an old pair is accepted exactly when the two bindings are the same |
| `CandidateInstall.OnlyWholePairsAccepted` | scripts/candidate_session.py:115-139 | During and after an installation the verifier accepts only the old pair, the new pair, or an unchanged binding |
| `PublicationSessions.AtMostOneInside` | scripts/candidate_session.py:60-73 | In every run at most one session is inside the lock, crashed holders included |
| `PublicationSessions.SessionIsInstall` | scripts/candidate_session.py:60-139 | In every interleaving a session ends on the disk as a lone installation from what it saved would |
| `PublicationSessions.EveryRunKeepsInv` | scripts/candidate_session.py:60-139 | With rollbacks that succeed, every reachable disk is accounted for by the holder's phase |
| `PublicationSessions.BrokenRunMixes` | scripts/candidate_session.py:124-139 | A failed rollback leaves the new binding beside the old lock with the lock file gone |
| `PublicationSessions.WholeBetweenSessionsIff` | scripts/candidate_session.py:272-308 | With nobody inside, the disk holds the original or one session's pair in every run exactly when no rollback can fail |
| `PublicationSessions.AcceptedIsWhole` | scripts/candidate_session.py:60-139 | In every run, with crashes and failed rollbacks, the verifier accepts only the original or one session's whole pair |
| `SourceFingerprint.ComputeFingerprint` | scripts/evidence_lineage.py:166-284 | Computes the fingerprint that the walk, sort and framing functions define, with the first reason met |
| `SourceFilter.IgnoredBelowIff` | scripts/evidence_lineage.py:138-142 | A path lies in an ignored directory exactly when a part above or below any cut of it names one |
| `SourceFilter.BytecodeIff` | scripts/evidence_lineage.py:213-217 | The suffix filter drops exactly the paths that end in `.pyc` or `.pyo`, in any case, after at least one character of the name |
| `SourceFingerprint.CollectedFiles` | scripts/evidence_lineage.py:185-240 | The walk collects exactly the listed plain files below roots that are not ignored, themselves neither links, ignored nor compiled |
| `SourceFingerprint.NothingKeptBelowIgnored` | scripts/evidence_lineage.py:185-217 | Skipping an ignored root drops nothing the filters would have kept |
| `SourceFingerprint.Walk` | scripts/evidence_lineage.py:185-240 | Collects exactly the files that pass the ignore, link, type and suffix filters and their total, or stops with the first reason |
| `SourceFingerprint.Read` | scripts/evidence_lineage.py:242-273 | Feeds the digest the framed path and content of each file in order, or stops at the first trouble |
| `SourceFingerprint.BigEndianRoundTrip` | scripts/evidence_lineage.py:245-246 | The value of the big-endian bytes is the number framed |
| `SourceFingerprint.ParseUndoesPreimage` | scripts/evidence_lineage.py:243-273 | The decoder returns the framed list of paths and contents |
| `SourceFingerprint.AvailableIff` | scripts/evidence_lineage.py:185-284 | Available exactly when every entry is listed, statted, in bounds and read unchanged, whatever the order |
| `SourceFingerprint.WalkOrderFree` | scripts/evidence_lineage.py:185-284 | Permuting the walk changes neither availability nor the fingerprint |
| `SourceFingerprint.ReasonDependsOnOrder` | scripts/evidence_lineage.py:224-237 | The reported limit differs between two orders of the same files |
| `FingerprintOrder.ReasonOfOrder` | scripts/evidence_lineage.py:185-240 | An order gives a reason exactly when it is that of the first entry that cannot be collected after those before it |
| `FingerprintOrder.ReasonReachableIff` | scripts/evidence_lineage.py:185-240 | Some order of the entries gives a reason exactly under a condition on the entries alone, for each reason |
| `FingerprintOrder.OrderMattersIff` | scripts/evidence_lineage.py:185-284 | Two orders can be fingerprinted differently exactly when two reasons are possible |
| `FingerprintOrder.LimitsDependOnOrderIff` | scripts/evidence_lineage.py:224-237 | With all files statted, the order matters exactly if there are more files than the limit, as many of the smallest fit the byte limit and as many of the largest do not |
| `FingerprintOrder.SmallestFirst` | scripts/evidence_lineage.py:224-240 | No choice of files has fewer bytes than as many of the smallest |
| `FingerprintOrder.TreeOrderFree` | scripts/evidence_lineage.py:185-284 | Reordering the roots and any directory listing permutes the entries met and leaves an available fingerprint unchanged |
| `SourceFingerprint.SameDigestSameSources` | scripts/evidence_lineage.py:242-273 | Equal digests mean the same sorted paths with the same contents |
| `LoadGenerator.KindTellsCause` | scripts/feishu_http_performance.py:481-507 | Exactly one of success and a failure kind, and each kind names its cause |
| `LoadGenerator.EveryRunCounted` | scripts/feishu_http_performance.py:463-516 | In every interleaving permits are conserved and `inflight` is the number of tasks in the send section plus those whose signing raised |
| `LoadGenerator.EveryRunPeaks` | scripts/feishu_http_performance.py:470-474 | The reported maximum is the largest number in flight at any moment of the run |
| `LoadGenerator.WithinConcurrencyIff` | scripts/feishu_http_performance.py:469-509 | `inflight` and its maximum stay within the concurrency in every run exactly when signing cannot fail or tasks do not outnumber permits |
| `LoadGenerator.LeakRun` | scripts/feishu_http_performance.py:470-475 | A run in which every signing failure stays counted |
| `LoadGenerator.EveryRunScheduled` | scripts/feishu_http_performance.py:463-474 | Each request is submitted at most once, not before it is due, at times that never go back |
| `LoadGenerator.SubmissionsWithinRate` | scripts/feishu_http_performance.py:463-474 | In every run, by any time t at most floor(rate * t) + 1 requests were submitted |
| `LoadGenerator.EveryRunRecorded` | scripts/feishu_http_performance.py:508-516 | A slot is filled exactly when its task stored its outcome, and every outcome is decided |
| `LoadGenerator.SlotTellsReply` | scripts/feishu_http_performance.py:475-516 | In every run a filled slot is a success exactly when the run holds a 2xx answer acknowledging that request, and each failure kind exactly when it holds the answer that causes it |
| `LoadGenerator.EveryOutcomeOnce` | scripts/feishu_http_performance.py:532-542 | Successes and the five failure counts add up to the completions |
| `LoadGenerator.Summarize` | scripts/feishu_http_performance.py:530-552 | Accepted plus failed is requested; failure counts plus unanswered requests are the failed ones |
| `LoadGenerator.FinishedRunIsComplete` | scripts/feishu_http_performance.py:518-530 | When all tasks finish, every slot is decided, completions equal the total, all permits are back and nothing is in flight |
| `LoadGenerator.FailuresSumToFailed` | scripts/feishu_http_performance.py:518-552 | In the summary of any finished run the failure counts sum to the failed total |
| `LoadGenerator.AcceptedAreAcknowledged` | scripts/feishu_http_performance.py:518-552 | The accepted total of a finished run is the number of requests whose answer acknowledged them |
| `LatencyStats.PercentileMonotone` | scripts/feishu_http_performance.py:584-591 | A larger fraction never gives a smaller percentile |
| `LatencyStats.PercentileBounds` | scripts/feishu_http_performance.py:584-591 | Percentiles lie between minimum and maximum |
| `LatencyStats.PercentileAtElement` | scripts/feishu_http_performance.py:584-591 | At an exact position the percentile is the element there |
| `LatencyStats.PercentileBetween` | scripts/feishu_http_performance.py:584-591 | Between two neighbours the percentile moves linearly with the fraction |
| `LatencyStats.ReportedPercentilesOrdered` | scripts/feishu_http_performance.py:554-580 | p50 <= p90 <= p95 <= p99 <= max |
| `LatencyStats.FindBucket` | scripts/feishu_http_performance.py:219-223 | The bucket found contains the latency |
| `LatencyStats.Histogram` | scripts/feishu_http_performance.py:214-224 | Each count is the number of latencies in the bucket's range |
| `LatencyStats.HistogramSums` | scripts/feishu_http_performance.py:214-224 | The counts sum to the number of latencies |
| `LatencyStats.BucketsAboveThreshold` | scripts/feishu_http_performance.py:578-580 | Buckets above a bound hold the over-threshold latencies plus the negative or undefined ones; the two agree exactly when there are none of those |
| `LatencyStats.NegativeLatencyDisagrees` | scripts/feishu_http_performance.py:219-223 | A negative latency is in the last bucket and over no threshold |
| `Base64Url.EncodeIsUnpadded` | scripts/migration_acceptance_bootstrap.py:170-178 | Stripping removes the padding only, and the rest uses letters, digits, `-` and `_` |
| `Base64Url.RoundTrip` | scripts/migration_acceptance_bootstrap.py:170-178 | Unpadded URL-safe base64 decodes back for every byte string |
| `Base64Url.AlphabetIsTable` | scripts/migration_acceptance_bootstrap.py:170-178 | The digits are the URL-safe table of section 5 of RFC 4648 |
| `Base64Url.GroupValue` | scripts/migration_acceptance_bootstrap.py:170-178 | Four digits write the 24 bits of three bytes, highest first |
| `Utf8.RoundTrip` | scripts/migration_acceptance_bootstrap.py:170-172 | UTF-8 encoding decodes back for every string |
| `Utf8.EncodingShape` | scripts/migration_acceptance_bootstrap.py:170-172 | Lengths, lead bytes and continuation bytes are those of section 3 of RFC 3629 |
| `ProjectionKeys.KeyInjective` | scripts/migration_acceptance_bootstrap.py:170-173 | Different tenants or sessions never share a key |
| `ProjectionKeys.PrefixIffSameTenant` | scripts/migration_acceptance_bootstrap.py:170-178 | A v2 key lies under a tenant's prefix exactly when it is that tenant's |
| `ProjectionKeys.AssertEmpty` | scripts/migration_acceptance_bootstrap.py:181-194 | Passes exactly when no key belongs to the tenant |
| `ProjectionKeys.Seed` | scripts/migration_acceptance_bootstrap.py:302-328 | Each of the 200 distinct keys holds its own record, the count is their number, and nothing else changes |
| `ProjectionKeys.MemoriesHaveSessions` | scripts/migration_acceptance_bootstrap.py:302-328 | Every seeded memory names a session of the same principal that the seeding also wrote |
| `ProjectionKeys.SeedKeysBelongIff` | scripts/migration_acceptance_bootstrap.py:302-328 | A seeded key belongs to its own tenant and to no other |
| `ProjectionKeys.SeedingAddsAll` | scripts/migration_acceptance_bootstrap.py:181-194 | After a passed emptiness check seeding adds exactly the fixture's keys and keeps every earlier record |
| `EndpointStability.Observe` | scripts/ack_performance_acceptance.py:465-512 | Rejects exactly malformed listings; `ready` and `terminating` are the numbers of endpoints with that condition, ready plus unready is their number, and the digest is of the sorted keys, each the joined sorted addresses of one endpoint |
| `EndpointStability.HealthyIff` | scripts/ack_performance_acceptance.py:613-621 | A healthy observation is one of at least the expected number of endpoints, all ready and none terminating |
| `EndpointStability.GroupingIrrelevant` | scripts/ack_performance_acceptance.py:476-503 | Which slice an endpoint stands in does not matter |
| `EndpointStability.ListingOrderFree` | scripts/ack_performance_acceptance.py:465-512 | Permuting or regrouping endpoints leaves the observation unchanged |
| `EndpointStability.AddressOrderFree` | scripts/ack_performance_acceptance.py:485-492 | Reordering addresses within endpoints leaves the observation unchanged |
| `EndpointStability.JoinInjective` | scripts/ack_performance_acceptance.py:492-492 | Joining separator-free addresses loses nothing |
| `EndpointStability.JoinEqualIff` | scripts/ack_performance_acceptance.py:492-492 | Two address lists share a key exactly when their pieces between separators are the same |
| `EndpointStability.SameDigestIff` | scripts/ack_performance_acceptance.py:505-512 | Equal digests mean exactly the same pieces, endpoint by endpoint in some order |
| `EndpointStability.SameDigestSameAddresses` | scripts/ack_performance_acceptance.py:505-512 | With separator-free addresses, equal digests mean exactly the same endpoint addresses |
| `EndpointStability.SeparatorConfuses` | scripts/ack_performance_acceptance.py:492-492 | Two addresses and one address holding the separator share a key |
| `EndpointStability.CounterIsLongestSuffix` | scripts/ack_performance_acceptance.py:613-621 | The counter reaches n exactly when the last n observations are equal and healthy |
| `EndpointStability.Cluster.AwaitStable` | scripts/ack_performance_acceptance.py:535-645 | Passes at exactly the first index where the last N observations are equal and healthy; otherwise no prefix was; the number of looks is bounded by the timeout; it times out only after the whole timeout, is rejected exactly on bad arguments or a failed look, and never sleeps longer than the interval |

## Left out

- StageRunner.Runner.RunCase: promises one acknowledged release only for a non-empty control id, because the code treats an empty id as no control.
- RedisReservation.EveryFlushIsOwn: is stated for distinct run ids; without them it fails (`SharedIdFlushesOther`).
- EndpointStability.SameDigestSameAddresses: is stated for addresses without the separator character, as IP addresses and host names are; `SameDigestIff` covers the others.
- Cancellation of a task inside its own `finally` block, and the overall timeout `asyncio.wait_for` puts around a case.
- SQL, Redis stream and mailbox queries behind the stage backend, and the Docker, kubectl, boto3, asyncpg and httpx calls themselves: they are arbitrary outcomes here.
- The runtime package `trpc_service`, apart from the bounds its fault events are checked against.
- FaultGate.ValidateFaultStageChild: a report that is not a JSON object, which the code refuses before any check, is not represented.
- The merging of stage markers into the parent's report.
- Symbolic-link refusals, file permissions and directory creation in the publisher; JSON text, which is represented by the values it encodes.
- Floating-point rounding; the schedule and the submission times are read from one clock.
- Warm-up requests, request signing and the callback payload.
- Lone surrogates in strings, which Python refuses to encode.
- The environment variables a publishing session sets and restores, and the contents of receipts and release contexts.
- Disaster-recovery, deployment, contract and messaging gates: long field-by-field validators that would add only easy members.
