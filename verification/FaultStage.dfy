/** Evidence records of the fault-stage runner and the checks it applies to them. */
module FaultStage {
  import opened Text

  /** The texts of the runner's own `StageNotRun` and `StageAcceptanceError`; `Foreign` is any other text a backend raises. */
  datatype Reason =
    | Foreign(text: string)
    | NotTheSelectedContainer
    | ForeignProject
    | NotAWorker
    | TargetNotRunning
    | TargetNotHealthy
    | TargetUnidentified
    | ForeignWorker
    | SurvivorNotHealthy
    | SurvivorUnidentified
    | DuplicateWorker
    | NoWorkers
    | NoSurvivor
    | TooFewWorkers
    | MissingPid
    | SharedPid
    | OwnerIsTerminated
    | EpochNotIncreased
    | TerminatedCounted
    | OwnerNotASurvivor
    | StaleTokenNotRejected
    | NotOneTurn
    | NoSequence
    | SequenceNotContiguous
    | UnsupportedScheduler
    | IdentityChanged
    | NotHealthyInTime
    | EnqueueCheckpointMissing
    | TargetNotListedOnce
    | InboundMissing
    | StreamMissing
    | SessionMissing
    | OutboxMissing
    | GenerationMissing
    | OtherInbound
    | OtherSession
    | NoTurnIdentity
    | NotAcknowledgedBeforeExecution
    | OwnerIsNotTheTarget
    | NoExecutionKey
    | MarkerMismatched
    | MarkerNeverMatched
    | MarkerNotObserved
    | KillNotAcknowledged
    | TargetChangedAfterMarker
    | StillRunning
    | ReleaseNotAcknowledged
    | NoStoppedSurvivor
    | TakeoverNotObserved
    | NoTakeoverFromSurvivors
    | BudgetExhausted

  /** What an external call may raise; `Timeout` is `TimeoutError`, `Other` any other `Exception`. */
  datatype Fault = NotRun(reason: Reason) | Acceptance(reason: Reason) | Timeout | Other

  datatype Outcome<+T> = Ok(value: T) | Raised(fault: Fault) {
    predicate IsFailure() {
      Raised?
    }

    function PropagateFailure<U>(): Outcome<U>
      requires Raised?
    {
      Raised(fault)
    }

    function Extract(): T
      requires Ok?
    {
      value
    }
  }

  datatype Stage = Enqueue | Tool | CommitTxnOpen

  /** The backend's advertised scheduler; `Unsupported` makes every read of it raise. */
  datatype Scheduler = Unset | V1 | V2 | Unsupported

  datatype CaseStatus = Pass | Fail | NotRunStatus

  /** A container's status word, up to letter case. */
  datatype StatusWord = Running | Exited | Dead | OtherStatus

  /** A container's health word; the restore path insists on its exact spelling, the guards fold its case. */
  datatype HealthWord = Healthy | HealthyOtherCase | OtherHealth | NoHealth

  datatype Service = WorkerService | OtherService

  datatype WorkerContainer = WorkerContainer(
    containerId: string, project: string, service: Service, status: StatusWord,
    health: HealthWord, workerId: string, pid: Option<int>)

  datatype CaseIdentity = CaseIdentity(
    stage: Stage, caseId: string, runId: string, tenantId: string,
    sessionId: string, inboundId: string, messageId: string)

  datatype AcceptanceEvidence = AcceptanceEvidence(
    inboundId: string, streamId: string, sessionId: Option<string>,
    outboxId: Option<string>, generation: Option<int>)

  datatype ProcessingEvidence = ProcessingEvidence(
    inboundId: string, sessionId: string, turnId: string, workerId: string,
    fencingToken: int, executionKey: Option<string>, acknowledged: bool)

  datatype ControlWord = Entered | OtherWord

  datatype ControlEvidence = ControlEvidence(
    controlId: string, status: ControlWord, markerStatus: Option<ControlWord>,
    markerWorkerId: Option<string>, markerInboundId: Option<string>, markerTurnId: Option<string>,
    markerExecutionKey: Option<string>, markerStreamId: Option<string>, markerFencingToken: Option<int>)

  datatype RecoveryEvidence = RecoveryEvidence(
    ownerWorkerId: string, leaseEpoch: int, survivors: seq<WorkerContainer>,
    turnCount: int, sequences: seq<int>, staleTokenRejected: bool)

  datatype StageEvent = StageEvent(
    stage: Stage, tenantId: string, workerId: string, inboundId: Option<string>, turnId: Option<string>,
    executionKey: Option<string>, streamId: Option<string>, fencingToken: Option<int>)

  /** The evidence markers of a case report; `OtherMarker` is any other name. */
  datatype MarkerName =
    | PreflightWorkersVerified
    | AcceptancePersisted
    | TurnProcessingObserved
    | V2AckBeforeExecute
    | ControlArmed
    | MarkerEntered
    | V2ClaimBeforeObserved
    | WorkerTerminated
    | WorkerSurvivorsObserved
    | StaleTokenRejectionVerified
    | TurnSingleContiguousVerified
    | TurnCommitVerified
    | OutboundIntentVerified
    | ToolIdempotentExecutionVerified
    | OtherMarker(text: string)

  datatype Marker = Marker(name: MarkerName, status: CaseStatus, observedAt: string)

  datatype StageResult = StageResult(
    stage: Stage, status: CaseStatus, ident: CaseIdentity, markers: seq<Marker>,
    controlId: Option<string>, killedContainerId: Option<string>)

  predicate RunningHealthy(w: WorkerContainer)
  {
    w.status.Running? && (w.health.Healthy? || w.health.HealthyOtherCase?)
  }

  /** What `validate_worker_container` demands before a stop or a kill. */
  predicate Actionable(w: WorkerContainer, project: string, explicit: string)
  {
    && w.containerId != "" && w.containerId == explicit
    && w.project == project && w.service.WorkerService?
    && RunningHealthy(w)
    && !Blank(w.workerId)
  }

  function ValidateWorkerContainer(w: WorkerContainer, project: string, explicit: string): (r: Outcome<WorkerContainer>)
    ensures r.Ok? <==> Actionable(w, project, explicit)
    ensures r.Ok? ==> r.value == w
  {
    if w.containerId == "" || w.containerId != explicit then
      Raised(Acceptance(NotTheSelectedContainer))
    else if w.project != project then
      Raised(Acceptance(ForeignProject))
    else if !w.service.WorkerService? then
      Raised(Acceptance(NotAWorker))
    else if !w.status.Running? then
      Raised(NotRun(TargetNotRunning))
    else if !w.health.Healthy? && !w.health.HealthyOtherCase? then
      Raised(NotRun(TargetNotHealthy))
    else if Blank(w.workerId) then
      Raised(NotRun(TargetUnidentified))
    else
      Ok(w)
  }

  /** The full control and marker identity, nullable fields included. */
  predicate ControlMatches(row: ControlEvidence, event: StageEvent, controlId: string)
  {
    && row.controlId == controlId
    && row.status.Entered? && row.markerStatus == Some(Entered)
    && row.markerWorkerId == Some(event.workerId)
    && row.markerInboundId == event.inboundId
    && row.markerTurnId == event.turnId
    && row.markerExecutionKey == event.executionKey
    && row.markerStreamId == event.streamId
    && row.markerFencingToken == event.fencingToken
  }

  /** Length and blankness limits of an optional identity field. */
  predicate BoundedId(s: Option<string>)
  {
    s.Some? ==> !Blank(s.value) && |s.value| <= 256
  }

  /** The validators of `FaultStageEvent`; building an invalid event raises. */
  predicate WellFormedEvent(e: StageEvent)
  {
    && !Blank(e.tenantId) && |e.tenantId| <= 256
    && !Blank(e.workerId) && |e.workerId| <= 256
    && BoundedId(e.inboundId) && BoundedId(e.turnId) && BoundedId(e.executionKey) && BoundedId(e.streamId)
    && (e.fencingToken.Some? ==> 0 <= e.fencingToken.value < 0x8000_0000_0000_0000)
    && match e.stage
       case Enqueue => e.inboundId.Some? && e.streamId.Some?
       case Tool => e.turnId.Some? && e.executionKey.Some?
       case CommitTxnOpen => e.inboundId.Some? && e.turnId.Some? && e.fencingToken.Some?
  }

  function BuildEvent(e: StageEvent): (r: Outcome<StageEvent>)
    ensures r == Ok(e) <==> WellFormedEvent(e)
  {
    if WellFormedEvent(e) then Ok(e) else Raised(Other)
  }

  // ----- worker inventories

  /** The listing without the terminated container. */
  function Retained(workers: seq<WorkerContainer>, killed: Option<string>): (r: seq<WorkerContainer>)
    ensures forall w :: w in r <==> w in workers && Some(w.containerId) != killed
  {
    if workers == [] then []
    else
      var w := workers[|workers| - 1];
      var rest := Retained(workers[..|workers| - 1], killed);
      if Some(w.containerId) == killed then rest else rest + [w]
  }

  lemma {:induction false} RetainedAll(workers: seq<WorkerContainer>)
    ensures Retained(workers, None) == workers
  {
    if workers != [] {
      RetainedAll(workers[..|workers| - 1]);
    }
  }

  ghost predicate Twin(a: WorkerContainer, b: WorkerContainer)
  {
    a.containerId == b.containerId || a.workerId == b.workerId
  }

  ghost function ContainerIds(ws: seq<WorkerContainer>): set<string>
  {
    set w | w in ws :: w.containerId
  }

  ghost function WorkerIds(ws: seq<WorkerContainer>): set<string>
  {
    set w | w in ws :: w.workerId
  }

  lemma IdsOfExtended(ws: seq<WorkerContainer>, w: WorkerContainer)
    ensures ContainerIds(ws + [w]) == ContainerIds(ws) + {w.containerId}
    ensures WorkerIds(ws + [w]) == WorkerIds(ws) + {w.workerId}
  {
    assert forall v :: v in ws + [w] <==> v in ws || v == w;
  }

  lemma TwinById(ws: seq<WorkerContainer>, w: WorkerContainer)
    ensures (exists v :: v in ws && Twin(v, w)) <==> w.containerId in ContainerIds(ws) || w.workerId in WorkerIds(ws)
  {
    if w.containerId in ContainerIds(ws) {
      var v :| v in ws && v.containerId == w.containerId;
      assert Twin(v, w);
    }
    if w.workerId in WorkerIds(ws) {
      var v :| v in ws && v.workerId == w.workerId;
      assert Twin(v, w);
    }
  }

  /** One listed worker, judged against the identifiers of the retained workers before it. */
  function Judge(w: WorkerContainer, project: string, containerIds: set<string>, workerIds: set<string>): Option<Fault>
  {
    if w.project != project || !w.service.WorkerService? then Some(Acceptance(ForeignWorker))
    else if !RunningHealthy(w) then Some(NotRun(SurvivorNotHealthy))
    else if Blank(w.workerId) then Some(NotRun(SurvivorUnidentified))
    else if w.containerId in containerIds || w.workerId in workerIds then Some(Acceptance(DuplicateWorker))
    else None
  }

  ghost function Offence(workers: seq<WorkerContainer>, k: nat, project: string, killed: Option<string>): Option<Fault>
    requires k < |workers|
  {
    if Some(workers[k].containerId) == killed then None
    else
      var before := Retained(workers[..k], killed);
      Judge(workers[k], project, ContainerIds(before), WorkerIds(before))
  }

  /** The fault of the first offender at or after `k`. */
  ghost function FirstOffence(workers: seq<WorkerContainer>, k: nat, project: string, killed: Option<string>): Option<Fault>
    requires k <= |workers|
    decreases |workers| - k
  {
    if k == |workers| then None
    else
      var o := Offence(workers, k, project, killed);
      if o.Some? then o else FirstOffence(workers, k + 1, project, killed)
  }

  ghost predicate CleanInventory(workers: seq<WorkerContainer>, project: string, killed: Option<string>)
  {
    FirstOffence(workers, 0, project, killed).None?
  }

  ghost predicate IndependentProcesses(ws: seq<WorkerContainer>)
  {
    && (forall i :: 0 <= i < |ws| ==> ws[i].pid.Some? && ws[i].pid.value > 0)
    && (forall i, j :: 0 <= i < j < |ws| ==> ws[i].pid != ws[j].pid)
  }

  /** The loop of `_validate_workers`: keeps the listing's first fault, or the retained workers. */
  method ScanWorkers(workers: seq<WorkerContainer>, project: string, killed: Option<string>)
    returns (r: Outcome<seq<WorkerContainer>>)
    ensures r == match FirstOffence(workers, 0, project, killed)
                 case Some(fault) => Raised(fault)
                 case None => Ok(Retained(workers, killed))
  {
    var valid: seq<WorkerContainer> := [];
    var containerIds: set<string> := {};
    var workerIds: set<string> := {};
    var i := 0;
    while i < |workers|
      invariant 0 <= i <= |workers|
      invariant valid == Retained(workers[..i], killed)
      invariant containerIds == ContainerIds(valid) && workerIds == WorkerIds(valid)
      invariant FirstOffence(workers, i, project, killed) == FirstOffence(workers, 0, project, killed)
    {
      var w := workers[i];
      assert workers[..i + 1][..i] == workers[..i];
      if killed.Some? && w.containerId == killed.value {
        i := i + 1;
        continue;
      }
      var fault := Judge(w, project, containerIds, workerIds);
      if fault.Some? {
        return Raised(fault.value);
      }
      IdsOfExtended(valid, w);
      containerIds := containerIds + {w.containerId};
      workerIds := workerIds + {w.workerId};
      valid := valid + [w];
      i := i + 1;
    }
    assert workers[..i] == workers;
    return Ok(valid);
  }

  method RequireIndependent(ws: seq<WorkerContainer>) returns (r: Outcome<()>)
    ensures r.Ok? <==> IndependentProcesses(ws)
    ensures r.Raised? && ws != [] ==> CrewFault(ws, |ws|, r.fault)
  {
    if exists i :: 0 <= i < |ws| && (ws[i].pid.None? || ws[i].pid.value <= 0) {
      return Raised(NotRun(MissingPid));
    }
    if exists i, j :: 0 <= i < j < |ws| && ws[i].pid == ws[j].pid {
      return Raised(NotRun(SharedPid));
    }
    return Ok(());
  }

  /** Why a clean crew is refused: it is empty, too small, or its processes are not told apart. */
  ghost predicate CrewFault(crew: seq<WorkerContainer>, minimum: int, f: Fault)
  {
    if crew == [] then f == NotRun(NoSurvivor)
    else if |crew| < minimum then f == NotRun(TooFewWorkers)
    else
      && f in {NotRun(MissingPid), NotRun(SharedPid)}
      && (f == NotRun(MissingPid) <==> exists i :: 0 <= i < |crew| && (crew[i].pid.None? || crew[i].pid.value <= 0))
  }

  /** Accepts exactly a clean inventory of at least `minimum` retained workers. */
  method ValidateWorkers(workers: seq<WorkerContainer>, project: string, killed: Option<string>,
                         minimum: int, requireIndependent: bool)
    returns (r: Outcome<seq<WorkerContainer>>)
    ensures r.Ok? <==>
            && minimum >= 1
            && CleanInventory(workers, project, killed)
            && |Retained(workers, killed)| >= minimum
            && (requireIndependent ==> IndependentProcesses(Retained(workers, killed)))
    ensures r.Ok? ==> r.value == Retained(workers, killed)
    ensures minimum >= 1 && r.Raised? ==>
              if workers == [] then r.fault == NotRun(NoWorkers)
              else match FirstOffence(workers, 0, project, killed)
                   case Some(fault) => r.fault == fault
                   case None => CrewFault(Retained(workers, killed), minimum, r.fault)
  {
    if minimum < 1 {
      return Raised(Other);
    }
    if workers == [] {
      return Raised(NotRun(NoWorkers));
    }
    var valid :- ScanWorkers(workers, project, killed);
    if valid == [] {
      return Raised(NotRun(NoSurvivor));
    }
    if |valid| < minimum {
      return Raised(NotRun(TooFewWorkers));
    }
    if requireIndependent {
      var _ :- RequireIndependent(valid);
    }
    return Ok(valid);
  }

  /** A listed worker is ours, live, identified and shares no id with a retained worker before it. */
  ghost predicate SoundAt(workers: seq<WorkerContainer>, i: nat, project: string, killed: Option<string>)
    requires i < |workers|
  {
    Some(workers[i].containerId) != killed ==>
      && workers[i].project == project && workers[i].service.WorkerService?
      && RunningHealthy(workers[i]) && !Blank(workers[i].workerId)
      && (forall j :: 0 <= j < i && Some(workers[j].containerId) != killed ==> !Twin(workers[j], workers[i]))
  }

  lemma OffenceIff(workers: seq<WorkerContainer>, k: nat, project: string, killed: Option<string>)
    requires k < |workers|
    ensures Offence(workers, k, project, killed).None? <==> SoundAt(workers, k, project, killed)
  {
    var before, w := Retained(workers[..k], killed), workers[k];
    TwinById(before, w);
    if Some(w.containerId) != killed {
      forall j | 0 <= j < k && Some(workers[j].containerId) != killed
        ensures workers[j] in before
      {
        assert workers[j] in workers[..k];
      }
      if v :| v in before && Twin(v, w) {
        var j :| 0 <= j < k && workers[..k][j] == v;
        assert Twin(workers[j], w);
      }
    }
  }

  /** An inventory is clean from `k` on exactly when every worker listed from there is sound. */
  lemma {:induction false} CleanInventoryMeaning(workers: seq<WorkerContainer>, k: nat, project: string, killed: Option<string>)
    requires k <= |workers|
    ensures FirstOffence(workers, k, project, killed).None? <==>
            forall i :: k <= i < |workers| ==> SoundAt(workers, i, project, killed)
    decreases |workers| - k
  {
    if k < |workers| {
      OffenceIff(workers, k, project, killed);
      CleanInventoryMeaning(workers, k + 1, project, killed);
    }
  }

  // ----- recovery evidence

  ghost predicate Contiguous(s: seq<int>)
  {
    s != [] && forall i :: 0 <= i < |s| ==> s[i] == s[0] + i
  }

  /** `tuple(range(lo, hi))`. */
  function Range(lo: int, hi: int): (r: seq<int>)
    ensures |r| == if lo < hi then hi - lo else 0
    ensures forall i :: 0 <= i < |r| ==> r[i] == lo + i
    decreases hi - lo
  {
    if lo < hi then Range(lo, hi - 1) + [hi - 1] else []
  }

  lemma ContiguousIsRange(s: seq<int>)
    requires s != []
    ensures s == Range(s[0], s[|s| - 1] + 1) <==> Contiguous(s)
  {
    var r := Range(s[0], s[|s| - 1] + 1);
    if Contiguous(s) {
      assert s[|s| - 1] == s[0] + (|s| - 1);
      assert |r| == |s|;
    }
  }

  ghost predicate RecoveryProven(
    v: RecoveryEvidence, oldWorker: string, oldToken: int, killedId: string, project: string, requireStale: bool)
  {
    && v.leaseEpoch > oldToken
    && CleanInventory(v.survivors, project, Some(killedId))
    && v.ownerWorkerId != oldWorker
    && (exists w :: w in v.survivors && w.containerId != killedId && w.workerId == v.ownerWorkerId)
    && (requireStale ==> v.staleTokenRejected)
    && v.turnCount == 1
    && Contiguous(v.sequences)
  }

  /** Takeover evidence passes exactly when a live survivor owns a newer lease over one contiguous turn. */
  method ValidateRecovery(
    v: RecoveryEvidence, oldWorker: string, oldToken: int, killedId: string, project: string, requireStale: bool)
    returns (r: Outcome<()>)
    ensures r.Ok? <==> RecoveryProven(v, oldWorker, oldToken, killedId, project, requireStale)
  {
    if v.ownerWorkerId == oldWorker {
      return Raised(Acceptance(OwnerIsTerminated));
    }
    if v.leaseEpoch <= oldToken {
      return Raised(Acceptance(EpochNotIncreased));
    }
    var survivors :- ValidateWorkers(v.survivors, project, Some(killedId), 1, false);
    if exists w :: w in survivors && w.containerId == killedId {
      return Raised(Acceptance(TerminatedCounted));
    }
    if !exists w :: w in survivors && w.workerId == v.ownerWorkerId {
      return Raised(Acceptance(OwnerNotASurvivor));
    }
    if requireStale && !v.staleTokenRejected {
      return Raised(NotRun(StaleTokenNotRejected));
    }
    if v.turnCount != 1 {
      return Raised(Acceptance(NotOneTurn));
    }
    if v.sequences == [] {
      return Raised(NotRun(NoSequence));
    }
    ContiguousIsRange(v.sequences);
    var expected := Range(v.sequences[0], v.sequences[|v.sequences| - 1] + 1);
    if v.sequences != expected {
      return Raised(Acceptance(SequenceNotContiguous));
    }
    return Ok(());
  }
}
