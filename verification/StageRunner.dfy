/** The safety state machine of one fault-stage case: guarded kill, release, cleanup, restore. */
module StageRunner {
  import opened Text
  import opened FaultStage
  import opened StageWorld

  const POLL_MIN := 0.5
  const POLL_MAX := 2.0

  /** The pauses before the second, third and fourth cleanup attempt. */
  const CLEANUP_DELAYS := [0.5, 1.0, 2.0]

  datatype Settings = Settings(
    project: string, explicit: string, timeout: real, allowKill: bool,
    scheduler: Scheduler, enqueueCheckpoint: bool, runId: Option<string>)

  /** What the runner's constructor accepts. */
  predicate ValidSettings(s: Settings)
  {
    && IsContainerSelector(s.explicit)
    && 0.0 < s.timeout <= 600.0
    && (s.runId.Some? ==> !Blank(s.runId.value))
  }

  function SchedulerVersion(s: Settings): Outcome<Scheduler>
  {
    if s.scheduler.Unsupported? then Raised(Acceptance(UnsupportedScheduler)) else Ok(s.scheduler)
  }

  // ----- what the record of a case shows

  /** The control row read back with the armed identity and an `entered` marker. */
  ghost predicate EnteredFor(m: Reading, a: Arming)
  {
    && a.armed.Ok? && m.controlId == a.armed.value
    && m.row.Ok? && m.row.value.Some?
    && ControlMatches(m.row.value.value, a.event, a.armed.value)
  }

  /** A look at the explicit container that may be acted upon under the marker's worker id. */
  ghost predicate FreshTarget(l: Look, cfg: Settings, workerId: string)
  {
    && l.id == cfg.explicit && l.seen.Ok?
    && Actionable(l.seen.value, cfg.project, cfg.explicit)
    && l.seen.value.workerId == workerId
  }

  /** The kill directly follows the matching read-back and the fresh look. */
  ghost predicate Justified(kill: Act, cfg: Settings, a: Arming, m: Reading, l: Look)
  {
    && cfg.allowKill && kill.id == cfg.explicit
    && a.tick < m.tick && m.tick + 1 == l.tick && l.tick + 1 == kill.tick
    && EnteredFor(m, a)
    && FreshTarget(l, cfg, a.event.workerId)
  }

  /** The record holds the read-back and the look a kill rests on. */
  ghost predicate KillEvidence(kill: Act, cfg: Settings, a: Arming, readings: seq<Reading>, looks: seq<Look>)
  {
    exists m, l :: m in readings && l in looks && Justified(kill, cfg, a, m, l)
  }

  lemma MoreLooksEvidence(kill: Act, cfg: Settings, a: Arming, readings: seq<Reading>, looks: seq<Look>, more: seq<Look>)
    requires looks <= more && KillEvidence(kill, cfg, a, readings, looks)
    ensures KillEvidence(kill, cfg, a, readings, more)
  {
    var m, l :| m in readings && l in looks && Justified(kill, cfg, a, m, l);
    assert l in more;
  }

  /** The killed container was seen down after its kill and before tick `to`. */
  ghost predicate SeenDead(looks: seq<Look>, cfg: Settings, kill: Act, workerId: string, to: nat)
  {
    exists d :: d in looks && d.tick < to && DownAfter(d, cfg, kill, workerId)
  }

  ghost predicate DownAfter(d: Look, cfg: Settings, kill: Act, workerId: string)
  {
    kill.tick < d.tick && d.id == cfg.explicit && d.seen.Ok? && SeenDown(d.seen.value, cfg.project, d.id, workerId)
  }

  /** The preflight listing and which of its containers the case stopped. */
  datatype Crew = Crew(pool: seq<WorkerContainer>, stopped: seq<string>)

  /** A look at a stopped worker, other than the killed one, that found it back in service under its preflight id. */
  ghost predicate SurvivorUp(l: Look, cfg: Settings, crew: Crew)
  {
    && l.id in crew.stopped && l.id != cfg.explicit
    && exists w :: w in crew.pool && w.containerId == l.id && BackInService(l, cfg.project, l.id, Some(w.workerId))
  }

  /** The answer `v` was received after a survivor, started from tick `from` on, was back in service. */
  ghost predicate Answered(looks: seq<Look>, cfg: Settings, crew: Crew, from: nat, v: Takeover)
  {
    exists l :: l in looks && from <= l.tick < v.tick && SurvivorUp(l, cfg, crew)
  }

  /** The backend answered the question about this worker and token with `evidence`, before tick `to`. */
  ghost predicate Heard(
    looks: seq<Look>, takeovers: seq<Takeover>, cfg: Settings, crew: Crew,
    from: nat, oldWorker: string, oldToken: int, evidence: RecoveryEvidence, to: nat)
  {
    exists v ::
      && v in takeovers && v.tick < to && v.oldWorker == oldWorker && v.oldToken == oldToken && v.answer == Ok(evidence)
      && Answered(looks, cfg, crew, from, v)
  }

  /** The final verification of this evidence returned, at tick `from` or later. */
  ghost predicate Verified(verdicts: seq<Verdict>, evidence: RecoveryEvidence, from: nat)
  {
    exists f :: f in verdicts && f.of == evidence && f.ok && from <= f.tick
  }

  ghost predicate ProvesRecovery(evidence: RecoveryEvidence, cfg: Settings, event: StageEvent, token: int)
  {
    RecoveryProven(evidence, event.workerId, token, cfg.explicit, cfg.project, !event.stage.Enqueue?)
  }

  /** What was heard proves the recovery. */
  ghost predicate Convinced(
    looks: seq<Look>, takeovers: seq<Takeover>, cfg: Settings, crew: Crew,
    from: nat, event: StageEvent, token: int, evidence: RecoveryEvidence, to: nat)
  {
    exists e :: e == evidence && ProvesRecovery(e, cfg, event, token)
                && Heard(looks, takeovers, cfg, crew, from, event.workerId, token, e, to)
  }

  /** The record of a takeover: evidence heard from a survivor, proving the recovery, then finally verified. */
  ghost predicate TakeoverRecorded(
    looks: seq<Look>, takeovers: seq<Takeover>, verdicts: seq<Verdict>, cfg: Settings,
    crew: Crew, from: nat, event: StageEvent, token: int)
  {
    exists evidence, at ::
      Convinced(looks, takeovers, cfg, crew, from, event, token, evidence, at) && Verified(verdicts, evidence, at)
  }

  lemma DeadLater(looks: seq<Look>, cfg: Settings, kill: Act, workerId: string, to: nat, later: nat)
    requires SeenDead(looks, cfg, kill, workerId, to) && to <= later
    ensures SeenDead(looks, cfg, kill, workerId, later)
  {
    var d :| d in looks && d.tick < to && DownAfter(d, cfg, kill, workerId);
    assert d.tick < later;
  }

  lemma MoreLooksDead(looks: seq<Look>, more: seq<Look>, cfg: Settings, kill: Act, workerId: string, to: nat)
    requires looks <= more && SeenDead(looks, cfg, kill, workerId, to)
    ensures SeenDead(more, cfg, kill, workerId, to)
  {
    var d :| d in looks && d.tick < to && DownAfter(d, cfg, kill, workerId);
    assert d in more;
  }

  lemma MoreLooksHeard(
    looks: seq<Look>, more: seq<Look>, takeovers: seq<Takeover>, cfg: Settings, crew: Crew,
    from: nat, earlier: nat, oldWorker: string, oldToken: int, evidence: RecoveryEvidence, to: nat)
    requires looks <= more && earlier <= from
    requires Heard(looks, takeovers, cfg, crew, from, oldWorker, oldToken, evidence, to)
    ensures Heard(more, takeovers, cfg, crew, earlier, oldWorker, oldToken, evidence, to)
  {
    var v :| && v in takeovers && v.tick < to && v.oldWorker == oldWorker && v.oldToken == oldToken
             && v.answer == Ok(evidence) && Answered(looks, cfg, crew, from, v);
    var l :| l in looks && from <= l.tick < v.tick && SurvivorUp(l, cfg, crew);
    assert l in more;
    assert Answered(more, cfg, crew, earlier, v);
  }

  lemma MoreLooksRecorded(
    looks: seq<Look>, more: seq<Look>, takeovers: seq<Takeover>, verdicts: seq<Verdict>, cfg: Settings,
    crew: Crew, from: nat, event: StageEvent, token: int)
    requires looks <= more && TakeoverRecorded(looks, takeovers, verdicts, cfg, crew, from, event, token)
    ensures TakeoverRecorded(more, takeovers, verdicts, cfg, crew, from, event, token)
  {
    var evidence, at :|
      Convinced(looks, takeovers, cfg, crew, from, event, token, evidence, at) && Verified(verdicts, evidence, at);
    MoreLooksHeard(looks, more, takeovers, cfg, crew, from, from, event.workerId, token, evidence, at);
  }

  predicate RestoreIdentity(w: WorkerContainer, project: string, id: string, expected: Option<string>)
  {
    && w.containerId == id
    && w.project == project && w.service.WorkerService?
    && (expected.Some? && expected.value != "" ==> w.workerId == expected.value)
  }

  /** A look that found the container under its expected identity. */
  ghost predicate Recognised(l: Look, project: string, id: string, expected: Option<string>)
  {
    l.id == id && l.seen.Ok? && RestoreIdentity(l.seen.value, project, id, expected)
  }

  /** A look that shows a container to be started: the expected one, not running. */
  ghost predicate Startable(l: Look, project: string, id: string, expected: Option<string>)
  {
    Recognised(l, project, id, expected) && !l.seen.value.status.Running?
  }

  /** Exited or dead, under the identity that was killed. */
  predicate SeenDown(w: WorkerContainer, project: string, id: string, workerId: string)
  {
    (w.status.Exited? || w.status.Dead?) && RestoreIdentity(w, project, id, Some(workerId))
  }

  ghost predicate ShowsDown(l: Look, project: string, id: string, workerId: string)
  {
    l.seen.Ok? && SeenDown(l.seen.value, project, id, workerId)
  }

  predicate Serving(w: WorkerContainer)
  {
    w.status.Running? && w.health.Healthy?
  }

  /** A look at `id` that found it back in service under its expected identity. */
  ghost predicate BackInService(l: Look, project: string, id: string, expected: Option<string>)
  {
    && l.id == id && l.seen.Ok?
    && RestoreIdentity(l.seen.value, project, id, expected)
    && Serving(l.seen.value)
  }

  /** Records added from place `n` on name only this container. */
  ghost predicate LooksAt(looks: seq<Look>, n: nat, id: string, from: nat, to: nat)
  {
    forall i :: n <= i < |looks| ==> looks[i].id == id && from <= looks[i].tick < to
  }

  ghost predicate ActsOn(acts: seq<Act>, n: nat, id: string, from: nat, to: nat)
  {
    forall i :: n <= i < |acts| ==> acts[i].id == id && from <= acts[i].tick < to
  }

  /** No act recorded from place `n` on is on the excluded container. */
  ghost predicate Spares(acts: seq<Act>, n: nat, exclude: Option<string>)
  {
    forall i :: n <= i < |acts| ==> Some(acts[i].id) != exclude
  }

  /** Sleeps recorded from place `n` on start no earlier than `start` and are meant to end by the deadline. */
  ghost predicate NapsWithin(naps: seq<Nap>, n: nat, start: real, deadline: real)
  {
    forall i :: n <= i < |naps| ==> start <= naps[i].from && naps[i].from + naps[i].seconds <= deadline
  }

  /** The pauses of one wait double up to two seconds; only the last may be cut short by the deadline. */
  ghost predicate NapsPaced(naps: seq<Nap>, n: nat, done: bool)
  {
    forall i :: n <= i < |naps| ==>
      && 0.0 < naps[i].seconds <= PollDelay(i - n)
      && (!done || i < |naps| - 1 ==> naps[i].seconds == PollDelay(i - n))
  }

  /** The preflight pool: distinct identified containers. */
  ghost predicate DistinctPool(workers: seq<WorkerContainer>)
  {
    && (forall i :: 0 <= i < |workers| ==> !Blank(workers[i].workerId))
    && (forall i, j :: 0 <= i < j < |workers| ==> workers[i].containerId != workers[j].containerId)
  }

  ghost predicate InPool(workers: seq<WorkerContainer>, id: string)
  {
    exists i :: 0 <= i < |workers| && workers[i].containerId == id
  }

  /** How often the listing names container `id`. */
  function Listings(workers: seq<WorkerContainer>, id: string): (n: nat)
    ensures n > 0 <==> InPool(workers, id)
  {
    if workers == [] then 0
    else Listings(workers[1..], id) + if workers[0].containerId == id then 1 else 0
  }

  /** In a pool of distinct containers each is listed at most once. */
  lemma {:induction false} ListedOnce(workers: seq<WorkerContainer>, id: string)
    requires DistinctPool(workers)
    ensures Listings(workers, id) == 1 <==> InPool(workers, id)
  {
    if workers != [] {
      ListedOnce(workers[1..], id);
      if workers[0].containerId == id {
        assert forall i :: 0 < i < |workers| ==> workers[i].containerId != id;
      }
    }
  }

  lemma InNone(workers: seq<WorkerContainer>, id: string)
    ensures workers == [] ==> !InPool(workers, id)
  {
  }

  /** The worker id the preflight listing gives container `id`. */
  function PreflightWorkerId(workers: seq<WorkerContainer>, id: string): Option<string>
  {
    if workers == [] then None
    else if workers[0].containerId == id then Some(workers[0].workerId)
    else PreflightWorkerId(workers[1..], id)
  }

  lemma {:induction false} PreflightListed(workers: seq<WorkerContainer>, id: string)
    requires InPool(workers, id)
    ensures PreflightWorkerId(workers, id).Some?
    ensures exists i :: 0 <= i < |workers| && workers[i].containerId == id
                        && workers[i].workerId == PreflightWorkerId(workers, id).value
  {
    if workers[0].containerId != id {
      var i :| 0 <= i < |workers| && workers[i].containerId == id;
      assert workers[1..][i - 1] == workers[i];
      PreflightListed(workers[1..], id);
      var j :| 0 <= j < |workers| - 1 && workers[1..][j].containerId == id
               && workers[1..][j].workerId == PreflightWorkerId(workers, id).value;
      assert workers[j + 1] == workers[1..][j];
    }
  }

  // ----- evidence requirements

  function RequireAcceptance(a: AcceptanceEvidence, ident: CaseIdentity, cfg: Settings): (r: Outcome<CaseIdentity>)
    ensures r.Ok? ==> !Blank(a.inboundId) && !Blank(a.streamId)
    ensures r.Ok? ==> r.value == ident.(inboundId := a.inboundId, sessionId := r.value.sessionId)
    ensures r.Ok? && cfg.scheduler.V2? ==>
      !BlankOption(a.outboxId) && !BlankOption(a.sessionId) && r.value.sessionId == a.sessionId.value
  {
    if Blank(a.inboundId) then Raised(NotRun(InboundMissing))
    else if Blank(a.streamId) then Raised(NotRun(StreamMissing))
    else if cfg.scheduler.Unsupported? then Raised(Acceptance(UnsupportedScheduler))
    else if cfg.scheduler.V2? && BlankOption(a.sessionId) then Raised(NotRun(SessionMissing))
    else if cfg.scheduler.V2? && BlankOption(a.outboxId) then Raised(NotRun(OutboxMissing))
    else if cfg.scheduler.V2? && (a.generation.None? || a.generation.value < 1) then Raised(NotRun(GenerationMissing))
    else
      var session := if a.sessionId.Some? && a.sessionId.value != "" then a.sessionId.value else ident.sessionId;
      Ok(ident.(sessionId := session, inboundId := a.inboundId))
  }

  predicate ProcessingSuffices(p: ProcessingEvidence, ident: CaseIdentity, cfg: Settings)
  {
    && p.inboundId == ident.inboundId && p.sessionId == ident.sessionId
    && !Blank(p.turnId) && p.fencingToken >= 1
    && (cfg.scheduler.V2? ==> p.acknowledged)
  }

  function RequireProcessing(p: ProcessingEvidence, ident: CaseIdentity, cfg: Settings): (r: Outcome<()>)
    ensures r.Ok? <==> ProcessingSuffices(p, ident, cfg)
  {
    if p.inboundId != ident.inboundId then Raised(NotRun(OtherInbound))
    else if p.sessionId != ident.sessionId then Raised(NotRun(OtherSession))
    else if Blank(p.turnId) || p.fencingToken < 1 then Raised(NotRun(NoTurnIdentity))
    else if cfg.scheduler.V2? && !p.acknowledged then Raised(NotRun(NotAcknowledgedBeforeExecution))
    else Ok(())
  }

  /** The turn the last processing observation answered with. */
  ghost function LastTurn(ps: seq<Processing>): Option<ProcessingEvidence>
  {
    if ps == [] || ps[|ps| - 1].answer.Raised? then None else Some(ps[|ps| - 1].answer.value)
  }

  /** The fencing token a takeover must exceed: that of the observed turn, none for the enqueue case. */
  ghost function OldToken(stage: Stage, ps: seq<Processing>): int
  {
    if stage.Enqueue? || LastTurn(ps).None? then 0 else LastTurn(ps).value.fencingToken
  }

  /** The evidence trail a case leaves: to the arming, at the marker, and after the kill. */
  function TrailToArming(stage: Stage, v2: bool): seq<MarkerName>
  {
    [PreflightWorkersVerified, AcceptancePersisted]
    + (if stage.Enqueue? then [] else [TurnProcessingObserved] + if v2 then [V2AckBeforeExecute] else [])
    + [ControlArmed]
  }

  function MarkerTrail(stage: Stage, v2: bool): seq<MarkerName>
  {
    if stage.Enqueue? && v2 then [MarkerEntered, V2ClaimBeforeObserved] else [MarkerEntered]
  }

  function TrailToMarker(stage: Stage, v2: bool): seq<MarkerName>
  {
    TrailToArming(stage, v2) + MarkerTrail(stage, v2)
  }

  function TakeoverTrail(stage: Stage): seq<MarkerName>
  {
    [WorkerSurvivorsObserved] + (if stage.Enqueue? then [] else [StaleTokenRejectionVerified]) + [TurnSingleContiguousVerified]
  }

  function FinalTrail(stage: Stage): seq<MarkerName>
  {
    [TurnCommitVerified, OutboundIntentVerified] + if stage.Tool? then [ToolIdempotentExecutionVerified] else []
  }

  function TrailFromKill(stage: Stage): seq<MarkerName>
  {
    [WorkerTerminated] + TakeoverTrail(stage) + FinalTrail(stage)
  }

  function Trail(stage: Stage, v2: bool): seq<MarkerName>
  {
    TrailToMarker(stage, v2) + TrailFromKill(stage)
  }

  /** The markers carry exactly these names, in order, all passing and time-stamped. */
  ghost predicate Leaves(markers: seq<Marker>, names: seq<MarkerName>)
  {
    && |markers| == |names|
    && forall i :: 0 <= i < |markers| ==>
         markers[i].name == names[i] && markers[i].status.Pass? && !Blank(markers[i].observedAt)
  }

  /** Identifiers that are never blank, for the configured run if there is one. */
  predicate IdentifiedBy(c: CaseIdentity, cfg: Settings)
  {
    && !Blank(c.caseId) && !Blank(c.tenantId) && !Blank(c.messageId) && !Blank(c.runId)
    && (cfg.runId.Some? ==> c.runId == cfg.runId.value)
  }

  /** What a passing case carries: its full trail, its identity, its control and the killed container. */
  ghost predicate PassingCase(r: StageResult, cfg: Settings)
  {
    && Leaves(r.markers, Trail(r.stage, cfg.scheduler.V2?))
    && IdentifiedBy(r.ident, cfg)
    && (cfg.scheduler.V2? ==> !Blank(r.ident.inboundId) && !Blank(r.ident.sessionId))
    && r.controlId.Some?
    && r.killedContainerId == Some(cfg.explicit)
  }

  predicate Distinct(stages: seq<Stage>)
  {
    forall i, j :: 0 <= i < j < |stages| ==> stages[i] != stages[j]
  }

  lemma CleanPool(workers: seq<WorkerContainer>, project: string)
    requires CleanInventory(workers, project, None)
    ensures DistinctPool(workers)
    ensures forall w :: w in workers ==> w.project == project && w.service.WorkerService? && RunningHealthy(w)
    ensures forall w :: w in workers ==> !Blank(w.workerId)
  {
    CleanInventoryMeaning(workers, 0, project, None);
    forall i, j | 0 <= i < j < |workers|
      ensures workers[i].containerId != workers[j].containerId
    {
      assert SoundAt(workers, j, project, None);
      assert !Twin(workers[i], workers[j]);
    }
    forall i | 0 <= i < |workers|
      ensures workers[i].project == project && workers[i].service.WorkerService?
      ensures RunningHealthy(workers[i]) && !Blank(workers[i].workerId)
    {
      assert SoundAt(workers, i, project, None);
    }
  }

  predicate DistinctIds(ids: seq<string>)
  {
    forall i, j :: 0 <= i < j < |ids| ==> ids[i] != ids[j]
  }

  ghost predicate StopReturned(stops: seq<Act>, id: string)
  {
    exists a :: a in stops && a.id == id && a.ok
  }

  /** The stops that returned are exactly those remembered, and all are of pool members. */
  ghost predicate StopsKept(stoppedIds: seq<string>, workersBefore: seq<WorkerContainer>, stops: seq<Act>)
  {
    && DistinctPool(workersBefore)
    && DistinctIds(stoppedIds)
    && (forall i :: 0 <= i < |stops| && stops[i].ok ==> stops[i].id in stoppedIds)
    && (forall id :: id in stoppedIds ==> InPool(workersBefore, id) && StopReturned(stops, id))
  }

  /** The preflight pool, once there is one, is what a listing answered. */
  ghost predicate PoolListed(pool: seq<WorkerContainer>, listings: seq<Listing>)
  {
    pool == [] || exists g :: g in listings && g.workers == Ok(pool)
  }

  ghost predicate ArmedWith(event: StageEvent, controlId: Option<string>, arms: seq<Arming>, tick: nat)
  {
    && controlId.Some? && |arms| == 1
    && arms[0].event == event && arms[0].armed == Ok(controlId.value)
    && arms[0].tick < tick
  }

  /** The runner's control is the one armed, if any. */
  ghost predicate ControlIsArmed(controlId: Option<string>, arms: seq<Arming>)
  {
    |arms| <= 1 && controlId == if arms == [] || arms[0].armed.Raised? then None else Some(arms[0].armed.value)
  }

  ghost predicate ControlKept(controlId: Option<string>, arms: seq<Arming>, tick: nat)
  {
    ControlIsArmed(controlId, arms) && (arms != [] ==> arms[0].tick < tick)
  }

  /** The runner remembers the container it killed, if its kill returned. */
  ghost predicate KillRemembered(cfg: Settings, killedId: Option<string>, kills: seq<Act>)
  {
    killedId == if kills != [] && kills[0].ok then Some(cfg.explicit) else None
  }

  /** At most one kill, and the evidence it rests on. */
  ghost predicate KillKept(cfg: Settings, killedId: Option<string>, kills: seq<Act>, arms: seq<Arming>, readings: seq<Reading>, looks: seq<Look>)
  {
    && |kills| <= 1 && KillRemembered(cfg, killedId, kills)
    && (kills != [] ==>
          arms != [] && KillEvidence(kills[0], cfg, arms[0], readings, looks))
  }

  lemma KillStillKept(
    cfg: Settings, killedId: Option<string>, kills: seq<Act>, arms: seq<Arming>, readings: seq<Reading>,
    looks: seq<Look>, more: seq<Look>)
    requires KillKept(cfg, killedId, kills, arms, readings, looks) && looks <= more
    ensures KillKept(cfg, killedId, kills, arms, readings, more)
  {
    if kills != [] {
      MoreLooksEvidence(kills[0], cfg, arms[0], readings, looks, more);
    }
  }

  /** The explicit container has not been started since its kill. */
  ghost predicate DownSinceKill(cfg: Settings, kills: seq<Act>, starts: seq<Act>, tick: nat)
  {
    kills != [] ==>
      && kills[0].tick < tick
      && forall i :: 0 <= i < |starts| && starts[i].id == cfg.explicit ==>
           starts[i].tick < kills[0].tick
  }

  /** The recorded release attempts: at most one inside the try block, for the armed control. */
  ghost predicate ReleaseKept(controlId: Option<string>, controlReleased: bool, releases: seq<Releasing>, arms: seq<Arming>)
  {
    && |releases| <= 1
    && (releases != [] ==>
          && controlId.Some? && controlId.value != "" && arms != []
          && releases[0].controlId == controlId.value
          && arms[0].tick < releases[0].tick)
    && (controlReleased <==> releases != [] && releases[0].released == Ok(true))
  }

  ghost predicate ReleasedBy(releases: seq<Releasing>, tick: nat)
  {
    forall i :: 0 <= i < |releases| ==> releases[i].tick < tick
  }

  ghost predicate Identified(pool: seq<WorkerContainer>, id: string)
  {
    var w := PreflightWorkerId(pool, id);
    w.Some? && w.value != ""
  }

  /** Starts recorded from place `n` on are of stopped workers other than the explicit one. */
  ghost predicate OnlySurvivors(cfg: Settings, stopped: seq<string>, starts: seq<Act>, n: nat)
  {
    forall i :: n <= i < |starts| ==> starts[i].id in stopped && starts[i].id != cfg.explicit
  }

  /** A stop of this container returned before tick `to`. */
  ghost predicate StoppedBefore(stops: seq<Act>, id: string, to: nat)
  {
    exists a :: a in stops && a.id == id && a.ok && a.tick < to
  }

  /** Every preflight worker but the excluded one was stopped before tick `to`. */
  ghost predicate AllStoppedBut(pool: seq<WorkerContainer>, stops: seq<Act>, exclude: Option<string>, to: nat)
  {
    forall i :: 0 <= i < |pool| && Some(pool[i].containerId) != exclude ==> StoppedBefore(stops, pool[i].containerId, to)
  }

  /** A control is armed only once every preflight worker but the excluded one is stopped. */
  ghost predicate ArmedAlone(pool: seq<WorkerContainer>, stops: seq<Act>, exclude: Option<string>, arms: seq<Arming>)
  {
    arms != [] ==> AllStoppedBut(pool, stops, exclude, arms[0].tick)
  }

  lemma StoppedLater(stops: seq<Act>, more: seq<Act>, id: string, to: nat, later: nat)
    requires StoppedBefore(stops, id, to) && stops <= more && to <= later
    ensures StoppedBefore(more, id, later)
  {
    var a :| a in stops && a.id == id && a.ok && a.tick < to;
    assert a in more && a.tick < later;
  }

  lemma NextStopped(
    pool: seq<WorkerContainer>, i: nat, before: seq<Act>, now: seq<Act>, exclude: Option<string>, at: nat, later: nat)
    requires i < |pool| && AllStoppedBut(pool[..i], before, exclude, at) && at < later
    requires now == before + [Act(at, pool[i].containerId, true)]
    ensures AllStoppedBut(pool[..i + 1], now, exclude, later)
  {
    assert now[|before|] in now && StoppedBefore(now, pool[i].containerId, later);
    forall j | 0 <= j < i && Some(pool[j].containerId) != exclude
      ensures StoppedBefore(now, pool[j].containerId, later)
    {
      assert pool[..i][j] == pool[j];
      StoppedLater(before, now, pool[j].containerId, at, later);
    }
  }

  /** All of these are among the first `i` of the pool. */
  ghost predicate AmongFirst(ids: seq<string>, pool: seq<WorkerContainer>, i: nat)
    requires i <= |pool|
  {
    forall id :: id in ids ==> InPool(pool[..i], id)
  }

  lemma AmongMore(ids: seq<string>, pool: seq<WorkerContainer>, i: nat)
    requires i < |pool| && AmongFirst(ids, pool, i)
    ensures AmongFirst(ids, pool, i + 1) && InPool(pool[..i + 1], pool[i].containerId)
  {
    assert pool[..i + 1][i] == pool[i];
    forall id | id in ids
      ensures InPool(pool[..i + 1], id)
    {
      var j :| 0 <= j < i && pool[..i][j].containerId == id;
      assert pool[..i + 1][j] == pool[..i][j];
    }
  }

  /** Remembering the stop of the next pool member that returned. */
  lemma StopAdded(ids: seq<string>, pool: seq<WorkerContainer>, i: nat, before: seq<Act>, now: seq<Act>, at: nat)
    requires i < |pool| && StopsKept(ids, pool, before) && AmongFirst(ids, pool, i)
    requires now == before + [Act(at, pool[i].containerId, true)]
    ensures StopsKept(ids + [pool[i].containerId], pool, now)
    ensures AmongFirst(ids + [pool[i].containerId], pool, i + 1)
  {
    var next := pool[i].containerId;
    AmongMore(ids, pool, i);
    assert now[|before|] in now && InPool(pool, next);
    forall id | id in ids
      ensures StopReturned(now, id)
    {
      var a :| a in before && a.id == id && a.ok;
      assert a in now;
    }
  }

  lemma StopRaised(ids: seq<string>, pool: seq<WorkerContainer>, before: seq<Act>, now: seq<Act>, act: Act)
    requires StopsKept(ids, pool, before) && now == before + [act] && !act.ok
    ensures StopsKept(ids, pool, now)
  {
    forall id | id in ids
      ensures StopReturned(now, id)
    {
      var a :| a in before && a.id == id && a.ok;
      assert a in now;
    }
  }

  lemma StartOfPool(pool: seq<WorkerContainer>, stops: seq<Act>, exclude: Option<string>, to: nat)
    ensures AllStoppedBut(pool[..0], stops, exclude, to) && AmongFirst([], pool, 0)
  {
  }

  lemma NextSpared(pool: seq<WorkerContainer>, i: nat, stops: seq<Act>, exclude: Option<string>, to: nat)
    requires i < |pool| && AllStoppedBut(pool[..i], stops, exclude, to) && Some(pool[i].containerId) == exclude
    ensures AllStoppedBut(pool[..i + 1], stops, exclude, to)
  {
    forall j | 0 <= j < i && Some(pool[j].containerId) != exclude
      ensures StoppedBefore(stops, pool[j].containerId, to)
    {
      assert pool[..i][j] == pool[j];
    }
  }

  lemma AlreadyStopped(pool: seq<WorkerContainer>, stops: seq<Act>, exclude: Option<string>, to: nat, arms: seq<Arming>)
    requires AllStoppedBut(pool, stops, exclude, to) && (arms != [] ==> to <= arms[0].tick)
    ensures ArmedAlone(pool, stops, exclude, arms)
  {
    if arms != [] {
      forall i | 0 <= i < |pool| && Some(pool[i].containerId) != exclude
        ensures StoppedBefore(stops, pool[i].containerId, arms[0].tick)
      {
        StoppedLater(stops, stops, pool[i].containerId, to, arms[0].tick);
      }
    }
  }

  /** What a pass rests on: the killed container seen down, then a proven and verified takeover by a survivor. */
  ghost predicate Proven(
    cfg: Settings, stage: Stage, crew: Crew, kills: seq<Act>, arms: seq<Arming>, turns: seq<Processing>,
    looks: seq<Look>, takeovers: seq<Takeover>, verdicts: seq<Verdict>)
  {
    && kills != [] && arms != [] && arms[0].event.stage == stage
    && exists from ::
         && SeenDead(looks, cfg, kills[0], arms[0].event.workerId, from)
         && TakeoverRecorded(looks, takeovers, verdicts, cfg, crew, from, arms[0].event, OldToken(stage, turns))
  }

  /** A look that shows the container under this worker id, if that is not empty. */
  ghost predicate Shows(l: Look, cfg: Settings, id: string, workerId: string)
  {
    && l.id == id && l.seen.Ok? && l.seen.value.containerId == id
    && l.seen.value.project == cfg.project && l.seen.value.service.WorkerService?
    && (workerId != "" ==> l.seen.value.workerId == workerId)
  }

  /** Evidence that another worker than the killed one owns the turn, under a newer lease and once only. */
  ghost predicate TakenOver(v: RecoveryEvidence, cfg: Settings, event: StageEvent, token: int)
  {
    && v.ownerWorkerId != event.workerId && v.leaseEpoch > token && v.turnCount == 1
    && (exists w :: w in v.survivors && w.workerId == v.ownerWorkerId && w.containerId != cfg.explicit)
    && (!event.stage.Enqueue? ==> v.staleTokenRejected)
  }

  /** The story of a proven case, record by record and in this order. */
  ghost predicate Story(
    cfg: Settings, crew: Crew, kill: Act, event: StageEvent, token: int,
    dead: Look, w: WorkerContainer, up: Look, v: Takeover, f: Verdict)
  {
    && kill.tick < dead.tick < up.tick < v.tick < f.tick
    && Shows(dead, cfg, cfg.explicit, event.workerId) && (dead.seen.value.status.Exited? || dead.seen.value.status.Dead?)
    && w in crew.pool && w.containerId in crew.stopped && w.containerId != cfg.explicit
    && Shows(up, cfg, w.containerId, w.workerId) && up.seen.value.status.Running? && up.seen.value.health.Healthy?
    && v.oldWorker == event.workerId && v.oldToken == token
    && v.answer.Ok? && TakenOver(v.answer.value, cfg, event, token)
    && f.ok && f.of == v.answer.value
  }

  lemma RecoveryMeans(v: RecoveryEvidence, cfg: Settings, event: StageEvent, token: int)
    requires ProvesRecovery(v, cfg, event, token)
    ensures TakenOver(v, cfg, event, token)
  {
  }

  lemma DeadShown(looks: seq<Look>, cfg: Settings, kill: Act, workerId: string, to: nat) returns (dead: Look)
    requires SeenDead(looks, cfg, kill, workerId, to)
    ensures dead in looks && kill.tick < dead.tick < to && Shows(dead, cfg, cfg.explicit, workerId)
    ensures dead.seen.value.status.Exited? || dead.seen.value.status.Dead?
  {
    dead :| dead in looks && dead.tick < to && DownAfter(dead, cfg, kill, workerId);
  }

  lemma SurvivorShown(looks: seq<Look>, cfg: Settings, crew: Crew, from: nat, v: Takeover) returns (w: WorkerContainer, up: Look)
    requires Answered(looks, cfg, crew, from, v)
    ensures up in looks && from <= up.tick < v.tick
    ensures w in crew.pool && w.containerId in crew.stopped && w.containerId != cfg.explicit
    ensures Shows(up, cfg, w.containerId, w.workerId) && up.seen.value.status.Running? && up.seen.value.health.Healthy?
  {
    up :| up in looks && from <= up.tick < v.tick && SurvivorUp(up, cfg, crew);
    w :| w in crew.pool && w.containerId == up.id && BackInService(up, cfg.project, up.id, Some(w.workerId));
  }

  /** What a proven case means, in terms of the record alone. */
  lemma ProvenMeans(
    cfg: Settings, stage: Stage, crew: Crew, kills: seq<Act>, arms: seq<Arming>, turns: seq<Processing>,
    looks: seq<Look>, takeovers: seq<Takeover>, verdicts: seq<Verdict>)
    requires Proven(cfg, stage, crew, kills, arms, turns, looks, takeovers, verdicts)
    ensures exists dead, w, up, v, f ::
      && dead in looks && up in looks && v in takeovers && f in verdicts
      && Story(cfg, crew, kills[0], arms[0].event, OldToken(stage, turns), dead, w, up, v, f)
  {
    hide ProvesRecovery, Shows, TakenOver, Answered, SeenDead, OldToken;
    var event, token := arms[0].event, OldToken(stage, turns);
    var from: nat :|
      && SeenDead(looks, cfg, kills[0], event.workerId, from)
      && TakeoverRecorded(looks, takeovers, verdicts, cfg, crew, from, event, token);
    var dead := DeadShown(looks, cfg, kills[0], event.workerId, from);
    var evidence, at: nat :|
      Convinced(looks, takeovers, cfg, crew, from, event, token, evidence, at) && Verified(verdicts, evidence, at);
    var f :| f in verdicts && f.of == evidence && f.ok && at <= f.tick;
    var v :| && v in takeovers && v.tick < at && v.oldWorker == event.workerId && v.oldToken == token
             && v.answer == Ok(evidence) && Answered(looks, cfg, crew, from, v);
    var w, up := SurvivorShown(looks, cfg, crew, from, v);
    RecoveryMeans(evidence, cfg, event, token);
    assert Story(cfg, crew, kills[0], event, token, dead, w, up, v, f);
  }

  lemma ProofStands(
    cfg: Settings, stage: Stage, crew: Crew, kills: seq<Act>, arms: seq<Arming>, turns: seq<Processing>,
    looks: seq<Look>, takeovers: seq<Takeover>, verdicts: seq<Verdict>, more: seq<Look>)
    requires Proven(cfg, stage, crew, kills, arms, turns, looks, takeovers, verdicts) && looks <= more
    ensures Proven(cfg, stage, crew, kills, arms, turns, more, takeovers, verdicts)
  {
    var from :|
      && SeenDead(looks, cfg, kills[0], arms[0].event.workerId, from)
      && TakeoverRecorded(looks, takeovers, verdicts, cfg, crew, from, arms[0].event, OldToken(stage, turns));
    MoreLooksDead(looks, more, cfg, kills[0], arms[0].event.workerId, from);
    MoreLooksRecorded(looks, more, takeovers, verdicts, cfg, crew, from, arms[0].event, OldToken(stage, turns));
  }

  /** Evidence heard after the killed container was seen down, and convincing. */
  ghost predicate Convincing(
    cfg: Settings, stage: Stage, crew: Crew, kills: seq<Act>, arms: seq<Arming>, turns: seq<Processing>,
    looks: seq<Look>, takeovers: seq<Takeover>, evidence: RecoveryEvidence, to: nat)
  {
    && kills != [] && arms != [] && arms[0].event.stage == stage
    && exists from ::
         && SeenDead(looks, cfg, kills[0], arms[0].event.workerId, from)
         && Convinced(looks, takeovers, cfg, crew, from, arms[0].event, OldToken(stage, turns), evidence, to)
  }

  lemma NothingStopped(pool: seq<WorkerContainer>, exclude: Option<string>, tick: nat)
    requires DistinctPool(pool)
    ensures StopsKept([], pool, []) && ArmedAlone(pool, [], exclude, []) && ControlKept(None, [], tick)
  {
  }

  lemma NothingKilled(
    cfg: Settings, controlId: Option<string>, arms: seq<Arming>, readings: seq<Reading>, looks: seq<Look>, starts: seq<Act>, tick: nat)
    ensures KillKept(cfg, None, [], arms, readings, looks) && DownSinceKill(cfg, [], starts, tick)
    ensures ReleaseKept(controlId, false, [], arms) && ReleasedBy([], tick)
  {
  }

  lemma PoolIsKnown(pool: seq<WorkerContainer>, id: string)
    requires DistinctPool(pool) && InPool(pool, id)
    ensures Identified(pool, id)
  {
    PreflightListed(pool, id);
  }

  predicate Survives(w: WorkerContainer, cfg: Settings, crew: Crew)
  {
    w.containerId != cfg.explicit && w.containerId in crew.stopped
  }

  /** The first `n` of the pool hold a survivor. */
  ghost predicate Remaining(cfg: Settings, crew: Crew, n: nat)
    requires n <= |crew.pool|
  {
    exists i :: 0 <= i < n && Survives(crew.pool[i], cfg, crew)
  }

  /** The worker was seen in service and the answer right after that saw no takeover. */
  ghost predicate Silent(looks: seq<Look>, takeovers: seq<Takeover>, cfg: Settings, w: WorkerContainer)
  {
    exists l, v ::
      && l in looks && v in takeovers && l.tick + 1 == v.tick
      && BackInService(l, cfg.project, w.containerId, Some(w.workerId)) && v.answer == Raised(NotRun(TakeoverNotObserved))
  }

  /** So it was with every survivor among the first `n` of the pool. */
  ghost predicate AllSilent(looks: seq<Look>, takeovers: seq<Takeover>, cfg: Settings, crew: Crew, n: nat)
    requires n <= |crew.pool|
  {
    forall i :: 0 <= i < n && Survives(crew.pool[i], cfg, crew) ==> Silent(looks, takeovers, cfg, crew.pool[i])
  }

  /** Another answer than silence ends the rotation: a timeout as no takeover, anything else as it is. */
  ghost predicate AnswerEnds(takeovers: seq<Takeover>, n: nat, f: Fault)
  {
    && n < |takeovers| && takeovers[|takeovers| - 1].answer.Raised?
    && var answer := takeovers[|takeovers| - 1].answer.fault;
       answer != NotRun(TakeoverNotObserved) && f == if answer.Timeout? then NotRun(NoTakeoverFromSurvivors) else answer
  }

  /** So does a survivor that was looked at and never asked. */
  ghost predicate StartEnds(looks: seq<Look>, takeovers: seq<Takeover>, n: nat, cfg: Settings, crew: Crew)
  {
    && looks != [] && (exists w :: w in crew.pool && Survives(w, cfg, crew) && looks[|looks| - 1].id == w.containerId)
    && forall k :: n <= k < |takeovers| ==> takeovers[k].tick < looks[|looks| - 1].tick
  }

  lemma SilentStill(
    looks: seq<Look>, takeovers: seq<Takeover>, more: seq<Look>, later: seq<Takeover>, cfg: Settings, crew: Crew, n: nat)
    requires n <= |crew.pool| && looks <= more && takeovers <= later && AllSilent(looks, takeovers, cfg, crew, n)
    ensures AllSilent(more, later, cfg, crew, n)
  {
    forall i | 0 <= i < n && Survives(crew.pool[i], cfg, crew)
      ensures Silent(more, later, cfg, crew.pool[i])
    {
      var w := crew.pool[i];
      assert Silent(looks, takeovers, cfg, w);
      var l, v :|
        && l in looks && v in takeovers && l.tick + 1 == v.tick
        && BackInService(l, cfg.project, w.containerId, Some(w.workerId)) && v.answer == Raised(NotRun(TakeoverNotObserved));
      assert l in more && v in later;
    }
  }

  lemma NoneAsked(looks: seq<Look>, takeovers: seq<Takeover>, cfg: Settings, crew: Crew)
    ensures AllSilent(looks, takeovers, cfg, crew, 0)
  {
  }

  lemma SilentNow(looks: seq<Look>, takeovers: seq<Takeover>, cfg: Settings, w: WorkerContainer)
    requires looks != [] && takeovers != []
    requires BackInService(looks[|looks| - 1], cfg.project, w.containerId, Some(w.workerId))
    requires looks[|looks| - 1].tick + 1 == takeovers[|takeovers| - 1].tick
    requires takeovers[|takeovers| - 1].answer == Raised(NotRun(TakeoverNotObserved))
    ensures Silent(looks, takeovers, cfg, w)
  {
    assert looks[|looks| - 1] in looks && takeovers[|takeovers| - 1] in takeovers;
  }

  /** Answers recorded from place `n` on came before tick `to`. */
  ghost predicate TakenBefore(takeovers: seq<Takeover>, n: nat, to: nat)
  {
    forall k :: n <= k < |takeovers| ==> takeovers[k].tick < to
  }

  lemma SilentNext(
    looks: seq<Look>, takeovers: seq<Takeover>, more: seq<Look>, later: seq<Takeover>, cfg: Settings, crew: Crew, n: nat)
    requires n < |crew.pool| && looks <= more && takeovers <= later && AllSilent(looks, takeovers, cfg, crew, n)
    requires Survives(crew.pool[n], cfg, crew) ==> Silent(more, later, cfg, crew.pool[n])
    ensures AllSilent(more, later, cfg, crew, n + 1)
  {
    SilentStill(looks, takeovers, more, later, cfg, crew, n);
  }

  /** What became of one survivor: its start failed, or the recovery observer answered. */
  datatype Asked = NotStarted(fault: Fault) | Observed(answer: Outcome<RecoveryEvidence>)

  // ----- why a step fails

  /** The fault of a look that did not show the expected container. */
  ghost function LookFault(l: Look): Fault
  {
    if l.seen.Raised? then l.seen.fault else Acceptance(IdentityChanged)
  }

  /** A wait fails on a look that does not show the expected container, or with its own reason once time is up. */
  ghost predicate WaitFailed(
    looks: seq<Look>, n: nat, f: Fault, project: string, id: string, expected: Option<string>, late: Reason, timeUp: bool)
  {
    || (n < |looks| && !Recognised(looks[|looks| - 1], project, id, expected) && f == LookFault(looks[|looks| - 1]))
    || (f == NotRun(late) && timeUp)
  }

  /** What the enqueue case asks of the settings. */
  predicate EnqueueReady(cfg: Settings, stage: Stage)
  {
    stage.Enqueue? ==> !cfg.scheduler.Unsupported? && (cfg.scheduler.V2? ==> cfg.enqueueCheckpoint)
  }

  /** What preflight passes on: the case is set up, and the explicit container is an actionable member of a clean pool. */
  ghost predicate PreflightPasses(
    cfg: Settings, stage: Stage, setups: seq<Outcome<()>>, looks: seq<Look>, listings: seq<Listing>)
  {
    && EnqueueReady(cfg, stage) && setups == [Ok(())]
    && |looks| == 1 && looks[0].id == cfg.explicit && looks[0].seen.Ok? && Actionable(looks[0].seen.value, cfg.project, cfg.explicit)
    && listings != [] && TargetListed(cfg, listings[|listings| - 1].workers)
  }

  /** The fault preflight ends with, where the record tells it. */
  ghost predicate PreflightFault(
    cfg: Settings, stage: Stage, setups: seq<Outcome<()>>, looks: seq<Look>, listings: seq<Listing>, f: Fault)
  {
    if !EnqueueReady(cfg, stage) then
      f == if cfg.scheduler.Unsupported? then Acceptance(UnsupportedScheduler) else NotRun(EnqueueCheckpointMissing)
    else if setups != [] && setups[0].Raised? then f == setups[0].fault
    else if looks != [] && looks[0].seen.Raised? then f == looks[0].seen.fault
    else if looks != [] && !Actionable(looks[0].seen.value, cfg.project, cfg.explicit) then
      Raised(f) == ValidateWorkerContainer(looks[0].seen.value, cfg.project, cfg.explicit)
    else listings != [] && ListingFault(cfg, listings[|listings| - 1].workers, f)
  }

  /** The fault of a listing that could not be read, was not clean, or did not hold the target. */
  ghost predicate ListingFault(cfg: Settings, listed: Outcome<seq<WorkerContainer>>, f: Fault)
  {
    match listed
    case Raised(g) => f == g
    case Ok(pool) =>
      CleanInventory(pool, cfg.project, None) && pool != [] ==>
        f == Acceptance(TargetNotListedOnce) && !InPool(pool, cfg.explicit)
  }

  /** The listing preflight passes on. */
  ghost predicate TargetListed(cfg: Settings, listed: Outcome<seq<WorkerContainer>>)
  {
    listed.Ok? && CleanInventory(listed.value, cfg.project, None) && InPool(listed.value, cfg.explicit)
  }

  /** Another look at the target before the kill, a changed worker, or the kill itself ends the case. */
  ghost predicate KillRefused(cfg: Settings, event: StageEvent, look: Look, kills: seq<Act>, f: Fault)
  {
    if look.seen.Raised? then f == look.seen.fault
    else if !Actionable(look.seen.value, cfg.project, cfg.explicit) then
      Raised(f) == ValidateWorkerContainer(look.seen.value, cfg.project, cfg.explicit)
    else if look.seen.value.workerId != event.workerId then f == Acceptance(TargetChangedAfterMarker)
    else kills != [] && !kills[0].ok
  }

  // ----- the pool between two cases

  /** A listing of identified, distinct workers of the project. */
  ghost predicate OwnPool(workers: seq<WorkerContainer>, project: string)
  {
    && (forall i :: 0 <= i < |workers| ==>
          workers[i].project == project && workers[i].service.WorkerService? && !Blank(workers[i].workerId))
    && (forall i, j :: 0 <= i < j < |workers| ==> workers[i].containerId != workers[j].containerId)
  }

  /** Four or more live workers, each with a process of its own. */
  ghost predicate FullPool(workers: seq<WorkerContainer>, project: string)
  {
    CleanInventory(workers, project, None) && |workers| >= 4 && IndependentProcesses(workers)
  }

  /** Every listed worker is in service; the start loop compares the health in lower case only. */
  ghost predicate AllServing(workers: seq<WorkerContainer>)
  {
    forall i :: 0 <= i < |workers| ==> Serving(workers[i])
  }

  /** Why the pool is refused: its last listing could not be read, was empty, or showed it not in order. */
  ghost predicate PoolFault(last: Outcome<seq<WorkerContainer>>, project: string, f: Fault)
  {
    match last
    case Raised(g) => f == g
    case Ok(workers) =>
      if workers == [] then f == NotRun(NoWorkers) else !(FullPool(workers, project) && AllServing(workers))
  }

  ghost predicate ListedSince(listings: seq<Listing>, n: nat, workers: seq<WorkerContainer>)
  {
    exists i :: n <= i < |listings| && listings[i].workers == Ok(workers)
  }

  /** Only listed workers that were not in service are started, and only from a pool that is the project's own. */
  ghost predicate StartsListed(starts: seq<Act>, m: nat, workers: seq<WorkerContainer>, project: string)
  {
    && (m < |starts| ==> OwnPool(workers, project))
    && forall i :: m <= i < |starts| ==>
         exists w :: w in workers && w.containerId == starts[i].id && !Serving(w)
  }

  /** Each of the first `k` listed workers was in service, or was brought back since place `n` of the looks. */
  ghost predicate Served(looks: seq<Look>, n: nat, workers: seq<WorkerContainer>, k: nat, project: string)
    requires k <= |workers|
  {
    forall i :: 0 <= i < k ==>
      Serving(workers[i]) || exists l :: n <= l < |looks| && BackInService(looks[l], project, workers[i].containerId, Some(workers[i].workerId))
  }

  /** The pool was brought back from a listing of its own workers; if done, each of them served then. */
  ghost predicate Repaired(
    listings: seq<Listing>, n: nat, starts: seq<Act>, m: nat, looks: seq<Look>, k: nat, done: bool, project: string)
  {
    exists first ::
      && ListedSince(listings, n, first) && OwnPool(first, project) && StartsListed(starts, m, first, project)
      && (done ==> Served(looks, k, first, |first|, project))
  }

  lemma RepairShown(
    listings: seq<Listing>, n: nat, starts: seq<Act>, m: nat, looks: seq<Look>, k: nat, done: bool, project: string,
    first: seq<WorkerContainer>, at: nat)
    requires n <= at < |listings| && listings[at].workers == Ok(first) && OwnPool(first, project)
    requires StartsListed(starts, m, first, project) && (done ==> Served(looks, k, first, |first|, project))
    ensures Repaired(listings, n, starts, m, looks, k, done, project)
  {
    assert ListedSince(listings, n, first);
  }

  /** Every case but the first begins right after the listing of a full pool. */
  ghost predicate PoolBeforeEach(journal: seq<Entry>, n: nat, project: string)
  {
    forall i :: n < i < |journal| && journal[i].Began? ==>
      journal[i - 1].Listed? && journal[i - 1].workers.Ok? && FullPool(journal[i - 1].workers.value, project)
  }

  /** Entries from place `n` on are listings. */
  ghost predicate OnlyListings(journal: seq<Entry>, n: nat)
  {
    forall i :: n <= i < |journal| ==> journal[i].Listed?
  }

  lemma NoCaseYet(journal: seq<Entry>, project: string)
    ensures PoolBeforeEach(journal, |journal|, project)
  {
  }

  lemma ListingsAdded(before: seq<Entry>, after: seq<Entry>, n: nat, project: string)
    requires before <= after && PoolBeforeEach(before, n, project) && OnlyListings(after, |before|)
    ensures PoolBeforeEach(after, n, project)
  {
    forall i | n < i < |after| && after[i].Began?
      ensures after[i - 1].Listed? && after[i - 1].workers.Ok? && FullPool(after[i - 1].workers.value, project)
    {
      assert i < |before| && before[i] == after[i] && before[i - 1] == after[i - 1];
    }
  }

  lemma ListedFirst(before: seq<Entry>, after: seq<Entry>)
    requires before < after && OnlyListings(after, |before|)
    ensures after[|before|].Listed?
  {
  }

  /** A case may begin first of all, or right after the listing of a full pool. */
  lemma CaseAdded(before: seq<Entry>, after: seq<Entry>, n: nat, project: string, listed: seq<WorkerContainer>)
    requires before + [Began] <= after && n <= |before| && PoolBeforeEach(before, n, project) && OnlyListings(after, |before| + 1)
    requires |before| == n || (before[|before| - 1] == Listed(Ok(listed)) && FullPool(listed, project))
    ensures PoolBeforeEach(after, n, project)
  {
    forall i | n < i < |after| && after[i].Began?
      ensures after[i - 1].Listed? && after[i - 1].workers.Ok? && FullPool(after[i - 1].workers.value, project)
    {
      assert i <= |before| && after[i - 1] == before[i - 1];
      assert i < |before| ==> before[i] == after[i];
    }
  }

  /** A further turn of the sequence begins with a listing, so its cases join the ones before. */
  lemma CasesJoined(before: seq<Entry>, after: seq<Entry>, n: nat, project: string)
    requires n <= |before| && before <= after
    requires PoolBeforeEach(before, n, project) && PoolBeforeEach(after, |before|, project)
    requires |before| == n || |before| == |after| || after[|before|].Listed?
    ensures PoolBeforeEach(after, n, project)
  {
    forall i | n < i < |after| && after[i].Began?
      ensures after[i - 1].Listed? && after[i - 1].workers.Ok? && FullPool(after[i - 1].workers.value, project)
    {
      if i < |before| {
        assert before[i] == after[i] && before[i - 1] == after[i - 1];
      }
    }
  }

  lemma FullIff(workers: seq<WorkerContainer>, project: string)
    ensures FullPool(workers, project) <==>
      CleanInventory(workers, project, None) && |workers| >= 4 && IndependentProcesses(workers)
  {
  }

  /** A full pool is the project's own. */
  lemma NotOwnNotFull(workers: seq<WorkerContainer>, project: string)
    requires !OwnPool(workers, project)
    ensures !FullPool(workers, project)
  {
    if FullPool(workers, project) {
      CleanPool(workers, project);
      assert forall i :: 0 <= i < |workers| ==> workers[i] in workers;
    }
  }

  lemma StartedListed(
    starts: seq<Act>, more: seq<Act>, m: nat, workers: seq<WorkerContainer>, w: WorkerContainer, project: string)
    requires StartsListed(starts, m, workers, project) && starts <= more && OwnPool(workers, project)
    requires w in workers && !Serving(w) && forall i :: |starts| <= i < |more| ==> more[i].id == w.containerId
    ensures StartsListed(more, m, workers, project)
  {
    forall i | m <= i < |more|
      ensures exists u :: u in workers && u.containerId == more[i].id && !Serving(u)
    {
      if i < |starts| {
        assert more[i] == starts[i];
      }
    }
  }

  lemma NothingStarted(starts: seq<Act>, looks: seq<Look>, workers: seq<WorkerContainer>, project: string)
    ensures StartsListed(starts, |starts|, workers, project) && Served(looks, |looks|, workers, 0, project)
  {
  }

  lemma ServedNext(looks: seq<Look>, more: seq<Look>, n: nat, workers: seq<WorkerContainer>, k: nat, project: string)
    requires k < |workers| && looks <= more && n <= |looks| && Served(looks, n, workers, k, project)
    requires Serving(workers[k]) || (|looks| < |more|
      && BackInService(more[|more| - 1], project, workers[k].containerId, Some(workers[k].workerId)))
    ensures Served(more, n, workers, k + 1, project)
  {
    forall i | 0 <= i < k + 1
      ensures Serving(workers[i]) || exists l ::
        n <= l < |more| && BackInService(more[l], project, workers[i].containerId, Some(workers[i].workerId))
    {
      if i < k && !Serving(workers[i]) {
        var l :| n <= l < |looks| && BackInService(looks[l], project, workers[i].containerId, Some(workers[i].workerId));
        assert more[l] == looks[l];
      }
    }
  }

  // ----- how a case ends

  function FaultOf<T>(r: Outcome<T>): Option<Fault>
  {
    if r.Ok? then None else Some(r.fault)
  }

  /** The event armed at enqueue names what was accepted: the outbox row on v2, the inbound message otherwise. */
  ghost predicate AcceptedEvent(e: StageEvent, ident: CaseIdentity, a: AcceptanceEvidence, v2: bool)
  {
    && e.tenantId == ident.tenantId && e.streamId == Some(a.streamId)
    && (v2 ==> e.inboundId == a.outboxId) && (!v2 ==> e.inboundId == Some(a.inboundId))
    && e.turnId.None? && e.executionKey.None? && e.fencingToken.None?
  }

  /** The event armed while processing names the turn, with the tool call's key or the message and its token. */
  ghost predicate TurnEvent(e: StageEvent, ident: CaseIdentity, p: ProcessingEvidence)
  {
    && e.tenantId == ident.tenantId && e.turnId == Some(p.turnId) && e.streamId.None?
    && (e.stage.Tool? ==> e.executionKey == p.executionKey && e.inboundId.None? && e.fencingToken.None?)
    && (e.stage.CommitTxnOpen? ==>
          e.inboundId == Some(p.inboundId) && e.fencingToken == Some(p.fencingToken) && e.executionKey.None?)
  }

  predicate KeyMissing(stage: Stage, p: ProcessingEvidence)
  {
    stage.Tool? && (p.executionKey.None? || p.executionKey.value == "")
  }

  /** An observed turn is refused for what it lacks, for its owner, or for its key; otherwise only arming can fail. */
  ghost predicate TurnRefused(
    p: ProcessingEvidence, ident: CaseIdentity, cfg: Settings, stage: Stage, workerId: string, arms: seq<Arming>, f: Fault)
  {
    if !ProcessingSuffices(p, ident, cfg) then RequireProcessing(p, ident, cfg) == Raised(f)
    else if p.workerId != workerId then f == NotRun(OwnerIsNotTheTarget)
    else if KeyMissing(stage, p) then f == NotRun(NoExecutionKey)
    else arms != [] || f == Other
  }

  /** An arming that raised ends the case with its fault. */
  ghost predicate ArmsDecide(arms: seq<Arming>, f: Option<Fault>)
  {
    arms != [] && arms[0].armed.Raised? ==> f == Some(arms[0].armed.fault)
  }

  /** So does a failed observation of the turn. */
  ghost predicate TurnsDecide(turns: seq<Processing>, f: Option<Fault>)
  {
    turns != [] && turns[|turns| - 1].answer.Raised? ==> f == Some(turns[|turns| - 1].answer.fault)
  }

  /** A reading after which the wait goes on: it returned, and found no row or one not entered yet. */
  ghost predicate Unfinished(m: Reading, a: Arming)
  {
    m.row.Ok? && !EnteredFor(m, a) && (m.row.value.Some? ==> !m.row.value.value.status.Entered?)
  }

  /** Some reading found a row. */
  ghost predicate RowSeen(readings: seq<Reading>)
  {
    exists m :: m in readings && m.row.Ok? && m.row.value.Some?
  }

  /**
   * The last reading of the control decides: a fault ends the case with it, a match goes on if kills are
   * acknowledged, another `entered` marker is a mismatch, and otherwise time ran out, with or without a row seen.
   */
  ghost predicate ReadingsDecide(readings: seq<Reading>, arms: seq<Arming>, allowKill: bool, f: Option<Fault>)
  {
    readings != [] && arms != [] ==>
      var last := readings[|readings| - 1];
      if last.row.Raised? then f == Some(last.row.fault)
      else if EnteredFor(last, arms[0]) then allowKill || f == Some(NotRun(KillNotAcknowledged))
      else if last.row.value.Some? && last.row.value.value.status.Entered? then f == Some(Acceptance(MarkerMismatched))
      else f == Some(if RowSeen(readings) then Acceptance(MarkerNeverMatched) else NotRun(MarkerNotObserved))
  }

  ghost predicate RecordDecides(
    arms: seq<Arming>, turns: seq<Processing>, readings: seq<Reading>, allowKill: bool, f: Option<Fault>)
  {
    ArmsDecide(arms, f) && TurnsDecide(turns, f) && ReadingsDecide(readings, arms, allowKill, f)
  }

  lemma BeforeArming(allowKill: bool, f: Option<Fault>)
    ensures RecordDecides([], [], [], allowKill, f)
  {
  }

  lemma WhileArming(arms: seq<Arming>, turns: seq<Processing>, allowKill: bool, f: Option<Fault>)
    requires ArmsDecide(arms, f) && TurnsDecide(turns, f)
    ensures RecordDecides(arms, turns, [], allowKill, f)
  {
  }

  /** Once arming went well only the readings are left to decide. */
  lemma AfterArming(arms: seq<Arming>, turns: seq<Processing>, readings: seq<Reading>, allowKill: bool, f: Option<Fault>)
    requires ArmsDecide(arms, None) && TurnsDecide(turns, None) && ReadingsDecide(readings, arms, allowKill, f)
    ensures RecordDecides(arms, turns, readings, allowKill, f)
  {
  }

  /** Two or more looks at the container from place `n` on, the last of them finding it back in service. */
  ghost predicate ServedAgain(looks: seq<Look>, n: nat, id: string, project: string, expected: Option<string>)
  {
    exists i, j ::
      && n <= i < j < |looks| && looks[i].id == id && BackInService(looks[j], project, id, expected)
      && forall k :: j < k < |looks| ==> looks[k].id != id
  }

  /** If all looks from place `b` on are at the container and none since `n` before them, the last look decides. */
  lemma OnlyLast(looks: seq<Look>, n: nat, b: nat, id: string, project: string, expected: Option<string>)
    requires n <= b < |looks| && ServedAgain(looks, n, id, project, expected)
    requires forall k :: n <= k < b ==> looks[k].id != id
    requires forall k :: b <= k < |looks| ==> looks[k].id == id
    ensures b + 1 < |looks| && BackInService(looks[|looks| - 1], project, id, expected)
  {
    var i, j :|
      && n <= i < j < |looks| && looks[i].id == id && BackInService(looks[j], project, id, expected)
      && forall k :: j < k < |looks| ==> looks[k].id != id;
    var last := |looks| - 1;
    assert looks[last].id == id;
    assert b <= i && j == last;
  }

  /** Looks at other containers change nothing. */
  lemma ServedStill(looks: seq<Look>, more: seq<Look>, n: nat, id: string, project: string, expected: Option<string>)
    requires looks <= more && forall k :: |looks| <= k < |more| ==> more[k].id != id
    ensures ServedAgain(looks, n, id, project, expected) <==> ServedAgain(more, n, id, project, expected)
  {
    hide Recognised, RestoreIdentity;
    if ServedAgain(looks, n, id, project, expected) {
      var i, j :|
        && n <= i < j < |looks| && looks[i].id == id && BackInService(looks[j], project, id, expected)
        && forall k :: j < k < |looks| ==> looks[k].id != id;
      assert more[i] == looks[i] && more[j] == looks[j];
    }
    if ServedAgain(more, n, id, project, expected) {
      var i, j :|
        && n <= i < j < |more| && more[i].id == id && BackInService(more[j], project, id, expected)
        && forall k :: j < k < |more| ==> more[k].id != id;
      assert j < |looks| && looks[i] == more[i] && looks[j] == more[j];
      assert forall k :: j < k < |looks| ==> looks[k] == more[k];
    }
  }

  /** How a case run went: the `try` block, and where the record stood when restoration began. */
  datatype Course = Course(tried: Outcome<()>, from: nat, looks: nat)

  // ----- poll pacing

  /** Elapsed time guaranteed after `k` full poll delays of 0.5, 1, 2, 2, ... seconds. */
  function PolledFor(k: nat): real
  {
    if k == 0 then 0.0 else if k == 1 then 0.5 else 2.0 * k as real - 2.5
  }

  function PollDelay(k: nat): real
  {
    if k == 0 then 0.5 else if k == 1 then 1.0 else 2.0
  }

  function Min(a: real, b: real): real
  {
    if a <= b then a else b
  }

  class Runner {
    const cfg: Settings
    const world: World

    // the mutable case and the locals of `run_case`
    var ident: CaseIdentity
    var controlId: Option<string>
    var workersBefore: seq<WorkerContainer>
    var stoppedIds: seq<string>
    var markers: seq<Marker>
    var killedId: Option<string>
    var controlReleased: bool

    constructor (cfg: Settings, world: World)
      requires ValidSettings(cfg)
      ensures this.cfg == cfg && this.world == world
    {
      this.cfg := cfg;
      this.world := world;
    }

    // ----- container polling

    /** Inspects `id` and rejects a changed identity. */
    method LookAt(id: string, expected: Option<string>) returns (r: Outcome<WorkerContainer>)
      modifies world`now, world`tick, world`looks
      ensures |world.looks| == |old(world.looks)| + 1 && old(world.looks) <= world.looks
      ensures var l := world.looks[|old(world.looks)|]; l.id == id && l.tick == old(world.tick) && l.at == old(world.now)
      ensures r.Ok? ==> world.looks[|old(world.looks)|].seen == r && RestoreIdentity(r.value, cfg.project, id, expected)
      ensures r.Raised? ==> !Recognised(world.looks[|old(world.looks)|], cfg.project, id, expected)
      ensures r.Raised? ==> r.fault == LookFault(world.looks[|old(world.looks)|])
      ensures world.now >= old(world.now) && world.tick == old(world.tick) + 1
    {
      r := world.Inspect(id);
      if r.Ok? && !RestoreIdentity(r.value, cfg.project, id, expected) {
        r := Raised(Acceptance(IdentityChanged));
      }
    }

    /** The poll of `_start_and_wait`: looks after 0.5, 1, 2, 2, ... seconds until the deadline. */
    method PollHealthy(id: string, expected: Option<string>, deadline: real) returns (r: Outcome<()>)
      requires 0.0 < cfg.timeout && deadline - cfg.timeout <= world.now
      modifies world`now, world`tick, world`looks, world`naps
      ensures old(world.looks) <= world.looks && LooksAt(world.looks, |old(world.looks)|, id, old(world.tick), world.tick)
      ensures old(world.naps) <= world.naps && NapsWithin(world.naps, |old(world.naps)|, old(world.now), deadline)
      ensures r.Ok? <==>
                && |old(world.looks)| < |world.looks|
                && BackInService(world.looks[|world.looks| - 1], cfg.project, id, expected)
      ensures r.Ok? ==> world.looks[|world.looks| - 1].tick == world.tick - 1
      ensures r.Raised? ==> WaitFailed(world.looks, |old(world.looks)|, r.fault, cfg.project, id, expected,
                              NotHealthyInTime, world.now >= deadline)
      ensures 2.0 * (1 + |world.looks| - |old(world.looks)|) as real < cfg.timeout + 6.5
      ensures world.tick >= old(world.tick)
    {
      hide RestoreIdentity, LookFault;
      var delay := POLL_MIN;
      ghost var k := 0;
      var t := world.Monotonic();
      while t < deadline
        invariant t == world.now && world.tick >= old(world.tick)
        invariant old(world.looks) <= world.looks && LooksAt(world.looks, |old(world.looks)|, id, old(world.tick), world.tick)
        invariant world.now >= old(world.now)
        invariant old(world.naps) <= world.naps && NapsWithin(world.naps, |old(world.naps)|, old(world.now), deadline)
        invariant t < deadline ==> t >= deadline - cfg.timeout + PolledFor(k) && delay == PollDelay(k)
        invariant |world.looks| == |old(world.looks)| + k
        invariant k > 0 ==> !BackInService(world.looks[|world.looks| - 1], cfg.project, id, expected)
        invariant 2.0 * (k + 1) as real < cfg.timeout + 6.5
        decreases if t < deadline then 1 + (2.0 * (deadline - t)).Floor else 0
      {
        var seen :- LookAt(id, expected);
        if Serving(seen) {
          return Ok(());
        }
        var remaining := world.Monotonic();
        remaining := deadline - remaining;
        if remaining <= 0.0 {
          break;
        }
        world.Sleep(Min(delay, remaining));
        delay := Min(delay * 2.0, POLL_MAX);
        k := k + 1;
        t := world.Monotonic();
      }
      return Raised(NotRun(NotHealthyInTime));
    }

    /** Every sleep since the state with `n` looks and `m` naps lies within the timeout of the first look made. */
    ghost predicate SleptInTime(n: nat, m: nat, since: real)
      reads world`looks, world`naps
    {
      && n < |world.looks| && since <= world.looks[n].at
      && NapsWithin(world.naps, m, world.looks[n].at, world.looks[n].at + cfg.timeout)
    }

    /** Starts one container and returns normally only once it is back in service; bounded in looks and in time. */
    method StartAndWait(id: string, expected: Option<string>) returns (r: Outcome<()>)
      requires 0.0 < cfg.timeout
      modifies world`now, world`tick, world`looks, world`naps, world`starts
      ensures old(world.looks) < world.looks && LooksAt(world.looks, |old(world.looks)|, id, old(world.tick), world.tick)
      ensures old(world.starts) <= world.starts && ActsOn(world.starts, |old(world.starts)|, id, old(world.tick), world.tick)
      ensures |world.starts| == |old(world.starts)| +
                One(Startable(world.looks[|old(world.looks)|], cfg.project, id, expected))
      ensures r.Ok? <==> |world.looks| > |old(world.looks)| + 1
                         && BackInService(world.looks[|world.looks| - 1], cfg.project, id, expected)
      ensures r.Ok? ==> world.looks[|world.looks| - 1].tick == world.tick - 1
      ensures r.Raised? ==>
                || (|world.starts| > |old(world.starts)| && !world.starts[|old(world.starts)|].ok)
                || WaitFailed(world.looks, |old(world.looks)|, r.fault, cfg.project, id, expected,
                     NotHealthyInTime, world.now >= old(world.now) + cfg.timeout)
      ensures 2.0 * (|world.looks| - |old(world.looks)|) as real < cfg.timeout + 6.5
      ensures old(world.naps) <= world.naps && SleptInTime(|old(world.looks)|, |old(world.naps)|, old(world.now))
      ensures world.tick >= old(world.tick)
    {
      var t := world.Monotonic();
      var deadline := t + cfg.timeout;
      var seen := LookAt(id, expected);
      if seen.Raised? {
        return Raised(seen.fault);
      }
      if !seen.value.status.Running? {
        var started := world.Start(id);
        if started.Raised? {
          return Raised(started.fault);
        }
      }
      r := PollHealthy(id, expected, deadline);
    }

    /** Polls until the killed container is exited or dead. */
    method WaitForTerminated(id: string, expected: string) returns (r: Outcome<WorkerContainer>)
      requires 0.0 < cfg.timeout
      modifies world`now, world`tick, world`looks, world`naps
      ensures old(world.looks) <= world.looks && world.tick >= old(world.tick)
      ensures LooksAt(world.looks, |old(world.looks)|, id, old(world.tick), world.tick)
      ensures old(world.naps) <= world.naps && NapsPaced(world.naps, |old(world.naps)|, true)
      ensures r.Ok? ==> |old(world.looks)| < |world.looks| && world.looks[|world.looks| - 1].seen == r
      ensures r.Ok? ==> SeenDown(r.value, cfg.project, id, expected)
      ensures r.Raised? && |old(world.looks)| < |world.looks| ==> !ShowsDown(world.looks[|world.looks| - 1], cfg.project, id, expected)
      ensures r.Raised? ==> WaitFailed(world.looks, |old(world.looks)|, r.fault, cfg.project, id, Some(expected),
                              StillRunning, world.now >= old(world.now) + cfg.timeout)
    {
      var t := world.Monotonic();
      var deadline := t + cfg.timeout;
      var delay := POLL_MIN;
      t := world.Monotonic();
      while t < deadline
        invariant t == world.now && old(world.naps) <= world.naps
        invariant t < deadline ==> delay == PollDelay(|world.naps| - |old(world.naps)|)
        invariant NapsPaced(world.naps, |old(world.naps)|, t >= deadline)
        invariant |old(world.looks)| < |world.looks| ==> !ShowsDown(world.looks[|world.looks| - 1], cfg.project, id, expected)
        invariant old(world.looks) <= world.looks && world.tick >= old(world.tick)
        invariant LooksAt(world.looks, |old(world.looks)|, id, old(world.tick), world.tick)
        decreases if t < deadline then 1 + (2.0 * (deadline - t)).Floor else 0
      {
        var seen :- LookAt(id, Some(expected));
        if seen.status.Exited? || seen.status.Dead? {
          return Ok(seen);
        }
        var remaining := world.Monotonic();
        remaining := deadline - remaining;
        if remaining <= 0.0 {
          break;
        }
        world.Sleep(Min(delay, remaining));
        delay := Min(delay * 2.0, POLL_MAX);
        t := world.Monotonic();
      }
      return Raised(NotRun(StillRunning));
    }

    /** Lists the pool, retrying only an empty listing. */
    method ListInventory() returns (r: Outcome<seq<WorkerContainer>>)
      modifies world`now, world`tick, world`naps, world`listings, world`journal
      ensures world.tick >= old(world.tick)
      ensures old(world.listings) < world.listings && world.listings[|world.listings| - 1].workers == r
      ensures forall i :: |old(world.listings)| <= i < |world.listings| - 1 ==> world.listings[i].workers == Ok([])
      ensures r == Ok([]) ==>
                |world.listings| == |old(world.listings)| + 6 || world.now >= old(world.now) + Min(cfg.timeout, 5.0)
      ensures |world.listings| - |old(world.listings)| <= |world.naps| - |old(world.naps)| + 2
      ensures old(world.journal) < world.journal && OnlyListings(world.journal, |old(world.journal)|)
      ensures world.journal[|world.journal| - 1] == Listed(r)
    {
      var t := world.Monotonic();
      var deadline := t + Min(cfg.timeout, 5.0);
      var delays := [0.0, 0.1, 0.25, 0.5, 1.0, 2.0];
      for i := 0 to |delays|
        invariant world.tick >= old(world.tick)
        invariant old(world.listings) <= world.listings && |world.listings| == |old(world.listings)| + i
        invariant forall k :: |old(world.listings)| <= k < |world.listings| ==> world.listings[k].workers == Ok([])
        invariant old(world.journal) <= world.journal && OnlyListings(world.journal, |old(world.journal)|)
        invariant i > 0 ==> |world.journal| > |old(world.journal)| && world.journal[|world.journal| - 1] == Listed(Ok([]))
        invariant old(world.naps) <= world.naps && |world.naps| == |old(world.naps)| + if i == 0 then 0 else i - 1
      {
        var workers :- world.ListWorkers();
        if workers != [] {
          return Ok(workers);
        }
        if delays[i] == 0.0 {
          continue;
        }
        var remaining := world.Monotonic();
        remaining := deadline - remaining;
        if remaining <= 0.0 {
          break;
        }
        world.Sleep(Min(delays[i], remaining));
      }
      return Ok([]);
    }

    // ----- the try block

    /** Appends passing markers of these names to the trail. */
    method Mark(names: seq<MarkerName>, ghost trail: seq<MarkerName>)
      requires Leaves(markers, trail)
      modifies this`markers
      ensures Leaves(markers, trail + names)
    {
      var added: seq<Marker> := [];
      for i := 0 to |names|
        invariant Leaves(added, names[..i]) && markers == old(markers)
      {
        var t := world.Timestamp();
        added := added + [Marker(names[i], Pass, t)];
      }
      assert names[..|names|] == names;
      markers := markers + added;
    }

    /** Stops the preflight workers in listing order, all but the excluded one. */
    method StopWorkers(exclude: Option<string>) returns (r: Outcome<()>)
      requires StopsKept(stoppedIds, workersBefore, world.stops) && stoppedIds == []
      modifies this`stoppedIds, world`now, world`tick, world`stops
      ensures StopsKept(stoppedIds, workersBefore, world.stops) && world.tick >= old(world.tick)
      ensures old(world.stops) <= world.stops && Spares(world.stops, |old(world.stops)|, exclude)
      ensures r.Ok? ==> AllStoppedBut(workersBefore, world.stops, exclude, world.tick)
    {
      hide StopsKept, AllStoppedBut, AmongFirst, InPool, DistinctPool;
      var i := 0;
      StartOfPool(workersBefore, world.stops, exclude, world.tick);
      while i < |workersBefore|
        invariant 0 <= i <= |workersBefore|
        invariant StopsKept(stoppedIds, workersBefore, world.stops) && world.tick >= old(world.tick)
        invariant old(world.stops) <= world.stops && Spares(world.stops, |old(world.stops)|, exclude)
        invariant AllStoppedBut(workersBefore[..i], world.stops, exclude, world.tick)
        invariant AmongFirst(stoppedIds, workersBefore, i)
      {
        var id := workersBefore[i].containerId;
        if Some(id) != exclude {
          ghost var before, at := world.stops, world.tick;
          var stopped := world.Stop(id);
          if stopped.Raised? {
            StopRaised(stoppedIds, workersBefore, before, world.stops, Act(at, id, false));
            return Raised(stopped.fault);
          }
          StopAdded(stoppedIds, workersBefore, i, before, world.stops, at);
          NextStopped(workersBefore, i, before, world.stops, exclude, at, world.tick);
          stoppedIds := stoppedIds + [id];
        } else {
          AmongMore(stoppedIds, workersBefore, i);
          NextSpared(workersBefore, i, world.stops, exclude, world.tick);
        }
        i := i + 1;
      }
      assert workersBefore[..i] == workersBefore;
      return Ok(());
    }

    /** Refuses the enqueue case where its checkpoint cannot exist. */
    method CheckScheduler(stage: Stage) returns (r: Outcome<()>)
      ensures r.Ok? <==> EnqueueReady(cfg, stage)
      ensures r.Raised? ==>
                r.fault == if cfg.scheduler.Unsupported? then Acceptance(UnsupportedScheduler) else NotRun(EnqueueCheckpointMissing)
    {
      if stage.Enqueue? {
        var version :- SchedulerVersion(cfg);
        if version.V2? && !cfg.enqueueCheckpoint {
          return Raised(NotRun(EnqueueCheckpointMissing));
        }
      }
      return Ok(());
    }

    /** Lists the pool and requires the explicit container once in it. */
    method ListTarget() returns (r: Outcome<seq<WorkerContainer>>)
      modifies world`now, world`tick, world`naps, world`listings, world`journal
      ensures world.tick >= old(world.tick) && old(world.listings) < world.listings
      ensures old(world.journal) <= world.journal && OnlyListings(world.journal, |old(world.journal)|)
      ensures var listed := world.listings[|world.listings| - 1].workers;
              && (r.Ok? <==> TargetListed(cfg, listed)) && (r.Ok? ==> r == listed && DistinctPool(r.value) && InPool(r.value, cfg.explicit))
              && (r.Raised? ==> ListingFault(cfg, listed, r.fault))
    {
      hide CleanInventory, DistinctPool, InPool, OnlyListings;
      var workers :- ListInventory();
      var valid := ValidateWorkers(workers, cfg.project, None, 1, false);
      RetainedAll(workers);
      if valid.Raised? {
        InNone(workers, cfg.explicit);
        return valid;
      }
      CleanPool(workers, cfg.project);
      ListedOnce(workers, cfg.explicit);
      if Listings(workers, cfg.explicit) != 1 {
        return Raised(Acceptance(TargetNotListedOnce));
      }
      return Ok(workers);
    }

    /** Provisions the case and proves the explicit container is one live member of the pool. */
    method Preflight(stage: Stage) returns (r: Outcome<WorkerContainer>)
      requires workersBefore == [] && markers == []
      requires world.setups == [] && world.looks == [] && world.listings == []
      modifies this`workersBefore, this`markers, world`now, world`tick, world`looks, world`naps, world`listings
      modifies world`setups, world`journal
      ensures r.Ok? <==> PreflightPasses(cfg, stage, world.setups, world.looks, world.listings)
      ensures r.Raised? ==> PreflightFault(cfg, stage, world.setups, world.looks, world.listings, r.fault)
      ensures old(world.journal) <= world.journal && OnlyListings(world.journal, |old(world.journal)|)
      ensures DistinctPool(workersBefore) && world.tick >= old(world.tick)
      ensures PoolListed(workersBefore, world.listings)
      ensures r.Ok? ==> Actionable(r.value, cfg.project, cfg.explicit) && InPool(workersBefore, cfg.explicit)
      ensures r.Ok? ==> Leaves(markers, [PreflightWorkersVerified])
    {
      hide CleanInventory, TargetListed, ListingFault, EnqueueReady;
      var _ :- CheckScheduler(stage);
      var _ :- world.ProvisionCase();
      var seen :- world.Inspect(cfg.explicit);
      var target :- ValidateWorkerContainer(seen, cfg.project, cfg.explicit);
      var workers :- ListTarget();
      workersBefore := workers;
      Mark([PreflightWorkersVerified], []);
      return Ok(target);
    }

    /** Publishes the inbound message and rebinds the case to the accepted identity. */
    method Publish() returns (r: Outcome<AcceptanceEvidence>)
      requires Leaves(markers, [PreflightWorkersVerified])
      modifies this`ident, this`markers, world`now, world`tick, world`published
      ensures |world.published| == |old(world.published)| + 1 && world.tick >= old(world.tick)
      ensures r.Ok? ==> world.published[|old(world.published)|] == r
      ensures r.Raised? ==>
                var p := world.published[|old(world.published)|];
                if p.Raised? then r.fault == p.fault else RequireAcceptance(p.value, ident, cfg) == Raised(r.fault)
      ensures ident == old(ident).(inboundId := ident.inboundId, sessionId := ident.sessionId)
      ensures r.Ok? ==> Leaves(markers, [PreflightWorkersVerified, AcceptancePersisted])
      ensures r.Ok? ==> ident.inboundId == r.value.inboundId && !Blank(ident.inboundId)
      ensures r.Ok? && cfg.scheduler.V2? ==> !BlankOption(r.value.outboxId) && !Blank(ident.sessionId)
    {
      var accepted :- world.PublishInbound();
      var rebound :- RequireAcceptance(accepted, ident, cfg);
      ident := rebound;
      Mark([AcceptancePersisted], [PreflightWorkersVerified]);
      return Ok(accepted);
    }

    /** Arms the control for a well-formed event; an arming that raises leaves no control id. */
    method ArmFor(event: StageEvent, ghost names: seq<MarkerName>) returns (r: Outcome<()>)
      requires controlId.None? && world.arms == [] && Leaves(markers, names)
      modifies this`controlId, this`markers, world`now, world`tick, world`arms
      ensures ControlKept(controlId, world.arms, world.tick) && world.tick >= old(world.tick)
      ensures ArmsDecide(world.arms, FaultOf(r)) && (r.Raised? && world.arms == [] ==> r.fault == Other)
      ensures world.arms != [] ==> old(world.tick) <= world.arms[0].tick
      ensures r.Ok? ==> ArmedWith(event, controlId, world.arms, world.tick) && Leaves(markers, names + [ControlArmed])
    {
      var valid :- BuildEvent(event);
      var id :- world.Arm(valid);
      controlId := Some(id);
      Mark([ControlArmed], names);
      return Ok(());
    }

    /** The enqueue case arms while every worker is stopped, then restarts the target alone. */
    method ArmAtEnqueue(target: WorkerContainer) returns (r: Outcome<StageEvent>)
      requires 0.0 < cfg.timeout && StopsKept(stoppedIds, workersBefore, world.stops) && controlId.None?
      requires world.arms == [] && world.starts == [] && stoppedIds == []
      requires Leaves(markers, [PreflightWorkersVerified])
      modifies this`ident, this`stoppedIds, this`controlId, this`markers
      modifies world`now, world`tick, world`stops, world`arms, world`looks, world`naps, world`starts, world`published
      ensures r.Ok? ==>
                && |world.published| == |old(world.published)| + 1 && world.published[|old(world.published)|].Ok?
                && AcceptedEvent(r.value, ident, world.published[|old(world.published)|].value, cfg.scheduler.V2?)
      ensures ActsOn(world.starts, 0, target.containerId, 0, world.tick)
      ensures StopsKept(stoppedIds, workersBefore, world.stops) && ControlKept(controlId, world.arms, world.tick)
      ensures ArmsDecide(world.arms, FaultOf(r)) && world.tick >= old(world.tick)
      ensures ident == old(ident).(inboundId := ident.inboundId, sessionId := ident.sessionId)
      ensures r.Ok? ==> ArmedWith(r.value, controlId, world.arms, world.tick) && r.value.workerId == target.workerId
      ensures ArmedAlone(workersBefore, world.stops, None, world.arms)
      ensures r.Ok? ==> r.value.stage.Enqueue?
      ensures r.Ok? ==> Leaves(markers, TrailToArming(Enqueue, cfg.scheduler.V2?))
      ensures r.Ok? && cfg.scheduler.V2? ==> !Blank(ident.inboundId) && !Blank(ident.sessionId)
    {
      hide WaitFailed, BackInService, StopsKept, DistinctPool;
      var _ :- StopWorkers(None);
      ghost var stopped := world.tick;
      var accepted :- Publish();
      var inbound := if cfg.scheduler.V2? then accepted.outboxId else Some(accepted.inboundId);
      var event := StageEvent(Enqueue, ident.tenantId, target.workerId, inbound, None, None, Some(accepted.streamId), None);
      var armed := ArmFor(event, [PreflightWorkersVerified, AcceptancePersisted]);
      AlreadyStopped(workersBefore, world.stops, None, stopped, world.arms);
      if armed.Raised? {
        return Raised(armed.fault);
      }
      var up := StartAndWait(target.containerId, Some(target.workerId));
      if up.Raised? {
        return Raised(up.fault);
      }
      return Ok(event);
    }

    /** Publishes and observes the target processing exactly this message. */
    method ObserveTurn(target: WorkerContainer) returns (r: Outcome<ProcessingEvidence>)
      requires Leaves(markers, [PreflightWorkersVerified]) && world.processings == []
      modifies this`ident, this`markers, world`now, world`tick, world`processings, world`published
      ensures r.Raised? && world.processings != [] && world.processings[|world.processings| - 1].answer.Ok? ==>
                var p := world.processings[|world.processings| - 1].answer.value;
                if !ProcessingSuffices(p, ident, cfg) then RequireProcessing(p, ident, cfg) == Raised(r.fault)
                else p.workerId != target.workerId && r.fault == NotRun(OwnerIsNotTheTarget)
      ensures r.Ok? ==> ProcessingSuffices(r.value, ident, cfg)
      ensures r.Ok? ==> LastTurn(world.processings) == Some(r.value)
      ensures TurnsDecide(world.processings, FaultOf(r)) && world.tick >= old(world.tick)
      ensures r.Ok? ==> world.processings != [] && world.processings[|world.processings| - 1].answer.Ok?
      ensures ident == old(ident).(inboundId := ident.inboundId, sessionId := ident.sessionId)
      ensures r.Ok? ==> r.value.workerId == target.workerId
      ensures r.Ok? ==> Leaves(markers, [PreflightWorkersVerified, AcceptancePersisted, TurnProcessingObserved]
                                        + (if cfg.scheduler.V2? then [V2AckBeforeExecute] else []))
      ensures r.Ok? && cfg.scheduler.V2? ==> !Blank(ident.inboundId) && !Blank(ident.sessionId)
    {
      var _ :- Publish();
      var p :- world.ObserveProcessing();
      var _ :- RequireProcessing(p, ident, cfg);
      if p.workerId != target.workerId {
        return Raised(NotRun(OwnerIsNotTheTarget));
      }
      Mark([TurnProcessingObserved] + (if cfg.scheduler.V2? then [V2AckBeforeExecute] else []),
        [PreflightWorkersVerified, AcceptancePersisted]);
      return Ok(p);
    }

    /** The tool and commit cases leave only the target running and arm for the turn it is processing. */
    method ArmAtProcessing(stage: Stage, target: WorkerContainer) returns (r: Outcome<(StageEvent, ProcessingEvidence)>)
      requires !stage.Enqueue? && StopsKept(stoppedIds, workersBefore, world.stops) && controlId.None?
      requires world.arms == [] && world.processings == [] && stoppedIds == []
      requires Leaves(markers, [PreflightWorkersVerified])
      modifies this`ident, this`stoppedIds, this`controlId, this`markers
      modifies world`now, world`tick, world`stops, world`arms, world`processings, world`published
      ensures r.Ok? ==> TurnEvent(r.value.0, ident, r.value.1) && !KeyMissing(stage, r.value.1)
      ensures r.Raised? && world.processings != [] && world.processings[|world.processings| - 1].answer.Ok? ==>
                TurnRefused(world.processings[|world.processings| - 1].answer.value, ident, cfg, stage, target.workerId,
                  world.arms, r.fault)
      ensures StopsKept(stoppedIds, workersBefore, world.stops) && ControlKept(controlId, world.arms, world.tick)
      ensures ArmsDecide(world.arms, FaultOf(r)) && TurnsDecide(world.processings, FaultOf(r))
      ensures world.tick >= old(world.tick)
      ensures ident == old(ident).(inboundId := ident.inboundId, sessionId := ident.sessionId)
      ensures r.Ok? ==> ArmedWith(r.value.0, controlId, world.arms, world.tick) && r.value.0.workerId == target.workerId
      ensures r.Ok? ==> r.value.0.turnId == Some(r.value.1.turnId)
      ensures ArmedAlone(workersBefore, world.stops, Some(target.containerId), world.arms)
      ensures r.Ok? ==> r.value.0.stage == stage && LastTurn(world.processings) == Some(r.value.1)
      ensures r.Ok? ==> Leaves(markers, TrailToArming(stage, cfg.scheduler.V2?))
      ensures r.Ok? && cfg.scheduler.V2? ==> !Blank(ident.inboundId) && !Blank(ident.sessionId)
    {
      var _ :- StopWorkers(Some(target.containerId));
      ghost var stopped := world.tick;
      var p :- ObserveTurn(target);
      if stage.Tool? && (p.executionKey.None? || p.executionKey.value == "") {
        return Raised(NotRun(NoExecutionKey));
      }
      var event := if stage.Tool?
        then StageEvent(stage, ident.tenantId, p.workerId, None, Some(p.turnId), p.executionKey, None, None)
        else StageEvent(stage, ident.tenantId, p.workerId, Some(p.inboundId), Some(p.turnId), None, None, Some(p.fencingToken));
      var armed := ArmFor(event, [PreflightWorkersVerified, AcceptancePersisted, TurnProcessingObserved]
                                 + (if cfg.scheduler.V2? then [V2AckBeforeExecute] else []));
      AlreadyStopped(workersBefore, world.stops, Some(target.containerId), stopped, world.arms);
      return if armed.Raised? then Raised(armed.fault) else Ok((event, p));
    }

    /** Reads the control until its marker matches the armed identity; a mismatched `entered` marker fails at once. */
    method AwaitMarker(event: StageEvent) returns (r: Outcome<()>)
      requires 0.0 < cfg.timeout && ArmedWith(event, controlId, world.arms, world.tick) && world.readings == []
      modifies world`now, world`tick, world`readings, world`naps
      ensures world.tick >= old(world.tick)
      ensures r.Raised? ==> ReadingsDecide(world.readings, world.arms, cfg.allowKill, FaultOf(r))
      ensures r.Raised? && (world.readings == [] || Unfinished(world.readings[|world.readings| - 1], world.arms[0])) ==>
                world.now >= old(world.now) + cfg.timeout
      ensures r.Ok? ==>
                && world.readings != []
                && EnteredFor(world.readings[|world.readings| - 1], world.arms[0])
                && world.arms[0].tick < world.readings[|world.readings| - 1].tick == world.tick - 1
    {
      var t := world.Monotonic();
      var deadline := t + cfg.timeout;
      var sawMismatch := false;
      t := world.Monotonic();
      while t < deadline
        invariant t == world.now && world.tick >= old(world.tick)
        invariant sawMismatch <==> RowSeen(world.readings)
        invariant world.readings != [] ==> Unfinished(world.readings[|world.readings| - 1], world.arms[0])
        decreases if t < deadline then 1 + (20.0 * (deadline - t)).Floor else 0
      {
        ghost var before := world.readings;
        var row :- world.ReadControl(controlId.value);
        assert forall m :: m in before ==> m in world.readings;
        assert world.readings[|before|] in world.readings;
        if row.Some? {
          if ControlMatches(row.value, event, controlId.value) {
            return Ok(());
          }
          sawMismatch := true;
          if row.value.status.Entered? {
            return Raised(Acceptance(MarkerMismatched));
          }
        }
        world.Sleep(0.05);
        t := world.Monotonic();
      }
      return Raised(if sawMismatch then Acceptance(MarkerNeverMatched) else NotRun(MarkerNotObserved));
    }

    /** Waits for the marker and for the explicit acknowledgement of a kill. */
    method ObserveMarker(stage: Stage, event: StageEvent, ghost names: seq<MarkerName>) returns (r: Outcome<()>)
      requires 0.0 < cfg.timeout && ArmedWith(event, controlId, world.arms, world.tick) && Leaves(markers, names)
      requires world.readings == []
      modifies this`markers, world`now, world`tick, world`readings, world`naps
      ensures world.tick >= old(world.tick)
      ensures ReadingsDecide(world.readings, world.arms, cfg.allowKill, FaultOf(r))
      ensures r.Ok? ==>
                && cfg.allowKill && world.readings != []
                && EnteredFor(world.readings[|world.readings| - 1], world.arms[0])
                && world.arms[0].tick < world.readings[|world.readings| - 1].tick == world.tick - 1
      ensures r.Ok? ==> Leaves(markers, names + MarkerTrail(stage, cfg.scheduler.V2?))
    {
      var _ :- AwaitMarker(event);
      Mark(MarkerTrail(stage, cfg.scheduler.V2?), names);
      if !cfg.allowKill {
        return Raised(NotRun(KillNotAcknowledged));
      }
      return Ok(());
    }

    /** The only place that kills: right after the exact marker, on a fresh look at the explicit container. */
    method Kill(event: StageEvent) returns (r: Outcome<()>)
      requires ArmedWith(event, controlId, world.arms, world.tick) && cfg.allowKill && world.readings != []
      requires EnteredFor(world.readings[|world.readings| - 1], world.arms[0])
      requires world.arms[0].tick < world.readings[|world.readings| - 1].tick == world.tick - 1
      requires world.kills == [] && killedId.None?
      requires forall i :: 0 <= i < |world.starts| ==> world.starts[i].tick < world.tick
      modifies this`killedId, world`now, world`tick, world`looks, world`kills, world`killLog
      ensures KillKept(cfg, killedId, world.kills, world.arms, world.readings, world.looks)
      ensures DownSinceKill(cfg, world.kills, world.starts, world.tick) && world.tick >= old(world.tick)
      ensures |world.killLog| == |old(world.killLog)| + |world.kills|
      ensures r.Ok? ==> killedId == Some(cfg.explicit)
      ensures r.Raised? ==> |world.looks| == |old(world.looks)| + 1
                            && KillRefused(cfg, event, world.looks[|old(world.looks)|], world.kills, r.fault)
    {
      ghost var reading := world.readings[|world.readings| - 1];
      var seen :- world.Inspect(cfg.explicit);
      var target :- ValidateWorkerContainer(seen, cfg.project, cfg.explicit);
      ghost var look := world.looks[|world.looks| - 1];
      if target.workerId != event.workerId {
        return Raised(Acceptance(TargetChangedAfterMarker));
      }
      var killed := world.Terminate(target.containerId);
      assert Justified(world.kills[0], cfg, world.arms[0], reading, look);
      if killed.Raised? {
        return Raised(killed.fault);
      }
      killedId := Some(target.containerId);
      return Ok(());
    }

    method KillAtMarker(stage: Stage, event: StageEvent, ghost names: seq<MarkerName>) returns (r: Outcome<()>)
      requires 0.0 < cfg.timeout && ArmedWith(event, controlId, world.arms, world.tick) && Leaves(markers, names)
      requires world.kills == [] && killedId.None? && world.readings == []
      requires forall i :: 0 <= i < |world.starts| ==> world.starts[i].tick < world.tick
      modifies this`markers, this`killedId
      modifies world`now, world`tick, world`readings, world`naps, world`looks, world`kills, world`killLog
      ensures KillKept(cfg, killedId, world.kills, world.arms, world.readings, world.looks)
      ensures DownSinceKill(cfg, world.kills, world.starts, world.tick) && world.tick >= old(world.tick)
      ensures ReadingsDecide(world.readings, world.arms, cfg.allowKill, FaultOf(r))
      ensures |world.killLog| == |old(world.killLog)| + |world.kills|
      ensures r.Ok? ==> killedId == Some(cfg.explicit) && SeenDead(world.looks, cfg, world.kills[0], event.workerId, world.tick)
      ensures r.Ok? ==> Leaves(markers, names + MarkerTrail(stage, cfg.scheduler.V2?) + [WorkerTerminated])
    {
      var _ :- ObserveMarker(stage, event, names);
      var _ :- Kill(event);
      ghost var looks := world.looks;
      var down := WaitForTerminated(cfg.explicit, event.workerId);
      MoreLooksEvidence(world.kills[0], cfg, world.arms[0], world.readings, looks, world.looks);
      if down.Raised? {
        return Raised(down.fault);
      }
      assert DownAfter(world.looks[|world.looks| - 1], cfg, world.kills[0], event.workerId);
      Mark([WorkerTerminated], names + MarkerTrail(stage, cfg.scheduler.V2?));
      return Ok(());
    }

    /** Starts one survivor and, once it is back in service, takes the recovery observer's answer. */
    method AskSurvivor(w: WorkerContainer, oldWorker: string, oldToken: int) returns (r: Asked)
      requires 0.0 < cfg.timeout && w in workersBefore && w.containerId in stoppedIds && w.containerId != cfg.explicit
      requires KillKept(cfg, killedId, world.kills, world.arms, world.readings, world.looks)
      modifies world`now, world`tick, world`looks, world`naps, world`starts, world`takeovers
      ensures old(world.looks) < world.looks && world.tick >= old(world.tick)
      ensures LooksAt(world.looks, |old(world.looks)|, w.containerId, old(world.tick), world.tick)
      ensures KillKept(cfg, killedId, world.kills, world.arms, world.readings, world.looks)
      ensures old(world.starts) <= world.starts
      ensures ActsOn(world.starts, |old(world.starts)|, w.containerId, old(world.tick), world.tick)
      ensures r.NotStarted? ==> world.takeovers == old(world.takeovers)
      ensures r.Observed? ==>
                && world.tick > old(world.tick)
                && world.takeovers == old(world.takeovers) + [Takeover(world.tick - 1, oldWorker, oldToken, r.answer)]
                && world.looks[|world.looks| - 1].tick + 1 == world.tick - 1
                && BackInService(world.looks[|world.looks| - 1], cfg.project, w.containerId, Some(w.workerId))
      ensures r.Observed? && r.answer.Ok? ==>
                Heard(world.looks, world.takeovers, cfg, Crew(workersBefore, stoppedIds), old(world.tick),
                  oldWorker, oldToken, r.answer.value, world.tick)
    {
      hide KillKept, KillEvidence, RestoreIdentity, Startable;
      ghost var looks := world.looks;
      var up := StartAndWait(w.containerId, Some(w.workerId));
      KillStillKept(cfg, killedId, world.kills, world.arms, world.readings, looks, world.looks);
      if up.Raised? {
        return NotStarted(up.fault);
      }
      ghost var l := world.looks[|world.looks| - 1];
      assert SurvivorUp(l, cfg, Crew(workersBefore, stoppedIds));
      var answer := world.WaitForRecovery(oldWorker, oldToken);
      ghost var v := world.takeovers[|world.takeovers| - 1];
      assert l in world.looks && Answered(world.looks, cfg, Crew(workersBefore, stoppedIds), old(world.tick), v);
      r := Observed(answer);
    }

    /** Starts the stopped survivors one by one until one yields takeover evidence; never the killed container. */
    method RecoverWithSurvivors(oldWorker: string, oldToken: int) returns (r: Outcome<RecoveryEvidence>)
      requires 0.0 < cfg.timeout && KillKept(cfg, killedId, world.kills, world.arms, world.readings, world.looks)
      requires DownSinceKill(cfg, world.kills, world.starts, world.tick)
      modifies world`now, world`tick, world`looks, world`naps, world`starts, world`takeovers
      ensures old(world.looks) <= world.looks
      ensures r.Ok? ==> Heard(world.looks, world.takeovers, cfg, Crew(workersBefore, stoppedIds), old(world.tick),
                          oldWorker, oldToken, r.value, world.tick)
      ensures r.Raised? ==>
                || (AllSilent(world.looks, world.takeovers, cfg, Crew(workersBefore, stoppedIds), |workersBefore|)
                    && r.fault == NotRun(if Remaining(cfg, Crew(workersBefore, stoppedIds), |workersBefore|)
                                         then NoTakeoverFromSurvivors else NoStoppedSurvivor))
                || AnswerEnds(world.takeovers, |old(world.takeovers)|, r.fault)
                || StartEnds(world.looks, world.takeovers, |old(world.takeovers)|, cfg, Crew(workersBefore, stoppedIds))
      ensures KillKept(cfg, killedId, world.kills, world.arms, world.readings, world.looks)
      ensures DownSinceKill(cfg, world.kills, world.starts, world.tick) && world.tick >= old(world.tick)
      ensures old(world.starts) <= world.starts && OnlySurvivors(cfg, stoppedIds, world.starts, |old(world.starts)|)
    {
      hide KillKept, Heard, Silent, AllSilent, RestoreIdentity;
      ghost var crew := Crew(workersBefore, stoppedIds);
      var found := false;
      var i := 0;
      NoneAsked(world.looks, world.takeovers, cfg, crew);
      while i < |workersBefore|
        invariant 0 <= i <= |workersBefore|
        invariant KillKept(cfg, killedId, world.kills, world.arms, world.readings, world.looks)
        invariant DownSinceKill(cfg, world.kills, world.starts, world.tick) && world.tick >= old(world.tick)
        invariant old(world.looks) <= world.looks
        invariant old(world.starts) <= world.starts && OnlySurvivors(cfg, stoppedIds, world.starts, |old(world.starts)|)
        invariant old(world.takeovers) <= world.takeovers && TakenBefore(world.takeovers, |old(world.takeovers)|, world.tick)
        invariant AllSilent(world.looks, world.takeovers, cfg, crew, i) && (found <==> Remaining(cfg, crew, i))
      {
        var w := workersBefore[i];
        if w.containerId == cfg.explicit || w.containerId !in stoppedIds {
          SilentNext(world.looks, world.takeovers, world.looks, world.takeovers, cfg, crew, i);
          i := i + 1;
          continue;
        }
        found := true;
        ghost var from, looks, takeovers := world.tick, world.looks, world.takeovers;
        var asked := AskSurvivor(w, oldWorker, oldToken);
        if asked.NotStarted? {
          assert Survives(w, cfg, crew);
          return Raised(asked.fault);
        }
        r := asked.answer;
        if r.Ok? {
          MoreLooksHeard(world.looks, world.looks, world.takeovers, cfg, crew, from, old(world.tick),
            oldWorker, oldToken, r.value, world.tick);
          return;
        }
        if r.fault.Timeout? {
          return Raised(NotRun(NoTakeoverFromSurvivors));
        }
        if r.fault != NotRun(TakeoverNotObserved) {
          return;
        }
        SilentNow(world.looks, world.takeovers, cfg, w);
        SilentNext(looks, takeovers, world.looks, world.takeovers, cfg, crew, i);
        i := i + 1;
      }
      return Raised(NotRun(if found then NoTakeoverFromSurvivors else NoStoppedSurvivor));
    }

    method ReleaseControl() returns (r: Outcome<()>)
      requires controlId.Some?
      modifies world`now, world`tick, world`releases
      ensures |world.releases| == |old(world.releases)| + 1 && old(world.releases) <= world.releases
      ensures var last := world.releases[|old(world.releases)|];
              last.tick == old(world.tick) && last.controlId == controlId.value && (last.released == Ok(true) <==> r.Ok?)
      ensures world.tick == old(world.tick) + 1
      ensures r.Raised? ==>
                var last := world.releases[|old(world.releases)|].released;
                r.fault == if last.Raised? then last.fault else Acceptance(ReleaseNotAcknowledged)
    {
      var released :- world.Release(controlId.value);
      return if released then Ok(()) else Raised(Acceptance(ReleaseNotAcknowledged));
    }

    /** Releases the armed control, unless its id is empty. */
    method ReleaseArmed() returns (r: Outcome<()>)
      requires ControlKept(controlId, world.arms, world.tick) && controlId.Some? && world.releases == [] && !controlReleased
      modifies this`controlReleased, world`now, world`tick, world`releases
      ensures ReleaseKept(controlId, controlReleased, world.releases, world.arms) && ReleasedBy(world.releases, world.tick)
      ensures world.tick >= old(world.tick)
      ensures r.Ok? ==> (controlReleased <==> controlId.value != "")
    {
      if controlId.value != "" {
        var _ :- ReleaseControl();
        controlReleased := true;
      }
      return Ok(());
    }

    /** Proves that a survivor took the turn over. */
    method ProveTakeover(event: StageEvent, oldToken: int) returns (r: Outcome<RecoveryEvidence>)
      requires 0.0 < cfg.timeout && KillKept(cfg, killedId, world.kills, world.arms, world.readings, world.looks)
      requires DownSinceKill(cfg, world.kills, world.starts, world.tick) && world.kills != []
      modifies world`now, world`tick, world`looks, world`naps, world`starts, world`takeovers
      ensures KillKept(cfg, killedId, world.kills, world.arms, world.readings, world.looks)
      ensures DownSinceKill(cfg, world.kills, world.starts, world.tick) && world.tick >= old(world.tick)
      ensures old(world.looks) <= world.looks
      ensures r.Ok? ==> Convinced(world.looks, world.takeovers, cfg, Crew(workersBefore, stoppedIds), old(world.tick),
                          event, oldToken, r.value, world.tick)
    {
      r := RecoverWithSurvivors(event.workerId, oldToken);
      if r.Ok? {
        var _ :- ValidateRecovery(r.value, event.workerId, oldToken, cfg.explicit, cfg.project, !event.stage.Enqueue?);
      }
    }

    /** Records the takeover and verifies the single committed turn. */
    method RecordRecovery(stage: Stage, recovery: RecoveryEvidence, ghost names: seq<MarkerName>) returns (r: Outcome<()>)
      requires Leaves(markers, names + [WorkerTerminated])
      requires Convincing(cfg, stage, Crew(workersBefore, stoppedIds), world.kills, world.arms, world.processings,
                 world.looks, world.takeovers, recovery, world.tick)
      modifies this`markers, world`now, world`tick, world`verdicts
      ensures world.tick >= old(world.tick)
      ensures r.Ok? ==> Leaves(markers, names + TrailFromKill(stage))
      ensures r.Ok? ==> Proven(cfg, stage, Crew(workersBefore, stoppedIds), world.kills, world.arms, world.processings,
                          world.looks, world.takeovers, world.verdicts)
    {
      ghost var trail := names + [WorkerTerminated];
      Mark(TakeoverTrail(stage), trail);
      var _ :- world.VerifyFinal(recovery);
      assert world.verdicts[|world.verdicts| - 1] in world.verdicts;
      Mark(FinalTrail(stage), trail + TakeoverTrail(stage));
      assert trail + TakeoverTrail(stage) + FinalTrail(stage) == names + TrailFromKill(stage);
      return Ok(());
    }

    /** Isolates the target and arms the stage's control; the old fencing token comes with the event. */
    method ArmCase(stage: Stage, target: WorkerContainer) returns (r: Outcome<(StageEvent, int)>)
      requires 0.0 < cfg.timeout && StopsKept(stoppedIds, workersBefore, world.stops) && controlId.None?
      requires world.arms == [] && world.starts == [] && world.processings == [] && stoppedIds == [] && target.containerId == cfg.explicit
      requires Leaves(markers, [PreflightWorkersVerified])
      modifies this`ident, this`stoppedIds, this`controlId, this`markers
      modifies world`now, world`tick, world`stops, world`arms, world`looks, world`naps, world`starts, world`processings
      modifies world`published
      ensures forall i :: 0 <= i < |world.starts| ==> world.starts[i].tick < world.tick
      ensures r.Ok? ==> r.value.0.stage == stage && r.value.1 == OldToken(stage, world.processings)
      ensures StopsKept(stoppedIds, workersBefore, world.stops) && ControlKept(controlId, world.arms, world.tick)
      ensures ArmsDecide(world.arms, FaultOf(r)) && TurnsDecide(world.processings, FaultOf(r))
      ensures ArmedAlone(workersBefore, world.stops, Some(cfg.explicit), world.arms) && world.tick >= old(world.tick)
      ensures ident == old(ident).(inboundId := ident.inboundId, sessionId := ident.sessionId)
      ensures r.Ok? ==> ArmedWith(r.value.0, controlId, world.arms, world.tick) && Leaves(markers, TrailToArming(stage, cfg.scheduler.V2?))
      ensures r.Ok? && cfg.scheduler.V2? ==> !Blank(ident.inboundId) && !Blank(ident.sessionId)
    {
      if stage.Enqueue? {
        var event :- ArmAtEnqueue(target);
        return Ok((event, 0));
      }
      var armed :- ArmAtProcessing(stage, target);
      return Ok((armed.0, armed.1.fencingToken));
    }

    /** The takeover and its final verification, once the killed container was seen down. */
    method ProveRecovery(event: StageEvent, oldToken: int, ghost names: seq<MarkerName>) returns (r: Outcome<()>)
      requires 0.0 < cfg.timeout && KillKept(cfg, killedId, world.kills, world.arms, world.readings, world.looks)
      requires DownSinceKill(cfg, world.kills, world.starts, world.tick) && world.kills != []
      requires world.arms != [] && world.arms[0].event == event && oldToken == OldToken(event.stage, world.processings)
      requires SeenDead(world.looks, cfg, world.kills[0], event.workerId, world.tick)
      requires Leaves(markers, names + [WorkerTerminated])
      modifies this`markers
      modifies world`now, world`tick, world`looks, world`naps, world`starts, world`takeovers, world`verdicts
      ensures KillKept(cfg, killedId, world.kills, world.arms, world.readings, world.looks)
      ensures DownSinceKill(cfg, world.kills, world.starts, world.tick) && world.tick >= old(world.tick)
      ensures r.Ok? ==> Leaves(markers, names + TrailFromKill(event.stage))
      ensures r.Ok? ==> Proven(cfg, event.stage, Crew(workersBefore, stoppedIds), world.kills, world.arms, world.processings,
                          world.looks, world.takeovers, world.verdicts)
    {
      var recovery := ProveTakeover(event, oldToken);
      if recovery.Raised? {
        r := Raised(recovery.fault);
      } else {
        MoreLooksDead(old(world.looks), world.looks, cfg, world.kills[0], event.workerId, old(world.tick));
        r := RecordRecovery(event.stage, recovery.value, names);
      }
    }

    /** Releases the control and proves the recovery. */
    method ReleaseAndProve(event: StageEvent, oldToken: int, ghost names: seq<MarkerName>) returns (r: Outcome<()>)
      requires 0.0 < cfg.timeout && KillKept(cfg, killedId, world.kills, world.arms, world.readings, world.looks)
      requires DownSinceKill(cfg, world.kills, world.starts, world.tick) && world.kills != []
      requires ArmedWith(event, controlId, world.arms, world.tick) && oldToken == OldToken(event.stage, world.processings)
      requires SeenDead(world.looks, cfg, world.kills[0], event.workerId, world.tick)
      requires Leaves(markers, names + [WorkerTerminated]) && world.releases == [] && !controlReleased
      modifies this`markers, this`controlReleased
      modifies world`now, world`tick, world`looks, world`naps, world`starts, world`takeovers, world`verdicts, world`releases
      ensures KillKept(cfg, killedId, world.kills, world.arms, world.readings, world.looks)
      ensures DownSinceKill(cfg, world.kills, world.starts, world.tick) && world.tick >= old(world.tick)
      ensures ReleaseKept(controlId, controlReleased, world.releases, world.arms) && ReleasedBy(world.releases, world.tick)
      ensures r.Ok? ==> (controlReleased <==> controlId.value != "") && Leaves(markers, names + TrailFromKill(event.stage))
      ensures r.Ok? ==> Proven(cfg, event.stage, Crew(workersBefore, stoppedIds), world.kills, world.arms, world.processings,
                          world.looks, world.takeovers, world.verdicts)
    {
      hide Proven, KillKept, SeenDead, Leaves, ReleaseKept, OldToken;
      r := ReleaseArmed();
      if r.Ok? {
        DeadLater(world.looks, cfg, world.kills[0], event.workerId, old(world.tick), world.tick);
        r := ProveRecovery(event, oldToken, names);
      }
    }

    /** From the armed control to the recorded recovery. */
    method KillAndProve(stage: Stage, event: StageEvent, oldToken: int) returns (r: Outcome<()>)
      requires 0.0 < cfg.timeout && ArmedWith(event, controlId, world.arms, world.tick)
      requires ControlKept(controlId, world.arms, world.tick)
      requires event.stage == stage && oldToken == OldToken(stage, world.processings)
      requires Leaves(markers, TrailToArming(stage, cfg.scheduler.V2?))
      requires world.readings == []
      requires world.kills == [] && killedId.None? && world.releases == [] && !controlReleased
      requires forall i :: 0 <= i < |world.starts| ==> world.starts[i].tick < world.tick
      modifies this`markers, this`killedId, this`controlReleased
      modifies world`now, world`tick, world`looks, world`starts, world`kills, world`readings, world`releases, world`naps
      modifies world`takeovers, world`verdicts, world`killLog
      ensures KillKept(cfg, killedId, world.kills, world.arms, world.readings, world.looks)
      ensures DownSinceKill(cfg, world.kills, world.starts, world.tick)
      ensures ReleaseKept(controlId, controlReleased, world.releases, world.arms) && ReleasedBy(world.releases, world.tick)
      ensures world.tick >= old(world.tick)
      ensures ReadingsDecide(world.readings, world.arms, cfg.allowKill, FaultOf(r))
      ensures |world.killLog| == |old(world.killLog)| + |world.kills|
      ensures r.Ok? ==> Leaves(markers, Trail(stage, cfg.scheduler.V2?))
      ensures r.Ok? ==> killedId == Some(cfg.explicit) && (controlReleased <==> controlId.value != "")
      ensures r.Ok? ==> Proven(cfg, stage, Crew(workersBefore, stoppedIds), world.kills, world.arms, world.processings,
                          world.looks, world.takeovers, world.verdicts)
    {
      hide Proven, SeenDead, KillEvidence, OldToken;
      r := KillAtMarker(stage, event, TrailToArming(stage, cfg.scheduler.V2?));
      if r.Ok? {
        r := ReleaseAndProve(event, oldToken, TrailToMarker(stage, cfg.scheduler.V2?));
      }
    }

    /** What the `try` block leaves for the `finally` block, however it was left. */
    ghost predicate CaseKept()
      reads this, world
    {
      && (killedId.Some? ==> InPool(workersBefore, cfg.explicit)) && PoolListed(workersBefore, world.listings)
      && ArmedAlone(workersBefore, world.stops, Some(cfg.explicit), world.arms)
      && StopsKept(stoppedIds, workersBefore, world.stops) && ControlKept(controlId, world.arms, world.tick)
      && KillKept(cfg, killedId, world.kills, world.arms, world.readings, world.looks)
      && DownSinceKill(cfg, world.kills, world.starts, world.tick)
      && ReleaseKept(controlId, controlReleased, world.releases, world.arms) && ReleasedBy(world.releases, world.tick)
    }

    /** The `try` block once the pool is known: arm, kill and prove the recovery. */
    method Proceed(stage: Stage, target: WorkerContainer) returns (r: Outcome<()>)
      requires 0.0 < cfg.timeout && stoppedIds == [] && Leaves(markers, [PreflightWorkersVerified])
      requires controlId.None? && killedId.None? && !controlReleased && target.containerId == cfg.explicit
      requires DistinctPool(workersBefore) && InPool(workersBefore, cfg.explicit) && PoolListed(workersBefore, world.listings)
      requires world.stops == [] && world.starts == [] && world.arms == [] && world.kills == [] && world.releases == []
      requires world.readings == [] && world.processings == []
      modifies this`ident, this`controlId, this`stoppedIds, this`markers, this`killedId, this`controlReleased
      modifies world`now, world`tick, world`looks, world`stops, world`starts, world`kills, world`arms, world`readings
      modifies world`releases, world`naps, world`processings, world`takeovers, world`verdicts, world`killLog
      modifies world`published
      ensures RecordDecides(world.arms, world.processings, world.readings, cfg.allowKill, FaultOf(r))
      ensures |world.killLog| == |old(world.killLog)| + |world.kills|
      ensures r.Ok? ==> Proven(cfg, stage, Crew(workersBefore, stoppedIds), world.kills, world.arms, world.processings,
                          world.looks, world.takeovers, world.verdicts)
      ensures CaseKept()
      ensures ident == old(ident).(inboundId := ident.inboundId, sessionId := ident.sessionId)
      ensures r.Ok? ==> Leaves(markers, Trail(stage, cfg.scheduler.V2?))
      ensures r.Ok? ==> killedId == Some(cfg.explicit) && controlId.Some? && (controlReleased <==> controlId.value != "")
      ensures r.Ok? && cfg.scheduler.V2? ==> !Blank(ident.inboundId) && !Blank(ident.sessionId)
    {
      hide Proven, Leaves, PoolListed, RecordDecides, ArmsDecide, TurnsDecide, ReadingsDecide, InPool, DistinctPool;
      hide StopsKept, ArmedAlone, KillKept, DownSinceKill, ReleaseKept, ReleasedBy, ControlIsArmed, OldToken;
      NothingStopped(workersBefore, Some(cfg.explicit), world.tick);
      var armed := ArmCase(stage, target);
      if armed.Raised? {
        r := Raised(armed.fault);
        NothingKilled(cfg, controlId, world.arms, world.readings, world.looks, world.starts, world.tick);
        WhileArming(world.arms, world.processings, cfg.allowKill, FaultOf(r));
      } else {
        r := KillAndProve(stage, armed.value.0, armed.value.1);
        AfterArming(world.arms, world.processings, world.readings, cfg.allowKill, FaultOf(r));
      }
    }

    /** The `try` block of `run_case`, left normally or by a fault. */
    method Attempt(stage: Stage) returns (r: Outcome<()>)
      requires 0.0 < cfg.timeout && workersBefore == [] && stoppedIds == [] && markers == []
      requires controlId.None? && killedId.None? && !controlReleased
      requires world.stops == [] && world.starts == [] && world.arms == [] && world.kills == [] && world.releases == []
      requires world.readings == [] && world.processings == []
      requires world.setups == [] && world.looks == [] && world.listings == []
      modifies this`ident, this`controlId, this`workersBefore, this`stoppedIds, this`markers, this`killedId
      modifies this`controlReleased
      modifies world`now, world`tick, world`looks, world`stops, world`starts, world`kills, world`arms, world`readings
      modifies world`releases, world`naps, world`listings, world`processings, world`takeovers, world`verdicts, world`killLog
      modifies world`published, world`setups, world`journal
      ensures old(world.journal) <= world.journal && OnlyListings(world.journal, |old(world.journal)|)
      ensures RecordDecides(world.arms, world.processings, world.readings, cfg.allowKill, FaultOf(r))
      ensures |world.killLog| == |old(world.killLog)| + |world.kills|
      ensures r.Ok? ==> Proven(cfg, stage, Crew(workersBefore, stoppedIds), world.kills, world.arms, world.processings,
                          world.looks, world.takeovers, world.verdicts)
      ensures CaseKept()
      ensures ident == old(ident).(inboundId := ident.inboundId, sessionId := ident.sessionId)
      ensures r.Ok? ==> Leaves(markers, Trail(stage, cfg.scheduler.V2?))
      ensures r.Ok? ==> killedId == Some(cfg.explicit) && controlId.Some? && (controlReleased <==> controlId.value != "")
      ensures r.Ok? && cfg.scheduler.V2? ==> !Blank(ident.inboundId) && !Blank(ident.sessionId)
    {
      hide Proven, Leaves, PoolListed, RecordDecides, DistinctPool, InPool;
      hide StopsKept, ArmedAlone, KillKept, DownSinceKill, ReleaseKept, ReleasedBy, ControlKept;
      var target := Preflight(stage);
      if target.Ok? {
        r := Proceed(stage, target.value);
      } else {
        r := Raised(target.fault);
        BeforeArming(cfg.allowKill, FaultOf(r));
        NothingStopped(workersBefore, Some(cfg.explicit), world.tick);
        NothingKilled(cfg, controlId, world.arms, world.readings, world.looks, world.starts, world.tick);
      }
    }

    // ----- the finally block

    /** Releases a control that is armed but not yet acknowledged as released. */
    method ReleaseLeftover()
      requires ReleaseKept(controlId, controlReleased, world.releases, world.arms) && ReleasedBy(world.releases, world.tick)
      requires ControlKept(controlId, world.arms, world.tick)
      modifies this`controlReleased, world`now, world`tick, world`releases
      ensures ReleasesDone() && world.tick >= old(world.tick)
      ensures forall i :: 0 <= i < |world.releases| ==> world.releases[i].tick < world.tick
      ensures old(controlReleased) ==> controlReleased && world.releases == old(world.releases)
    {
      if controlId.Some? && controlId.value != "" && !controlReleased {
        var released := ReleaseControl();
        if released.Ok? {
          controlReleased := true;
        }
      }
    }

    /** Every release names the armed control; a non-empty armed id was tried, an empty one never. */
    ghost predicate ReleasesDone()
      reads this`controlId, this`controlReleased, world`releases, world`arms
    {
      && |world.releases| <= 2
      && (forall i :: 0 <= i < |world.releases| ==>
            && controlId == Some(world.releases[i].controlId) && world.arms != []
            && world.arms[0].tick < world.releases[i].tick)
      && (world.releases != [] <==> controlId.Some? && controlId.value != "")
      && (forall i :: 0 <= i < |world.releases| && world.releases[i].released == Ok(true) ==> i == |world.releases| - 1)
      && (controlReleased <==> world.releases != [] && world.releases[|world.releases| - 1].released == Ok(true))
    }

    /** Up to four attempts at the case's own cleanup, stopping at the first that succeeds. */
    method CleanupWithRetry() returns (ok: bool)
      requires world.cleanups == []
      modifies world`now, world`tick, world`cleanups, world`naps
      ensures 1 <= |world.cleanups| <= 4 && world.tick >= old(world.tick)
      ensures forall i :: 0 <= i < |world.cleanups| ==> old(world.tick) <= world.cleanups[i].tick < world.tick
      ensures forall i :: 0 <= i < |world.cleanups| - 1 ==> !world.cleanups[i].ok
      ensures ok <==> world.cleanups[|world.cleanups| - 1].ok
      ensures !ok ==> |world.cleanups| == 4
      ensures |world.naps| == |old(world.naps)| + |world.cleanups| - 1
      ensures forall i :: 0 <= i < |world.cleanups| - 1 ==> world.naps[|old(world.naps)| + i].seconds == CLEANUP_DELAYS[i]
    {
      var delays := [0.0, 0.5, 1.0, 2.0];
      for i := 0 to |delays|
        invariant |world.naps| == |old(world.naps)| + if i == 0 then 0 else i - 1
        invariant forall j :: 0 <= j < i - 1 ==> world.naps[|old(world.naps)| + j].seconds == CLEANUP_DELAYS[j]
        invariant |world.cleanups| == i && world.tick >= old(world.tick)
        invariant forall j :: 0 <= j < i ==> old(world.tick) <= world.cleanups[j].tick < world.tick && !world.cleanups[j].ok
      {
        if delays[i] > 0.0 {
          world.Sleep(delays[i]);
        }
        var cleaned := world.CleanupCase();
        if cleaned.Ok? {
          return true;
        }
      }
      return false;
    }

    /** From `from` on the container was started, or was looked at and could not or need not be. */
    ghost predicate Tried(id: string, from: nat)
      reads world`looks, world`starts, this`workersBefore
    {
      || (exists a :: a in world.starts && a.id == id && a.tick >= from)
      || (exists l :: l in world.looks && l.id == id && l.tick >= from
                      && !Startable(l, cfg.project, id, PreflightWorkerId(workersBefore, id)))
    }

    /** From place `n` of the looks on the container was brought back, under its preflight worker id. */
    ghost predicate Restored(id: string, n: nat)
      reads world`looks, this`workersBefore
    {
      ServedAgain(world.looks, n, id, cfg.project, PreflightWorkerId(workersBefore, id))
    }

    /** Tries to bring every listed container back, last first, whatever happens to the others. */
    method Restore(ids: seq<string>) returns (all: bool)
      requires 0.0 < cfg.timeout && DistinctIds(ids)
      modifies world`now, world`tick, world`looks, world`naps, world`starts
      ensures old(world.looks) <= world.looks && world.tick >= old(world.tick)
      ensures old(world.starts) <= world.starts
      ensures forall i :: |old(world.starts)| <= i < |world.starts| ==> world.starts[i].id in ids && world.starts[i].tick >= old(world.tick)
      ensures forall i :: |old(world.looks)| <= i < |world.looks| ==> world.looks[i].tick >= old(world.tick)
      ensures forall id :: id in ids ==> Tried(id, old(world.tick))
      ensures all <==> forall id :: id in ids ==> Restored(id, |old(world.looks)|)
    {
      hide ServedAgain, BackInService, PreflightWorkerId;
      all := true;
      var n := |ids|;
      while n > 0
        invariant 0 <= n <= |ids|
        invariant old(world.looks) <= world.looks && world.tick >= old(world.tick)
        invariant old(world.starts) <= world.starts
        invariant forall i :: |old(world.starts)| <= i < |world.starts| ==> world.starts[i].id in ids && world.starts[i].tick >= old(world.tick)
        invariant forall i :: |old(world.looks)| <= i < |world.looks| ==>
                    world.looks[i].id in ids[n..] && world.looks[i].tick >= old(world.tick)
        invariant forall j :: n <= j < |ids| ==> Tried(ids[j], old(world.tick))
        invariant all <==> forall j :: n <= j < |ids| ==> Restored(ids[j], |old(world.looks)|)
      {
        n := n - 1;
        ghost var before := world.looks;
        var up := RestoreOne(ids[n], |old(world.looks)|, old(world.tick));
        assert ids[n..] == [ids[n]] + ids[n + 1..];
        forall j | n < j < |ids|
          ensures Restored(ids[j], |old(world.looks)|) <==>
            ServedAgain(before, |old(world.looks)|, ids[j], cfg.project, PreflightWorkerId(workersBefore, ids[j]))
        {
          ServedStill(before, world.looks, |old(world.looks)|, ids[j], cfg.project, PreflightWorkerId(workersBefore, ids[j]));
        }
        all := all && up;
      }
    }

    /** Tries to bring one container back that was not looked at since place `n`. */
    method RestoreOne(id: string, ghost n: nat, ghost from: nat) returns (up: bool)
      requires 0.0 < cfg.timeout && n <= |world.looks| && from <= world.tick
      requires forall i :: n <= i < |world.looks| ==> world.looks[i].id != id
      modifies world`now, world`tick, world`looks, world`naps, world`starts
      ensures old(world.looks) <= world.looks && world.tick >= old(world.tick)
      ensures old(world.starts) <= world.starts
      ensures LooksAt(world.looks, |old(world.looks)|, id, from, world.tick)
      ensures ActsOn(world.starts, |old(world.starts)|, id, from, world.tick)
      ensures Tried(id, from) && (forall other :: old(Tried(other, from)) ==> Tried(other, from))
      ensures up <==> Restored(id, n)
    {
      var r := StartAndWait(id, PreflightWorkerId(workersBefore, id));
      up := r.Ok?;
      ghost var before, started, last := old(world.looks), old(world.starts), |world.looks| - 1;
      assert world.looks[|before|] in world.looks;
      assert |world.starts| > |started| ==> world.starts[|started|] in world.starts;
      assert forall l :: l in before ==> l in world.looks;
      assert forall a :: a in started ==> a in world.starts;
      if up {
        assert n <= |before| < last && world.looks[|before|].id == id;
      } else if Restored(id, n) {
        OnlyLast(world.looks, n, |before|, id, cfg.project, PreflightWorkerId(workersBefore, id));
      }
    }

    // ----- what every case run promises

    /** At most one kill, and only on the evidence of an exact marker and a fresh look. */
    ghost predicate KillGuarded()
      reads world`kills, world`arms, world`readings, world`looks
    {
      && |world.kills| <= 1
      && forall k :: k in world.kills ==>
           exists a :: a in world.arms && KillEvidence(k, cfg, a, world.readings, world.looks)
    }

    /** Every release precedes every cleanup attempt, and those precede `from`. */
    ghost predicate CleanedBefore(from: nat)
      reads world`releases, world`cleanups
    {
      && 1 <= |world.cleanups| <= 4
      && (forall i :: 0 <= i < |world.cleanups| ==> world.cleanups[i].tick < from)
      && (forall i, j :: 0 <= i < |world.releases| && 0 <= j < |world.cleanups| ==>
            world.releases[i].tick < world.cleanups[j].tick)
    }

    /** A killed container is not started between its kill and `from`. */
    ghost predicate DownUntil(from: nat)
      reads world`kills, world`starts
    {
      forall k, i :: k in world.kills && 0 <= i < |world.starts| && world.starts[i].id == k.id ==>
        world.starts[i].tick < k.tick || from <= world.starts[i].tick
    }

    /** Whatever was stopped or killed gets a restore attempt from `from` on, against a worker id known from preflight. */
    ghost predicate RestoreCovers(from: nat)
      reads this`workersBefore, world`stops, world`kills, world`looks, world`starts
    {
      && (forall i :: 0 <= i < |world.stops| && world.stops[i].ok ==>
            Identified(workersBefore, world.stops[i].id) && Tried(world.stops[i].id, from))
      && (forall k :: k in world.kills && k.ok ==> Identified(workersBefore, k.id) && Tried(k.id, from))
    }

    /** The same containers, each seen back in service under its preflight worker id. */
    ghost predicate AllRestored(n: nat)
      reads this`workersBefore, world`stops, world`kills, world`looks
    {
      && (forall i :: 0 <= i < |world.stops| && world.stops[i].ok ==> Restored(world.stops[i].id, n))
      && (forall k :: k in world.kills && k.ok ==> Restored(k.id, n))
    }

    /** The first half of the `finally` block: release, then clean up. */
    method Settle() returns (cleaned: bool)
      requires world.cleanups == [] && ControlKept(controlId, world.arms, world.tick)
      requires ReleaseKept(controlId, controlReleased, world.releases, world.arms) && ReleasedBy(world.releases, world.tick)
      modifies this`controlReleased, world`now, world`tick, world`releases, world`cleanups, world`naps
      ensures old(controlReleased) ==> controlReleased && world.releases == old(world.releases)
      ensures ReleasesDone() && CleanedBefore(world.tick) && world.tick >= old(world.tick)
      ensures cleaned <==> world.cleanups[|world.cleanups| - 1].ok
    {
      ReleaseLeftover();
      cleaned := CleanupWithRetry();
    }

    /** What the restore loop goes through: the stopped containers and the killed one. */
    ghost predicate Owed(id: string)
      reads this`stoppedIds, this`killedId
    {
      id in stoppedIds || killedId == Some(id)
    }

    /** The second half: restore what was stopped or killed; `all` says whether every restore succeeded. */
    method RestoreStopped() returns (all: bool)
      requires 0.0 < cfg.timeout && KillKept(cfg, killedId, world.kills, world.arms, world.readings, world.looks)
      requires DownSinceKill(cfg, world.kills, world.starts, world.tick) && DistinctIds(stoppedIds)
      modifies world`now, world`tick, world`naps, world`looks, world`starts
      ensures KillKept(cfg, killedId, world.kills, world.arms, world.readings, world.looks)
      ensures DownUntil(old(world.tick)) && old(world.looks) <= world.looks
      ensures forall id :: Owed(id) ==> Tried(id, old(world.tick))
      ensures forall i :: |old(world.looks)| <= i < |world.looks| ==> world.looks[i].tick >= old(world.tick)
      ensures all <==> forall id :: Owed(id) ==> Restored(id, |old(world.looks)|)
    {
      var ids := stoppedIds;
      if killedId.Some? && killedId.value !in ids {
        ids := ids + [killedId.value];
      }
      assert forall id :: Owed(id) <==> id in ids;
      ghost var looks := world.looks;
      all := Restore(ids);
      if world.kills != [] {
        MoreLooksEvidence(world.kills[0], cfg, world.arms[0], world.readings, looks, world.looks);
      }
    }

    lemma OwedAreCovered(from: nat)
      requires StopsKept(stoppedIds, workersBefore, world.stops)
      requires KillKept(cfg, killedId, world.kills, world.arms, world.readings, world.looks)
      requires killedId.Some? ==> InPool(workersBefore, cfg.explicit)
      requires forall id :: Owed(id) ==> Tried(id, from)
      ensures RestoreCovers(from)
    {
      forall i | 0 <= i < |world.stops| && world.stops[i].ok
        ensures Identified(workersBefore, world.stops[i].id) && Tried(world.stops[i].id, from)
      {
        assert Owed(world.stops[i].id);
        PoolIsKnown(workersBefore, world.stops[i].id);
      }
      forall k | k in world.kills && k.ok
        ensures Identified(workersBefore, k.id) && Tried(k.id, from)
      {
        assert Owed(k.id);
        PoolIsKnown(workersBefore, k.id);
      }
    }

    lemma OwedAreRestored(n: nat)
      requires StopsKept(stoppedIds, workersBefore, world.stops)
      requires KillKept(cfg, killedId, world.kills, world.arms, world.readings, world.looks)
      ensures AllRestored(n) <==> forall id :: Owed(id) ==> Restored(id, n)
    {
      assert forall i :: 0 <= i < |world.stops| && world.stops[i].ok ==> Owed(world.stops[i].id);
      if world.kills != [] {
        assert world.kills[0] in world.kills;
        assert world.kills[0].ok ==> Owed(cfg.explicit) && world.kills[0].id == cfg.explicit;
      }
      if AllRestored(n) {
        forall id | Owed(id)
          ensures Restored(id, n)
        {
          if id in stoppedIds {
            assert StopReturned(world.stops, id);
          }
        }
      }
    }

    /** Fresh identifiers for one case, bound to the invocation's run id. */
    method NewIdentity(stage: Stage) returns (c: CaseIdentity)
      requires cfg.runId.Some? ==> !Blank(cfg.runId.value)
      ensures c.stage == stage && IdentifiedBy(c, cfg)
    {
      var suffix := world.FreshSuffix();
      var tag := world.FreshSuffix();
      var run := if cfg.runId.Some? then cfg.runId.value else "run-" + suffix;
      c := CaseIdentity(stage, "case-" + suffix, run, "fault-" + tag + "-" + suffix,
        "session-" + suffix, "inbound-" + suffix, "message-" + suffix);
      assert !IsSpace("case-"[0]) && c.caseId[0] == 'c';
      assert !IsSpace("run-"[0]) && ("run-" + suffix)[0] == 'r';
      assert !IsSpace("fault-"[0]) && c.tenantId[0] == 'f';
      assert !IsSpace("message-"[0]) && c.messageId[0] == 'm';
    }

    lemma KillIsGuarded()
      requires KillKept(cfg, killedId, world.kills, world.arms, world.readings, world.looks)
      ensures KillGuarded()
    {
      forall k | k in world.kills
        ensures exists a :: a in world.arms && KillEvidence(k, cfg, a, world.readings, world.looks)
      {
        assert world.arms[0] in world.arms;
      }
    }

    /** The whole `finally` block. */
    method Finish() returns (cleaned: bool, restored: bool, ghost from: nat, ghost n: nat)
      requires 0.0 < cfg.timeout && world.cleanups == []
      requires CaseKept()
      modifies this`controlReleased, world`now, world`tick, world`releases, world`cleanups, world`naps
      modifies world`looks, world`starts
      ensures old(controlReleased) ==> controlReleased && world.releases == old(world.releases)
      ensures KillKept(cfg, killedId, world.kills, world.arms, world.readings, world.looks) && ReleasesDone()
      ensures CleanedBefore(from) && DownUntil(from) && RestoreCovers(from)
      ensures cleaned <==> world.cleanups[|world.cleanups| - 1].ok
      ensures restored <==> AllRestored(n)
      ensures forall i :: n <= i < |world.looks| ==> world.looks[i].tick >= from
      ensures old(world.looks) <= world.looks
    {
      hide PoolListed, ArmedAlone, KillKept, ReleaseKept, ReleasedBy, ControlKept, RestoreCovers, AllRestored, DownUntil;
      hide ReleasesDone, Tried, Restored, InPool;
      cleaned := Settle();
      from, n := world.tick, |world.looks|;
      restored := RestoreStopped();
      OwedAreCovered(from);
      OwedAreRestored(n);
    }

    /** An empty case with fresh identifiers. */
    method Reset(stage: Stage)
      requires ValidSettings(cfg)
      modifies this, world
      ensures ident.stage == stage && IdentifiedBy(ident, cfg)
      ensures workersBefore == [] && stoppedIds == [] && markers == []
      ensures controlId.None? && killedId.None? && !controlReleased
      ensures world.stops == [] && world.starts == [] && world.arms == [] && world.kills == [] && world.releases == []
      ensures world.readings == [] && world.processings == []
      ensures world.setups == [] && world.looks == [] && world.listings == []
      ensures world.journal == old(world.journal) + [Began]
      ensures world.cleanups == [] && world.killLog == old(world.killLog)
    {
      ident := NewIdentity(stage);
      controlId, workersBefore, stoppedIds, markers := None, [], [], [];
      killedId, controlReleased := None, false;
      world.BeginCase();
    }

    /** The `finally` block, and what it makes of everything the case did. */
    method Close(stage: Stage, ghost pass: bool) returns (cleaned: bool, restored: bool, ghost from: nat, ghost n: nat)
      requires 0.0 < cfg.timeout && world.cleanups == []
      requires CaseKept()
      requires pass ==> Proven(cfg, stage, Crew(workersBefore, stoppedIds), world.kills, world.arms, world.processings,
                          world.looks, world.takeovers, world.verdicts)
      modifies this`controlReleased, world`now, world`tick, world`releases, world`cleanups, world`naps
      modifies world`looks, world`starts
      ensures old(controlReleased) ==> controlReleased && world.releases == old(world.releases)
      ensures KillGuarded() && ReleasesDone() && CleanedBefore(from) && DownUntil(from) && RestoreCovers(from)
      ensures KillRemembered(cfg, killedId, world.kills)
      ensures cleaned <==> world.cleanups[|world.cleanups| - 1].ok
      ensures restored <==> AllRestored(n)
      ensures forall i :: n <= i < |world.looks| ==> world.looks[i].tick >= from
      ensures pass ==> Proven(cfg, stage, Crew(workersBefore, stoppedIds), world.kills, world.arms, world.processings,
                          world.looks, world.takeovers, world.verdicts)
    {
      hide Proven, StopsKept, PoolListed, ArmedAlone, DownSinceKill, ReleaseKept, ReleasedBy;
      hide AllRestored, RestoreCovers, DownUntil, CleanedBefore, ReleasesDone;
      cleaned, restored, from, n := Finish();
      KillIsGuarded();
      if pass {
        ProofStands(cfg, stage, Crew(workersBefore, stoppedIds), world.kills, world.arms, world.processings,
          old(world.looks), world.takeovers, world.verdicts, world.looks);
      }
    }

    /** A fresh case, through its `try` block; the draft result stands unless the `finally` block fails. */
    method Begin(stage: Stage) returns (draft: StageResult, ghost tried: Outcome<()>)
      requires ValidSettings(cfg)
      modifies this, world
      ensures CaseKept()
      ensures old(world.journal) + [Began] <= world.journal && OnlyListings(world.journal, |old(world.journal)| + 1)
      ensures RecordDecides(world.arms, world.processings, world.readings, cfg.allowKill, FaultOf(tried))
      ensures draft.status.Pass? <==> tried.Ok?
      ensures draft.status.NotRunStatus? <==> tried.Raised? && tried.fault.NotRun?
      ensures world.cleanups == [] && draft.stage == stage
      ensures draft.controlId == controlId && draft.killedContainerId == killedId
      ensures draft.status.Pass? ==> controlReleased || controlId == Some("")
      ensures draft.status.Pass? ==> PassingCase(draft, cfg)
      ensures draft.status.Pass? ==> Proven(cfg, stage, Crew(workersBefore, stoppedIds), world.kills, world.arms, world.processings,
                          world.looks, world.takeovers, world.verdicts)
      ensures |world.killLog| == |old(world.killLog)| + |world.kills|
    {
      Reset(stage);
      var attempt := Attempt(stage);
      tried := attempt;
      var status := match attempt
        case Ok(_) => Pass
        case Raised(NotRun(_)) => NotRunStatus
        case Raised(_) => Fail;
      draft := StageResult(stage, status, ident, markers, controlId, killedId);
    }

    /** One fault-stage case: whatever the outside does, the kill is guarded and the pool is put back. */
    method RunCase(stage: Stage) returns (result: StageResult, ghost course: Course)
      requires ValidSettings(cfg)
      modifies this, world
      ensures ControlIsArmed(controlId, world.arms) && PoolListed(workersBefore, world.listings)
      ensures StopsKept(stoppedIds, workersBefore, world.stops)
      ensures ArmedAlone(workersBefore, world.stops, Some(cfg.explicit), world.arms)
      ensures KillGuarded() && ReleasesDone()
      ensures CleanedBefore(course.from) && DownUntil(course.from) && RestoreCovers(course.from)
      ensures forall i :: course.looks <= i < |world.looks| ==> world.looks[i].tick >= course.from
      ensures result.stage == stage && result.controlId == controlId
      ensures result.killedContainerId == killedId && KillRemembered(cfg, killedId, world.kills)
      ensures RecordDecides(world.arms, world.processings, world.readings, cfg.allowKill, FaultOf(course.tried))
      ensures result.status.Pass? <==>
                course.tried.Ok? && world.cleanups[|world.cleanups| - 1].ok && AllRestored(course.looks)
      ensures result.status.NotRunStatus? <==> course.tried.Raised? && course.tried.fault.NotRun?
      ensures course.tried.Ok? ==> Proven(cfg, stage, Crew(workersBefore, stoppedIds), world.kills, world.arms, world.processings,
                          world.looks, world.takeovers, world.verdicts)
      ensures course.tried.Ok? && controlId != Some("") ==>
                |world.releases| == 1 && world.releases[0].released == Ok(true)
      ensures result.status.Pass? ==> PassingCase(result, cfg)
      ensures old(world.journal) + [Began] <= world.journal && OnlyListings(world.journal, |old(world.journal)| + 1)
      ensures |world.killLog| == |old(world.killLog)| + |world.kills|
    {
      hide Proven, PassingCase, StopsKept, PoolListed, ArmedAlone, KillKept, DownSinceKill, RecordDecides;
      hide KillRemembered, InPool, ReleasedBy, ControlIsArmed, KillGuarded, CleanedBefore, DownUntil, RestoreCovers, AllRestored;
      ghost var tried;
      result, tried := Begin(stage);
      var cleaned, restored;
      ghost var from, n;
      cleaned, restored, from, n := Close(stage, result.status.Pass?);
      course := Course(tried, from, n);
      if result.status.Pass? && !(cleaned && restored) {
        result := result.(status := Fail);
      }
    }

    // ----- the sequence of cases

    /** Refuses a listing that is not the project's own, before anything is started. */
    method CheckIdentities(workers: seq<WorkerContainer>) returns (r: Outcome<()>)
      ensures r.Ok? <==> OwnPool(workers, cfg.project)
      ensures r.Raised? ==> r.fault in {Acceptance(ForeignWorker), Acceptance(DuplicateWorker)}
    {
      var seen: set<string> := {};
      for i := 0 to |workers|
        invariant OwnPool(workers[..i], cfg.project)
        invariant forall id :: id in seen <==> exists j :: 0 <= j < i && workers[j].containerId == id
      {
        var w := workers[i];
        if w.project != cfg.project || !w.service.WorkerService? {
          return Raised(Acceptance(ForeignWorker));
        }
        if Blank(w.workerId) || w.containerId in seen {
          return Raised(Acceptance(DuplicateWorker));
        }
        seen := seen + {w.containerId};
      }
      assert workers[..|workers|] == workers;
      return Ok(());
    }

    /** Starts every listed worker that is not in service, one after the other. */
    method StartListed(workers: seq<WorkerContainer>) returns (r: Outcome<()>)
      requires 0.0 < cfg.timeout && OwnPool(workers, cfg.project)
      modifies world`now, world`tick, world`naps, world`looks, world`starts
      ensures old(world.looks) <= world.looks && old(world.starts) <= world.starts
      ensures StartsListed(world.starts, |old(world.starts)|, workers, cfg.project)
      ensures r.Ok? ==> Served(world.looks, |old(world.looks)|, workers, |workers|, cfg.project)
      ensures r.Raised? ==> r.fault != Timeout && |world.looks| > |old(world.looks)| && !AllServing(workers)
    {
      hide StartsListed, Served;
      NothingStarted(world.starts, world.looks, workers, cfg.project);
      for i := 0 to |workers|
        invariant old(world.looks) <= world.looks && old(world.starts) <= world.starts
        invariant StartsListed(world.starts, |old(world.starts)|, workers, cfg.project)
        invariant Served(world.looks, |old(world.looks)|, workers, i, cfg.project)
      {
        ghost var looks, starts := world.looks, world.starts;
        var w := workers[i];
        if !Serving(w) {
          var up := StartAndWait(w.containerId, Some(w.workerId));
          StartedListed(starts, world.starts, |old(world.starts)|, workers, w, cfg.project);
          if up.Raised? {
            return Raised(if up.fault.Timeout? then NotRun(NotHealthyInTime) else up.fault);
          }
        }
        ServedNext(looks, world.looks, |old(world.looks)|, workers, i, cfg.project);
      }
      return Ok(());
    }

    /** Lists the pool once more and requires it full. */
    method RequireFullPool() returns (r: Outcome<seq<WorkerContainer>>)
      modifies world`now, world`tick, world`naps, world`listings, world`journal
      ensures old(world.listings) < world.listings
      ensures old(world.journal) < world.journal && OnlyListings(world.journal, |old(world.journal)|)
      ensures r.Ok? ==> FullPool(r.value, cfg.project) && world.journal[|world.journal| - 1] == Listed(r)
      ensures var last := world.listings[|world.listings| - 1].workers;
              if r.Ok? then last == r else PoolFault(last, cfg.project, r.fault)
    {
      hide FullPool, AllServing, CleanInventory, IndependentProcesses, FirstOffence, Retained, CrewFault;
      var restored :- ListInventory();
      r := ValidateWorkers(restored, cfg.project, None, 4, true);
      RetainedAll(restored);
      FullIff(restored, cfg.project);
    }

    /** Brings the pool back before the next case: at least four live, independent workers. */
    method EnsureWorkerPool() returns (r: Outcome<seq<WorkerContainer>>)
      requires 0.0 < cfg.timeout
      modifies world`now, world`tick, world`naps, world`looks, world`starts, world`listings, world`journal
      ensures old(world.listings) < world.listings && old(world.starts) <= world.starts
      ensures old(world.journal) < world.journal && OnlyListings(world.journal, |old(world.journal)|)
      ensures r.Ok? ==>
                && FullPool(r.value, cfg.project)
                && world.listings[|world.listings| - 1].workers == r && world.journal[|world.journal| - 1] == Listed(r)
      ensures world.starts != old(world.starts) || r.Ok? ==>
                Repaired(world.listings, |old(world.listings)|, world.starts, |old(world.starts)|, world.looks,
                  |old(world.looks)|, r.Ok?, cfg.project)
      ensures r.Raised? ==> PoolFault(world.listings[|world.listings| - 1].workers, cfg.project, r.fault)
    {
      hide FullPool, AllServing, StartsListed, Served, OwnPool, Repaired;
      var workers :- ListInventory();
      if workers == [] {
        return Raised(NotRun(NoWorkers));
      }
      var own := CheckIdentities(workers);
      if own.Raised? {
        NotOwnNotFull(workers, cfg.project);
        return Raised(own.fault);
      }
      ghost var at := |world.listings| - 1;
      var started := StartListed(workers);
      ghost var listings := world.listings;
      if started.Raised? {
        RepairShown(listings, |old(world.listings)|, world.starts, |old(world.starts)|, world.looks,
          |old(world.looks)|, false, cfg.project, workers, at);
        return Raised(started.fault);
      }
      r := RequireFullPool();
      assert world.listings[at] == listings[at];
      RepairShown(world.listings, |old(world.listings)|, world.starts, |old(world.starts)|, world.looks,
        |old(world.looks)|, r.Ok?, cfg.project, workers, at);
    }

    /** One turn of the sequence: the pool first, unless this is the first case, then the budget, then the case. */
    method NextCase(stage: Stage, first: bool, deadline: real) returns (r: Outcome<StageResult>)
      requires ValidSettings(cfg)
      modifies this, world
      ensures |world.killLog| <= |old(world.killLog)| + 1
      ensures old(world.journal) <= world.journal
      ensures PoolBeforeEach(world.journal, |old(world.journal)|, cfg.project)
      ensures !first && |old(world.journal)| < |world.journal| ==> world.journal[|old(world.journal)|].Listed?
      ensures first ==> (r.Ok? <==> world.journal != old(world.journal)) && (r.Raised? ==> r.fault == NotRun(BudgetExhausted))
      ensures r.Raised? && first ==> world.now >= deadline
      ensures r.Ok? ==> world.journal != old(world.journal)
      ensures r.Ok? ==> r.value.stage == stage && (r.value.status.Pass? ==> PassingCase(r.value, cfg))
    {
      hide Proven, PassingCase, StopsKept, PoolListed, ArmedAlone, KillEvidence, PoolBeforeEach, OnlyListings, FullPool;
      hide RecordDecides, Repaired, KillRemembered, ControlIsArmed, AllServing;
      hide ReleasesDone, CleanedBefore, DownUntil, RestoreCovers, AllRestored;
      ghost var listed: seq<WorkerContainer> := [];
      ghost var before := world.journal;
      NoCaseYet(before, cfg.project);
      if !first {
        var pool := EnsureWorkerPool();
        ListingsAdded(before, world.journal, |before|, cfg.project);
        ListedFirst(before, world.journal);
        if pool.Raised? {
          return Raised(pool.fault);
        }
        listed := pool.value;
      }
      var t := world.Monotonic();
      if deadline - t <= 0.0 {
        return Raised(NotRun(BudgetExhausted));
      }
      ghost var ready := world.journal;
      var result, _ := RunCase(stage);
      CaseAdded(ready, world.journal, |before|, cfg.project, listed);
      return Ok(result);
    }

    /** Runs the selected stages in order, each on a proven pool; at most one kill per case. */
    method RunAll(stages: seq<Stage>) returns (r: Outcome<seq<StageResult>>)
      requires ValidSettings(cfg)
      modifies this, world
      ensures stages == [] || !Distinct(stages) ==> r == Raised(Other) && world.killLog == old(world.killLog)
      ensures |world.killLog| <= |old(world.killLog)| + |stages|
      ensures old(world.journal) <= world.journal && PoolBeforeEach(world.journal, |old(world.journal)|, cfg.project)
      ensures r.Raised? && stages != [] && Distinct(stages) && world.journal == old(world.journal) ==>
                r.fault == NotRun(BudgetExhausted) && world.now >= old(world.now) + cfg.timeout * |stages| as real + 30.0
      ensures r.Ok? ==> |r.value| == |stages|
      ensures r.Ok? ==> forall i :: 0 <= i < |stages| ==>
                r.value[i].stage == stages[i] && (r.value[i].status.Pass? ==> PassingCase(r.value[i], cfg))
    {
      hide PassingCase, Distinct, PoolBeforeEach;
      NoCaseYet(world.journal, cfg.project);
      if stages == [] || !Distinct(stages) {
        return Raised(Other);
      }
      var t := world.Monotonic();
      var deadline := t + (cfg.timeout * |stages| as real + 30.0);
      var results: seq<StageResult> := [];
      while |results| < |stages|
        invariant |results| <= |stages| && |world.killLog| <= |old(world.killLog)| + |results|
        invariant old(world.journal) <= world.journal && PoolBeforeEach(world.journal, |old(world.journal)|, cfg.project)
        invariant results == [] <==> world.journal == old(world.journal)
        invariant forall i :: 0 <= i < |results| ==>
          results[i].stage == stages[i] && (results[i].status.Pass? ==> PassingCase(results[i], cfg))
      {
        ghost var before := world.journal;
        var result := NextCase(stages[|results|], results == [], deadline);
        CasesJoined(before, world.journal, |old(world.journal)|, cfg.project);
        if result.Raised? {
          return Raised(result.fault);
        }
        results := results + [result.value];
      }
      return Ok(results);
    }
  }
}
