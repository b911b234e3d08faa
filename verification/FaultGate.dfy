/** The parent gate: it trusts a fault-stage child report only case by case and marker by marker. */
module FaultGate {
  import opened Text
  import opened FaultStage
  import opened StageRunner

  // ----- the child report, as parsed JSON

  datatype StatusText = PassText | FailText | NotRunText | OtherText

  datatype JsonMarker =
    | NotAMarker
    | MarkerObject(name: Option<MarkerName>, status: StatusText, observedAt: Option<string>)

  datatype JsonIdentity =
    | NoIdentity
    | Identity(runId: Option<string>, caseId: Option<string>, tenantId: Option<string>,
               sessionId: Option<string>, inboundId: Option<string>, messageId: Option<string>)

  datatype StageText = Known(stage: Stage) | Unknown(text: string)

  datatype JsonCase =
    | NotACase
    | CaseObject(stage: Option<StageText>, status: StatusText, identity: JsonIdentity,
                 controlId: Option<string>, killed: Option<string>, markers: Option<seq<JsonMarker>>)

  datatype Value = Word(text: string) | Whole(number: int) | Odd

  /** A parsed timestamp, with or without a zone. */
  datatype Instant = Instant(zoned: bool, at: int)

  /** What a report says of its own origin; `None` for a field that is missing, mistyped or unparsable. */
  datatype Envelope = Envelope(
    schemaVersion: Option<int>, mode: Option<string>, runId: Option<string>, nonceSha256: Option<string>,
    started: Option<Instant>, ended: Option<Instant>, provenance: Option<map<string, Value>>)

  /** What the gate launched the child with: fields and their values, when it binds any. */
  type Launch = Option<seq<(string, Value)>>

  datatype Child = Child(envelope: Envelope, gate: StatusText, productionGate: StatusText, cases: Option<seq<JsonCase>>)

  /** The markers the gate requires of a passing case of each stage. */
  function RequiredMarkers(stage: Stage): seq<MarkerName>
  {
    match stage
    case Enqueue => [
      PreflightWorkersVerified, AcceptancePersisted, ControlArmed, MarkerEntered, WorkerTerminated,
      WorkerSurvivorsObserved, V2ClaimBeforeObserved, TurnSingleContiguousVerified, TurnCommitVerified,
      OutboundIntentVerified]
    case Tool => [
      PreflightWorkersVerified, AcceptancePersisted, TurnProcessingObserved, ControlArmed, MarkerEntered,
      WorkerTerminated, WorkerSurvivorsObserved, StaleTokenRejectionVerified, TurnSingleContiguousVerified,
      TurnCommitVerified, ToolIdempotentExecutionVerified, OutboundIntentVerified, V2AckBeforeExecute]
    case CommitTxnOpen => [
      PreflightWorkersVerified, AcceptancePersisted, TurnProcessingObserved, ControlArmed, MarkerEntered,
      WorkerTerminated, WorkerSurvivorsObserved, StaleTokenRejectionVerified, TurnSingleContiguousVerified,
      TurnCommitVerified, OutboundIntentVerified, V2AckBeforeExecute]
  }

  // ----- marker evidence

  /** The last marker of that name passes. */
  ghost predicate Shown(markers: seq<JsonMarker>, name: MarkerName)
  {
    exists i :: 0 <= i < |markers| && LastOfName(markers, i, name) && markers[i].status.PassText?
  }

  ghost predicate LastOfName(markers: seq<JsonMarker>, i: nat, name: MarkerName)
    requires i < |markers|
  {
    && markers[i].MarkerObject? && markers[i].name == Some(name)
    && forall j :: i < j < |markers| && markers[j].MarkerObject? ==> markers[j].name != Some(name)
  }

  predicate Stamped(m: JsonMarker)
  {
    m.MarkerObject? && !BlankOption(m.observedAt)
  }

  /** Every required marker is shown and every marker is a time-stamped object. */
  ghost predicate MarkersAccepted(c: JsonCase)
    requires c.CaseObject?
  {
    && c.markers.Some?
    && (forall i :: 0 <= i < |c.markers.value| ==> Stamped(c.markers.value[i]))
    && c.stage.Some? && c.stage.value.Known?
    && (forall name :: name in RequiredMarkers(c.stage.value.stage) ==> Shown(c.markers.value, name))
  }

  datatype MarkerError = MarkersMissing | NonObjectMarker | UnknownStage | MissingMarkers | NonPassingMarkers | UnstampedMarkers

  /** `by_name` of `_fault_stage_markers`: the last marker of each name. */
  method IndexMarkers(markers: seq<JsonMarker>) returns (byName: map<MarkerName, JsonMarker>)
    ensures forall name :: name in byName ==>
      exists i :: 0 <= i < |markers| && LastOfName(markers, i, name) && byName[name] == markers[i]
    ensures forall i :: 0 <= i < |markers| && markers[i].MarkerObject? && markers[i].name.Some? ==>
      markers[i].name.value in byName
  {
    byName := map[];
    for k := 0 to |markers|
      invariant forall name :: name in byName ==>
        exists i :: 0 <= i < k && LastOfName(markers[..k], i, name) && byName[name] == markers[i]
      invariant forall i :: 0 <= i < k && markers[i].MarkerObject? && markers[i].name.Some? ==>
        markers[i].name.value in byName
    {
      ghost var before := byName;
      if markers[k].MarkerObject? && markers[k].name.Some? {
        byName := byName[markers[k].name.value := markers[k]];
      }
      forall name | name in byName
        ensures exists i :: 0 <= i < k + 1 && LastOfName(markers[..k + 1], i, name) && byName[name] == markers[i]
      {
        if markers[k].MarkerObject? && markers[k].name == Some(name) {
          assert LastOfName(markers[..k + 1], k, name);
        } else {
          var i :| 0 <= i < k && LastOfName(markers[..k], i, name) && before[name] == markers[i];
          assert LastOfName(markers[..k + 1], i, name);
        }
      }
    }
    assert markers[..|markers|] == markers;
  }

  /** The gate raises no marker error exactly when the case shows its required markers. */
  method FaultStageMarkers(c: JsonCase) returns (errors: seq<MarkerError>)
    requires c.CaseObject?
    ensures errors == [] <==> MarkersAccepted(c)
  {
    if c.markers.None? {
      return [MarkersMissing];
    }
    var markers := c.markers.value;
    if exists i :: 0 <= i < |markers| && markers[i].NotAMarker? {
      return [NonObjectMarker];
    }
    var byName := IndexMarkers(markers);
    if c.stage.None? || c.stage.value.Unknown? {
      return [UnknownStage];
    }
    var required := RequiredMarkers(c.stage.value.stage);
    errors := [];
    if exists name :: name in required && name !in byName {
      errors := errors + [MissingMarkers];
    }
    if exists name :: name in required && name in byName && !byName[name].status.PassText? {
      errors := errors + [NonPassingMarkers];
    }
    if exists i :: 0 <= i < |markers| && !Stamped(markers[i]) {
      errors := errors + [UnstampedMarkers];
    }
    forall name | name in required
      ensures Shown(markers, name) <==> name in byName && byName[name].status.PassText?
    {
      ShownByIndex(markers, byName, name);
    }
  }

  lemma ShownByIndex(markers: seq<JsonMarker>, byName: map<MarkerName, JsonMarker>, name: MarkerName)
    requires forall n :: n in byName ==>
      exists i :: 0 <= i < |markers| && LastOfName(markers, i, n) && byName[n] == markers[i]
    requires forall i :: 0 <= i < |markers| && markers[i].MarkerObject? && markers[i].name.Some? ==>
      markers[i].name.value in byName
    requires name in byName ==> byName[name].MarkerObject?
    ensures Shown(markers, name) <==> name in byName && byName[name].status.PassText?
  {
    if name in byName {
      var i :| 0 <= i < |markers| && LastOfName(markers, i, name) && byName[name] == markers[i];
      if Shown(markers, name) {
        var j :| 0 <= j < |markers| && LastOfName(markers, j, name) && markers[j].status.PassText?;
        assert i == j;
      }
    }
  }

  // ----- case evidence

  predicate FullIdentity(id: JsonIdentity)
  {
    && id.Identity?
    && !BlankOption(id.caseId) && !BlankOption(id.tenantId) && !BlankOption(id.sessionId)
    && !BlankOption(id.inboundId) && !BlankOption(id.messageId)
  }

  function StageOf(c: JsonCase): Option<StageText>
  {
    if c.CaseObject? then c.stage else None
  }

  ghost predicate CaseAccepted(c: JsonCase, runId: string)
  {
    && c.CaseObject? && c.stage.Some?
    && !c.status.OtherText?
    && c.identity.Identity? && c.identity.runId == Some(runId)
    && (c.status.PassText? ==>
          FullIdentity(c.identity) && !BlankOption(c.controlId) && !BlankOption(c.killed) && MarkersAccepted(c))
  }

  /** The stages of the cases are exactly the requested ones, each once. */
  ghost predicate StagesMatch(cases: seq<JsonCase>, stages: seq<Stage>)
  {
    && StagesDiffer(cases)
    && (forall i :: 0 <= i < |cases| ==> Requested(StageOf(cases[i]), stages))
    && (forall s :: s in stages ==> HasCase(cases, Known(s)))
  }

  ghost predicate StagesDiffer(cases: seq<JsonCase>)
  {
    forall i, j :: 0 <= i < j < |cases| ==> StageOf(cases[i]) != StageOf(cases[j])
  }

  predicate Requested(s: Option<StageText>, stages: seq<Stage>)
  {
    s.Some? && s.value.Known? && s.value.stage in stages
  }

  ghost predicate HasCase(cases: seq<JsonCase>, s: StageText)
  {
    exists i :: 0 <= i < |cases| && StageOf(cases[i]) == Some(s)
  }

  predicate CoversAll(stages: seq<Stage>)
  {
    Enqueue in stages && Tool in stages && CommitTxnOpen in stages
  }

  predicate Passes(c: JsonCase)
  {
    c.CaseObject? && c.status.PassText?
  }

  predicate HexDigest(s: Option<string>)
  {
    s.Some? && |s.value| == 64 && forall i :: 0 <= i < |s.value| ==> IsHexDigit(s.value[i])
  }

  predicate IsHexDigit(c: char)
  {
    '0' <= c <= '9' || 'a' <= c <= 'f' || 'A' <= c <= 'F'
  }

  /** Both ends are given with a zone and in order. */
  predicate Timed(e: Envelope)
  {
    e.started.Some? && e.ended.Some? && e.started.value.zoned && e.ended.value.zoned && e.started.value.at <= e.ended.value.at
  }

  predicate Carries(provenance: map<string, Value>, field: (string, Value))
  {
    field.0 in provenance && provenance[field.0] == field.1
  }

  predicate HasPid(provenance: map<string, Value>)
  {
    "pid" in provenance && provenance["pid"].Whole? && provenance["pid"].number >= 1
  }

  predicate Launched(e: Envelope, launch: Launch)
  {
    launch.Some? ==>
      && e.provenance.Some? && HasPid(e.provenance.value)
      && forall i :: 0 <= i < |launch.value| ==> Carries(e.provenance.value, launch.value[i])
  }

  const MODE := "fault_stage_acceptance"

  /** The report is a version 1 report of this run, of this launch. */
  predicate EnvelopeAccepted(e: Envelope, runId: string, launch: Launch)
  {
    && e.schemaVersion == Some(1) && e.mode == Some(MODE) && e.runId == Some(runId)
    && HexDigest(e.nonceSha256) && Timed(e) && Launched(e, launch)
  }

  /** What the checks of `_validate_fault_stage_child` amount to. */
  ghost predicate ChildAccepted(child: Child, runId: string, launch: Launch, stages: seq<Stage>)
  {
    EnvelopeAccepted(child.envelope, runId, launch) && BodyAccepted(child, runId, stages)
  }

  ghost predicate BodyAccepted(child: Child, runId: string, stages: seq<Stage>)
  {
    && child.cases.Some?
    && (forall i :: 0 <= i < |child.cases.value| ==> CaseAccepted(child.cases.value[i], runId))
    && StagesMatch(child.cases.value, stages)
    && !child.gate.OtherText? && !child.productionGate.OtherText?
    && (child.gate.PassText? ==>
          && (forall i :: 0 <= i < |child.cases.value| ==> Passes(child.cases.value[i]))
          && child.productionGate == if CoversAll(stages) then PassText else NotRunText)
  }

  datatype ChildError =
    | WrongSchema | WrongMode | WrongRun | BadNonce | BadTimes | NoProvenance | WrongProvenance(field: string) | BadPid
    | CasesMissing | NonObjectCase | NoStage | DuplicateCase | InvalidStatus | NoCaseIdentity | OtherRun
    | IncompleteIdentity | NoControlId | NoKilledContainer | BadMarkers
    | UnexpectedStage | StageMissing | InvalidGate | InvalidProductionGate | NotAllPassing | WrongProductionGate

  /** The checks on the report's origin. */
  method ValidateEnvelope(e: Envelope, runId: string, launch: Launch) returns (errors: seq<ChildError>)
    ensures errors == [] <==> EnvelopeAccepted(e, runId, launch)
  {
    errors := [];
    if e.schemaVersion != Some(1) {
      errors := errors + [WrongSchema];
    }
    if e.mode != Some(MODE) {
      errors := errors + [WrongMode];
    }
    if e.runId != Some(runId) {
      errors := errors + [WrongRun];
    }
    if !HexDigest(e.nonceSha256) {
      errors := errors + [BadNonce];
    }
    if !Timed(e) {
      errors := errors + [BadTimes];
    }
    if launch.Some? {
      var provenanceErrors := ValidateProvenance(e, launch);
      errors := errors + provenanceErrors;
    }
  }

  method ValidateProvenance(e: Envelope, launch: Launch) returns (errors: seq<ChildError>)
    requires launch.Some?
    ensures errors == [] <==> Launched(e, launch)
  {
    if e.provenance.None? {
      return [NoProvenance];
    }
    errors := [];
    for k := 0 to |launch.value|
      invariant errors == [] <==> forall i :: 0 <= i < k ==> Carries(e.provenance.value, launch.value[i])
    {
      if !Carries(e.provenance.value, launch.value[k]) {
        errors := errors + [WrongProvenance(launch.value[k].0)];
      }
    }
    if !HasPid(e.provenance.value) {
      errors := errors + [BadPid];
    }
  }

  /** The checks on one case object of a known run. */
  method ValidateCase(c: JsonCase, runId: string) returns (errors: seq<ChildError>)
    requires c.CaseObject? && c.stage.Some?
    ensures errors == [] <==> CaseAccepted(c, runId)
  {
    errors := [];
    if c.status.OtherText? {
      errors := errors + [InvalidStatus];
    }
    if c.identity.NoIdentity? {
      errors := errors + [NoCaseIdentity];
    } else if c.identity.runId != Some(runId) {
      errors := errors + [OtherRun];
    }
    if c.status.PassText? {
      if !FullIdentity(c.identity) {
        errors := errors + [IncompleteIdentity];
      }
      if BlankOption(c.controlId) {
        errors := errors + [NoControlId];
      }
      if BlankOption(c.killed) {
        errors := errors + [NoKilledContainer];
      }
      var markerErrors := FaultStageMarkers(c);
      if markerErrors != [] {
        errors := errors + [BadMarkers];
      }
    }
  }

  /** The checks on one entry of the case list. */
  method ValidateOne(c: JsonCase, runId: string, repeated: bool) returns (errors: seq<ChildError>)
    ensures errors == [] <==> !repeated && CaseAccepted(c, runId)
    ensures errors == [] ==> StageOf(c).Some?
  {
    if c.NotACase? {
      return [NonObjectCase];
    }
    if c.stage.None? {
      return [NoStage];
    }
    errors := ValidateCase(c, runId);
    if repeated {
      errors := [DuplicateCase] + errors;
    }
  }

  /** The index keeps, for each stage that occurs, its one case. */
  ghost predicate Indexes(byStage: map<StageText, JsonCase>, cases: seq<JsonCase>)
  {
    && (forall s :: s in byStage ==> exists i :: 0 <= i < |cases| && StageOf(cases[i]) == Some(s) && byStage[s] == cases[i])
    && (forall i :: 0 <= i < |cases| && StageOf(cases[i]).Some? ==> StageOf(cases[i]).value in byStage)
  }

  ghost predicate Unseen(cases: seq<JsonCase>, k: nat)
    requires k < |cases|
  {
    forall i :: 0 <= i < k ==> StageOf(cases[i]) != StageOf(cases[k])
  }

  /** The first `k` cases are accepted and each brings a new stage. */
  ghost predicate FineUpTo(cases: seq<JsonCase>, k: nat, runId: string)
    requires k <= |cases|
  {
    k == 0 || (FineUpTo(cases, k - 1, runId) && CaseAccepted(cases[k - 1], runId) && Unseen(cases, k - 1))
  }

  lemma {:induction false} FineIff(cases: seq<JsonCase>, k: nat, runId: string)
    requires k <= |cases|
    ensures FineUpTo(cases, k, runId) <==>
      && (forall i :: 0 <= i < k ==> CaseAccepted(cases[i], runId))
      && (forall i, j :: 0 <= i < j < k ==> StageOf(cases[i]) != StageOf(cases[j]))
  {
    if k > 0 {
      FineIff(cases, k - 1, runId);
    }
  }

  /** The case loop: no error exactly when every case is accepted and no stage repeats. */
  method ValidateCases(cases: seq<JsonCase>, runId: string)
    returns (byStage: map<StageText, JsonCase>, errors: seq<ChildError>)
    ensures errors == [] <==> (forall i :: 0 <= i < |cases| ==> CaseAccepted(cases[i], runId)) && StagesDiffer(cases)
    ensures Indexes(byStage, cases)
  {
    byStage, errors := map[], [];
    ghost var at: map<StageText, nat> := map[];
    for k := 0 to |cases|
      invariant errors == [] <==> FineUpTo(cases, k, runId)
      invariant at.Keys == byStage.Keys
      invariant forall s :: s in at ==> at[s] < k && StageOf(cases[at[s]]) == Some(s) && byStage[s] == cases[at[s]]
      invariant forall i :: 0 <= i < k && StageOf(cases[i]).Some? ==> StageOf(cases[i]).value in byStage
    {
      var stage := StageOf(cases[k]);
      var repeated := stage.Some? && stage.value in byStage;
      var caseErrors := ValidateOne(cases[k], runId, repeated);
      errors := errors + caseErrors;
      assert stage.Some? ==> (repeated <==> !Unseen(cases, k));
      if stage.Some? {
        byStage, at := byStage[stage.value := cases[k]], at[stage.value := k];
      }
    }
    FineIff(cases, |cases|, runId);
  }

  /** The checks on the stage selection and the gate words. */
  method ValidateSelection(child: Child, byStage: map<StageText, JsonCase>, stages: seq<Stage>) returns (errors: seq<ChildError>)
    ensures errors == [] <==>
      && (forall s :: s in byStage ==> Requested(Some(s), stages)) && (forall s :: s in stages ==> Known(s) in byStage)
      && !child.gate.OtherText? && !child.productionGate.OtherText?
      && (child.gate.PassText? ==>
            && (forall s :: s in stages ==> Known(s) in byStage && Passes(byStage[Known(s)]))
            && child.productionGate == if CoversAll(stages) then PassText else NotRunText)
  {
    errors := [];
    if exists s :: s in byStage && !Requested(Some(s), stages) {
      errors := errors + [UnexpectedStage];
    }
    if exists s :: s in stages && Known(s) !in byStage {
      errors := errors + [StageMissing];
    }
    if child.gate.OtherText? {
      errors := errors + [InvalidGate];
    }
    if child.productionGate.OtherText? {
      errors := errors + [InvalidProductionGate];
    }
    if child.gate.PassText? {
      if exists s :: s in stages && (Known(s) !in byStage || !Passes(byStage[Known(s)])) {
        errors := errors + [NotAllPassing];
      }
      if child.productionGate != (if CoversAll(stages) then PassText else NotRunText) {
        errors := errors + [WrongProductionGate];
      }
    }
  }

  /** The gate accepts a child report exactly when its origin, cases, stages and gate words say so. */
  method ValidateFaultStageChild(child: Child, runId: string, launch: Launch, stages: seq<Stage>)
    returns (errors: seq<ChildError>)
    ensures errors == [] <==> ChildAccepted(child, runId, launch, stages)
  {
    errors := ValidateEnvelope(child.envelope, runId, launch);
    if child.cases.None? {
      errors := errors + [CasesMissing];
      return;
    }
    var bodyErrors := ValidateBody(child, runId, stages);
    errors := errors + bodyErrors;
  }

  method ValidateBody(child: Child, runId: string, stages: seq<Stage>) returns (errors: seq<ChildError>)
    requires child.cases.Some?
    ensures errors == [] <==> BodyAccepted(child, runId, stages)
  {
    var cases := child.cases.value;
    var byStage, caseErrors := ValidateCases(cases, runId);
    var selectionErrors := ValidateSelection(child, byStage, stages);
    errors := caseErrors + selectionErrors;
    if forall i :: 0 <= i < |cases| ==> StageOf(cases[i]).Some? {
      StagesByIndex(cases, byStage, stages);
    }
  }

  lemma StagesByIndex(cases: seq<JsonCase>, byStage: map<StageText, JsonCase>, stages: seq<Stage>)
    requires Indexes(byStage, cases) && forall i :: 0 <= i < |cases| ==> StageOf(cases[i]).Some?
    ensures StagesMatch(cases, stages) <==>
      && StagesDiffer(cases)
      && (forall s :: s in byStage ==> Requested(Some(s), stages)) && (forall s :: s in stages ==> Known(s) in byStage)
    ensures StagesMatch(cases, stages) ==>
      ((forall i :: 0 <= i < |cases| ==> Passes(cases[i])) <==> (forall s :: s in stages ==> Passes(byStage[Known(s)])))
  {
    forall s
      ensures s in byStage <==> HasCase(cases, s)
    {
      if HasCase(cases, s) {
        var i :| 0 <= i < |cases| && StageOf(cases[i]) == Some(s);
      }
    }
    if StagesMatch(cases, stages) && forall s :: s in stages ==> Passes(byStage[Known(s)]) {
      forall i | 0 <= i < |cases|
        ensures Passes(cases[i])
      {
        var s := StageOf(cases[i]).value;
        assert Requested(Some(s), stages);
        var j :| 0 <= j < |cases| && StageOf(cases[j]) == Some(s) && byStage[s] == cases[j];
        assert i == j;
      }
    }
  }

  /** An accepted report with gate=pass has, for every requested stage, a passing case showing every required marker. */
  lemma AcceptedPassIsEvidence(
    child: Child, runId: string, launch: Launch, stages: seq<Stage>, s: Stage, name: MarkerName)
    requires ChildAccepted(child, runId, launch, stages) && child.gate.PassText?
    requires s in stages && name in RequiredMarkers(s)
    ensures exists i :: 0 <= i < |child.cases.value|
              && StageOf(child.cases.value[i]) == Some(Known(s)) && Passes(child.cases.value[i])
              && child.cases.value[i].markers.Some? && Shown(child.cases.value[i].markers.value, name)
    ensures child.productionGate.PassText? <==> CoversAll(stages)
  {
    assert HasCase(child.cases.value, Known(s));
    var i :| 0 <= i < |child.cases.value| && StageOf(child.cases.value[i]) == Some(Known(s));
    assert CaseAccepted(child.cases.value[i], runId);
    assert MarkersAccepted(child.cases.value[i]);
  }

  // ----- the producer's report

  datatype Report = Report(gate: CaseStatus, productionGate: CaseStatus, results: seq<StageResult>)

  function StatusWord(status: CaseStatus): StatusText
  {
    match status
    case Pass => PassText
    case Fail => FailText
    case NotRunStatus => NotRunText
  }

  /** The last result of a stage, as in a dictionary keyed by stage. */
  function ByStage(results: seq<StageResult>): (m: map<Stage, StageResult>)
    ensures forall s :: s in m ==> m[s] in results && m[s].stage == s
    ensures forall r :: r in results ==> r.stage in m
  {
    if results == [] then map[]
    else
      var last := results[|results| - 1];
      ByStage(results[..|results| - 1])[last.stage := last]
  }

  function Selected(m: map<Stage, StageResult>, stages: seq<Stage>): seq<StageResult>
  {
    if stages == [] then []
    else Selected(m, stages[..|stages| - 1])
         + if stages[|stages| - 1] in m then [m[stages[|stages| - 1]]] else []
  }

  /** `build_execution_report`; `None` is its ValueError. */
  function BuildExecutionReport(results: seq<StageResult>, stages: seq<Stage>): (r: Option<Report>)
    ensures r.None? <==> stages == [] || !Distinct(stages)
    ensures r.Some? ==> (r.value.gate.Pass? <==>
      ByStage(results).Keys == (set s | s in stages) && forall s :: s in stages ==> ByStage(results)[s].status.Pass?)
    ensures r.Some? ==> (r.value.productionGate.Pass? <==> r.value.gate.Pass? && CoversAll(stages))
  {
    if stages == [] || !Distinct(stages) then None
    else
      var m := ByStage(results);
      var gate :=
        if m.Keys != (set s | s in stages) then NotRunStatus
        else if forall s :: s in stages ==> m[s].status.Pass? then Pass
        else if exists s :: s in stages && m[s].status.Fail? then Fail
        else NotRunStatus;
      Some(Report(gate, if gate.Pass? && CoversAll(stages) then Pass else NotRunStatus, Selected(m, stages)))
  }

  /** No later result is of the same stage. */
  ghost predicate IsLast(results: seq<StageResult>, i: nat)
    requires i < |results|
  {
    forall j :: i < j < |results| ==> results[j].stage != results[i].stage
  }

  /** The results are of exactly the selected stages. */
  ghost predicate Covers(results: seq<StageResult>, stages: seq<Stage>)
  {
    && (forall i :: 0 <= i < |results| ==> results[i].stage in stages)
    && (forall s :: s in stages ==> exists i :: 0 <= i < |results| && results[i].stage == s)
  }

  lemma LastStill(results: seq<StageResult>, i: nat)
    requires i < |results| - 1
    ensures IsLast(results, i) <==> IsLast(results[..|results| - 1], i) && results[|results| - 1].stage != results[i].stage
  {
    var n := |results| - 1;
    assert forall j :: 0 <= j < n ==> results[..n][j] == results[j];
  }

  lemma {:induction false} ByStageIsLast(results: seq<StageResult>, i: nat)
    requires i < |results| && IsLast(results, i)
    ensures results[i].stage in ByStage(results) && ByStage(results)[results[i].stage] == results[i]
    decreases |results|
  {
    if i < |results| - 1 {
      LastStill(results, i);
      ByStageIsLast(results[..|results| - 1], i);
    }
  }

  lemma {:induction false} LastExists(results: seq<StageResult>, s: Stage) returns (i: nat)
    requires exists r :: r in results && r.stage == s
    ensures i < |results| && results[i].stage == s && IsLast(results, i)
  {
    var n := |results| - 1;
    if results[n].stage == s {
      i := n;
    } else {
      assert results == results[..n] + [results[n]];
      i := LastExists(results[..n], s);
      LastStill(results, i);
    }
  }

  /** The word of a report, for any results: pass, fail and not run by the last result of each selected stage. */
  lemma ReportWord(results: seq<StageResult>, stages: seq<Stage>)
    requires stages != [] && Distinct(stages)
    ensures var r := BuildExecutionReport(results, stages).value;
            && (r.gate.Pass? <==>
                  Covers(results, stages) && forall i :: 0 <= i < |results| && IsLast(results, i) ==> results[i].status.Pass?)
            && (r.gate.Fail? <==>
                  Covers(results, stages) && exists i :: 0 <= i < |results| && IsLast(results, i) && results[i].status.Fail?)
  {
    var m := ByStage(results);
    forall i | 0 <= i < |results| && IsLast(results, i)
      ensures results[i].stage in m && m[results[i].stage] == results[i]
    {
      ByStageIsLast(results, i);
    }
    forall s | s in m
      ensures exists i :: 0 <= i < |results| && results[i].stage == s && IsLast(results, i)
    {
      var i := LastExists(results, s);
    }
    KeysCover(results, stages);
  }

  lemma KeysCover(results: seq<StageResult>, stages: seq<Stage>)
    ensures ByStage(results).Keys == (set s | s in stages) <==> Covers(results, stages)
  {
    var m := ByStage(results);
    assert forall i :: 0 <= i < |results| ==> results[i] in results && results[i].stage in m;
    if m.Keys == set s | s in stages {
      forall s | s in stages
        ensures exists i :: 0 <= i < |results| && results[i].stage == s
      {
        assert s in m.Keys;
        var i := LastExists(results, s);
      }
    }
    if Covers(results, stages) {
      forall s
        ensures s in m.Keys <==> s in stages
      {
        if s in m.Keys {
          var i := LastExists(results, s);
        }
      }
    }
  }

  /** The place of a stage in the selection. */
  ghost predicate Ordered(stages: seq<Stage>, s: Stage, t: Stage)
  {
    exists i, j :: 0 <= i < j < |stages| && stages[i] == s && stages[j] == t
  }

  /** The cases of a report: the last result of each selected stage that has one, in the order of the selection. */
  lemma ReportCases(results: seq<StageResult>, stages: seq<Stage>)
    requires stages != [] && Distinct(stages)
    ensures var cases := BuildExecutionReport(results, stages).value.results;
            && (forall r :: r in cases <==>
                  exists i :: 0 <= i < |results| && IsLast(results, i) && results[i] == r && r.stage in stages)
            && (forall k, l :: 0 <= k < l < |cases| ==> Ordered(stages, cases[k].stage, cases[l].stage))
  {
    var m, cases := ByStage(results), Selected(ByStage(results), stages);
    forall r
      ensures r in cases <==>
        exists i :: 0 <= i < |results| && IsLast(results, i) && results[i] == r && r.stage in stages
    {
      SelectedCase(m, stages, r);
      if r.stage in m {
        var i := LastExists(results, r.stage);
        ByStageIsLast(results, i);
      }
      if i :| 0 <= i < |results| && IsLast(results, i) && results[i] == r {
        ByStageIsLast(results, i);
      }
    }
    SelectedOrdered(m, stages);
  }

  lemma {:induction false} SelectedCase(m: map<Stage, StageResult>, stages: seq<Stage>, r: StageResult)
    requires forall s :: s in m ==> m[s].stage == s
    ensures r in Selected(m, stages) <==> r.stage in stages && r.stage in m && m[r.stage] == r
  {
    if stages != [] {
      var n := |stages| - 1;
      SelectedCase(m, stages[..n], r);
      assert stages == stages[..n] + [stages[n]];
    }
  }

  lemma {:induction false} SelectedOrdered(m: map<Stage, StageResult>, stages: seq<Stage>)
    requires forall s :: s in m ==> m[s].stage == s
    ensures forall k, l :: 0 <= k < l < |Selected(m, stages)| ==>
      Ordered(stages, Selected(m, stages)[k].stage, Selected(m, stages)[l].stage)
  {
    if stages != [] {
      var n := |stages| - 1;
      var cases, front := Selected(m, stages), Selected(m, stages[..n]);
      SelectedOrdered(m, stages[..n]);
      forall k, l | 0 <= k < l < |cases|
        ensures Ordered(stages, cases[k].stage, cases[l].stage)
      {
        if l < |front| {
          assert Ordered(stages[..n], front[k].stage, front[l].stage);
          var i, j :| 0 <= i < j < n && stages[..n][i] == front[k].stage && stages[..n][j] == front[l].stage;
          assert stages[i] == front[k].stage && stages[j] == front[l].stage;
        } else {
          assert front[k] in front;
          SelectedCase(m, stages[..n], front[k]);
          var i :| 0 <= i < n && stages[..n][i] == front[k].stage;
          assert stages[i] == front[k].stage && stages[n] == cases[l].stage;
        }
      }
    }
  }

  function MarkerJson(m: Marker): JsonMarker
  {
    MarkerObject(Some(m.name), StatusWord(m.status), Some(m.observedAt))
  }

  function MarkersJson(ms: seq<Marker>): (r: seq<JsonMarker>)
    ensures |r| == |ms| && forall i :: 0 <= i < |ms| ==> r[i] == MarkerJson(ms[i])
  {
    seq(|ms|, i requires 0 <= i < |ms| => MarkerJson(ms[i]))
  }

  function NonEmpty(s: Option<string>): Option<string>
  {
    if s == Some("") then None else s
  }

  /** `StageResult.as_report`: an empty control or container id is left out. */
  function CaseJson(r: StageResult): JsonCase
  {
    CaseObject(Some(Known(r.stage)), StatusWord(r.status),
      Identity(Some(r.ident.runId), Some(r.ident.caseId), Some(r.ident.tenantId),
        Some(r.ident.sessionId), Some(r.ident.inboundId), Some(r.ident.messageId)),
      NonEmpty(r.controlId), NonEmpty(r.killedContainerId), Some(MarkersJson(r.markers)))
  }

  function CasesJson(rs: seq<StageResult>): (cs: seq<JsonCase>)
    ensures |cs| == |rs| && forall i :: 0 <= i < |rs| ==> cs[i] == CaseJson(rs[i])
  {
    seq(|rs|, i requires 0 <= i < |rs| => CaseJson(rs[i]))
  }

  /** The report as it is written, under the origin the writer adds. */
  function ReportJson(e: Envelope, r: Report): Child
  {
    Child(e, StatusWord(r.gate), StatusWord(r.productionGate), Some(CasesJson(r.results)))
  }

  // ----- producer and consumer agree

  /** One passing result per selected stage, in order. */
  ghost predicate StagesPass(results: seq<StageResult>, stages: seq<Stage>)
  {
    && stages != [] && Distinct(stages) && |results| == |stages|
    && forall i :: 0 <= i < |stages| ==> results[i].stage == stages[i] && results[i].status.Pass?
  }

  lemma {:induction false} ByStageAt(results: seq<StageResult>, stages: seq<Stage>, i: nat)
    requires |results| == |stages| && Distinct(stages) && i < |stages|
    requires forall j :: 0 <= j < |stages| ==> results[j].stage == stages[j]
    ensures stages[i] in ByStage(results) && ByStage(results)[stages[i]] == results[i]
    decreases |stages|
  {
    var n := |stages| - 1;
    if i < n {
      ByStageAt(results[..n], stages[..n], i);
      assert stages[i] != stages[n];
    }
  }

  lemma {:induction false} SelectedOfRun(m: map<Stage, StageResult>, results: seq<StageResult>, stages: seq<Stage>)
    requires |results| == |stages|
    requires forall i :: 0 <= i < |stages| ==> stages[i] in m && m[stages[i]] == results[i]
    ensures Selected(m, stages) == results
  {
    if stages != [] {
      var n := |stages| - 1;
      SelectedOfRun(m, results[..n], stages[..n]);
      assert results == results[..n] + [results[n]];
    }
  }

  lemma MapOfRun(results: seq<StageResult>, stages: seq<Stage>)
    requires StagesPass(results, stages)
    ensures ByStage(results).Keys == set s | s in stages
    ensures forall s :: s in stages ==> s in ByStage(results) && ByStage(results)[s].status.Pass?
    ensures Selected(ByStage(results), stages) == results
  {
    var m := ByStage(results);
    forall i | 0 <= i < |stages|
      ensures stages[i] in m && m[stages[i]] == results[i]
    {
      ByStageAt(results, stages, i);
    }
    SelectedOfRun(m, results, stages);
    assert forall s :: s in m ==> m[s] in results && m[s].stage == s;
  }

  /** The aggregated report of a passing run carries exactly its results, in order, under a passing gate. */
  lemma ReportOfRun(results: seq<StageResult>, stages: seq<Stage>)
    requires StagesPass(results, stages)
    ensures BuildExecutionReport(results, stages)
            == Some(Report(Pass, if CoversAll(stages) then Pass else NotRunStatus, results))
  {
    MapOfRun(results, stages);
  }

  lemma ReportWritten(e: Envelope, results: seq<StageResult>, stages: seq<Stage>)
    requires StagesPass(results, stages)
    ensures BuildExecutionReport(results, stages).Some?
    ensures ReportJson(e, BuildExecutionReport(results, stages).value)
            == Child(e, PassText, if CoversAll(stages) then PassText else NotRunText, Some(CasesJson(results)))
  {
    ReportOfRun(results, stages);
  }

  /** The runner's v2 trail is the gate's required set, no more and no less. */
  lemma TrailIsRequired(stage: Stage)
    ensures forall name :: name in Trail(stage, true) <==> name in RequiredMarkers(stage)
    ensures |Trail(stage, true)| == |RequiredMarkers(stage)|
    ensures exists name :: name in RequiredMarkers(stage) && name !in Trail(stage, false)
  {
    var missing := if stage.Enqueue? then V2ClaimBeforeObserved else V2AckBeforeExecute;
    match stage
    case Enqueue =>
      assert Trail(stage, true) == [PreflightWorkersVerified, AcceptancePersisted, ControlArmed, MarkerEntered,
        V2ClaimBeforeObserved, WorkerTerminated, WorkerSurvivorsObserved, TurnSingleContiguousVerified,
        TurnCommitVerified, OutboundIntentVerified];
      assert RequiredMarkers(stage)[6] == missing && missing !in Trail(stage, false);
    case Tool =>
      assert Trail(stage, true) == [PreflightWorkersVerified, AcceptancePersisted, TurnProcessingObserved,
        V2AckBeforeExecute, ControlArmed, MarkerEntered, WorkerTerminated, WorkerSurvivorsObserved,
        StaleTokenRejectionVerified, TurnSingleContiguousVerified, TurnCommitVerified, OutboundIntentVerified,
        ToolIdempotentExecutionVerified];
      assert RequiredMarkers(stage)[12] == missing && missing !in Trail(stage, false);
    case CommitTxnOpen =>
      assert Trail(stage, true) == [PreflightWorkersVerified, AcceptancePersisted, TurnProcessingObserved,
        V2AckBeforeExecute, ControlArmed, MarkerEntered, WorkerTerminated, WorkerSurvivorsObserved,
        StaleTokenRejectionVerified, TurnSingleContiguousVerified, TurnCommitVerified, OutboundIntentVerified];
      assert RequiredMarkers(stage)[11] == missing && missing !in Trail(stage, false);
  }

  function Rank(name: MarkerName): nat
  {
    match name
    case PreflightWorkersVerified => 0
    case AcceptancePersisted => 1
    case TurnProcessingObserved => 2
    case V2AckBeforeExecute => 3
    case ControlArmed => 4
    case MarkerEntered => 5
    case V2ClaimBeforeObserved => 6
    case WorkerTerminated => 7
    case WorkerSurvivorsObserved => 8
    case StaleTokenRejectionVerified => 9
    case TurnSingleContiguousVerified => 10
    case TurnCommitVerified => 11
    case OutboundIntentVerified => 12
    case ToolIdempotentExecutionVerified => 13
    case OtherMarker(_) => 14
  }

  predicate Ascends(names: seq<MarkerName>)
  {
    forall k :: 0 < k < |names| ==> Rank(names[k - 1]) < Rank(names[k])
  }

  lemma AscendsToMarker(stage: Stage, v2: bool)
    ensures Ascends(TrailToMarker(stage, v2))
    ensures var names := TrailToMarker(stage, v2); names != [] && Rank(names[|names| - 1]) < Rank(WorkerTerminated)
  {
  }

  lemma AscendsFromKill(stage: Stage)
    ensures Ascends(TrailFromKill(stage)) && TrailFromKill(stage)[0] == WorkerTerminated
  {
  }

  lemma TrailAscends(stage: Stage, v2: bool)
    ensures Ascends(Trail(stage, v2))
  {
    AscendsToMarker(stage, v2);
    AscendsFromKill(stage);
    AscendsTogether(TrailToMarker(stage, v2), TrailFromKill(stage));
  }

  lemma AscendsTogether(a: seq<MarkerName>, b: seq<MarkerName>)
    requires Ascends(a) && Ascends(b) && (a != [] && b != [] ==> Rank(a[|a| - 1]) < Rank(b[0]))
    ensures Ascends(a + b)
  {
  }

  lemma {:induction false} AscendingNamesDiffer(names: seq<MarkerName>, i: nat, j: nat)
    requires i < j < |names| && Ascends(names)
    ensures Rank(names[i]) < Rank(names[j])
    decreases j
  {
    if i < j - 1 {
      AscendingNamesDiffer(names, i, j - 1);
    }
  }

  /** The markers of a case show exactly the names on its trail. */
  lemma TrailIsShown(markers: seq<Marker>, names: seq<MarkerName>, name: MarkerName)
    requires Leaves(markers, names) && Ascends(names)
    ensures Shown(MarkersJson(markers), name) <==> name in names
  {
    var json := MarkersJson(markers);
    if name in names {
      var i :| 0 <= i < |names| && names[i] == name;
      forall j | i < j < |json|
        ensures json[j].name != Some(name)
      {
        AscendingNamesDiffer(names, i, j);
      }
      assert LastOfName(json, i, name);
    }
    if Shown(json, name) {
      var i :| 0 <= i < |json| && LastOfName(json, i, name) && json[i].status.PassText?;
      assert names[i] == name;
    }
  }

  /** The markers of a passing case suffice exactly on the v2 scheduler. */
  lemma MarkersSuffice(r: StageResult, v2: bool)
    requires Leaves(r.markers, Trail(r.stage, v2))
    ensures MarkersAccepted(CaseJson(r)) <==> v2
  {
    var c := CaseJson(r);
    var names := Trail(r.stage, v2);
    TrailAscends(r.stage, v2);
    TrailIsRequired(r.stage);
    forall name
      ensures Shown(c.markers.value, name) <==> name in names
    {
      TrailIsShown(r.markers, names, name);
    }
    assert forall i :: 0 <= i < |r.markers| ==> Stamped(c.markers.value[i]);
    if !v2 {
      var name :| name in RequiredMarkers(r.stage) && name !in names;
      assert !Shown(c.markers.value, name);
    }
  }

  /** The gate accepts a passing case of the runner exactly when it ran on the v2 scheduler under a non-blank control id. */
  lemma PassingCaseAccepted(r: StageResult, cfg: Settings, runId: string)
    requires r.status.Pass? && PassingCase(r, cfg) && ValidSettings(cfg) && cfg.runId == Some(runId)
    ensures CaseAccepted(CaseJson(r), runId) <==> cfg.scheduler.V2? && !BlankOption(r.controlId)
  {
    MarkersSuffice(r, cfg.scheduler.V2?);
    SelectorIsNotBlank(cfg.explicit);
  }

  /** Every case is recorded under a control id the gate takes. */
  predicate AllControlled(results: seq<StageResult>)
  {
    forall i :: 0 <= i < |results| ==> !BlankOption(results[i].controlId)
  }

  ghost predicate EachAcceptedIff(results: seq<StageResult>, v2: bool, runId: string)
  {
    forall i :: 0 <= i < |results| ==>
      (CaseAccepted(CaseJson(results[i]), runId) <==> v2 && !BlankOption(results[i].controlId))
  }

  lemma PassingCasesAccepted(results: seq<StageResult>, cfg: Settings, runId: string)
    requires ValidSettings(cfg) && cfg.runId == Some(runId)
    requires forall i :: 0 <= i < |results| ==> results[i].status.Pass? && PassingCase(results[i], cfg)
    ensures EachAcceptedIff(results, cfg.scheduler.V2?, runId)
  {
    forall i | 0 <= i < |results|
      ensures CaseAccepted(CaseJson(results[i]), runId) <==> cfg.scheduler.V2? && !BlankOption(results[i].controlId)
    {
      PassingCaseAccepted(results[i], cfg, runId);
    }
  }

  /**
   * A report aggregated from passing cases, for any stage selection, passes the gate exactly when its
   * origin does, on v2 and with non-blank control ids.
   */
  lemma ProducerMeetsConsumer(
    e: Envelope, results: seq<StageResult>, stages: seq<Stage>, cfg: Settings, runId: string, launch: Launch)
    requires StagesPass(results, stages) && ValidSettings(cfg) && cfg.runId == Some(runId)
    requires forall i :: 0 <= i < |results| ==> PassingCase(results[i], cfg)
    ensures BuildExecutionReport(results, stages).Some?
    ensures ChildAccepted(ReportJson(e, BuildExecutionReport(results, stages).value), runId, launch, stages) <==>
            EnvelopeAccepted(e, runId, launch) && cfg.scheduler.V2? && AllControlled(results)
  {
    PassingCasesAccepted(results, cfg, runId);
    ReportWritten(e, results, stages);
    RunAccepted(e, results, stages, cfg.scheduler.V2?, runId);
  }

  lemma AllCasesIff(results: seq<StageResult>, cases: seq<JsonCase>, v2: bool, runId: string)
    requires results != [] && EachAcceptedIff(results, v2, runId)
    requires |cases| == |results| && forall i :: 0 <= i < |results| ==> cases[i] == CaseJson(results[i])
    ensures (forall i :: 0 <= i < |cases| ==> CaseAccepted(cases[i], runId)) <==> v2 && AllControlled(results)
  {
    assert CaseAccepted(cases[0], runId) ==> v2;
  }

  lemma RunAccepted(e: Envelope, results: seq<StageResult>, stages: seq<Stage>, v2: bool, runId: string)
    requires StagesPass(results, stages) && EachAcceptedIff(results, v2, runId)
    ensures
      BodyAccepted(
        Child(e, PassText, if CoversAll(stages) then PassText else NotRunText, Some(CasesJson(results))), runId, stages)
      <==> v2 && AllControlled(results)
  {
    StagesOfReport(results, stages, CasesJson(results));
    AllCasesIff(results, CasesJson(results), v2, runId);
  }

  lemma StagesOfReport(results: seq<StageResult>, stages: seq<Stage>, cases: seq<JsonCase>)
    requires StagesPass(results, stages) && |cases| == |results|
    requires forall i :: 0 <= i < |results| ==> cases[i] == CaseJson(results[i])
    ensures StagesMatch(cases, stages) && forall i :: 0 <= i < |cases| ==> Passes(cases[i])
  {
    forall s | s in stages
      ensures HasCase(cases, Known(s))
    {
      var i :| 0 <= i < |stages| && stages[i] == s;
      assert StageOf(cases[i]) == Some(Known(s));
    }
  }
}
