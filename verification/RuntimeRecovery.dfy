/** The parent's runtime scenarios: children run in order, and a fencing kill must be repaired before the next one. */
module RuntimeRecovery {
  import opened Text
  import opened FaultStage

  datatype Scenario =
    | RedisInterrupt | WorkerEnqueue | WorkerTool | WorkerCommit | Fencing | Republish | Dlq | Ambiguous

  /** Scenarios served by the dedicated fault-stage child rather than a runtime child. */
  predicate IsFaultStage(s: Scenario)
  {
    s.WorkerEnqueue? || s.WorkerTool? || s.WorkerCommit?
  }

  const MIN_REAL_WORKERS := 4

  /** What the child's report retained about its workers, reduced to distinct valid container ids. */
  datatype Retained = Retained(
    workers: seq<string>, killed: Option<string>, survivors: seq<string>,
    attested: bool, source: string, image: string)

  /** How one runtime child ended, as the parent sees it. */
  datatype ChildRun =
    | NeverStarted
    | ReportPathTaken
    | SpawnFailed
    | ReportUnreadable
    | OtherRunId
    | Completed(outcome: CaseStatus, retained: Retained)

  function StatusOf(run: ChildRun): CaseStatus
  {
    match run
    case NeverStarted => NotRunStatus
    case Completed(outcome, _) => outcome
    case _ => Fail
  }

  /** Whether the scenario result names a child report, which is what triggers the recovery. */
  predicate NamesReport(run: ChildRun)
  {
    !run.NeverStarted? && !run.ReportUnreadable?
  }

  datatype Inspection = Inspection(
    id: string, project: string, worker: bool, source: string, image: string, running: bool, healthy: bool, ended: bool)

  predicate Up(i: Inspection)
  {
    i.running && i.healthy
  }

  datatype Args = Args(project: string, projectBounded: bool, workers: int, timeout: real)

  function Required(args: Args): int
  {
    if args.workers > MIN_REAL_WORKERS then args.workers else MIN_REAL_WORKERS
  }

  ghost predicate NoRepeats<T>(s: seq<T>)
  {
    forall i, j :: 0 <= i < j < |s| ==> s[i] != s[j]
  }

  /** The retained evidence the recovery insists on before it touches Docker. */
  predicate Restorable(e: Retained, args: Args)
  {
    && args.projectBounded && e.attested
    && e.killed.Some? && IsContainerSelector(e.killed.value)
    && |e.survivors| >= Required(args) - 1
    && e.killed.value !in e.survivors
    && e.killed.value in e.workers
    && (forall s :: s in e.survivors ==> s in e.workers)
    && |e.workers| >= Required(args)
  }

  function UpCount(seen: seq<Inspection>): nat
  {
    if seen == [] then 0 else UpCount(seen[..|seen| - 1]) + if Up(seen[|seen| - 1]) then 1 else 0
  }

  /** One `docker inspect`, with the number of containers started and of children run before it. */
  datatype Look = Look(id: string, answer: Option<Inspection>, starts: nat, ran: nat)

  /** One runtime child and how it ended. */
  datatype Child = Child(name: Scenario, run: ChildRun)

  /** The looks from place `p` on are the answers `seen`, made after `starts` starts and `ran` children. */
  ghost predicate ShownAt(looks: seq<Look>, p: nat, seen: seq<Inspection>, starts: nat, ran: nat)
  {
    p + |seen| <= |looks| && forall i :: 0 <= i < |seen| ==> looks[p + i] == Look(seen[i].id, Some(seen[i]), starts, ran)
  }

  /** Every retained container carries the attested labels, source and image. */
  ghost predicate Attested(seen: seq<Inspection>, e: Retained, args: Args)
  {
    && |seen| == |e.workers|
    && forall i :: 0 <= i < |seen| ==>
         && seen[i].id == e.workers[i] && seen[i].project == args.project && seen[i].worker
         && seen[i].source == e.source && seen[i].image == e.image
  }

  /** The killed container has ended and is not up, and every other one is. */
  ghost predicate OnlyKilledDown(seen: seq<Inspection>, killed: Option<string>)
  {
    && (forall i :: 0 <= i < |seen| && Some(seen[i].id) != killed ==> Up(seen[i]))
    && (exists i :: 0 <= i < |seen| && Some(seen[i].id) == killed && !Up(seen[i]) && seen[i].ended)
  }

  /** The killed container is up again among enough live workers. */
  ghost predicate Recovered(seen: seq<Inspection>, e: Retained, args: Args)
  {
    && |seen| == |e.workers| && (forall i :: 0 <= i < |seen| ==> seen[i].id == e.workers[i])
    && Number(seen, Up) >= args.workers && Number(seen, Up) >= MIN_REAL_WORKERS
    && (exists i :: 0 <= i < |seen| && Some(seen[i].id) == e.killed && Up(seen[i]))
  }

  lemma {:induction false} UpCounted(seen: seq<Inspection>)
    ensures UpCount(seen) == Number(seen, Up)
  {
    if seen != [] {
      UpCounted(seen[..|seen| - 1]);
      NumberLast(seen, Up);
    }
  }

  /** The record shows an attestation of the retained pool. */
  ghost predicate AttestationShown(looks: seq<Look>, ran: nat, e: Retained, args: Args)
  {
    exists p: nat, seen, starts :: ShownAt(looks, p, seen, starts, ran) && Attested(seen, e, args)
  }

  /** The record shows the recovered pool. */
  ghost predicate RecoveryShown(looks: seq<Look>, ran: nat, e: Retained, args: Args)
  {
    exists p: nat, seen, starts :: ShownAt(looks, p, seen, starts, ran) && Recovered(seen, e, args)
  }

  /** Every other container is up, and the killed one is up or has ended. */
  ghost predicate Repairable(seen: seq<Inspection>, killed: Option<string>)
  {
    && (forall i :: 0 <= i < |seen| && Some(seen[i].id) != killed ==> Up(seen[i]))
    && (exists i :: 0 <= i < |seen| && Some(seen[i].id) == killed && (Up(seen[i]) || seen[i].ended))
  }

  /** The looks from place `p` on attested the pool and showed it repairable. */
  ghost predicate RepairDue(looks: seq<Look>, p: nat, starts: nat, ran: nat, e: Retained, args: Args)
  {
    exists seen :: ShownAt(looks, p, seen, starts, ran) && Attested(seen, e, args) && Repairable(seen, e.killed)
  }

  lemma ShownOnce(looks: seq<Look>, p: nat, a: seq<Inspection>, b: seq<Inspection>, starts: nat, ran: nat)
    requires ShownAt(looks, p, a, starts, ran) && ShownAt(looks, p, b, starts, ran) && |a| == |b|
    ensures a == b
  {
    forall i | 0 <= i < |a|
      ensures a[i] == b[i]
    {
      assert looks[p + i].answer == Some(a[i]);
    }
  }

  /** Looks at the whole pool that are not repairable rule a repair out. */
  lemma NotDue(looks: seq<Look>, p: nat, seen: seq<Inspection>, starts: nat, ran: nat, e: Retained, args: Args)
    requires ShownAt(looks, p, seen, starts, ran) && |seen| == |e.workers| && !Repairable(seen, e.killed)
    ensures !RepairDue(looks, p, starts, ran, e, args)
  {
    if RepairDue(looks, p, starts, ran, e, args) {
      var other :| ShownAt(looks, p, other, starts, ran) && Attested(other, e, args) && Repairable(other, e.killed);
      ShownOnce(looks, p, seen, other, starts, ran);
    }
  }

  lemma DueStill(looks: seq<Look>, more: seq<Look>, p: nat, starts: nat, ran: nat, e: Retained, args: Args)
    requires looks <= more && RepairDue(looks, p, starts, ran, e, args)
    ensures RepairDue(more, p, starts, ran, e, args)
  {
    var seen :| ShownAt(looks, p, seen, starts, ran) && Attested(seen, e, args) && Repairable(seen, e.killed);
    assert ShownAt(more, p, seen, starts, ran);
  }

  lemma AnswersShown(looks: seq<Look>, p: nat, seen: seq<Inspection>, starts: nat, ran: nat, i: nat)
    requires ShownAt(looks, p, seen, starts, ran) && p <= i < p + |seen|
    ensures looks[i].answer.Some?
  {
    assert looks[p + (i - p)].answer == Some(seen[i - p]);
  }

  /** A round of looks that failed or does not show the pool recovered is no proof of recovery. */
  lemma NotShown(looks: seq<Look>, p: nat, r: Option<seq<Inspection>>, starts: nat, ran: nat, e: Retained, args: Args)
    requires |looks| == p + |e.workers|
    requires r.Some? ==> ShownAt(looks, p, r.value, starts, ran) && |r.value| == |e.workers| && !Recovered(r.value, e, args)
    requires r.None? ==> exists i :: p <= i < |looks| && looks[i].answer.None?
    ensures !exists seen :: ShownAt(looks, p, seen, starts, ran) && Recovered(seen, e, args)
  {
    if seen :| ShownAt(looks, p, seen, starts, ran) && Recovered(seen, e, args) {
      if r.Some? {
        ShownOnce(looks, p, r.value, seen, starts, ran);
      } else {
        var i :| p <= i < |looks| && looks[i].answer.None?;
        AnswersShown(looks, p, seen, starts, ran, i);
      }
    }
  }

  /** Right after `starts` starts, the looks from place `p` on attested the pool with only the killed one down. */
  ghost predicate StartDue(looks: seq<Look>, p: nat, starts: nat, ran: nat, e: Retained, args: Args)
  {
    exists seen :: ShownAt(looks, p, seen, starts, ran) && Attested(seen, e, args) && OnlyKilledDown(seen, e.killed)
  }

  lemma MoreLooksDue(looks: seq<Look>, more: seq<Look>, p: nat, starts: nat, ran: nat, e: Retained, args: Args)
    requires looks <= more && StartDue(looks, p, starts, ran, e, args)
    ensures StartDue(more, p, starts, ran, e, args)
  {
    var seen :| ShownAt(looks, p, seen, starts, ran) && Attested(seen, e, args) && OnlyKilledDown(seen, e.killed);
    assert ShownAt(more, p, seen, starts, ran);
  }

  lemma MoreLooks(looks: seq<Look>, more: seq<Look>, ran: nat, e: Retained, args: Args)
    requires looks <= more
    ensures AttestationShown(looks, ran, e, args) ==> AttestationShown(more, ran, e, args)
    ensures RecoveryShown(looks, ran, e, args) ==> RecoveryShown(more, ran, e, args)
  {
    forall p: nat, seen, starts | ShownAt(looks, p, seen, starts, ran)
      ensures ShownAt(more, p, seen, starts, ran)
    {
    }
  }

  datatype Assessment = Unfit | AlreadyUp | Ended

  class Host {
    var now: real
    ghost var started: seq<string>   // containers started by `docker start`
    ghost var looks: seq<Look>
    ghost var children: seq<Child>   // runtime children run so far
    ghost var refused: nat           // starts that were rejected or could not be made

    constructor ()
      ensures started == [] && looks == [] && children == []
    {
      now := 0.0;
      started, looks, children, refused := [], [], [], 0;
    }

    method Elapse()
      modifies this`now
      ensures now >= old(now)
    {
      var t: real := *;
      if t > now {
        now := t;
      }
    }

    /** `docker inspect`; `None` when it fails. The answer is about the container asked for. */
    method Inspect(id: string) returns (r: Option<Inspection>)
      modifies this`now, this`looks
      ensures now >= old(now) && (r.Some? ==> r.value.id == id)
      ensures looks == old(looks) + [Look(id, r, |started|, |children|)]
    {
      r := *;
      if r.Some? {
        r := Some(r.value.(id := id));
      }
      looks := looks + [Look(id, r, |started|, |children|)];
      Elapse();
    }

    method Start(id: string) returns (ok: bool)
      modifies this`now, this`started, this`refused
      ensures now >= old(now) && started == old(started) + [id]
      ensures refused == old(refused) + if ok then 0 else 1
    {
      ok := *;
      started := started + [id];
      if !ok {
        refused := refused + 1;
      }
      Elapse();
    }

    /** Runs one runtime child to its end. */
    method RunRealScenario(name: Scenario) returns (run: ChildRun)
      modifies this`now, this`children
      ensures now >= old(now) && children == old(children) + [Child(name, run)]
    {
      run := *;
      children := children + [Child(name, run)];
      Elapse();
    }

    method Sleep(seconds: real)
      requires seconds > 0.0
      modifies this`now
      ensures now >= old(now) + seconds
    {
      now := now + seconds;
      Elapse();
    }

    /** Looks at every container once; `None` if any look fails. */
    method InspectAll(ids: seq<string>) returns (r: Option<seq<Inspection>>)
      modifies this`now, this`looks
      ensures now >= old(now) && old(looks) <= looks
      ensures r.Some? ==> |r.value| == |ids| && forall i :: 0 <= i < |ids| ==> r.value[i].id == ids[i]
      ensures |looks| == |old(looks)| + |ids|
      ensures r.Some? ==> ShownAt(looks, |old(looks)|, r.value, |started|, |children|)
      ensures r.None? ==> exists i :: |old(looks)| <= i < |looks| && looks[i].answer.None?
    {
      var seen: seq<Inspection> := [];
      var complete := true;
      ghost var failed := 0;
      for i := 0 to |ids|
        invariant now >= old(now) && old(looks) <= looks && |looks| == |old(looks)| + i
        invariant complete ==> |seen| == i && forall j :: 0 <= j < i ==> seen[j].id == ids[j]
        invariant complete ==> ShownAt(looks, |old(looks)|, seen, |started|, |children|)
        invariant !complete ==> |old(looks)| <= failed < |looks| && looks[failed].answer.None?
      {
        var item := Inspect(ids[i]);
        if item.None? {
          complete, failed := false, |looks| - 1;
        } else {
          seen := seen + [item.value];
        }
      }
      return if complete then Some(seen) else None;
    }

    /** The identities recovery acts on: every retained container still carries the attested labels, source and image. */
    method Attest(e: Retained, args: Args) returns (r: Option<seq<Inspection>>)
      modifies this`now, this`looks
      ensures now >= old(now) && old(looks) <= looks
      ensures r.Some? ==> Attested(r.value, e, args) && ShownAt(looks, |old(looks)|, r.value, |started|, |children|)
      ensures r.None? ==> !RepairDue(looks, |old(looks)|, |started|, |children|, e, args)
      ensures |looks| <= |old(looks)| + |e.workers| && (r.Some? ==> |looks| == |old(looks)| + |e.workers|)
    {
      var seen: seq<Inspection> := [];
      for i := 0 to |e.workers|
        invariant now >= old(now) && old(looks) <= looks && |looks| == |old(looks)| + i && |seen| == i
        invariant forall j :: 0 <= j < i ==>
          && seen[j].id == e.workers[j] && seen[j].project == args.project && seen[j].worker && seen[j].source == e.source
        invariant ShownAt(looks, |old(looks)|, seen, |started|, |children|)
      {
        var item := Inspect(e.workers[i]);
        if item.None? || item.value.project != args.project || !item.value.worker || item.value.source != e.source {
          assert looks[|old(looks)| + i].answer == item;
          return None;
        }
        seen := seen + [item.value];
      }
      if i :| 0 <= i < |seen| && seen[i].image != e.image {
        assert looks[|old(looks)| + i].answer == Some(seen[i]);
        return None;
      }
      return Some(seen);
    }

    /** One round of looks: does it show the killed container up among enough live workers? */
    method LookAtPool(e: Retained, args: Args) returns (up: bool)
      requires e.killed.Some?
      modifies this`now, this`looks
      ensures now >= old(now) && old(looks) <= looks && |looks| == |old(looks)| + |e.workers|
      ensures up <==> LastLooksRecovered(e, args)
    {
      var seen := InspectAll(e.workers);
      up := false;
      if seen.Some? {
        var latest := seen.value;
        UpCounted(latest);
        up := UpCount(latest) >= Required(args)
          && exists i :: 0 <= i < |latest| && latest[i].id == e.killed.value && Up(latest[i]);
        assert up <==> Recovered(latest, e, args);
      }
      if !up {
        NotShown(looks, |old(looks)|, seen, |started|, |children|, e, args);
      }
    }

    /** Waits until the killed container is up again among enough live workers. */
    method AwaitRecovered(e: Retained, args: Args) returns (ok: bool)
      requires e.killed.Some?
      modifies this`now, this`looks
      ensures old(looks) <= looks
      ensures ok ==> LastLooksRecovered(e, args)
      ensures !ok ==> GaveUp(old(now), |old(looks)|, e, args)
    {
      var wait := if args.timeout < 30.0 then 30.0 else args.timeout;
      var deadline := now + if wait > 90.0 then 90.0 else wait;
      Elapse();
      while now < deadline
        invariant now >= old(now) && old(looks) <= looks
        invariant |looks| == |old(looks)| || !LastLooksRecovered(e, args)
        decreases if now < deadline then 1 + (5.0 * (deadline - now)).Floor else 0
      {
        var up := LookAtPool(e, args);
        if up {
          return true;
        }
        Sleep(0.2);
      }
      return false;
    }

    /** The wait lasted at least its window, and its last round, if it had one, did not show the pool recovered. */
    ghost predicate GaveUp(since: real, n: nat, e: Retained, args: Args)
      reads this`now, this`looks, this`started, this`children
    {
      && now >= since + 30.0 && (now >= since + args.timeout || now >= since + 90.0)
      && (|looks| == n || !LastLooksRecovered(e, args))
    }

    /** The last look at each retained container, after every start, shows the pool recovered. */
    ghost predicate LastLooksRecovered(e: Retained, args: Args)
      reads this`looks, this`started, this`children
    {
      |e.workers| <= |looks| &&
      exists seen :: ShownAt(looks, |looks| - |e.workers|, seen, |started|, |children|) && Recovered(seen, e, args)
    }

    /** Attests the pool and says whether the killed container is up, has ended, or cannot be dealt with. */
    method Assess(e: Retained, args: Args) returns (a: Assessment)
      requires Restorable(e, args)
      modifies this`now, this`looks
      ensures now >= old(now) && old(looks) <= looks && |looks| <= |old(looks)| + |e.workers|
      ensures !a.Unfit? ==> AttestationShown(looks, |children|, e, args)
      ensures !a.Unfit? ==> RepairDue(looks, |old(looks)|, |started|, |children|, e, args)
      ensures a.Ended? ==> StartDue(looks, |old(looks)|, |started|, |children|, e, args)
      ensures a.Unfit? && NoRepeats(e.workers) ==> !RepairDue(looks, |old(looks)|, |started|, |children|, e, args)
    {
      var seen := Attest(e, args);
      if seen.None? {
        return Unfit;
      }
      ghost var p := |old(looks)|;
      var k :| 0 <= k < |e.workers| && e.workers[k] == e.killed.value;
      if i :| 0 <= i < |seen.value| && seen.value[i].id != e.killed.value && !Up(seen.value[i]) {
        NotDue(looks, p, seen.value, |started|, |children|, e, args);
        return Unfit;
      }
      a := if Up(seen.value[k]) then AlreadyUp else if seen.value[k].ended then Ended else Unfit;
      if a.Unfit? {
        if NoRepeats(e.workers) {
          NotDue(looks, p, seen.value, |started|, |children|, e, args);
        }
      } else {
        assert Repairable(seen.value, e.killed);
      }
    }

    /** Starts at most the one killed container, and passes only when it is up again among enough live workers. */
    method RuntimeWorkerRecovery(args: Args, run: ChildRun) returns (status: CaseStatus)
      modifies this`now, this`looks, this`started, this`refused
      ensures old(looks) <= looks
      ensures started == old(started) ||
              (run.Completed? && run.retained.killed.Some? && started == old(started) + [run.retained.killed.value])
      ensures started != old(started) || status.Pass? ==>
                run.Completed? && Restorable(run.retained, args) && AttestationShown(looks, |children|, run.retained, args)
      ensures started != old(started) ==>
                StartDue(looks, |old(looks)|, |old(started)|, |children|, run.retained, args)
      ensures !status.NotRunStatus? ==>
                && run.Completed? && Restorable(run.retained, args)
                && RepairDue(looks, |old(looks)|, |old(started)|, |children|, run.retained, args)
      ensures status.NotRunStatus? && run.Completed? && Restorable(run.retained, args) && NoRepeats(run.retained.workers) ==>
                !RepairDue(looks, |old(looks)|, |old(started)|, |children|, run.retained, args)
      ensures status.Pass? ==> LastLooksRecovered(run.retained, args)
      ensures status.Fail? ==>
                || refused > old(refused)
                || exists n: nat :: n <= |old(looks)| + |run.retained.workers| && GaveUp(old(now), n, run.retained, args)
      ensures status.NotRunStatus? ==> started == old(started)
      ensures !run.Completed? || !Restorable(run.retained, args) ==> looks == old(looks)
    {
      hide Recovered, RecoveryShown, Attested, OnlyKilledDown, Repairable, ShownAt;
      if !run.Completed? || !Restorable(run.retained, args) {
        return NotRunStatus;
      }
      var e := run.retained;
      var a := Assess(e, args);
      if a.Unfit? {
        return NotRunStatus;
      }
      ghost var attested, before := looks, now;
      if a.Ended? {
        var ok := Start(e.killed.value);
        if !ok {
          return Fail;
        }
      }
      ghost var n := |looks|;
      var recovered := AwaitRecovered(e, args);
      MoreLooks(attested, looks, |children|, e, args);
      DueStill(attested, looks, |old(looks)|, |old(started)|, |children|, e, args);
      if started != old(started) {
        MoreLooksDue(attested, looks, |old(looks)|, |old(started)|, |children|, e, args);
      }
      if !recovered {
        assert GaveUp(old(now), n, e, args);
      }
      return if recovered then Pass else Fail;
    }
  }

  /** `_status`: a failure outweighs everything, and anything short of a pass outweighs passes. */
  function Overall(values: seq<CaseStatus>): CaseStatus
  {
    if Fail in values then Fail else if exists v :: v in values && v != Pass then NotRunStatus else Pass
  }

  /** What happened to one requested scenario. */
  datatype Step = Step(run: Option<ChildRun>, recovery: Option<CaseStatus>, status: CaseStatus)

  /** The ways a child can end after which its report is at least named. */
  predicate LeftReport(run: ChildRun)
  {
    run.ReportPathTaken? || run.SpawnFailed? || run.OtherRunId? || run.Completed?
  }

  /** A fencing child that left a report and whose recovery was not confirmed. */
  predicate BlocksLater(name: Scenario, step: Step)
  {
    name.Fencing? && step.run.Some? && LeftReport(step.run.value) && step.recovery != Some(Pass)
  }

  /** The runtime children that were run, in order. */
  function RanIn(requested: seq<Scenario>, steps: seq<Step>): seq<Child>
    requires |requested| == |steps|
  {
    if steps == [] then [] else
    var n := |steps| - 1;
    RanIn(requested[..n], steps[..n]) + if steps[n].run.Some? then [Child(requested[n], steps[n].run.value)] else []
  }

  /** The retained pool was attested and seen recovered after `ran` children, the last of them this one. */
  ghost predicate ConfirmedAfter(child: Child, looks: seq<Look>, children: seq<Child>, ran: nat, args: Args)
  {
    && 0 < ran <= |children| && children[ran - 1] == child
    && child.run.Completed? && Restorable(child.run.retained, args)
    && AttestationShown(looks, ran, child.run.retained, args) && RecoveryShown(looks, ran, child.run.retained, args)
  }

  /** A confirmed recovery is backed by the record of a child run after the first `base`. */
  ghost predicate Backed(name: Scenario, step: Step, looks: seq<Look>, children: seq<Child>, base: nat, args: Args)
  {
    step.recovery == Some(Pass) ==>
      step.run.Some? && exists ran :: base < ran && ConfirmedAfter(Child(name, step.run.value), looks, children, ran, args)
  }

  lemma BackedStill(
    name: Scenario, step: Step, looks: seq<Look>, more: seq<Look>, children: seq<Child>, grown: seq<Child>, base: nat, args: Args)
    requires Backed(name, step, looks, children, base, args) && looks <= more && children <= grown
    ensures Backed(name, step, more, grown, base, args)
  {
    if step.recovery == Some(Pass) {
      var child := Child(name, step.run.value);
      var ran :| base < ran && ConfirmedAfter(child, looks, children, ran, args);
      MoreLooks(looks, more, ran, child.run.retained, args);
      assert ConfirmedAfter(child, more, grown, ran, args);
    }
  }

  /** A runtime child runs exactly when no fencing recovery before it is unconfirmed. */
  ghost predicate RunsUnblocked(requested: seq<Scenario>, steps: seq<Step>, i: nat)
    requires |requested| == |steps| && i < |steps|
  {
    steps[i].run.Some? <==>
      !IsFaultStage(requested[i]) && forall j :: 0 <= j < i ==> !BlocksLater(requested[j], steps[j])
  }

  /** What the report says of one scenario, given the ones before it. */
  ghost predicate StepHolds(
    requested: seq<Scenario>, steps: seq<Step>, i: nat, looks: seq<Look>, children: seq<Child>, base: nat, args: Args)
    requires |requested| == |steps| && i < |steps|
  {
    && RunsUnblocked(requested, steps, i)
    && (steps[i].recovery.Some? <==> requested[i].Fencing? && steps[i].run.Some? && LeftReport(steps[i].run.value))
    && Backed(requested[i], steps[i], looks, children, base, args)
    && (steps[i].status.Pass? && requested[i].Fencing? ==> steps[i].recovery == Some(Pass))
  }

  predicate EndedPassing(run: ChildRun)
  {
    run.Completed? && run.outcome.Pass?
  }

  predicate EndedUndecided(run: ChildRun)
  {
    run.NeverStarted? || (run.Completed? && run.outcome.NotRunStatus?)
  }

  /**
   * The status of one scenario: a fault-stage scenario has the status its own child gave it, a scenario that was
   * not run has none, and a run one passes exactly when its child did and, for fencing, the recovery too.
   */
  predicate StatusFits(name: Scenario, step: Step, staged: CaseStatus)
  {
    if IsFaultStage(name) then step.status == staged
    else if step.run.None? then step.status.NotRunStatus?
    else
      && (step.status.Pass? <==> EndedPassing(step.run.value) && (name.Fencing? ==> step.recovery == Some(Pass)))
      && (step.status.NotRunStatus? <==> EndedUndecided(step.run.value))
  }

  ghost predicate StatusesFit(requested: seq<Scenario>, steps: seq<Step>, stageStatus: Scenario -> CaseStatus)
    requires |requested| == |steps|
  {
    forall i :: 0 <= i < |steps| ==> StatusFits(requested[i], steps[i], stageStatus(requested[i]))
  }

  /** Every child that was run is some step's. */
  lemma {:induction false} RanSteps(requested: seq<Scenario>, steps: seq<Step>, child: Child)
    requires |requested| == |steps|
    ensures child in RanIn(requested, steps) <==>
      exists i :: 0 <= i < |steps| && child.name == requested[i] && steps[i].run == Some(child.run)
  {
    if steps != [] {
      var n := |steps| - 1;
      RanSteps(requested[..n], steps[..n], child);
      if i :| 0 <= i < n && child.name == requested[i] && steps[i].run == Some(child.run) {
        assert requested[..n][i] == requested[i] && steps[..n][i] == steps[i];
      }
    }
  }

  /** A report whose steps all pass has only children that ended passing, one for every runtime scenario. */
  lemma PassingReport(
    requested: seq<Scenario>, steps: seq<Step>, stageStatus: Scenario -> CaseStatus, before: Record, now: Record, args: Args)
    requires Agrees(requested, steps, before, now, args) && StatusesFit(requested, steps, stageStatus)
    requires forall i :: 0 <= i < |steps| ==> steps[i].status.Pass?
    ensures forall k :: |before.children| <= k < |now.children| ==> EndedPassing(now.children[k].run)
    ensures forall i :: 0 <= i < |requested| ==>
      if IsFaultStage(requested[i]) then stageStatus(requested[i]).Pass?
      else exists k :: |before.children| <= k < |now.children| && now.children[k].name == requested[i]
  {
    var ran := RanIn(requested, steps);
    forall k | |before.children| <= k < |now.children|
      ensures EndedPassing(now.children[k].run)
    {
      var child := now.children[k];
      assert child == ran[k - |before.children|];
      RanSteps(requested, steps, child);
      var i :| 0 <= i < |steps| && child.name == requested[i] && steps[i].run == Some(child.run);
      assert StatusFits(requested[i], steps[i], stageStatus(requested[i]));
      assert StepHolds(requested, steps, i, now.looks, now.children, |before.children|, args);
    }
    forall i | 0 <= i < |requested|
      ensures if IsFaultStage(requested[i]) then stageStatus(requested[i]).Pass?
        else exists k :: |before.children| <= k < |now.children| && now.children[k].name == requested[i]
    {
      assert StatusFits(requested[i], steps[i], stageStatus(requested[i]));
      if !IsFaultStage(requested[i]) {
        var child := Child(requested[i], steps[i].run.value);
        RanSteps(requested, steps, child);
        var j :| 0 <= j < |ran| && ran[j] == child;
        assert now.children[|before.children| + j] == child;
      }
    }
  }

  /** `base` is the number of children run before this report. */
  ghost predicate ReportHolds(
    requested: seq<Scenario>, steps: seq<Step>, looks: seq<Look>, children: seq<Child>, base: nat, args: Args)
  {
    |requested| == |steps| && forall i :: 0 <= i < |steps| ==> StepHolds(requested, steps, i, looks, children, base, args)
  }

  ghost predicate Blocked(requested: seq<Scenario>, steps: seq<Step>)
    requires |requested| == |steps|
  {
    exists j :: 0 <= j < |steps| && BlocksLater(requested[j], steps[j])
  }

  lemma FewerBefore(
    name: Scenario, step: Step, looks: seq<Look>, children: seq<Child>, base: nat, earlier: nat, args: Args)
    requires Backed(name, step, looks, children, base, args) && earlier <= base
    ensures Backed(name, step, looks, children, earlier, args)
  {
  }

  /** One more step keeps what the report says of the earlier ones. */
  lemma StepAdded(
    requested: seq<Scenario>, steps: seq<Step>, looks: seq<Look>, children: seq<Child>, base: nat, args: Args,
    name: Scenario, step: Step, more: seq<Look>, grown: seq<Child>)
    requires ReportHolds(requested, steps, looks, children, base, args) && looks <= more && children <= grown
    requires step.run.Some? <==> !IsFaultStage(name) && !Blocked(requested, steps)
    requires step.recovery.Some? <==> name.Fencing? && step.run.Some? && LeftReport(step.run.value)
    requires Backed(name, step, more, grown, base, args) && (step.status.Pass? && name.Fencing? ==> step.recovery == Some(Pass))
    ensures ReportHolds(requested + [name], steps + [step], more, grown, base, args)
    ensures Blocked(requested + [name], steps + [step]) <==> Blocked(requested, steps) || BlocksLater(name, step)
    ensures RanIn(requested + [name], steps + [step]) ==
            RanIn(requested, steps) + if step.run.Some? then [Child(name, step.run.value)] else []
  {
    var all, done := requested + [name], steps + [step];
    assert all[..|steps|] == requested && done[..|steps|] == steps;
    forall i | 0 <= i < |done|
      ensures StepHolds(all, done, i, more, grown, base, args)
    {
      if i < |steps| {
        assert StepHolds(requested, steps, i, looks, children, base, args);
        BackedStill(requested[i], steps[i], looks, more, children, grown, base, args);
      }
    }
    if Blocked(requested, steps) {
      var j :| 0 <= j < |steps| && BlocksLater(requested[j], steps[j]);
      assert BlocksLater(all[j], done[j]);
    }
    if BlocksLater(name, step) {
      assert BlocksLater(all[|steps|], done[|steps|]);
    }
  }

  /** A recovery that passed right after its child confirms that child. */
  lemma Confirms(host: Host, child: Child, args: Args)
    requires host.children != [] && host.children[|host.children| - 1] == child
    requires child.run.Completed? && Restorable(child.run.retained, args)
    requires AttestationShown(host.looks, |host.children|, child.run.retained, args)
    requires host.LastLooksRecovered(child.run.retained, args)
    ensures ConfirmedAfter(child, host.looks, host.children, |host.children|, args)
  {
    var seen :| && ShownAt(host.looks, |host.looks| - |child.run.retained.workers|, seen, |host.started|, |host.children|)
                && Recovered(seen, child.run.retained, args);
  }

  /** One runtime scenario: its child, and for fencing the repair of the killed worker. */
  method RunScenario(host: Host, args: Args, name: Scenario) returns (step: Step)
    modifies host
    ensures step.run.Some? && Stepped(name, step, old(RecordOf(host)), RecordOf(host), args)
    ensures !IsFaultStage(name) ==> forall staged :: StatusFits(name, step, staged)
  {
    hide AttestationShown, StartDue, Restorable, ConfirmedAfter;
    var run := host.RunRealScenario(name);
    step := Step(Some(run), None, StatusOf(run));
    if name.Fencing? && NamesReport(run) {
      var recovery := host.RuntimeWorkerRecovery(args, run);
      if recovery.Pass? {
        Confirms(host, Child(name, run), args);
      }
      step := Step(Some(run), Some(recovery), if !recovery.Pass? && StatusOf(run).Pass? then Fail else StatusOf(run));
    }
  }

  /** The starts a report accounts for: none, or the killed container of its fencing child. */
  ghost predicate StartsAccounted(before: seq<string>, after: seq<string>, steps: seq<Step>)
  {
    after == before || exists step :: step in steps && FencedBy(step, before, after)
  }

  ghost predicate FencedBy(step: Step, before: seq<string>, after: seq<string>)
  {
    && step.recovery.Some? && step.run.Some? && step.run.value.Completed? && step.run.value.retained.killed.Some?
    && after == before + [step.run.value.retained.killed.value]
  }

  lemma StartsAdded(before: seq<string>, mid: seq<string>, after: seq<string>, steps: seq<Step>, step: Step)
    requires StartsAccounted(before, mid, steps) && (after == mid || (mid == before && FencedBy(step, mid, after)))
    ensures StartsAccounted(before, after, steps + [step])
  {
    if after == mid && mid != before {
      var s :| s in steps && FencedBy(s, before, mid);
      assert s in steps + [step];
    } else if after != mid {
      assert step in steps + [step];
    }
  }

  function Statuses(steps: seq<Step>): seq<CaseStatus>
  {
    seq(|steps|, i requires 0 <= i < |steps| => steps[i].status)
  }

  /** The record of a run: what was there before, the children and looks made, and the containers started. */
  datatype Record = Record(looks: seq<Look>, children: seq<Child>, started: seq<string>)

  /** The report so far agrees with the record. */
  ghost predicate Agrees(requested: seq<Scenario>, steps: seq<Step>, before: Record, now: Record, args: Args)
  {
    && ReportHolds(requested, steps, now.looks, now.children, |before.children|, args)
    && now.children == before.children + RanIn(requested, steps)
    && StartsAccounted(before.started, now.started, steps)
    && (Fencing !in requested ==> now.started == before.started)
  }

  /** What one more scenario did. */
  ghost predicate Stepped(name: Scenario, step: Step, was: Record, now: Record, args: Args)
  {
    && was.looks <= now.looks
    && now.children == was.children + (if step.run.Some? then [Child(name, step.run.value)] else [])
    && (now.started == was.started || (name.Fencing? && FencedBy(step, was.started, now.started)))
    && (step.recovery.Some? <==> name.Fencing? && step.run.Some? && LeftReport(step.run.value))
    && Backed(name, step, now.looks, now.children, |was.children|, args)
    && (step.status.Pass? && name.Fencing? ==> step.recovery == Some(Pass))
  }

  lemma AgreesStill(
    requested: seq<Scenario>, steps: seq<Step>, before: Record, was: Record, name: Scenario, step: Step, now: Record, args: Args)
    requires Agrees(requested, steps, before, was, args) && Stepped(name, step, was, now, args)
    requires step.run.Some? <==> !IsFaultStage(name) && !Blocked(requested, steps)
    requires name !in requested
    ensures Agrees(requested + [name], steps + [step], before, now, args)
    ensures Blocked(requested + [name], steps + [step]) <==> Blocked(requested, steps) || BlocksLater(name, step)
  {
    FewerBefore(name, step, now.looks, now.children, |was.children|, |before.children|, args);
    StartsAdded(before.started, was.started, now.started, steps, step);
    StepAdded(requested, steps, was.looks, was.children, |before.children|, args, name, step, now.looks, now.children);
  }

  ghost function RecordOf(host: Host): Record
    reads host
  {
    Record(host.looks, host.children, host.started)
  }

  /** The scenario loop of `_real_report`: a runtime child runs exactly when no earlier fencing recovery is unconfirmed. */
  method RealReport(host: Host, args: Args, requested: seq<Scenario>, stageStatus: Scenario -> CaseStatus)
    returns (gate: CaseStatus, steps: seq<Step>)
    requires NoRepeats(requested)
    modifies host
    ensures Agrees(requested, steps, old(RecordOf(host)), RecordOf(host), args)
    ensures StatusesFit(requested, steps, stageStatus)
    ensures gate.Pass? <==> forall i :: 0 <= i < |steps| ==> steps[i].status.Pass?
    ensures gate.Fail? <==> exists i :: 0 <= i < |steps| && steps[i].status.Fail?
    ensures gate.Pass? ==> forall k :: |old(host.children)| <= k < |host.children| ==> EndedPassing(host.children[k].run)
  {
    steps := [];
    var blocked := false;
    for k := 0 to |requested|
      invariant Agrees(requested[..k], steps, old(RecordOf(host)), RecordOf(host), args)
      invariant blocked <==> Blocked(requested[..k], steps)
      invariant StatusesFit(requested[..k], steps, stageStatus)
    {
      var name := requested[k];
      ghost var was := RecordOf(host);
      var step := Step(None, None, NotRunStatus);
      if IsFaultStage(name) {
        step := step.(status := stageStatus(name));
      } else if !blocked {
        step := RunScenario(host, args, name);
      }
      assert requested[..k + 1] == requested[..k] + [name];
      AgreesStill(requested[..k], steps, old(RecordOf(host)), was, name, step, RecordOf(host), args);
      steps := steps + [step];
      blocked := blocked || (step.recovery.Some? && step.recovery.value != Pass);
    }
    assert requested[..|requested|] == requested;
    gate := Overall(Statuses(steps));
    PassesIff(steps);
    if gate.Pass? {
      PassingReport(requested, steps, stageStatus, old(RecordOf(host)), RecordOf(host), args);
    }
  }

  lemma PassesIff(steps: seq<Step>)
    ensures Overall(Statuses(steps)).Pass? <==> forall i :: 0 <= i < |steps| ==> steps[i].status.Pass?
    ensures Overall(Statuses(steps)).Fail? <==> exists i :: 0 <= i < |steps| && steps[i].status.Fail?
  {
    forall i | 0 <= i < |steps|
      ensures steps[i].status in Statuses(steps)
    {
      assert Statuses(steps)[i] in Statuses(steps);
    }
  }
}
