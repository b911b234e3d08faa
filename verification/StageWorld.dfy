/** Everything the fault-stage runner reaches through its protocols: Docker, the backend, the control table and the clock. */
module StageWorld {
  import opened Text
  import opened FaultStage

  // One record per external action of a kind; `tick` is the action's place among all actions.
  datatype Look = Look(tick: nat, at: real, id: string, seen: Outcome<WorkerContainer>)
  datatype Listing = Listing(tick: nat, workers: Outcome<seq<WorkerContainer>>)
  datatype Act = Act(tick: nat, id: string, ok: bool)
  datatype Arming = Arming(tick: nat, event: StageEvent, armed: Outcome<string>)
  datatype Reading = Reading(tick: nat, controlId: string, row: Outcome<Option<ControlEvidence>>)
  datatype Releasing = Releasing(tick: nat, controlId: string, released: Outcome<bool>)
  datatype Attempt = Attempt(tick: nat, ok: bool)
  datatype Processing = Processing(tick: nat, answer: Outcome<ProcessingEvidence>)
  datatype Takeover = Takeover(tick: nat, oldWorker: string, oldToken: int, answer: Outcome<RecoveryEvidence>)
  datatype Verdict = Verdict(tick: nat, of: RecoveryEvidence, ok: bool)
  datatype Nap = Nap(from: real, seconds: real)

  /** What is kept over all cases: where each began, and every listing. */
  datatype Entry = Began | Listed(workers: Outcome<seq<WorkerContainer>>)

  /** Every call may return anything of its type or raise, and may take any time. */
  class World {
    var now: real

    // the current case's actions
    ghost var tick: nat
    ghost var looks: seq<Look>
    ghost var stops: seq<Act>
    ghost var starts: seq<Act>
    ghost var kills: seq<Act>
    ghost var arms: seq<Arming>
    ghost var readings: seq<Reading>
    ghost var releases: seq<Releasing>
    ghost var cleanups: seq<Attempt>
    ghost var naps: seq<Nap>
    ghost var listings: seq<Listing>
    ghost var processings: seq<Processing>
    ghost var takeovers: seq<Takeover>
    ghost var verdicts: seq<Verdict>
    ghost var setups: seq<Outcome<()>>
    ghost var published: seq<Outcome<AcceptanceEvidence>>

    // over all cases: every container killed so far, and where the cases began among the listings
    ghost var killLog: seq<string>
    ghost var journal: seq<Entry>

    constructor ()
    {
      now := 0.0;
    }

    ghost method ForgetActs()
      modifies this`tick, this`looks, this`stops, this`starts, this`kills, this`arms, this`releases, this`cleanups
      ensures looks == [] && stops == [] && starts == [] && kills == []
      ensures arms == [] && releases == [] && cleanups == []
    {
      tick, looks, stops, starts, kills := 0, [], [], [], [];
      arms, releases, cleanups := [], [], [];
    }

    ghost method ForgetAnswers()
      modifies this`readings, this`naps, this`listings, this`processings, this`takeovers, this`verdicts
      modifies this`setups, this`published
      ensures readings == [] && naps == [] && listings == []
      ensures processings == [] && takeovers == [] && verdicts == [] && setups == [] && published == []
    {
      readings, naps, listings := [], [], [];
      processings, takeovers, verdicts, setups, published := [], [], [], [], [];
    }

    /** A case starts with a clean record; the kills of earlier cases stay logged. */
    ghost method BeginCase()
      modifies this`tick, this`looks, this`stops, this`starts, this`kills, this`arms, this`releases, this`cleanups
      modifies this`readings, this`naps, this`listings, this`processings, this`takeovers, this`verdicts
      modifies this`setups, this`published, this`journal
      ensures journal == old(journal) + [Began]
      ensures looks == [] && stops == [] && starts == [] && kills == []
      ensures arms == [] && releases == [] && cleanups == []
      ensures readings == [] && naps == [] && listings == []
      ensures processings == [] && takeovers == [] && verdicts == [] && setups == [] && published == []
    {
      journal := journal + [Began];
      ForgetActs();
      ForgetAnswers();
    }

    method Elapse()
      modifies this`now
      ensures now >= old(now)
    {
      var t: real := *;
      if t > now {
        now := t;
      }
    }

    method Monotonic() returns (t: real)
      modifies this`now
      ensures t == now >= old(now)
    {
      Elapse();
      t := now;
    }

    method Sleep(seconds: real)
      modifies this`now, this`naps
      ensures naps == old(naps) + [Nap(old(now), seconds)]
      ensures now >= old(now) + seconds && now >= old(now)
    {
      naps := naps + [Nap(now, seconds)];
      if seconds > 0.0 {
        now := now + seconds;
      }
      Elapse();
    }

    method ProvisionCase() returns (r: Outcome<()>)
      modifies this`now, this`tick, this`setups
      ensures setups == old(setups) + [r]
      ensures now >= old(now) && tick == old(tick) + 1
    {
      r := *;
      setups := setups + [r];
      tick := tick + 1;
      Elapse();
    }

    method PublishInbound() returns (r: Outcome<AcceptanceEvidence>)
      modifies this`now, this`tick, this`published
      ensures published == old(published) + [r]
      ensures now >= old(now) && tick == old(tick) + 1
    {
      r := *;
      published := published + [r];
      tick := tick + 1;
      Elapse();
    }

    method Inspect(id: string) returns (r: Outcome<WorkerContainer>)
      modifies this`now, this`tick, this`looks
      ensures looks == old(looks) + [Look(old(tick), old(now), id, r)]
      ensures now >= old(now) && tick == old(tick) + 1
    {
      r := *;
      looks := looks + [Look(tick, now, id, r)];
      tick := tick + 1;
      Elapse();
    }

    method ListWorkers() returns (r: Outcome<seq<WorkerContainer>>)
      modifies this`now, this`tick, this`listings, this`journal
      ensures listings == old(listings) + [Listing(old(tick), r)] && journal == old(journal) + [Listed(r)]
      ensures now >= old(now) && tick == old(tick) + 1
    {
      r := *;
      listings := listings + [Listing(tick, r)];
      journal := journal + [Listed(r)];
      tick := tick + 1;
      Elapse();
    }

    method ObserveProcessing() returns (r: Outcome<ProcessingEvidence>)
      modifies this`now, this`tick, this`processings
      ensures processings == old(processings) + [Processing(old(tick), r)]
      ensures now >= old(now) && tick == old(tick) + 1
    {
      r := *;
      processings := processings + [Processing(tick, r)];
      tick := tick + 1;
      Elapse();
    }

    /** The recovery observer's answer, at the moment it is received. */
    method WaitForRecovery(oldWorker: string, oldToken: int) returns (r: Outcome<RecoveryEvidence>)
      modifies this`now, this`tick, this`takeovers
      ensures takeovers == old(takeovers) + [Takeover(old(tick), oldWorker, oldToken, r)]
      ensures now >= old(now) && tick == old(tick) + 1
    {
      r := *;
      takeovers := takeovers + [Takeover(tick, oldWorker, oldToken, r)];
      tick := tick + 1;
      Elapse();
    }

    method VerifyFinal(recovery: RecoveryEvidence) returns (r: Outcome<()>)
      modifies this`now, this`tick, this`verdicts
      ensures verdicts == old(verdicts) + [Verdict(old(tick), recovery, r.Ok?)]
      ensures now >= old(now) && tick == old(tick) + 1
    {
      r := *;
      verdicts := verdicts + [Verdict(tick, recovery, r.Ok?)];
      tick := tick + 1;
      Elapse();
    }

    method Stop(id: string) returns (r: Outcome<()>)
      modifies this`now, this`tick, this`stops
      ensures stops == old(stops) + [Act(old(tick), id, r.Ok?)]
      ensures now >= old(now) && tick == old(tick) + 1
    {
      r := *;
      stops := stops + [Act(tick, id, r.Ok?)];
      tick := tick + 1;
      Elapse();
    }

    method Start(id: string) returns (r: Outcome<()>)
      modifies this`now, this`tick, this`starts
      ensures starts == old(starts) + [Act(old(tick), id, r.Ok?)]
      ensures now >= old(now) && tick == old(tick) + 1
    {
      r := *;
      starts := starts + [Act(tick, id, r.Ok?)];
      tick := tick + 1;
      Elapse();
    }

    method Terminate(id: string) returns (r: Outcome<()>)
      modifies this`now, this`tick, this`kills, this`killLog
      ensures kills == old(kills) + [Act(old(tick), id, r.Ok?)] && killLog == old(killLog) + [id]
      ensures now >= old(now) && tick == old(tick) + 1
    {
      r := *;
      kills := kills + [Act(tick, id, r.Ok?)];
      killLog := killLog + [id];
      tick := tick + 1;
      Elapse();
    }

    method Arm(event: StageEvent) returns (r: Outcome<string>)
      modifies this`now, this`tick, this`arms
      ensures arms == old(arms) + [Arming(old(tick), event, r)]
      ensures now >= old(now) && tick == old(tick) + 1
    {
      r := *;
      arms := arms + [Arming(tick, event, r)];
      tick := tick + 1;
      Elapse();
    }

    method ReadControl(controlId: string) returns (r: Outcome<Option<ControlEvidence>>)
      modifies this`now, this`tick, this`readings
      ensures readings == old(readings) + [Reading(old(tick), controlId, r)]
      ensures now >= old(now) && tick == old(tick) + 1
    {
      r := *;
      readings := readings + [Reading(tick, controlId, r)];
      tick := tick + 1;
      Elapse();
    }

    method Release(controlId: string) returns (r: Outcome<bool>)
      modifies this`now, this`tick, this`releases
      ensures releases == old(releases) + [Releasing(old(tick), controlId, r)]
      ensures now >= old(now) && tick == old(tick) + 1
    {
      r := *;
      releases := releases + [Releasing(tick, controlId, r)];
      tick := tick + 1;
      Elapse();
    }

    method CleanupCase() returns (r: Outcome<()>)
      modifies this`now, this`tick, this`cleanups
      ensures cleanups == old(cleanups) + [Attempt(old(tick), r.Ok?)]
      ensures now >= old(now) && tick == old(tick) + 1
    {
      r := *;
      cleanups := cleanups + [Attempt(tick, r.Ok?)];
      tick := tick + 1;
      Elapse();
    }

    /** The hexadecimal digits of a fresh uuid or digest: some text. */
    method FreshSuffix() returns (s: string)
    {
      s := *;
    }

    /** `datetime.now(UTC).isoformat()`: some text, never blank. */
    method Timestamp() returns (s: string)
      ensures !Blank(s)
    {
      s := *;
      if Blank(s) {
        s := "0001-01-01T00:00:00+00:00";
        assert !IsSpace(s[0]);
      }
    }
  }
}
