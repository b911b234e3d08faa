/** The rate-scheduled load generator: one task per request, a semaphore, shared counters, one outcome slot each. */
module LoadGenerator {
  import opened Text

  // Outcomes.

  datatype Ack = AckUnparsable | AckRaises | AckMessage(success: bool)

  /** What `send` produced. */
  datatype Reply = Response(status: int, ack: Ack) | TimeoutError | HttpError | OtherError

  datatype FailureKind = InvalidAck | HttpStatus | Timeout | Transport | ClientError

  datatype Outcome = Outcome(status: Option<int>, success: bool, failure: Option<FailureKind>)

  function Classify(r: Reply): Outcome
  {
    match r
    case TimeoutError => Outcome(None, false, Some(Timeout))
    case HttpError => Outcome(None, false, Some(Transport))
    case OtherError => Outcome(None, false, Some(ClientError))
    case Response(status, ack) =>
      if !(200 <= status < 300) then Outcome(Some(status), false, Some(HttpStatus))
      else if ack.AckUnparsable? then Outcome(Some(status), false, Some(InvalidAck))
      else if ack.AckRaises? then Outcome(Some(status), false, Some(ClientError))
      else Outcome(Some(status), ack.success, if ack.success then None else Some(InvalidAck))
  }

  /** Exactly one of success and a failure kind; success needs a 2xx answer. */
  predicate Decided(o: Outcome)
  {
    (o.success <==> o.failure.None?) && (o.success ==> o.status.Some? && 200 <= o.status.value < 300)
  }

  /** Each failure kind names its cause. */
  lemma KindTellsCause(r: Reply)
    ensures Decided(Classify(r))
    ensures Classify(r).success <==> r.Response? && 200 <= r.status < 300 && r.ack == AckMessage(true)
    ensures Classify(r).failure == Some(HttpStatus) <==> r.Response? && !(200 <= r.status < 300)
    ensures Classify(r).failure == Some(InvalidAck) <==>
      r.Response? && 200 <= r.status < 300 && (r.ack.AckUnparsable? || r.ack == AckMessage(false))
    ensures Classify(r).failure == Some(Timeout) <==> r.TimeoutError?
    ensures Classify(r).failure == Some(Transport) <==> r.HttpError?
    ensures Classify(r).status.Some? <==> r.Response?
  {
  }

  // The tasks.

  datatype Config = Config(total: nat, concurrency: nat, rate: real, signingMayFail: bool)

  predicate ValidConfig(c: Config)
  {
    c.rate > 0.0 && c.concurrency >= 1
  }

  /** When a request is due, on a clock that starts with the schedule. */
  function Due(c: Config, i: nat): real
    requires ValidConfig(c)
  {
    i as real / c.rate
  }

  datatype Phase =
    | Sleeping | Queued
    | Acquired              // holds a permit
    | Started               // counted in flight, request not signed yet
    | Sending
    | Answered(o: Outcome)  // `send` is over, still counted
    | Storing(o: Outcome)   // no longer counted
    | Stored                // outcome written, permit still held
    | Finished
    | Lost                  // signing raised: permit given back, still counted
    | Cancelled

  predicate HasPermit(p: Phase)
  {
    p.Acquired? || p.Started? || p.Sending? || p.Answered? || p.Storing? || p.Stored?
  }

  predicate InSection(p: Phase)
  {
    p.Started? || p.Sending? || p.Answered?
  }

  predicate IsLost(p: Phase)
  {
    p.Lost?
  }

  /** Past the point where the submission time is recorded, or cancelled. */
  predicate Begun(p: Phase)
  {
    !p.Sleeping? && !p.Queued? && !p.Acquired?
  }

  datatype Submission = Submission(task: nat, time: real)

  datatype State = State(
    now: real, permits: int, inflight: int, maxInflight: int,
    submissions: seq<Submission>, phases: seq<Phase>, outcomes: seq<Option<Outcome>>)

  datatype Action =
    | Tick(time: real)
    | Wake(i: nat) | Acquire(i: nat) | Begin(i: nat) | Sign(i: nat) | SignFails(i: nat)
    | Answer(i: nat, reply: Reply) | Decrement(i: nat) | Store(i: nat) | Release(i: nat)
    | Cancel(i: nat)        // the run timed out

  function Start(c: Config): State
  {
    State(0.0, c.concurrency, 0, 0, [], seq(c.total, _ => Sleeping), seq(c.total, _ => None))
  }

  predicate Shaped(c: Config, s: State)
  {
    ValidConfig(c) && |s.phases| == |s.outcomes| == c.total
  }

  function Max(a: int, b: int): int
  {
    if a > b then a else b
  }

  function Move(s: State, i: nat, p: Phase): State
    requires i < |s.phases|
  {
    s.(phases := s.phases[i := p])
  }

  /** One step of one task, or `None` when it is not enabled. */
  function TaskStep(c: Config, s: State, a: Action): (t: Option<State>)
    requires Shaped(c, s) && !a.Tick? && a.i < c.total
    ensures t.Some? ==> Shaped(c, t.value)
  {
    var p := s.phases[a.i];
    match a
    case Wake(i) => if p.Sleeping? && s.now >= Due(c, i) then Some(Move(s, i, Queued)) else None
    case Acquire(i) =>
      if p.Queued? && s.permits > 0 then Some(Move(s, i, Acquired).(permits := s.permits - 1)) else None
    case Begin(i) =>
      if !p.Acquired? then None
      else Some(Move(s, i, Started).(
        inflight := s.inflight + 1, maxInflight := Max(s.maxInflight, s.inflight + 1),
        submissions := s.submissions + [Submission(i, s.now)]))
    case Sign(i) => if p.Started? then Some(Move(s, i, Sending)) else None
    case SignFails(i) =>
      if p.Started? && c.signingMayFail then Some(Move(s, i, Lost).(permits := s.permits + 1)) else None
    case Answer(i, reply) => if p.Sending? then Some(Move(s, i, Answered(Classify(reply)))) else None
    case Decrement(i) =>
      if p.Answered? then Some(Move(s, i, Storing(p.o)).(inflight := s.inflight - 1)) else None
    case Store(i) =>
      if p.Storing? then Some(Move(s, i, Stored).(outcomes := s.outcomes[i := Some(p.o)])) else None
    case Release(i) =>
      if p.Stored? then Some(Move(s, i, Finished).(permits := s.permits + 1)) else None
    case Cancel(i) =>
      if p.Sleeping? || p.Queued? then Some(Move(s, i, Cancelled))
      else if p.Sending? then Some(Move(s, i, Cancelled).(permits := s.permits + 1, inflight := s.inflight - 1))
      else None
  }

  function Step(c: Config, s: State, a: Action): (t: Option<State>)
    requires Shaped(c, s)
    ensures t.Some? ==> Shaped(c, t.value)
  {
    if a.Tick? then (if a.time >= s.now then Some(s.(now := a.time)) else None)
    else if a.i < c.total then TaskStep(c, s, a)
    else None
  }

  function Exec(c: Config, s: State, actions: seq<Action>): (t: Option<State>)
    requires Shaped(c, s)
    ensures t.Some? ==> Shaped(c, t.value)
  {
    if actions == [] then Some(s) else
    var t := Exec(c, s, actions[..|actions| - 1]);
    if t.None? then None else Step(c, t.value, actions[|actions| - 1])
  }

  // Counting tasks.

  function Count(ps: seq<Phase>, f: Phase -> bool): nat
  {
    if ps == [] then 0 else Count(ps[..|ps| - 1], f) + One(f(ps[|ps| - 1]))
  }

  lemma {:induction false} CountUpdate(ps: seq<Phase>, i: nat, p: Phase, f: Phase -> bool)
    requires i < |ps|
    ensures Count(ps[i := p], f) == Count(ps, f) - One(f(ps[i])) + One(f(p))
  {
    var n := |ps| - 1;
    if i == n {
      assert ps[i := p][..n] == ps[..n];
    } else {
      CountUpdate(ps[..n], i, p, f);
      assert ps[i := p][..n] == ps[..n][i := p];
    }
  }

  lemma {:induction false} CountMonotone(ps: seq<Phase>, f: Phase -> bool, g: Phase -> bool)
    requires forall p :: f(p) ==> g(p)
    ensures Count(ps, f) <= Count(ps, g)
  {
    if ps != [] {
      CountMonotone(ps[..|ps| - 1], f, g);
    }
  }

  lemma {:induction false} CountNone(n: nat, p: Phase, f: Phase -> bool)
    requires !f(p)
    ensures Count(seq(n, _ => p), f) == 0
  {
    if n > 0 {
      CountNone(n - 1, p, f);
      assert seq(n, _ => p)[..n - 1] == seq(n - 1, _ => p);
    }
  }

  // What every step keeps.

  /** Permits are conserved, and `inflight` counts the send section plus the tasks whose signing raised. */
  predicate Counted(c: Config, s: State)
  {
    && Shaped(c, s)
    && s.permits >= 0 && s.permits + Count(s.phases, HasPermit) == c.concurrency
    && s.inflight == Count(s.phases, InSection) + Count(s.phases, IsLost)
    && s.inflight <= s.maxInflight
  }

  /** A step changes one phase, and the counters move by what that phase changes. */
  lemma StepBalances(c: Config, s: State, a: Action)
    requires Shaped(c, s) && !a.Tick? && Step(c, s, a).Some? && s.permits >= 0
    ensures a.i < c.total
    ensures var t := Step(c, s, a).value; var p, q := s.phases[a.i], t.phases[a.i];
            && t.phases == s.phases[a.i := q] && t.permits >= 0
            && t.permits + One(HasPermit(q)) == s.permits + One(HasPermit(p))
            && t.inflight - One(InSection(q)) - One(IsLost(q)) == s.inflight - One(InSection(p)) - One(IsLost(p))
            && (s.inflight <= s.maxInflight ==> t.inflight <= t.maxInflight)
  {
  }

  lemma StepKeepsCounted(c: Config, s: State, a: Action)
    requires Counted(c, s) && Step(c, s, a).Some?
    ensures Counted(c, Step(c, s, a).value)
  {
    if !a.Tick? {
      StepBalances(c, s, a);
      var p := Step(c, s, a).value.phases[a.i];
      CountUpdate(s.phases, a.i, p, HasPermit);
      CountUpdate(s.phases, a.i, p, InSection);
      CountUpdate(s.phases, a.i, p, IsLost);
    }
  }

  /** In every run: permits are conserved and `inflight` is exact. */
  lemma {:induction false} EveryRunCounted(c: Config, actions: seq<Action>)
    requires ValidConfig(c) && Exec(c, Start(c), actions).Some?
    ensures Counted(c, Exec(c, Start(c), actions).value)
  {
    if actions == [] {
      CountNone(c.total, Sleeping, HasPermit);
      CountNone(c.total, Sleeping, InSection);
      CountNone(c.total, Sleeping, IsLost);
    } else {
      var rest := actions[..|actions| - 1];
      EveryRunCounted(c, rest);
      StepKeepsCounted(c, Exec(c, Start(c), rest).value, actions[|actions| - 1]);
    }
  }

  lemma SectionWithinPermits(c: Config, s: State)
    requires Counted(c, s)
    ensures Count(s.phases, InSection) <= c.concurrency
  {
    CountMonotone(s.phases, InSection, HasPermit);
  }

  lemma {:induction false} CountDisjoint(ps: seq<Phase>, f: Phase -> bool, g: Phase -> bool)
    requires forall p :: !(f(p) && g(p))
    ensures Count(ps, f) + Count(ps, g) <= |ps|
  {
    if ps != [] {
      CountDisjoint(ps[..|ps| - 1], f, g);
    }
  }

  lemma {:induction false} NobodyLost(c: Config, actions: seq<Action>)
    requires ValidConfig(c) && !c.signingMayFail && Exec(c, Start(c), actions).Some?
    ensures Count(Exec(c, Start(c), actions).value.phases, IsLost) == 0
  {
    if actions == [] {
      CountNone(c.total, Sleeping, IsLost);
    } else {
      var rest, a := actions[..|actions| - 1], actions[|actions| - 1];
      NobodyLost(c, rest);
      EveryRunCounted(c, rest);
      var s := Exec(c, Start(c), rest).value;
      if !a.Tick? {
        StepBalances(c, s, a);
        CountUpdate(s.phases, a.i, Step(c, s, a).value.phases[a.i], IsLost);
      }
    }
  }

  /** `inflight` stays within the concurrency. */
  predicate WithinConcurrency(c: Config, s: State)
  {
    s.inflight <= c.concurrency && s.maxInflight <= c.concurrency
  }

  lemma {:induction false} RunsWithin(c: Config, actions: seq<Action>)
    requires ValidConfig(c) && (!c.signingMayFail || c.total <= c.concurrency) && Exec(c, Start(c), actions).Some?
    ensures WithinConcurrency(c, Exec(c, Start(c), actions).value)
  {
    var t := Exec(c, Start(c), actions).value;
    EveryRunCounted(c, actions);
    if c.signingMayFail {
      CountDisjoint(t.phases, InSection, IsLost);
    } else {
      NobodyLost(c, actions);
      SectionWithinPermits(c, t);
    }
    if actions != [] {
      RunsWithin(c, actions[..|actions| - 1]);
    }
  }

  lemma Reach(c: Config, actions: seq<Action>, s: State, a: Action, t: State)
    requires Shaped(c, Start(c)) && Exec(c, Start(c), actions) == Some(s) && Step(c, s, a) == Some(t)
    ensures Exec(c, Start(c), actions + [a]) == Some(t)
  {
    assert (actions + [a])[..|actions|] == actions;
  }

  lemma LoseOne(c: Config, run: seq<Action>, s: State, j: nat) returns (longer: seq<Action>, t: State)
    requires ValidConfig(c) && c.signingMayFail && Exec(c, Start(c), run) == Some(s)
    requires j < c.total && s.phases[j].Sleeping? && s.permits == c.concurrency && s.now >= Due(c, j)
    ensures Exec(c, Start(c), longer) == Some(t)
    ensures t.permits == s.permits && t.inflight == s.inflight + 1 && t.now == s.now
    ensures forall i :: j < i < c.total ==> t.phases[i] == s.phases[i]
  {
    var s1 := Move(s, j, Queued);
    Reach(c, run, s, Wake(j), s1);
    var s2 := Move(s1, j, Acquired).(permits := s.permits - 1);
    Reach(c, run + [Wake(j)], s1, Acquire(j), s2);
    var s3 := Step(c, s2, Begin(j)).value;
    Reach(c, run + [Wake(j)] + [Acquire(j)], s2, Begin(j), s3);
    t := Move(s3, j, Lost).(permits := s.permits);
    Reach(c, run + [Wake(j)] + [Acquire(j)] + [Begin(j)], s3, SignFails(j), t);
    longer := run + [Wake(j)] + [Acquire(j)] + [Begin(j)] + [SignFails(j)];
  }

  /** Each signing failure gives its permit back but stays counted, so `inflight` can reach any number of tasks. */
  lemma {:induction false} LeakRun(c: Config, j: nat) returns (run: seq<Action>, s: State)
    requires ValidConfig(c) && c.signingMayFail && j <= c.total
    ensures Exec(c, Start(c), run) == Some(s) && s.inflight == j && s.permits == c.concurrency
    ensures s.now == Due(c, c.total) && forall i :: j <= i < c.total ==> s.phases[i].Sleeping?
    decreases j
  {
    if j == 0 {
      DueGrows(c, 0, c.total);
      s := Start(c).(now := Due(c, c.total));
      Reach(c, [], Start(c), Tick(Due(c, c.total)), s);
      run := [] + [Tick(Due(c, c.total))];
    } else {
      var r, p := LeakRun(c, j - 1);
      DueGrows(c, j - 1, c.total);
      run, s := LoseOne(c, r, p, j - 1);
    }
  }

  lemma DueGrows(c: Config, i: nat, j: nat)
    requires ValidConfig(c) && i <= j
    ensures 0.0 <= Due(c, i) <= Due(c, j)
  {
    assert i as real <= j as real;
    DivideMonotone(i as real, j as real, c.rate);
    DivideMonotone(0.0, i as real, c.rate);
  }

  lemma DivideMonotone(x: real, y: real, d: real)
    requires x <= y && d > 0.0
    ensures x / d <= y / d
  {
    assert x / d * d == x && y / d * d == y;
  }

  /** The concurrency bounds `inflight` in every run exactly when signing cannot fail or there are few enough tasks. */
  lemma WithinConcurrencyIff(c: Config)
    requires ValidConfig(c)
    ensures (forall actions :: Exec(c, Start(c), actions).Some? ==> WithinConcurrency(c, Exec(c, Start(c), actions).value))
            <==> !c.signingMayFail || c.total <= c.concurrency
  {
    if !c.signingMayFail || c.total <= c.concurrency {
      forall actions | Exec(c, Start(c), actions).Some?
        ensures WithinConcurrency(c, Exec(c, Start(c), actions).value)
      {
        RunsWithin(c, actions);
      }
    } else {
      var run, s := LeakRun(c, c.total);
      assert !WithinConcurrency(c, Exec(c, Start(c), run).value);
    }
  }

  // The schedule.

  /** Requests are submitted at most once, no earlier than due, at times that never go back. */
  predicate Scheduled(c: Config, s: State)
  {
    && Shaped(c, s)
    && (forall k :: 0 <= k < |s.submissions| ==> OnTime(c, s, s.submissions[k]))
    && (forall k, l :: 0 <= k < l < |s.submissions| ==>
          s.submissions[k].task != s.submissions[l].task && s.submissions[k].time <= s.submissions[l].time)
    && (forall i :: 0 <= i < c.total ==> s.phases[i].Sleeping? || s.phases[i].Cancelled? || Due(c, i) <= s.now)
  }

  predicate OnTime(c: Config, s: State, u: Submission)
    requires Shaped(c, s)
  {
    u.task < c.total && Begun(s.phases[u.task]) && Due(c, u.task) <= u.time <= s.now
  }

  lemma StepKeepsScheduled(c: Config, s: State, a: Action)
    requires Scheduled(c, s) && Step(c, s, a).Some?
    ensures Scheduled(c, Step(c, s, a).value)
  {
    var t := Step(c, s, a).value;
    SubmissionsGrow(c, s, a);
    forall k | 0 <= k < |s.submissions|
      ensures OnTime(c, t, s.submissions[k])
    {
      assert OnTime(c, s, s.submissions[k]);
    }
  }

  /** Only `Begin` submits, and only a task that has not begun. */
  lemma SubmissionsGrow(c: Config, s: State, a: Action)
    requires Shaped(c, s) && Step(c, s, a).Some?
    ensures var t := Step(c, s, a).value;
            && t.now >= s.now
            && t.submissions == s.submissions + (if a.Begin? then [Submission(a.i, s.now)] else [])
            && (a.Begin? ==> s.phases[a.i].Acquired?)
            && (forall i :: 0 <= i < c.total && Begun(s.phases[i]) ==> Begun(t.phases[i]))
            && (forall i :: 0 <= i < c.total ==>
                  t.phases[i].Sleeping? || t.phases[i].Cancelled? || t.phases[i] == s.phases[i] ||
                  s.now >= Due(c, i) || !(s.phases[i].Sleeping? || s.phases[i].Cancelled?))
  {
  }

  lemma {:induction false} EveryRunScheduled(c: Config, actions: seq<Action>)
    requires ValidConfig(c) && Exec(c, Start(c), actions).Some?
    ensures Scheduled(c, Exec(c, Start(c), actions).value)
  {
    if actions != [] {
      var rest := actions[..|actions| - 1];
      EveryRunScheduled(c, rest);
      StepKeepsScheduled(c, Exec(c, Start(c), rest).value, actions[|actions| - 1]);
    }
  }

  /** How many requests were submitted by time `t`. */
  function SubmittedBy(us: seq<Submission>, t: real): nat
  {
    if us == [] then 0 else SubmittedBy(us[..|us| - 1], t) + One(us[|us| - 1].time <= t)
  }

  function TasksBy(us: seq<Submission>, t: real): set<nat>
  {
    set k | 0 <= k < |us| && us[k].time <= t :: us[k].task
  }

  lemma {:induction false} SubmittedIsDistinct(us: seq<Submission>, t: real)
    requires forall k, l :: 0 <= k < l < |us| ==> us[k].task != us[l].task
    ensures SubmittedBy(us, t) == |TasksBy(us, t)|
  {
    if us != [] {
      var front, last := us[..|us| - 1], us[|us| - 1];
      SubmittedIsDistinct(front, t);
      LastTask(us, t);
      assert last.task !in TasksBy(front, t);
    }
  }

  lemma LastTask(us: seq<Submission>, t: real)
    requires us != []
    ensures var last := us[|us| - 1];
            TasksBy(us, t) == TasksBy(us[..|us| - 1], t) + if last.time <= t then {last.task} else {}
  {
    var front, last := us[..|us| - 1], us[|us| - 1];
    forall i: nat
      ensures i in TasksBy(us, t) <==> i in TasksBy(front, t) || (last.time <= t && i == last.task)
    {
      if i in TasksBy(front, t) {
        var k :| 0 <= k < |front| && front[k].time <= t && front[k].task == i;
        assert us[k] == front[k];
      }
      if i in TasksBy(us, t) {
        var k :| 0 <= k < |us| && us[k].time <= t && us[k].task == i;
        assert k < |front| ==> front[k] == us[k];
      }
    }
  }

  lemma {:induction false} BoundedSet(tasks: set<nat>, n: nat)
    requires forall i :: i in tasks ==> i < n
    ensures |tasks| <= n
  {
    if n == 0 {
      assert tasks == {};
    } else {
      BoundedSet(tasks - {n - 1}, n - 1);
      assert |tasks| <= |tasks - {n - 1}| + 1;
    }
  }

  lemma DueBound(c: Config, i: nat, t: real)
    requires ValidConfig(c) && Due(c, i) <= t
    ensures i <= (c.rate * t).Floor
  {
    assert Due(c, i) * c.rate == i as real;
    assert (t - Due(c, i)) * c.rate >= 0.0;
    assert i as real <= c.rate * t;
  }

  /** In every run and for every time `t`, at most floor(rate * t) + 1 requests were submitted by then. */
  lemma SubmissionsWithinRate(c: Config, actions: seq<Action>, t: real)
    requires ValidConfig(c) && Exec(c, Start(c), actions).Some? && t >= 0.0
    ensures SubmittedBy(Exec(c, Start(c), actions).value.submissions, t) <= (c.rate * t).Floor + 1
  {
    var s := Exec(c, Start(c), actions).value;
    EveryRunScheduled(c, actions);
    SubmittedIsDistinct(s.submissions, t);
    assert c.rate * t >= 0.0;
    forall i | i in TasksBy(s.submissions, t)
      ensures i < (c.rate * t).Floor + 1
    {
      var k :| 0 <= k < |s.submissions| && s.submissions[k].time <= t && s.submissions[k].task == i;
      assert OnTime(c, s, s.submissions[k]);
      DueBound(c, i, t);
    }
    BoundedSet(TasksBy(s.submissions, t), (c.rate * t).Floor + 1);
  }

  // The outcome slots and the totals.

  /** A slot is filled exactly when its task got past storing, and every outcome is decided. */
  predicate Recorded(c: Config, s: State)
  {
    && Shaped(c, s)
    && (forall i :: 0 <= i < c.total ==> (s.outcomes[i].Some? <==> s.phases[i].Stored? || s.phases[i].Finished?))
    && (forall i :: 0 <= i < c.total && s.outcomes[i].Some? ==> Decided(s.outcomes[i].value))
    && (forall i :: 0 <= i < c.total && (s.phases[i].Answered? || s.phases[i].Storing?) ==> Decided(s.phases[i].o))
  }

  lemma StepKeepsRecorded(c: Config, s: State, a: Action)
    requires Recorded(c, s) && Step(c, s, a).Some?
    ensures Recorded(c, Step(c, s, a).value)
  {
    if a.Answer? {
      assert Decided(Classify(a.reply));
    }
  }

  lemma {:induction false} EveryRunRecorded(c: Config, actions: seq<Action>)
    requires ValidConfig(c) && Exec(c, Start(c), actions).Some?
    ensures Recorded(c, Exec(c, Start(c), actions).value)
  {
    if actions != [] {
      var rest := actions[..|actions| - 1];
      EveryRunRecorded(c, rest);
      StepKeepsRecorded(c, Exec(c, Start(c), rest).value, actions[|actions| - 1]);
    }
  }

  /** The number in flight after the first `k` steps. */
  ghost function InFlightAt(c: Config, actions: seq<Action>, k: nat): int
    requires ValidConfig(c) && k <= |actions|
  {
    var t := Exec(c, Start(c), actions[..k]);
    if t.Some? then t.value.inflight else 0
  }

  /** The reported maximum is the largest number in flight at any moment of the run. */
  lemma {:induction false} EveryRunPeaks(c: Config, actions: seq<Action>)
    requires ValidConfig(c) && Exec(c, Start(c), actions).Some?
    ensures forall k :: 0 <= k <= |actions| ==> InFlightAt(c, actions, k) <= Exec(c, Start(c), actions).value.maxInflight
    ensures exists k :: 0 <= k <= |actions| && InFlightAt(c, actions, k) == Exec(c, Start(c), actions).value.maxInflight
  {
    var n := |actions|;
    assert actions[..n] == actions;
    if n > 0 {
      var rest := actions[..n - 1];
      EveryRunPeaks(c, rest);
      assert rest[..n - 1] == rest;
      assert forall k :: 0 <= k <= n - 1 ==> rest[..k] == actions[..k];
      assert forall k :: 0 <= k <= n - 1 ==> InFlightAt(c, actions, k) == InFlightAt(c, rest, k);
      assert InFlightAt(c, rest, n - 1) == Exec(c, Start(c), rest).value.inflight;
      PeakStep(c, Exec(c, Start(c), rest).value, actions[n - 1]);
      var k :| 0 <= k <= n - 1 && InFlightAt(c, rest, k) == Exec(c, Start(c), rest).value.maxInflight;
      assert InFlightAt(c, actions, k) == Exec(c, Start(c), rest).value.maxInflight;
      assert InFlightAt(c, actions, n) == Exec(c, Start(c), actions).value.inflight;
    } else {
      assert InFlightAt(c, actions, 0) == 0;
    }
  }

  lemma PeakStep(c: Config, s: State, a: Action)
    requires Shaped(c, s) && Step(c, s, a).Some? && s.inflight <= s.maxInflight
    ensures var t := Step(c, s, a).value;
            t.inflight <= t.maxInflight && s.maxInflight <= t.maxInflight && t.maxInflight in {s.maxInflight, t.inflight}
  {
  }

  // What each outcome says of the reply.

  predicate Accepts(status: int)
  {
    200 <= status < 300
  }

  /** The outcome a reply calls for. */
  predicate Fits(o: Outcome, r: Reply)
  {
    && Decided(o) && o.status == (if r.Response? then Some(r.status) else None)
    && (o.success <==> r.Response? && Accepts(r.status) && r.ack == AckMessage(true))
    && (o.failure == Some(HttpStatus) <==> r.Response? && !Accepts(r.status))
    && (o.failure == Some(InvalidAck) <==>
          r.Response? && Accepts(r.status) && (r.ack.AckUnparsable? || r.ack == AckMessage(false)))
    && (o.failure == Some(Timeout) <==> r.TimeoutError?)
    && (o.failure == Some(Transport) <==> r.HttpError?)
    && (o.failure == Some(ClientError) <==> r.OtherError? || (r.Response? && Accepts(r.status) && r.ack.AckRaises?))
  }

  /** The outcome a task holds or has stored. */
  function Held(s: State, i: nat): Option<Outcome>
    requires i < |s.phases| == |s.outcomes|
  {
    if s.phases[i].Answered? || s.phases[i].Storing? then Some(s.phases[i].o) else s.outcomes[i]
  }

  /** The run holds this answer to the task and no other. */
  ghost predicate OnlyAnswer(actions: seq<Action>, i: nat, r: Reply)
  {
    Answer(i, r) in actions && forall q :: Answer(i, q) in actions ==> q == r
  }

  ghost predicate TaskTraced(actions: seq<Action>, s: State, i: nat)
    requires i < |s.phases| == |s.outcomes|
  {
    && (s.outcomes[i].Some? ==> s.phases[i].Stored? || s.phases[i].Finished?)
    && match Held(s, i)
       case None => forall q :: Answer(i, q) !in actions
       case Some(o) => exists r :: OnlyAnswer(actions, i, r) && Fits(o, r)
  }

  ghost predicate Traced(c: Config, actions: seq<Action>, s: State)
  {
    Shaped(c, s) && forall i :: 0 <= i < c.total ==> TaskTraced(actions, s, i)
  }

  lemma BystanderTraced(c: Config, actions: seq<Action>, s: State, a: Action, t: State, i: nat)
    requires Shaped(c, s) && Step(c, s, a) == Some(t) && i < c.total && (a.Tick? || a.i != i) && TaskTraced(actions, s, i)
    ensures TaskTraced(actions + [a], t, i)
  {
    assert forall q :: Answer(i, q) in actions + [a] <==> Answer(i, q) in actions;
    if Held(s, i).Some? {
      var r :| OnlyAnswer(actions, i, r) && Fits(Held(s, i).value, r);
      assert OnlyAnswer(actions + [a], i, r);
    }
  }

  lemma ActorTraced(c: Config, actions: seq<Action>, s: State, a: Action, t: State)
    requires Shaped(c, s) && Step(c, s, a) == Some(t) && !a.Tick? && TaskTraced(actions, s, a.i)
    ensures TaskTraced(actions + [a], t, a.i)
  {
    if a.Answer? {
      assert OnlyAnswer(actions + [a], a.i, a.reply) && Fits(t.phases[a.i].o, a.reply);
    } else {
      assert forall q :: Answer(a.i, q) in actions + [a] <==> Answer(a.i, q) in actions;
      if Held(s, a.i).Some? {
        var r :| OnlyAnswer(actions, a.i, r) && Fits(Held(s, a.i).value, r);
        assert OnlyAnswer(actions + [a], a.i, r);
      }
    }
  }

  lemma {:induction false} EveryRunTraced(c: Config, actions: seq<Action>)
    requires ValidConfig(c) && Exec(c, Start(c), actions).Some?
    ensures Traced(c, actions, Exec(c, Start(c), actions).value)
  {
    if actions != [] {
      var rest, a := actions[..|actions| - 1], actions[|actions| - 1];
      EveryRunTraced(c, rest);
      var s, t := Exec(c, Start(c), rest).value, Exec(c, Start(c), actions).value;
      assert actions == rest + [a];
      forall i | 0 <= i < c.total
        ensures TaskTraced(actions, t, i)
      {
        assert TaskTraced(rest, s, i);
        if a.Tick? || a.i != i {
          BystanderTraced(c, rest, s, a, t, i);
        } else {
          ActorTraced(c, rest, s, a, t);
        }
      }
    }
  }

  /** The task was answered with a 2xx response acknowledging the message. */
  ghost predicate AnsweredWell(actions: seq<Action>, i: nat)
  {
    exists status :: Accepts(status) && Answer(i, Response(status, AckMessage(true))) in actions
  }

  /** In every run a filled slot tells what its task was answered. */
  lemma SlotTellsReply(c: Config, actions: seq<Action>, i: nat)
    requires ValidConfig(c) && Exec(c, Start(c), actions).Some? && i < c.total
    requires Exec(c, Start(c), actions).value.outcomes[i].Some?
    ensures var o := Exec(c, Start(c), actions).value.outcomes[i].value;
            && (o.success <==> AnsweredWell(actions, i))
            && (o.failure == Some(HttpStatus) <==>
                  exists status, ack :: !Accepts(status) && Answer(i, Response(status, ack)) in actions)
            && (o.failure == Some(InvalidAck) <==>
                  exists status, ack :: Accepts(status) && (ack == AckUnparsable || ack == AckMessage(false))
                                        && Answer(i, Response(status, ack)) in actions)
            && (o.failure == Some(Timeout) <==> Answer(i, TimeoutError) in actions)
            && (o.failure == Some(Transport) <==> Answer(i, HttpError) in actions)
            && (o.failure == Some(ClientError) <==>
                  || Answer(i, OtherError) in actions
                  || exists status :: Accepts(status) && Answer(i, Response(status, AckRaises)) in actions)
  {
    EveryRunTraced(c, actions);
    var s := Exec(c, Start(c), actions).value;
    assert TaskTraced(actions, s, i);
    var r :| OnlyAnswer(actions, i, r) && Fits(s.outcomes[i].value, r);
    if r.Response? {
      assert Answer(i, Response(r.status, r.ack)) in actions;
    }
  }

  datatype Summary = Summary(requested: nat, accepted: nat, failed: int, completed: nat, failures: map<FailureKind, nat>)

  function Tally(m: map<FailureKind, nat>, k: FailureKind): nat
  {
    if k in m then m[k] else 0
  }

  function FailureSum(m: map<FailureKind, nat>): nat
  {
    Tally(m, InvalidAck) + Tally(m, HttpStatus) + Tally(m, Timeout) + Tally(m, Transport) + Tally(m, ClientError)
  }

  predicate Success(o: Option<Outcome>)
  {
    o.Some? && o.value.success
  }

  predicate FailedAs(o: Option<Outcome>, k: FailureKind)
  {
    o.Some? && o.value.failure == Some(k)
  }

  function Successes(os: seq<Option<Outcome>>): nat
  {
    if os == [] then 0 else Successes(os[..|os| - 1]) + One(Success(os[|os| - 1]))
  }

  function Completions(os: seq<Option<Outcome>>): nat
  {
    if os == [] then 0 else Completions(os[..|os| - 1]) + One(os[|os| - 1].Some?)
  }

  function Failures(os: seq<Option<Outcome>>, k: FailureKind): nat
  {
    if os == [] then 0 else Failures(os[..|os| - 1], k) + One(FailedAs(os[|os| - 1], k))
  }

  predicate AllDecided(os: seq<Option<Outcome>>)
  {
    forall i :: 0 <= i < |os| && os[i].Some? ==> Decided(os[i].value)
  }

  /** Every completed request is a success or fails in exactly one way. */
  lemma {:induction false} EveryOutcomeOnce(os: seq<Option<Outcome>>)
    requires AllDecided(os)
    ensures Successes(os) + Failures(os, InvalidAck) + Failures(os, HttpStatus) + Failures(os, Timeout)
            + Failures(os, Transport) + Failures(os, ClientError) == Completions(os) <= |os|
  {
    if os != [] {
      EveryOutcomeOnce(os[..|os| - 1]);
      var last := os[|os| - 1];
      if last.Some? && last.value.failure.Some? {
        match last.value.failure.value
        case InvalidAck =>
        case HttpStatus =>
        case Timeout =>
        case Transport =>
        case ClientError =>
      }
    }
  }

  /** The totals and the count of each failure kind are those of the outcome slots. */
  ghost predicate Summarizes(r: Summary, os: seq<Option<Outcome>>)
  {
    && r.requested == |os| && r.accepted == Successes(os) && r.completed == Completions(os)
    && r.accepted + r.failed == r.requested
    && forall k :: Tally(r.failures, k) == Failures(os, k)
  }

  /** Count completions, successes and failure kinds over the outcome slots. */
  method Summarize(os: seq<Option<Outcome>>) returns (r: Summary)
    requires AllDecided(os)
    ensures Summarizes(r, os)
    ensures FailureSum(r.failures) + (r.requested - r.completed) == r.failed
  {
    var accepted, completed := 0, 0;
    var failures: map<FailureKind, nat> := map[];
    for n := 0 to |os|
      invariant accepted == Successes(os[..n]) && completed == Completions(os[..n])
      invariant forall k :: Tally(failures, k) == Failures(os[..n], k)
    {
      assert os[..n + 1][..n] == os[..n];
      if os[n].Some? {
        completed := completed + 1;
        if os[n].value.failure.Some? {
          var k := os[n].value.failure.value;
          failures := failures[k := Tally(failures, k) + 1];
        }
        if os[n].value.success {
          accepted := accepted + 1;
        }
      }
    }
    assert os[..|os|] == os;
    EveryOutcomeOnce(os);
    r := Summary(|os|, accepted, |os| - accepted, completed, failures);
  }

  lemma {:induction false} AllComplete(os: seq<Option<Outcome>>)
    requires forall i :: 0 <= i < |os| ==> os[i].Some?
    ensures Completions(os) == |os|
  {
    if os != [] {
      AllComplete(os[..|os| - 1]);
    }
  }

  /** Once every task has finished there is no empty slot, and every permit is back. */
  lemma FinishedRunIsComplete(c: Config, actions: seq<Action>)
    requires ValidConfig(c) && Exec(c, Start(c), actions).Some?
    requires forall i :: 0 <= i < c.total ==> Exec(c, Start(c), actions).value.phases[i].Finished?
    ensures forall i :: 0 <= i < c.total ==>
      var o := Exec(c, Start(c), actions).value.outcomes[i]; o.Some? && Decided(o.value)
    ensures Completions(Exec(c, Start(c), actions).value.outcomes) == c.total
    ensures Exec(c, Start(c), actions).value.permits == c.concurrency && Exec(c, Start(c), actions).value.inflight == 0
  {
    var s := Exec(c, Start(c), actions).value;
    EveryRunRecorded(c, actions);
    EveryRunCounted(c, actions);
    assert s.phases == seq(c.total, _ => Finished);
    CountNone(c.total, Finished, HasPermit);
    CountNone(c.total, Finished, InSection);
    CountNone(c.total, Finished, IsLost);
    AllComplete(s.outcomes);
  }

  /** A finished run's summary explains every failure: the counts of the failure kinds sum to the failed total. */
  lemma FailuresSumToFailed(c: Config, actions: seq<Action>, r: Summary)
    requires ValidConfig(c) && Exec(c, Start(c), actions).Some?
    requires forall i :: 0 <= i < c.total ==> Exec(c, Start(c), actions).value.phases[i].Finished?
    requires Summarizes(r, Exec(c, Start(c), actions).value.outcomes)
    ensures r.requested == r.completed == c.total && FailureSum(r.failures) == r.failed
  {
    FinishedRunIsComplete(c, actions);
    EveryRunRecorded(c, actions);
    EveryOutcomeOnce(Exec(c, Start(c), actions).value.outcomes);
  }

  lemma {:induction false} SuccessesCounted(os: seq<Option<Outcome>>)
    ensures Successes(os) == Number(os, Success)
  {
    if os != [] {
      SuccessesCounted(os[..|os| - 1]);
      NumberLast(os, Success);
    }
  }

  /** The accepted total of a finished run is the number of requests whose answer acknowledged them. */
  lemma AcceptedAreAcknowledged(c: Config, actions: seq<Action>, r: Summary)
    requires ValidConfig(c) && Exec(c, Start(c), actions).Some?
    requires forall i :: 0 <= i < c.total ==> Exec(c, Start(c), actions).value.phases[i].Finished?
    requires Summarizes(r, Exec(c, Start(c), actions).value.outcomes)
    ensures r.accepted == |set i: int | 0 <= i < c.total && AnsweredWell(actions, i)|
  {
    FinishedRunIsComplete(c, actions);
    var os := Exec(c, Start(c), actions).value.outcomes;
    SuccessesCounted(os);
    forall i: nat | i < c.total
      ensures Success(os[i]) <==> AnsweredWell(actions, i)
    {
      SlotTellsReply(c, actions, i);
    }
    NumberIs(os, Success, set i: int | 0 <= i < c.total && AnsweredWell(actions, i));
  }
}
