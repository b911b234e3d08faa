/** Sessions that publish to one pair of files take turns through an exclusively created lock file. */
module PublicationSessions {
  import opened Text
  import opened CandidateLock
  import opened CandidateInstall

  /** What each session publishes, the pair found at the start, and whether a rollback can fail or be interrupted. */
  datatype Config = Config(bindings: seq<Binding>, clocks: seq<string>, original: Pair, rollbackMayFail: bool)

  predicate ValidConfig(c: Config)
  {
    |c.clocks| == |c.bindings|
  }

  /** Where a session stands between entering and leaving the lock. */
  datatype Phase =
    | Waiting
    | Entered
    | SavedOutput(output: Option<Content>)
    | SavedBoth(saved: Pair)
    | Half(saved: Pair)      // the binding is replaced, the lock is not
    | Closing                // finished or rolled back, lock file still there
    | Gone
    | Crashed                // died inside: the lock file stays

  predicate Holds(p: Phase)
  {
    !p.Waiting? && !p.Gone?
  }

  datatype State = State(lockFile: bool, disk: Pair, phases: seq<Phase>)

  datatype Action =
    | Enter(i: nat) | SaveOutput(i: nat) | SaveLock(i: nat) | PutOutput(i: nat) | PutLock(i: nat)
    | Abort(i: nat)          // an operation raised; roll back
    | AbortBadly(i: nat)     // the rollback itself failed or was interrupted
    | Leave(i: nat) | Crash(i: nat)

  function Start(c: Config): State
  {
    State(false, c.original, seq(|c.bindings|, _ => Waiting))
  }

  predicate Shaped(c: Config, s: State)
  {
    ValidConfig(c) && |s.phases| == |c.bindings|
  }

  function LockOf(c: Config, i: nat): Content
    requires ValidConfig(c) && i < |c.bindings|
  {
    LockFile(MakeLock(c.bindings[i], c.clocks[i]))
  }

  /** The pair session `i` publishes. */
  function Written(c: Config, i: nat): Pair
    requires ValidConfig(c) && i < |c.bindings|
  {
    NewPair(c.bindings[i], MakeLock(c.bindings[i], c.clocks[i]))
  }

  function Move(s: State, i: nat, p: Phase): State
    requires i < |s.phases|
  {
    s.(phases := s.phases[i := p])
  }

  /** One step, or `None` when it is not enabled. */
  function Step(c: Config, s: State, a: Action): (t: Option<State>)
    requires Shaped(c, s)
    ensures t.Some? ==> Shaped(c, t.value)
  {
    if a.i >= |s.phases| then None else
    var p := s.phases[a.i];
    match a
    case Enter(i) =>
      if !p.Waiting? then None
      else if s.lockFile then Some(Move(s, i, Gone))
      else Some(Move(s, i, Entered).(lockFile := true))
    case SaveOutput(i) =>
      if p.Entered? then Some(Move(s, i, SavedOutput(s.disk.output))) else None
    case SaveLock(i) =>
      if p.SavedOutput? then Some(Move(s, i, SavedBoth(Pair(p.output, s.disk.lock)))) else None
    case PutOutput(i) =>
      if !p.SavedBoth? then None
      else Some(Move(s, i, Half(p.saved)).(disk := s.disk.(output := Some(BindingFile(c.bindings[i])))))
    case PutLock(i) =>
      if p.Half? then Some(Move(s, i, Closing).(disk := s.disk.(lock := Some(LockOf(c, i))))) else None
    case Abort(i) =>
      if p.Entered? || p.SavedOutput? || p.SavedBoth? then Some(Move(s, i, Closing))
      else if p.Half? then Some(Move(s, i, Closing).(disk := s.disk.(output := p.saved.output)))
      else None
    case AbortBadly(i) =>
      if p.Half? && c.rollbackMayFail then Some(Move(s, i, Closing)) else None
    case Leave(i) =>
      if p.Closing? then Some(Move(s, i, Gone).(lockFile := false)) else None
    case Crash(i) =>
      if Holds(p) then Some(Move(s, i, Crashed)) else None
  }

  function Exec(c: Config, s: State, actions: seq<Action>): (t: Option<State>)
    requires Shaped(c, s)
    ensures t.Some? ==> Shaped(c, t.value)
  {
    if actions == [] then Some(s) else
    var t := Exec(c, s, actions[..|actions| - 1]);
    if t.None? then None else Step(c, t.value, actions[|actions| - 1])
  }

  lemma Reach(c: Config, actions: seq<Action>, s: State, a: Action, t: State)
    requires Shaped(c, Start(c)) && Exec(c, Start(c), actions) == Some(s) && Step(c, s, a) == Some(t)
    ensures Exec(c, Start(c), actions + [a]) == Some(t)
  {
    assert (actions + [a])[..|actions|] == actions;
  }

  /** The original pair, or one session's whole pair. */
  predicate Settled(c: Config, p: Pair)
    requires ValidConfig(c)
  {
    p == c.original || exists i :: 0 <= i < |c.bindings| && p == Written(c, i)
  }

  // Mutual exclusion.

  predicate Exclusive(s: State)
  {
    && (forall i :: 0 <= i < |s.phases| && Holds(s.phases[i]) ==> s.lockFile)
    && (forall i, j :: 0 <= i < j < |s.phases| ==> !(Holds(s.phases[i]) && Holds(s.phases[j])))
  }

  lemma StepKeepsExclusive(c: Config, s: State, a: Action)
    requires Shaped(c, s) && Exclusive(s) && Step(c, s, a).Some?
    ensures Exclusive(Step(c, s, a).value)
  {
  }

  /** In every run at most one session is inside, crashed ones included, and then the lock file is there. */
  lemma {:induction false} AtMostOneInside(c: Config, actions: seq<Action>)
    requires ValidConfig(c) && Exec(c, Start(c), actions).Some?
    ensures Exclusive(Exec(c, Start(c), actions).value)
  {
    if actions != [] {
      var rest := actions[..|actions| - 1];
      AtMostOneInside(c, rest);
      StepKeepsExclusive(c, Exec(c, Start(c), rest).value, actions[|actions| - 1]);
    }
  }

  // The pair on disk.

  /** How a holder's phase accounts for the disk. */
  predicate Fits(c: Config, disk: Pair, i: nat, p: Phase)
    requires ValidConfig(c) && i < |c.bindings|
  {
    match p
    case Entered => Settled(c, disk)
    case SavedOutput(output) => Settled(c, disk) && output == disk.output
    case SavedBoth(saved) => Settled(c, disk) && saved == disk
    case Half(saved) => Settled(c, saved) && disk == MixedPair(saved, c.bindings[i])
    case Closing => Settled(c, disk)
    case _ => true
  }

  predicate Inv(c: Config, s: State)
  {
    && Shaped(c, s) && Exclusive(s)
    && (!s.lockFile ==> Settled(c, s.disk))
    && (forall i :: 0 <= i < |s.phases| ==> Fits(c, s.disk, i, s.phases[i]))
  }

  lemma StepKeepsInv(c: Config, s: State, a: Action)
    requires Inv(c, s) && !c.rollbackMayFail && Step(c, s, a).Some?
    ensures Inv(c, Step(c, s, a).value)
  {
    var t := Step(c, s, a).value;
    StepKeepsExclusive(c, s, a);
    forall j | 0 <= j < |t.phases|
      ensures Fits(c, t.disk, j, t.phases[j])
    {
      if j == a.i {
        ActorFits(c, s, a);
      } else {
        BystanderFits(c, s, a, j);
      }
    }
    if a.Leave? {
      assert Fits(c, s.disk, a.i, s.phases[a.i]);
    }
  }

  lemma ActorFits(c: Config, s: State, a: Action)
    requires Inv(c, s) && !c.rollbackMayFail && Step(c, s, a).Some?
    ensures Fits(c, Step(c, s, a).value.disk, a.i, Step(c, s, a).value.phases[a.i])
  {
    assert Fits(c, s.disk, a.i, s.phases[a.i]);
    if a.PutLock? {
      assert Step(c, s, a).value.disk == Written(c, a.i);
    }
  }

  lemma BystanderFits(c: Config, s: State, a: Action, j: nat)
    requires Inv(c, s) && Step(c, s, a).Some? && j < |s.phases| && j != a.i
    ensures Fits(c, Step(c, s, a).value.disk, j, s.phases[j])
  {
    assert Fits(c, s.disk, j, s.phases[j]);
    assert !(Holds(s.phases[a.i]) && Holds(s.phases[j]));
  }

  lemma {:induction false} EveryRunKeepsInv(c: Config, actions: seq<Action>)
    requires ValidConfig(c) && !c.rollbackMayFail && Exec(c, Start(c), actions).Some?
    ensures Inv(c, Exec(c, Start(c), actions).value)
  {
    if actions != [] {
      var rest := actions[..|actions| - 1];
      EveryRunKeepsInv(c, rest);
      StepKeepsInv(c, Exec(c, Start(c), rest).value, actions[|actions| - 1]);
    }
  }

  // Each session is one installation.

  /** While a session is inside, the disk is what it saved, or that under its own binding. */
  predicate Traced(c: Config, disk: Pair, i: nat, p: Phase)
    requires i < |c.bindings|
  {
    match p
    case SavedOutput(output) => output == disk.output
    case SavedBoth(saved) => saved == disk
    case Half(saved) => disk == MixedPair(saved, c.bindings[i])
    case _ => true
  }

  predicate AllTraced(c: Config, s: State)
  {
    Shaped(c, s) && Exclusive(s) && forall i :: 0 <= i < |s.phases| ==> Traced(c, s.disk, i, s.phases[i])
  }

  lemma StepKeepsTraced(c: Config, s: State, a: Action)
    requires AllTraced(c, s) && Step(c, s, a).Some?
    ensures AllTraced(c, Step(c, s, a).value)
  {
    var t := Step(c, s, a).value;
    StepKeepsExclusive(c, s, a);
    forall j | 0 <= j < |t.phases|
      ensures Traced(c, t.disk, j, t.phases[j])
    {
      assert Traced(c, s.disk, j, s.phases[j]) && Traced(c, s.disk, a.i, s.phases[a.i]);
      assert j != a.i ==> !(Holds(s.phases[a.i]) && Holds(s.phases[j]));
    }
  }

  lemma {:induction false} EveryRunTraced(c: Config, actions: seq<Action>)
    requires ValidConfig(c) && Exec(c, Start(c), actions).Some?
    ensures AllTraced(c, Exec(c, Start(c), actions).value)
  {
    if actions != [] {
      var rest := actions[..|actions| - 1];
      EveryRunTraced(c, rest);
      StepKeepsTraced(c, Exec(c, Start(c), rest).value, actions[|actions| - 1]);
    }
  }

  /** How a step that closes a session ends its installation. */
  function EndingOf(a: Action): Option<Ending>
  {
    match a
    case PutLock(_) => Some(Installed)
    case Abort(_) => Some(Failed)
    case AbortBadly(_) => Some(RollbackFailed)
    case Crash(_) => Some(Dead)
    case _ => None
  }

  /** In every interleaving a session ends on the disk as a lone installation from what it saved would. */
  lemma SessionIsInstall(c: Config, actions: seq<Action>, a: Action)
    requires ValidConfig(c) && Exec(c, Start(c), actions).Some? && a.i < |c.bindings| && EndingOf(a).Some?
    requires Step(c, Exec(c, Start(c), actions).value, a).Some?
    ensures
      var s := Exec(c, Start(c), actions).value;
      var p := s.phases[a.i];
      p.SavedBoth? || p.Half? ==>
        EndsWith(EndingOf(a).value, p.saved, c.bindings[a.i], MakeLock(c.bindings[a.i], c.clocks[a.i]), Step(c, s, a).value.disk)
  {
    EveryRunTraced(c, actions);
    var s := Exec(c, Start(c), actions).value;
    assert Traced(c, s.disk, a.i, s.phases[a.i]);
  }

  /** Between sessions the disk holds the original pair or one session's pair. */
  ghost predicate WholeBetweenSessions(c: Config)
    requires ValidConfig(c)
  {
    forall actions :: var t := Exec(c, Start(c), actions); t.Some? && !t.value.lockFile ==> Settled(c, t.value.disk)
  }

  lemma HalfwayRun(c: Config, i: nat) returns (run: seq<Action>, s: State)
    requires ValidConfig(c) && i < |c.bindings|
    ensures Exec(c, Start(c), run) == Some(s) && s.disk == MixedPair(c.original, c.bindings[i])
    ensures |s.phases| == |c.bindings| && s.phases[i].Half?
  {
    var s0 := Start(c);
    var s1 := Move(s0, i, Entered).(lockFile := true);
    Reach(c, [], s0, Enter(i), s1);
    var s2 := Move(s1, i, SavedOutput(c.original.output));
    Reach(c, [] + [Enter(i)], s1, SaveOutput(i), s2);
    var s3 := Move(s2, i, SavedBoth(c.original));
    Reach(c, [] + [Enter(i)] + [SaveOutput(i)], s2, SaveLock(i), s3);
    s := Move(s3, i, Half(c.original)).(disk := MixedPair(c.original, c.bindings[i]));
    Reach(c, [] + [Enter(i)] + [SaveOutput(i)] + [SaveLock(i)], s3, PutOutput(i), s);
    run := [] + [Enter(i)] + [SaveOutput(i)] + [SaveLock(i)] + [PutOutput(i)];
  }

  /** A session whose rollback fails leaves its binding beside the old lock and removes the lock file. */
  lemma BrokenRunMixes(c: Config, i: nat) returns (run: seq<Action>)
    requires ValidConfig(c) && c.rollbackMayFail && i < |c.bindings|
    ensures Exec(c, Start(c), run).Some?
    ensures var t := Exec(c, Start(c), run).value; !t.lockFile && t.disk == MixedPair(c.original, c.bindings[i])
  {
    var half, s := HalfwayRun(c, i);
    var closing := Move(s, i, Closing);
    Reach(c, half, s, AbortBadly(i), closing);
    Reach(c, half + [AbortBadly(i)], closing, Leave(i), Move(closing, i, Gone).(lockFile := false));
    run := half + [AbortBadly(i)] + [Leave(i)];
  }

  /** The pair is whole between sessions in every run exactly when no rollback can fail. */
  lemma WholeBetweenSessionsIff(c: Config, i: nat)
    requires ValidConfig(c) && i < |c.bindings| && !Settled(c, MixedPair(c.original, c.bindings[i]))
    ensures WholeBetweenSessions(c) <==> !c.rollbackMayFail
  {
    if c.rollbackMayFail {
      var run := BrokenRunMixes(c, i);
      assert !Settled(c, Exec(c, Start(c), run).value.disk);
    } else {
      forall actions | Exec(c, Start(c), actions).Some? && !Exec(c, Start(c), actions).value.lockFile
        ensures Settled(c, Exec(c, Start(c), actions).value.disk)
      {
        EveryRunKeepsInv(c, actions);
      }
    }
  }

  // What the lock verifier makes of the disk at any moment.

  /** No session publishes a binding the original pair or another session already names. */
  predicate FreshContent(c: Config)
  {
    && (forall i, j :: 0 <= i < j < |c.bindings| ==> c.bindings[i] != c.bindings[j])
    && (forall i :: 0 <= i < |c.bindings| ==> c.original.output != Some(BindingFile(c.bindings[i])))
    && (forall i :: 0 <= i < |c.bindings| ==> !Names(c.original.lock, c.bindings[i]))
  }

  predicate Names(l: Option<Content>, b: Binding)
  {
    l.Some? && l.value.LockFile? && l.value.lock.bindingSha256 == Some(Sha256(b))
  }

  /** Each file on disk is the original's or some session's. */
  predicate OutputKnown(c: Config, o: Option<Content>)
  {
    o == c.original.output || exists i :: 0 <= i < |c.bindings| && o == Some(BindingFile(c.bindings[i]))
  }

  predicate LockKnown(c: Config, l: Option<Content>)
    requires ValidConfig(c)
  {
    l == c.original.lock || exists i :: 0 <= i < |c.bindings| && l == Some(LockOf(c, i))
  }

  predicate AllKnown(c: Config, s: State)
  {
    && Shaped(c, s) && OutputKnown(c, s.disk.output) && LockKnown(c, s.disk.lock)
    && (forall i :: 0 <= i < |s.phases| && s.phases[i].SavedOutput? ==> OutputKnown(c, s.phases[i].output))
    && (forall i :: 0 <= i < |s.phases| && (s.phases[i].SavedBoth? || s.phases[i].Half?) ==>
          OutputKnown(c, s.phases[i].saved.output))
  }

  lemma StepKeepsKnown(c: Config, s: State, a: Action)
    requires AllKnown(c, s) && Step(c, s, a).Some?
    ensures AllKnown(c, Step(c, s, a).value)
  {
    var t := Step(c, s, a).value;
    assert OutputKnown(c, Some(BindingFile(c.bindings[a.i])));
    assert LockKnown(c, Some(LockOf(c, a.i)));
  }

  lemma {:induction false} EveryRunKeepsKnown(c: Config, actions: seq<Action>)
    requires ValidConfig(c) && Exec(c, Start(c), actions).Some?
    ensures AllKnown(c, Exec(c, Start(c), actions).value)
  {
    if actions != [] {
      var rest := actions[..|actions| - 1];
      EveryRunKeepsKnown(c, rest);
      StepKeepsKnown(c, Exec(c, Start(c), rest).value, actions[|actions| - 1]);
    }
  }

  /**
   * In every run, whatever crashes or failed rollbacks it holds, the verifier accepts what is on
   * disk only if it is the original pair or one session's whole pair.
   */
  lemma AcceptedIsWhole(c: Config, actions: seq<Action>, now: Now)
    requires ValidConfig(c) && FreshContent(c) && Exec(c, Start(c), actions).Some?
    requires Accepted(Exec(c, Start(c), actions).value.disk, now)
    ensures Settled(c, Exec(c, Start(c), actions).value.disk)
  {
    var disk := Exec(c, Start(c), actions).value.disk;
    EveryRunKeepsKnown(c, actions);
    VerifiedIffMade(disk.lock.value.lock, disk.output.value.binding, now);
    if disk.output != c.original.output {
      var i :| 0 <= i < |c.bindings| && disk.output == Some(BindingFile(c.bindings[i]));
      assert Names(disk.lock, c.bindings[i]);
      var j :| 0 <= j < |c.bindings| && disk.lock == Some(LockOf(c, j));
      assert c.bindings[i] == c.bindings[j];
      assert disk == Written(c, i);
    }
  }
}
