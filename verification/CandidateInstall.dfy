/** Installing a binding and its lock as one pair: stage, back up, replace twice, roll back on failure. */
module CandidateInstall {
  import opened Text
  import opened CandidateLock

  datatype Path = Output | LockOutput | StagedOutput | StagedLock | BackupOutput | BackupLock

  /** A complete binding or lock file, or bytes that are neither (a copy cut short, an older format). */
  datatype Content = BindingFile(binding: Binding) | LockFile(lock: Lock) | Bytes(data: string)

  /** The two targets as a reader finds them; `None` for a missing file. */
  datatype Pair = Pair(output: Option<Content>, lock: Option<Content>)

  predicate Temporary(p: Path)
  {
    !p.Output? && !p.LockOutput?
  }

  /** How one file operation ends: it returns, raises, is interrupted from outside, or the process dies. */
  datatype Step = Returned | Raised | Interrupted | Died

  /** How the installation ends. */
  datatype Ending =
    | Installed
    | Failed             // an operation raised and the rollback ran through
    | RollbackFailed     // an operation raised and so did the rollback
    | CleanupFailed      // removing a temporary file raised
    | Cancelled          // interrupted: no rollback, but temporary files are removed
    | Dead

  class Disk {
    var files: map<Path, Content>
    ghost var seen: set<Pair>   // what readers of the two targets could find so far
    ghost var log: seq<Step>    // how the file operations ended

    constructor ()
      ensures files == map[] && seen == {Pair(None, None)} && log == []
    {
      files, seen, log := map[], {Pair(None, None)}, [];
    }

    function At(p: Path): Option<Content>
      reads this`files
    {
      if p in files then Some(files[p]) else None
    }

    function Targets(): Pair
      reads this`files
    {
      Pair(At(Output), At(LockOutput))
    }

    /** Write or copy to a temporary file; unless it returns, anything may be left there. */
    method Fill(p: Path, c: Content) returns (s: Step)
      requires Temporary(p)
      modifies this`files, this`log
      ensures log == old(log) + [s]
      ensures s.Returned? ==> files == old(files)[p := c]
      ensures forall q :: q != p ==> (q in files <==> q in old(files)) && (q in files ==> files[q] == old(files)[q])
    {
      s := *;
      var left: Option<Content> := *;
      var now := if s.Returned? then Some(c) else left;
      files := if now.Some? then files[p := now.value] else files - {p};
      log := log + [s];
    }

    /** Atomic rename over the target; it takes effect or it does not. */
    method Replace(from: Path, to: Path) returns (s: Step)
      requires from != to
      modifies this
      ensures s.Returned? ==> from in old(files) && files == (old(files) - {from})[to := old(files)[from]]
      ensures !s.Returned? ==> files == old(files)
      ensures seen == old(seen) + {Targets()} && log == old(log) + [s]
    {
      s := *;
      if s.Returned? {
        if from in files {
          files := (files - {from})[to := files[from]];
        } else {
          s := Raised;
        }
      }
      seen, log := seen + {Targets()}, log + [s];
    }

    method Unlink(p: Path) returns (s: Step)
      modifies this
      ensures files == if s.Returned? then old(files) - {p} else old(files)
      ensures seen == old(seen) + {Targets()} && log == old(log) + [s]
    {
      s := *;
      if s.Returned? {
        files := files - {p};
      }
      seen, log := seen + {Targets()}, log + [s];
    }

    /** Write both staged files and back up whatever targets exist. */
    method Prepare(b: Binding, l: Lock) returns (s: Step)
      modifies this`files, this`log
      ensures Targets() == old(Targets()) && Ran(old(log), log, s)
      ensures s.Returned? ==> At(StagedOutput) == Some(BindingFile(b)) && At(StagedLock) == Some(LockFile(l))
      ensures s.Returned? ==> BackedUp(old(Targets()))
    {
      s := Fill(StagedOutput, BindingFile(b));
      if !s.Returned? {
        return;
      }
      s := Fill(StagedLock, LockFile(l));
      if !s.Returned? {
        return;
      }
      if Output in files {
        s := Fill(BackupOutput, files[Output]);
        if !s.Returned? {
          return;
        }
      }
      if LockOutput in files {
        s := Fill(BackupLock, files[LockOutput]);
      }
    }

    /** Every target that existed has a complete copy. */
    ghost predicate BackedUp(original: Pair)
      reads this`files
    {
      && (original.output.Some? ==> At(BackupOutput) == original.output)
      && (original.lock.Some? ==> At(BackupLock) == original.lock)
    }

    /** Put one target back: from its backup if it existed, else by removing it. */
    method PutBack(backup: Path, target: Path, existed: bool) returns (s: Step)
      requires backup != target && Temporary(backup)
      modifies this
      ensures s.Returned? ==>
        files == if existed && backup in old(files) then (old(files) - {backup})[target := old(files)[backup]]
                 else old(files) - {target}
      ensures s.Returned? && existed ==> backup in old(files)
      ensures !s.Returned? ==> files == old(files)
      ensures seen == old(seen) + {Targets()} && log == old(log) + [s]
    {
      if existed {
        s := Replace(backup, target);
      } else {
        s := Unlink(target);
      }
    }

    /** The `except` branch, for any combination of installed flags. */
    method Rollback(ghost original: Pair, outputExisted: bool, lockExisted: bool, outputInstalled: bool, lockInstalled: bool)
      returns (s: Step)
      requires BackedUp(original) && outputExisted == original.output.Some? && lockExisted == original.lock.Some?
      requires !outputInstalled ==> At(Output) == original.output
      requires !lockInstalled ==> At(LockOutput) == original.lock
      modifies this
      ensures s.Returned? ==> Targets() == original
      ensures !s.Returned? ==>
        Targets() == old(Targets()) || (lockInstalled && Targets() == Pair(old(At(Output)), original.lock))
      ensures seen <= old(seen) + {old(Targets()), Pair(old(At(Output)), original.lock), original}
      ensures Ran(old(log), log, s)
    {
      s := Returned;
      if lockInstalled {
        s := PutBack(BackupLock, LockOutput, lockExisted);
        if !s.Returned? {
          return;
        }
      }
      if outputInstalled {
        s := PutBack(BackupOutput, Output, outputExisted);
      }
    }

    /** The `finally` clause: remove the four temporary files, stopping at the first that cannot be removed. */
    method RemoveTemporaries() returns (s: Step)
      modifies this
      ensures Targets() == old(Targets()) && seen <= old(seen) + {old(Targets())}
      ensures s.Returned? ==> forall p :: Temporary(p) ==> p !in files
      ensures Ran(old(log), log, s)
    {
      s := Unlink(StagedOutput);
      if s.Returned? {
        s := Unlink(StagedLock);
        if s.Returned? {
          s := Unlink(BackupOutput);
          if s.Returned? {
            s := Unlink(BackupLock);
          }
        }
      }
    }

    /** The body of the `try`: the step it ended with and how far it got. */
    method Swap(b: Binding, l: Lock) returns (s: Step, outputInstalled: bool, lockInstalled: bool)
      modifies this
      ensures s.Returned? <==> lockInstalled
      ensures lockInstalled ==> outputInstalled
      ensures outputInstalled ==> BackedUp(old(Targets()))
      ensures Targets() == Reached(old(Targets()), b, l, outputInstalled, lockInstalled)
      ensures seen <= old(seen) + States(old(Targets()), b, l) && Ran(old(log), log, s)
    {
      outputInstalled, lockInstalled := false, false;
      s := Prepare(b, l);
      if !s.Returned? {
        return;
      }
      s := Replace(StagedOutput, Output);
      if !s.Returned? {
        return;
      }
      outputInstalled := true;
      s := Replace(StagedLock, LockOutput);
      lockInstalled := s.Returned?;
    }

    /** Install the pair, restoring the old one when an operation raises. */
    method Install(b: Binding, l: Lock) returns (e: Ending)
      modifies this
      ensures EndsWith(e, old(Targets()), b, l, Targets()) && seen <= old(seen) + States(old(Targets()), b, l)
      ensures e.Installed? || e.Failed? || e.RollbackFailed? || e.Cancelled? ==> forall p :: Temporary(p) ==> p !in files
      ensures old(log) <= log && EndingTold(e, log[|old(log)|..])
    {
      ghost var original, before := Targets(), log;
      var outputExisted, lockExisted := Output in files, LockOutput in files;
      var s, outputInstalled, lockInstalled := Swap(b, l);
      e := Installed;
      if s.Died? {
        return Dead;
      }
      if s.Interrupted? {
        e := Cancelled;
      } else if s.Raised? {
        e := Failed;
        if outputInstalled {
          var undone := Rollback(original, outputExisted, lockExisted, outputInstalled, lockInstalled);
          if undone.Died? {
            return Dead;
          }
          e := if undone.Returned? then Failed else if undone.Raised? then RollbackFailed else Cancelled;
        }
      }
      var removed := RemoveTemporaries();
      if !removed.Returned? {
        e := if removed.Died? then Dead else CleanupFailed;
      }
    }
  }

  /** The operations added since `before` all returned, except that the last one ended as `s`. */
  ghost predicate Ran(before: seq<Step>, after: seq<Step>, s: Step)
  {
    && before <= after && (forall i :: |before| <= i < |after| - 1 ==> after[i].Returned?)
    && (if |before| == |after| then s.Returned? else after[|after| - 1] == s)
  }

  /** What the operations of an installation say about its ending. */
  ghost predicate EndingTold(e: Ending, steps: seq<Step>)
  {
    && (e.Installed? <==> forall i :: 0 <= i < |steps| ==> steps[i].Returned?)
    && (e.Dead? <==> Died in steps)
    && (e.Failed? ==> Raised in steps && Interrupted !in steps)
    && (e.RollbackFailed? ==> Raised in steps && Interrupted !in steps)
    && (e.Cancelled? ==> Interrupted in steps)
    && (e.CleanupFailed? ==> steps != [] && !steps[|steps| - 1].Returned?)
  }

  function NewPair(b: Binding, l: Lock): Pair
  {
    Pair(Some(BindingFile(b)), Some(LockFile(l)))
  }

  /** The new binding beside the old lock. */
  function MixedPair(original: Pair, b: Binding): Pair
  {
    Pair(Some(BindingFile(b)), original.lock)
  }

  function Reached(original: Pair, b: Binding, l: Lock, outputInstalled: bool, lockInstalled: bool): Pair
  {
    if lockInstalled then NewPair(b, l) else if outputInstalled then MixedPair(original, b) else original
  }

  /** The only three states a reader can find while a pair is installed. */
  function States(original: Pair, b: Binding, l: Lock): set<Pair>
  {
    {original, MixedPair(original, b), NewPair(b, l)}
  }

  /** What the targets hold after each ending. */
  predicate EndsWith(e: Ending, original: Pair, b: Binding, l: Lock, after: Pair)
  {
    && after in States(original, b, l)
    && (e.Installed? ==> after == NewPair(b, l))
    && (e.Failed? ==> after == original)
    && (e.RollbackFailed? ==> after == MixedPair(original, b))
  }

  /** Whether the lock verifier accepts what a reader found. */
  predicate Accepted(p: Pair, now: Now)
  {
    && p.output.Some? && p.output.value.BindingFile?
    && p.lock.Some? && p.lock.value.LockFile?
    && Verified(p.lock.value.lock, p.output.value.binding, now)
  }

  /** A pair written by one installation. */
  ghost predicate MadePair(p: Pair)
  {
    exists b, clock :: p == NewPair(b, MakeLock(b, clock))
  }

  /** Over an old pair, the mixed state is accepted exactly when the new binding is the old one. */
  lemma MixedAcceptedIff(before: Binding, earlier: string, b: Binding, now: Now)
    ensures Accepted(MixedPair(NewPair(before, MakeLock(before, earlier)), b), now) <==> b == before && ValidBinding(b, now)
  {
    var l := MakeLock(before, earlier);
    if b == before {
      VerifiedIffMade(l, b, now);
      assert l == MakeLock(b, l.generatedAt);
    } else {
      MixedPairRejected(before, b, earlier, now);
    }
  }

  /** Whatever a reader finds during or after an installation, the verifier accepts only a pair written whole. */
  lemma OnlyWholePairsAccepted(original: Pair, b: Binding, clock: string, p: Pair, now: Now)
    requires original == Pair(None, None) || MadePair(original)
    requires p in States(original, b, MakeLock(b, clock)) && Accepted(p, now)
    ensures p == original || p == NewPair(b, MakeLock(b, clock)) || original.output == Some(BindingFile(b))
  {
    if p == MixedPair(original, b) {
      var before, earlier :| original == NewPair(before, MakeLock(before, earlier));
      MixedAcceptedIff(before, earlier, b, now);
    }
  }
}
