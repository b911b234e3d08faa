/** Many runners reserve, verify and flush Redis logical databases; every command is one step, and replies may be lost. */
module RedisReservation {
  import opened Text

  const DATABASES := 16

  /** Redis keys: a reservation marker is a fixed prefix followed by the run id, so it stands for that id alone. */
  datatype Key = Marker(run: string) | Data(name: string)

  predicate Isolated(db: int)
  {
    1 <= db < DATABASES
  }

  /** Where one runner stands; a released runner may try to release again. */
  datatype Phase = Scanning(next: nat) | Owner(db: int) | Checked(db: int) | Released(db: int) | Stopped

  predicate Holds(p: Phase, db: int)
  {
    (p.Owner? || p.Checked?) && p.db == db
  }

  type Contents = map<Key, string>

  /** Run ids and candidate lists of the runners. */
  datatype Config = Config(ids: seq<string>, candidates: seq<seq<int>>)

  predicate ValidConfig(c: Config)
  {
    |c.candidates| == |c.ids|
  }

  predicate DistinctIds(c: Config)
  {
    forall r, q :: 0 <= r < q < |c.ids| ==> c.ids[r] != c.ids[q]
  }

  datatype Mark = Claimed(run: nat, db: int) | Flushed(run: nat, db: int)

  datatype State = State(dbs: seq<Contents>, phases: seq<Phase>, history: seq<Mark>)

  datatype Action =
    | Skip(run: nat)                          // a candidate out of range, or one that cannot be reached
    | Reserve(run: nat, replyLost: bool)      // the script: SET NX if the database is empty
    | GiveUp(run: nat)                        // no candidate left, or the process dies
    | Get(run: nat, replyLost: bool)          // read the marker before a flush
    | Flush(run: nat)                         // FLUSHDB
    | FlushUnsent(run: nat)                   // FLUSHDB never reaches the server
    | ClientSet(db: int, name: string, value: string)
    | ClientDelete(db: int, name: string)

  predicate Shaped(c: Config, s: State)
  {
    ValidConfig(c) && |s.dbs| == DATABASES && |s.phases| == |c.ids|
  }

  /** One step, or `None` when it is not enabled. Clients never write a marker key. */
  function Step(c: Config, s: State, a: Action): (t: Option<State>)
    requires Shaped(c, s)
    ensures t.Some? ==> Shaped(c, t.value)
  {
    match a
    case Skip(r) =>
      if r < |c.ids| && s.phases[r].Scanning? && s.phases[r].next < |c.candidates[r]| then
        Some(s.(phases := s.phases[r := Scanning(s.phases[r].next + 1)]))
      else None
    case Reserve(r, lost) =>
      if r < |c.ids| && s.phases[r].Scanning? && s.phases[r].next < |c.candidates[r]|
         && Isolated(c.candidates[r][s.phases[r].next]) then
        var db := c.candidates[r][s.phases[r].next];
        var onward := Scanning(s.phases[r].next + 1);
        if s.dbs[db] == map[] then
          Some(State(s.dbs[db := map[Marker(c.ids[r]) := c.ids[r]]],
                     s.phases[r := if lost then onward else Owner(db)],
                     s.history + [Claimed(r, db)]))
        else Some(s.(phases := s.phases[r := onward]))
      else None
    case GiveUp(r) =>
      if r < |c.ids| then Some(s.(phases := s.phases[r := Stopped])) else None
    case Get(r, lost) =>
      if r < |c.ids| && (s.phases[r].Owner? || s.phases[r].Released?) && Isolated(s.phases[r].db) then
        var db := s.phases[r].db;
        var key := Marker(c.ids[r]);
        if !lost && key in s.dbs[db] && s.dbs[db][key] == c.ids[r] then Some(s.(phases := s.phases[r := Checked(db)]))
        else Some(s)
      else None
    case Flush(r) =>
      if r < |c.ids| && s.phases[r].Checked? && Isolated(s.phases[r].db) then
        var db := s.phases[r].db;
        Some(State(s.dbs[db := map[]], s.phases[r := Released(db)], s.history + [Flushed(r, db)]))
      else None
    case FlushUnsent(r) =>
      if r < |c.ids| && s.phases[r].Checked? then Some(s.(phases := s.phases[r := Owner(s.phases[r].db)])) else None
    case ClientSet(db, name, value) =>
      if 0 <= db < DATABASES then Some(s.(dbs := s.dbs[db := s.dbs[db][Data(name) := value]])) else None
    case ClientDelete(db, name) =>
      if 0 <= db < DATABASES then Some(s.(dbs := s.dbs[db := s.dbs[db] - {Data(name)}])) else None
  }

  function Exec(c: Config, s: State, actions: seq<Action>): (t: Option<State>)
    requires Shaped(c, s)
    ensures t.Some? ==> Shaped(c, t.value)
    decreases |actions|
  {
    if actions == [] then Some(s)
    else
      var prefix := Exec(c, s, actions[..|actions| - 1]);
      if prefix.None? then None else Step(c, prefix.value, actions[|actions| - 1])
  }

  predicate Initial(c: Config, s: State)
  {
    Shaped(c, s) && s.history == [] && forall r :: 0 <= r < |s.phases| ==> s.phases[r] == Scanning(0)
  }

  // ----- the invariant

  predicate Touches(m: Mark, db: int)
  {
    m.db == db
  }

  /** The latest mark on the database is this runner's claim. */
  ghost predicate LatestIsClaim(history: seq<Mark>, j: nat, r: nat, db: int)
  {
    && j < |history| && history[j] == Claimed(r, db)
    && forall k :: j < k < |history| ==> !Touches(history[k], db)
  }

  /** A held database carries the holder's marker, no other runner's, and its latest mark is the holder's claim. */
  ghost predicate HeldProperly(c: Config, s: State, r: nat, db: int)
    requires Shaped(c, s) && r < |c.ids|
  {
    && Isolated(db)
    && Marker(c.ids[r]) in s.dbs[db]
    && (forall q :: 0 <= q < |c.ids| && q != r ==> Marker(c.ids[q]) !in s.dbs[db])
    && (exists j :: LatestIsClaim(s.history, j, r, db))
  }

  /** Every flush so far was of the flushing runner's own claim, in the isolated range. */
  ghost predicate CleanHistory(history: seq<Mark>)
  {
    && (forall i :: 0 <= i < |history| && history[i].Flushed? ==> OwnFlush(history, i))
    && (forall i :: 0 <= i < |history| ==> Isolated(history[i].db))
  }

  ghost predicate Inv(c: Config, s: State)
  {
    && Shaped(c, s)
    && (forall r, db :: 0 <= r < |c.ids| && Holds(s.phases[r], db) ==> HeldProperly(c, s, r, db))
    && (forall r :: 0 <= r < |c.ids| && s.phases[r].Released? ==>
          Isolated(s.phases[r].db) && Marker(c.ids[r]) !in s.dbs[s.phases[r].db])
    && CleanHistory(s.history)
  }

  /** The mark before flush `i` on its database is the flushing runner's own claim. */
  ghost predicate OwnFlush(history: seq<Mark>, i: nat)
    requires i < |history|
  {
    exists j :: 0 <= j < i && LatestIsClaim(history[..i], j, history[i].run, history[i].db)
  }

  lemma HistoryExtends(history: seq<Mark>, m: Mark)
    requires CleanHistory(history) && Isolated(m.db)
    requires m.Flushed? ==> exists j :: LatestIsClaim(history, j, m.run, m.db)
    ensures CleanHistory(history + [m])
  {
    var longer := history + [m];
    forall i | 0 <= i < |longer| && longer[i].Flushed?
      ensures OwnFlush(longer, i)
    {
      if i < |history| {
        assert OwnFlush(history, i) && longer[..i] == history[..i];
      } else {
        assert longer[..i] == history;
        var j :| LatestIsClaim(history, j, m.run, m.db);
        assert LatestIsClaim(longer[..i], j, longer[i].run, longer[i].db);
      }
    }
  }

  /** A mark on another database leaves the latest claim where it is. */
  lemma LatestKept(history: seq<Mark>, m: Mark, r: nat, db: int)
    requires (exists j :: LatestIsClaim(history, j, r, db)) && m.db != db
    ensures exists j :: LatestIsClaim(history + [m], j, r, db)
  {
    var j :| LatestIsClaim(history, j, r, db);
    assert LatestIsClaim(history + [m], j, r, db);
  }

  lemma ReserveKeepsInv(c: Config, s: State, r: nat, lost: bool)
    requires Inv(c, s) && DistinctIds(c) && Step(c, s, Reserve(r, lost)).Some?
    ensures Inv(c, Step(c, s, Reserve(r, lost)).value)
  {
    var db := c.candidates[r][s.phases[r].next];
    var t := Step(c, s, Reserve(r, lost)).value;
    if s.dbs[db] == map[] {
      var m := Claimed(r, db);
      HistoryExtends(s.history, m);
      assert LatestIsClaim(t.history, |s.history|, r, db);
      forall q, d | 0 <= q < |c.ids| && Holds(t.phases[q], d)
        ensures HeldProperly(c, t, q, d)
      {
        if q != r {
          assert Holds(s.phases[q], d) && HeldProperly(c, s, q, d);
          LatestKept(s.history, m, q, d);
        }
      }
    } else {
      forall q, d | 0 <= q < |c.ids| && Holds(t.phases[q], d)
        ensures HeldProperly(c, t, q, d)
      {
        assert HeldProperly(c, s, q, d);
      }
    }
  }

  lemma FlushKeepsInv(c: Config, s: State, r: nat)
    requires Inv(c, s) && DistinctIds(c) && Step(c, s, Flush(r)).Some?
    ensures Inv(c, Step(c, s, Flush(r)).value)
  {
    var db := s.phases[r].db;
    var t := Step(c, s, Flush(r)).value;
    assert HeldProperly(c, s, r, db);
    HistoryExtends(s.history, Flushed(r, db));
    forall q, d | 0 <= q < |c.ids| && Holds(t.phases[q], d)
      ensures HeldProperly(c, t, q, d)
    {
      assert Holds(s.phases[q], d) && HeldProperly(c, s, q, d);
      assert d != db;
      LatestKept(s.history, Flushed(r, db), q, d);
    }
  }

  /** Steps that leave marks and markers alone. */
  lemma OtherStepKeepsInv(c: Config, s: State, a: Action)
    requires Inv(c, s) && DistinctIds(c) && Step(c, s, a).Some? && !a.Reserve? && !a.Flush?
    ensures Inv(c, Step(c, s, a).value)
  {
    var t := Step(c, s, a).value;
    assert t.history == s.history;
    assert forall d, run :: 0 <= d < DATABASES ==> (Marker(run) in t.dbs[d] <==> Marker(run) in s.dbs[d]);
    forall q, d | 0 <= q < |c.ids| && Holds(t.phases[q], d)
      ensures HeldProperly(c, t, q, d)
    {
      assert Holds(s.phases[q], d) && HeldProperly(c, s, q, d);
    }
  }

  lemma StepKeepsInv(c: Config, s: State, a: Action)
    requires Inv(c, s) && DistinctIds(c) && Step(c, s, a).Some?
    ensures Inv(c, Step(c, s, a).value)
  {
    if a.Reserve? {
      ReserveKeepsInv(c, s, a.run, a.replyLost);
    } else if a.Flush? {
      FlushKeepsInv(c, s, a.run);
    } else {
      OtherStepKeepsInv(c, s, a);
    }
  }

  lemma {:induction false} EveryRunKeepsInv(c: Config, s: State, actions: seq<Action>)
    requires Initial(c, s) && DistinctIds(c) && Exec(c, s, actions).Some?
    ensures Inv(c, Exec(c, s, actions).value)
    decreases |actions|
  {
    if actions != [] {
      var prefix := actions[..|actions| - 1];
      EveryRunKeepsInv(c, s, prefix);
      StepKeepsInv(c, Exec(c, s, prefix).value, actions[|actions| - 1]);
    }
  }

  // ----- the scan

  /** How many candidates the runner has tried. */
  function Tries(actions: seq<Action>, r: nat): nat
  {
    if actions == [] then 0 else
    var last := actions[|actions| - 1];
    Tries(actions[..|actions| - 1], r) + One((last.Skip? || last.Reserve?) && last.run == r)
  }

  /** Candidates are tried one by one in order, and what a runner owns is the candidate it tried last. */
  lemma {:induction false} ScanInOrder(c: Config, s: State, actions: seq<Action>, r: nat)
    requires Initial(c, s) && Exec(c, s, actions).Some? && r < |c.ids|
    ensures var p, n := Exec(c, s, actions).value.phases[r], Tries(actions, r);
            && (p.Scanning? ==> p.next == n <= |c.candidates[r]|)
            && (p.Owner? || p.Checked? || p.Released? ==> 0 < n <= |c.candidates[r]| && p.db == c.candidates[r][n - 1])
    decreases |actions|
  {
    if actions != [] {
      ScanInOrder(c, s, actions[..|actions| - 1], r);
    }
  }

  // ----- what every run guarantees

  /** No logical database ever has two holders. */
  lemma NoTwoHolders(c: Config, s: State, actions: seq<Action>, r: nat, q: nat, db: int)
    requires Initial(c, s) && DistinctIds(c) && Exec(c, s, actions).Some?
    requires r < |c.ids| && q < |c.ids|
    requires Holds(Exec(c, s, actions).value.phases[r], db) && Holds(Exec(c, s, actions).value.phases[q], db)
    ensures r == q
  {
    EveryRunKeepsInv(c, s, actions);
    var t := Exec(c, s, actions).value;
    assert HeldProperly(c, t, r, db) && HeldProperly(c, t, q, db);
  }

  /** Every flush, repeated releases included, follows the runner's own claim of that then-empty database with nothing between. */
  lemma EveryFlushIsOwn(c: Config, s: State, actions: seq<Action>, i: nat)
    requires Initial(c, s) && DistinctIds(c) && Exec(c, s, actions).Some?
    requires i < |Exec(c, s, actions).value.history| && Exec(c, s, actions).value.history[i].Flushed?
    ensures var h := Exec(c, s, actions).value.history;
            Isolated(h[i].db)
            && exists j :: 0 <= j < i && h[j] == Claimed(h[i].run, h[i].db) && forall k :: j < k < i ==> h[k].db != h[i].db
  {
    EveryRunKeepsInv(c, s, actions);
    var h := Exec(c, s, actions).value.history;
    assert OwnFlush(h, i);
    var j :| 0 <= j < i && LatestIsClaim(h[..i], j, h[i].run, h[i].db);
    forall k | j < k < i
      ensures h[k].db != h[i].db
    {
      assert !Touches(h[..i][k], h[i].db);
    }
  }

  predicate ClientTouches(a: Action, db: int)
  {
    (a.ClientSet? || a.ClientDelete?) && a.db == db
  }

  /** The live service's database 0 changes only by its own clients. */
  lemma {:induction false} DatabaseZeroUntouched(c: Config, s: State, actions: seq<Action>)
    requires Shaped(c, s) && Exec(c, s, actions).Some?
    requires forall i :: 0 <= i < |actions| ==> !ClientTouches(actions[i], 0)
    ensures Exec(c, s, actions).value.dbs[0] == s.dbs[0]
    decreases |actions|
  {
    if actions != [] {
      DatabaseZeroUntouched(c, s, actions[..|actions| - 1]);
    }
  }

  /** A key present from the start stays until a client deletes it: its database is never claimed nor flushed. */
  lemma {:induction false} WorkloadSurvives(c: Config, s: State, actions: seq<Action>, db: int, name: string)
    requires Initial(c, s) && Exec(c, s, actions).Some?
    requires 0 <= db < DATABASES && Data(name) in s.dbs[db]
    requires ClientDelete(db, name) !in actions
    ensures var t := Exec(c, s, actions).value;
            && Data(name) in t.dbs[db]
            && (forall i :: 0 <= i < |t.history| ==> t.history[i].db != db)
            && (forall r :: 0 <= r < |c.ids| ==> (t.phases[r].Owner? || t.phases[r].Checked? || t.phases[r].Released? ==> t.phases[r].db != db))
    decreases |actions|
  {
    if actions != [] {
      WorkloadSurvives(c, s, actions[..|actions| - 1], db, name);
      assert actions[|actions| - 1] in actions;
    }
  }

  // ----- distinct run ids are exactly what this needs

  lemma ExecThen(c: Config, s: State, actions: seq<Action>, a: Action)
    requires Shaped(c, s) && Exec(c, s, actions).Some?
    ensures Exec(c, s, actions + [a]) == Step(c, Exec(c, s, actions).value, a)
  {
    assert (actions + [a])[..|actions|] == actions;
  }

  /** With one id used twice, a second release by the first runner flushes the second runner's database. */
  lemma SharedIdFlushesOther(c: Config, s: State, r: nat, q: nat)
    requires Initial(c, s) && r < |c.ids| && q < |c.ids| && r != q && c.ids[r] == c.ids[q]
    requires c.candidates[r] != [] && c.candidates[r][0] == 1 && c.candidates[q] != [] && c.candidates[q][0] == 1
    requires s.dbs[1] == map[]
    ensures exists actions :: Exec(c, s, actions).Some?
              && Exec(c, s, actions).value.history == [Claimed(r, 1), Flushed(r, 1), Claimed(q, 1), Flushed(r, 1)]
  {
    var a1, a2, a3 := [Reserve(r, false)], [Reserve(r, false), Get(r, false)], [Reserve(r, false), Get(r, false), Flush(r)];
    assert Exec(c, s, []) == Some(s);
    ExecThen(c, s, [], Reserve(r, false));
    assert [] + [Reserve(r, false)] == a1;
    ExecThen(c, s, a1, Get(r, false));
    assert a1 + [Get(r, false)] == a2;
    ExecThen(c, s, a2, Flush(r));
    assert a2 + [Flush(r)] == a3;
    var t3 := Exec(c, s, a3).value;
    assert t3.history == [Claimed(r, 1), Flushed(r, 1)] && t3.phases[r] == Released(1) && t3.phases[q] == Scanning(0);
    ExecThen(c, s, a3, Reserve(q, false));
    var a4 := a3 + [Reserve(q, false)];
    ExecThen(c, s, a4, Get(r, false));
    var a5 := a4 + [Get(r, false)];
    ExecThen(c, s, a5, Flush(r));
    var a6 := a5 + [Flush(r)];
    assert Exec(c, s, a6).value.history == [Claimed(r, 1), Flushed(r, 1), Claimed(q, 1), Flushed(r, 1)];
  }

  /** Whether a flush of another runner's database is reachable, for runners scanning from database 1. */
  ghost predicate AlwaysOwnFlushes(c: Config, s: State)
    requires Shaped(c, s)
  {
    forall actions :: Exec(c, s, actions).Some? ==> CleanHistory(Exec(c, s, actions).value.history)
  }

  lemma OwnFlushesIffDistinct(c: Config, s: State)
    requires Initial(c, s) && s.dbs[1] == map[]
    requires forall r :: 0 <= r < |c.ids| ==> c.candidates[r] != [] && c.candidates[r][0] == 1
    ensures AlwaysOwnFlushes(c, s) <==> DistinctIds(c)
  {
    if DistinctIds(c) {
      forall actions | Exec(c, s, actions).Some?
        ensures CleanHistory(Exec(c, s, actions).value.history)
      {
        EveryRunKeepsInv(c, s, actions);
      }
    } else {
      var r, q :| 0 <= r < q < |c.ids| && c.ids[r] == c.ids[q];
      SharedIdFlushesOther(c, s, r, q);
      var actions :| Exec(c, s, actions).Some?
        && Exec(c, s, actions).value.history == [Claimed(r, 1), Flushed(r, 1), Claimed(q, 1), Flushed(r, 1)];
      ForeignFlushSeen(Exec(c, s, actions).value.history, r, q);
    }
  }

  lemma ForeignFlushSeen(h: seq<Mark>, r: nat, q: nat)
    requires h == [Claimed(r, 1), Flushed(r, 1), Claimed(q, 1), Flushed(r, 1)] && r != q
    ensures !CleanHistory(h)
  {
    assert h[..3][2] == Claimed(q, 1);
    assert !OwnFlush(h, 3);
  }
}
