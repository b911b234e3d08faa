/** What one runner sees of the machines with many runners is what the services of one run promise it. */
module RunnerViews {
  import opened Text
  import opened DataPlanes
  import R = RedisReservation
  import P = PostgresPlane

  // Redis.

  /** The logical databases that hold the runner's marker. */
  function Mine(c: R.Config, s: R.State, r: nat): set<int>
    requires R.Shaped(c, s) && r < |c.ids|
  {
    set db | 0 <= db < R.DATABASES && R.Marker(c.ids[r]) in s.dbs[db]
  }

  lemma SameRange(db: int)
    ensures IsolatedDatabase(db) <==> R.Isolated(db)
  {
  }

  predicate OwnRedisStep(a: R.Action, r: nat)
  {
    !a.ClientSet? && !a.ClientDelete? && a.run == r
  }

  /** A step of anyone else changes nothing of this runner's. */
  lemma OthersLeaveMarkers(c: R.Config, s: R.State, a: R.Action, r: nat)
    requires R.Inv(c, s) && R.DistinctIds(c) && R.Step(c, s, a).Some? && r < |c.ids| && !OwnRedisStep(a, r)
    ensures Mine(c, R.Step(c, s, a).value, r) == Mine(c, s, r)
  {
    var t := R.Step(c, s, a).value;
    if a.Flush? {
      assert R.HeldProperly(c, s, a.run, s.phases[a.run].db);
    }
    assert forall db :: 0 <= db < R.DATABASES ==> (R.Marker(c.ids[r]) in t.dbs[db] <==> R.Marker(c.ids[r]) in s.dbs[db]);
  }

  /** The runner's own script takes its candidate or nothing, its flush gives back what it checked, and the rest do nothing. */
  lemma OwnRedisStepSeen(c: R.Config, s: R.State, a: R.Action, r: nat)
    requires R.Inv(c, s) && R.DistinctIds(c) && R.Step(c, s, a).Some? && r < |c.ids| && OwnRedisStep(a, r)
    ensures
      var before, after := Mine(c, s, r), Mine(c, R.Step(c, s, a).value, r);
      match a
      case Reserve(_, lost) =>
        var db := c.candidates[r][s.phases[r].next];
        IsolatedDatabase(db) && (after == before || Took(before, after, db))
      case Flush(_) => GaveBack(before, after, s.phases[r].db)
      case _ => after == before
  {
    var t := R.Step(c, s, a).value;
    if a.Reserve? {
      var db := c.candidates[r][s.phases[r].next];
      assert forall d :: 0 <= d < R.DATABASES && d != db ==> t.dbs[d] == s.dbs[d];
      if s.dbs[db] == map[] {
        assert Mine(c, t, r) == Mine(c, s, r) + {db};
      }
    } else if a.Flush? {
      var db := s.phases[r].db;
      assert R.HeldProperly(c, s, r, db);
      assert forall d :: 0 <= d < R.DATABASES && d != db ==> t.dbs[d] == s.dbs[d];
      assert Mine(c, t, r) == Mine(c, s, r) - {db};
    }
  }

  /** Between two calls of one runner nothing else touches what it holds, whatever the others do meanwhile. */
  lemma {:induction false} MarkersStayPut(c: R.Config, s: R.State, past: seq<R.Action>, others: seq<R.Action>, r: nat)
    requires R.Initial(c, s) && R.DistinctIds(c) && r < |c.ids|
    requires R.Exec(c, s, past + others).Some? && R.Exec(c, s, past).Some?
    requires forall a :: a in others ==> !OwnRedisStep(a, r)
    ensures Mine(c, R.Exec(c, s, past + others).value, r) == Mine(c, R.Exec(c, s, past).value, r)
    decreases |others|
  {
    if others == [] {
      assert past + others == past;
    } else {
      var n := |others| - 1;
      var run := past + others[..n];
      assert (past + others)[..|past + others| - 1] == run && (past + others)[|past + others| - 1] == others[n];
      MarkersStayPut(c, s, past, others[..n], r);
      R.EveryRunKeepsInv(c, s, run);
      OthersLeaveMarkers(c, R.Exec(c, s, run).value, others[n], r);
    }
  }

  // PostgreSQL.

  /** Whose database stands under the runner's name. */
  function OwnerSeen(c: P.Config, s: P.State, r: nat): Option<Who>
    requires r < |c.names|
  {
    if c.names[r] !in s.server then None else if s.server[c.names[r]] == r then Some(This) else Some(Another)
  }

  predicate Safe(c: P.Config)
  {
    !c.repeatCleanup || P.DistinctNames(c)
  }

  lemma OthersLeaveDatabase(c: P.Config, s: P.State, a: P.Action, r: nat)
    requires P.Inv(c, s) && Safe(c) && P.Step(c, s, a).Some? && r < |c.names| && a.run != r
    ensures Undisturbed(OwnerSeen(c, s, r), OwnerSeen(c, P.Step(c, s, a).value, r))
  {
  }

  /** The runner's own CREATE finds no database and leaves its own, its DROP removes its own, and the rest do nothing. */
  lemma OwnDatabaseStepSeen(c: P.Config, s: P.State, a: P.Action, r: nat)
    requires P.Inv(c, s) && Safe(c) && P.Step(c, s, a).Some? && r < |c.names| && a.run == r
    ensures
      var t := P.Step(c, s, a).value;
      var before, after := OwnerSeen(c, s, r), OwnerSeen(c, t, r);
      match a
      case Create(_, _) => after == if before == None then Some(This) else before
      case DropDatabase(_, _) =>
        || (after == before && t.drops == s.drops)
        || (before == Some(This) && after == None && t.drops == s.drops + [P.Drop(r, r)])
      case _ => after == before && t.drops == s.drops
  {
  }

  /** Between two calls of one runner the others neither drop its database nor pass theirs off as its own. */
  lemma {:induction false} DatabaseStaysPut(c: P.Config, s: P.State, past: seq<P.Action>, others: seq<P.Action>, r: nat)
    requires P.Initial(c, s) && Safe(c) && r < |c.names|
    requires P.Exec(c, s, past + others).Some? && P.Exec(c, s, past).Some?
    requires forall a :: a in others ==> a.run != r
    ensures Undisturbed(OwnerSeen(c, P.Exec(c, s, past).value, r), OwnerSeen(c, P.Exec(c, s, past + others).value, r))
    decreases |others|
  {
    if others == [] {
      assert past + others == past;
    } else {
      var n := |others| - 1;
      var run := past + others[..n];
      assert (past + others)[..|past + others| - 1] == run && (past + others)[|past + others| - 1] == others[n];
      DatabaseStaysPut(c, s, past, others[..n], r);
      P.EveryRunKeepsInv(c, s, run);
      OthersLeaveDatabase(c, P.Exec(c, s, run).value, others[n], r);
    }
  }
}
