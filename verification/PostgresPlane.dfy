/** Runners create and drop isolated PostgreSQL databases whose names may collide; every statement is one step. */
module PostgresPlane {
  import opened Text

  // ----- names

  predicate LowerOrDigit(c: char)
  {
    'a' <= c <= 'z' || '0' <= c <= '9'
  }

  /** `[a-z][a-z0-9-]{0,31}`. */
  predicate SafeToken(t: string)
  {
    1 <= |t| <= 32 && 'a' <= t[0] <= 'z' && forall i :: 0 <= i < |t| ==> LowerOrDigit(t[i]) || t[i] == '-'
  }

  /** `t.replace("-", "")`. */
  function DropHyphens(t: string): (r: string)
    ensures |r| <= |t|
  {
    if t == "" then "" else Keep(t[0]) + DropHyphens(t[1..])
  }

  function Keep(c: char): string
  {
    if c == '-' then "" else [c]
  }

  lemma {:induction false} DroppedChars(t: string, c: char)
    ensures c in DropHyphens(t) <==> c in t && c != '-'
  {
    if t != "" {
      DroppedChars(t[1..], c);
      assert t == [t[0]] + t[1..];
    }
  }

  const NAME_PREFIX := "trpc_backend_"

  function DatabaseName(token: string): string
  {
    NAME_PREFIX + DropHyphens(token)
  }

  /** The places of a token's characters other than hyphens, in order. */
  ghost predicate LetterPlaces(t: string, ps: seq<nat>)
  {
    && (forall i :: 0 <= i < |ps| ==> ps[i] < |t| && t[ps[i]] != '-')
    && (forall i, j :: 0 <= i < j < |ps| ==> ps[i] < ps[j])
    && (forall k: nat :: k < |t| && t[k] != '-' ==> k in ps)
  }

  /** The characters at these places. */
  function CharsAt(t: string, ps: seq<nat>): string
    requires forall i :: 0 <= i < |ps| ==> ps[i] < |t|
  {
    seq(|ps|, i requires 0 <= i < |ps| => t[ps[i]])
  }

  /** The same characters in the same order, hyphens aside. */
  ghost predicate SameLetters(a: string, b: string)
  {
    exists ps: seq<nat>, qs: seq<nat> :: LetterPlaces(a, ps) && LetterPlaces(b, qs) && CharsAt(a, ps) == CharsAt(b, qs)
  }

  lemma {:induction false} DropLast(t: string, c: char)
    ensures DropHyphens(t + [c]) == DropHyphens(t) + Keep(c)
  {
    if t == "" {
      assert (t + [c])[1..] == "";
    } else {
      DropLast(t[1..], c);
      assert (t + [c])[1..] == t[1..] + [c];
      Regroup(Keep(t[0]), DropHyphens(t[1..]), Keep(c));
    }
  }

  lemma Regroup(a: string, b: string, c: string)
    ensures a + (b + c) == (a + b) + c
  {
  }

  lemma PlacesBefore(t: string, ps: seq<nat>)
    requires t != "" && LetterPlaces(t, ps)
    ensures var n := |t| - 1;
            if t[n] == '-' then LetterPlaces(t[..n], ps)
            else ps != [] && ps[|ps| - 1] == n && LetterPlaces(t[..n], ps[..|ps| - 1])
  {
    var n := |t| - 1;
    if t[n] != '-' {
      var i :| 0 <= i < |ps| && ps[i] == n;
      var last := ps[|ps| - 1];
      assert ps[i] <= last < |t|;
    }
  }

  /** The name keeps exactly the characters at the token's places. */
  lemma {:induction false} KeptLetters(t: string, ps: seq<nat>)
    requires LetterPlaces(t, ps)
    ensures DropHyphens(t) == CharsAt(t, ps)
  {
    if t != "" {
      var n := |t| - 1;
      PlacesBefore(t, ps);
      assert t == t[..n] + [t[n]];
      DropLast(t[..n], t[n]);
      KeptLetters(t[..n], if t[n] == '-' then ps else ps[..|ps| - 1]);
    }
  }

  lemma PlacesAfter(t: string, front: seq<nat>)
    requires t != "" && LetterPlaces(t[..|t| - 1], front)
    ensures t[|t| - 1] == '-' ==> LetterPlaces(t, front)
    ensures t[|t| - 1] != '-' ==> LetterPlaces(t, front + [|t| - 1])
  {
    var n := |t| - 1;
    var ps := if t[n] == '-' then front else front + [n];
    assert forall k :: 0 <= k < n ==> t[..n][k] == t[k];
    assert forall i :: 0 <= i < |front| ==> front[i] < n && ps[i] == front[i];
    forall k: nat | k < |t| && t[k] != '-'
      ensures k in ps
    {
      if k == n {
        assert ps[|front|] == n;
      } else {
        var i :| 0 <= i < |front| && front[i] == k;
        assert ps[i] == k;
      }
    }
  }

  lemma {:induction false} HasPlaces(t: string) returns (ps: seq<nat>)
    ensures LetterPlaces(t, ps)
  {
    ps := [];
    if t != "" {
      var n := |t| - 1;
      ps := HasPlaces(t[..n]);
      PlacesAfter(t, ps);
      ps := if t[n] == '-' then ps else ps + [n];
    }
  }

  /** A safe token always yields a legal name, and two tokens share one exactly when they differ only in hyphens. */
  lemma NamesCollideIff(a: string, b: string)
    requires SafeToken(a) && SafeToken(b)
    ensures DatabaseName(a) == DatabaseName(b) <==> SameLetters(a, b)
    ensures NAME_PREFIX < DatabaseName(a) && |DatabaseName(a)| <= 45
    ensures forall i :: |NAME_PREFIX| <= i < |DatabaseName(a)| ==> LowerOrDigit(DatabaseName(a)[i])
  {
    var n := |NAME_PREFIX|;
    assert DatabaseName(a)[n..] == DropHyphens(a) && DatabaseName(b)[n..] == DropHyphens(b);
    DroppedChars(a, a[0]);
    forall i | n <= i < |DatabaseName(a)|
      ensures LowerOrDigit(DatabaseName(a)[i])
    {
      assert DatabaseName(a)[i] == DropHyphens(a)[i - n];
      DroppedChars(a, DropHyphens(a)[i - n]);
    }
    var ps := HasPlaces(a);
    var qs := HasPlaces(b);
    KeptLetters(a, ps);
    KeptLetters(b, qs);
    if SameLetters(a, b) {
      var us: seq<nat>, vs: seq<nat> :| LetterPlaces(a, us) && LetterPlaces(b, vs) && CharsAt(a, us) == CharsAt(b, vs);
      KeptLetters(a, us);
      KeptLetters(b, vs);
    }
  }

  lemma DistinctTokensMayCollide()
    ensures SafeToken("a-b") && SafeToken("ab") && "a-b" != "ab" && DatabaseName("a-b") == DatabaseName("ab")
  {
    assert DropHyphens("a-b") == "ab" && DropHyphens("ab") == "ab" by {
      assert "a-b"[1..] == "-b" && "-b"[1..] == "b" && "b"[1..] == "" && "ab"[1..] == "b";
    }
  }

  // ----- the protocol

  /** Where one runner's database stands; `Cleaned` is after a cleanup attempt, successful or not. */
  datatype Phase =
    | Fresh
    | NameFree            // the catalogue had no such database
    | Created             // CREATE DATABASE returned; permissions pending
    | RollingBack         // permissions failed: drop again
    | Ready               // provisioned
    | Verified(provisioned: bool)  // the owner check before DROP passed
    | Cleaned
    | Over

  /** The database names of the runners, and whether a runner may call its cleanup more than once. */
  datatype Config = Config(names: seq<string>, repeatCleanup: bool)

  predicate DistinctNames(c: Config)
  {
    forall r, q :: 0 <= r < q < |c.names| ==> c.names[r] != c.names[q]
  }

  datatype Drop = Drop(dropper: nat, creator: int)

  /** The server's databases with the runner that created each; a database from before has creator -1. */
  datatype State = State(server: map<string, int>, phases: seq<Phase>, drops: seq<Drop>)

  datatype Action =
    | CheckName(run: nat)
    | Create(run: nat, replyLost: bool)
    | Grant(run: nat, ok: bool)
    | Verify(run: nat)                   // the owner check; every isolated database has the same owner role
    | DropDatabase(run: nat, sent: bool)
    | Abandon(run: nat)                  // a lost connection or a dead process

  predicate Shaped(c: Config, s: State)
  {
    |s.phases| == |c.names|
  }

  function Goto(s: State, r: nat, p: Phase): State
    requires r < |s.phases|
  {
    s.(phases := s.phases[r := p])
  }

  function Step(c: Config, s: State, a: Action): (t: Option<State>)
    requires Shaped(c, s)
    ensures t.Some? ==> Shaped(c, t.value)
  {
    if a.run >= |c.names| then None
    else
      var r := a.run;
      var name := c.names[r];
      match a
      case CheckName(_) =>
        if s.phases[r].Fresh? then Some(Goto(s, r, if name in s.server then Over else NameFree)) else None
      case Create(_, lost) =>
        if !s.phases[r].NameFree? then None
        else if name in s.server then Some(Goto(s, r, Over))
        else Some(Goto(s.(server := s.server[name := r]), r, if lost then Over else Created))
      case Grant(_, ok) =>
        if s.phases[r].Created? then Some(Goto(s, r, if ok then Ready else RollingBack)) else None
      case Verify(_) =>
        if s.phases[r].RollingBack? then Some(Goto(s, r, if name in s.server then Verified(false) else Over))
        else if s.phases[r].Ready? || (s.phases[r].Cleaned? && c.repeatCleanup) then
          Some(Goto(s, r, if name in s.server then Verified(true) else Cleaned))
        else None
      case DropDatabase(_, sent) =>
        if !s.phases[r].Verified? then None
        else
          var after := if s.phases[r].provisioned then Cleaned else Over;
          if sent && name in s.server then
            Some(State(s.server - {name}, s.phases[r := after], s.drops + [Drop(r, s.server[name])]))
          else Some(Goto(s, r, after))
      case Abandon(_) => Some(Goto(s, r, Over))
  }

  function Exec(c: Config, s: State, actions: seq<Action>): (t: Option<State>)
    requires Shaped(c, s)
    ensures t.Some? ==> Shaped(c, t.value)
    decreases |actions|
  {
    if actions == [] then Some(s)
    else
      var prefix := Exec(c, s, actions[..|actions| - 1]);
      if prefix.None? then None else Step(c, prefix.value, actions[|actions| - 1])
  }

  predicate Initial(c: Config, s: State)
  {
    && Shaped(c, s) && s.drops == []
    && (forall r :: 0 <= r < |s.phases| ==> s.phases[r] == Fresh)
    && (forall n :: n in s.server ==> s.server[n] == -1)
  }

  predicate OwnDrops(s: State)
  {
    forall i :: 0 <= i < |s.drops| ==> s.drops[i].dropper == s.drops[i].creator
  }

  /** Between its CREATE and its DROP the database under the runner's name is its own. */
  predicate Inv(c: Config, s: State)
  {
    && Shaped(c, s) && OwnDrops(s)
    && (forall r :: 0 <= r < |c.names| && (s.phases[r].Created? || s.phases[r].RollingBack? || s.phases[r].Ready?
                                           || s.phases[r].Verified?) ==>
          c.names[r] in s.server ==> s.server[c.names[r]] == r)
    && (forall r :: 0 <= r < |c.names| && (s.phases[r].Created? || s.phases[r].RollingBack? || s.phases[r].Ready?) ==>
          c.names[r] in s.server)
    && (forall r :: 0 <= r < |c.names| && s.phases[r].Verified? && !c.repeatCleanup ==> c.names[r] in s.server)
    && (forall r :: 0 <= r < |c.names| && s.phases[r].Cleaned? && c.repeatCleanup ==>
          c.names[r] in s.server ==> s.server[c.names[r]] == r)
  }

  lemma StepKeepsInv(c: Config, s: State, a: Action)
    requires Inv(c, s) && (!c.repeatCleanup || DistinctNames(c)) && Step(c, s, a).Some?
    ensures Inv(c, Step(c, s, a).value)
  {
    var t := Step(c, s, a).value;
    match a
    case Create(r, lost) =>
      assert forall q :: 0 <= q < |c.names| && q != r ==> t.phases[q] == s.phases[q];
    case DropDatabase(r, sent) =>
      assert forall q :: 0 <= q < |c.names| && q != r ==> t.phases[q] == s.phases[q];
    case _ =>
      assert t.server == s.server && t.drops == s.drops;
  }

  lemma {:induction false} EveryRunKeepsInv(c: Config, s: State, actions: seq<Action>)
    requires Initial(c, s) && (!c.repeatCleanup || DistinctNames(c)) && Exec(c, s, actions).Some?
    ensures Inv(c, Exec(c, s, actions).value)
    decreases |actions|
  {
    if actions != [] {
      var prefix := actions[..|actions| - 1];
      EveryRunKeepsInv(c, s, prefix);
      StepKeepsInv(c, Exec(c, s, prefix).value, actions[|actions| - 1]);
    }
  }

  /** No interleaving lets a run drop a database another run created, if each cleans up once or no two names collide. */
  lemma DropsOnlyOwn(c: Config, s: State, actions: seq<Action>)
    requires Initial(c, s) && (!c.repeatCleanup || DistinctNames(c)) && Exec(c, s, actions).Some?
    ensures OwnDrops(Exec(c, s, actions).value)
  {
    EveryRunKeepsInv(c, s, actions);
  }

  // ----- a second cleanup under a shared name

  lemma ExecThen(c: Config, s: State, actions: seq<Action>, a: Action)
    requires Shaped(c, s) && Exec(c, s, actions).Some?
    ensures Exec(c, s, actions + [a]) == Step(c, Exec(c, s, actions).value, a)
  {
    assert (actions + [a])[..|actions|] == actions;
  }

  /** One runner provisions and cleans up under a free name. */
  lemma CreateAndClean(c: Config, s: State, r: nat) returns (actions: seq<Action>)
    requires Initial(c, s) && r < |c.names| && c.names[r] !in s.server
    ensures Exec(c, s, actions).Some?
    ensures var t := Exec(c, s, actions).value;
            t.server == s.server && t.drops == [Drop(r, r)] && t.phases[r].Cleaned?
            && forall q :: 0 <= q < |c.names| && q != r ==> t.phases[q].Fresh?
  {
    assert Exec(c, s, []) == Some(s);
    ExecThen(c, s, [], CheckName(r));
    actions := [] + [CheckName(r)];
    ExecThen(c, s, actions, Create(r, false));
    actions := actions + [Create(r, false)];
    ExecThen(c, s, actions, Grant(r, true));
    actions := actions + [Grant(r, true)];
    ExecThen(c, s, actions, Verify(r));
    actions := actions + [Verify(r)];
    ExecThen(c, s, actions, DropDatabase(r, true));
    actions := actions + [DropDatabase(r, true)];
    assert s.server[c.names[r] := r] - {c.names[r]} == s.server;
  }

  /** From every reachable state a runner whose grants failed, or that is done, can remove its database in two steps. */
  lemma CanUndo(c: Config, s: State, actions: seq<Action>, r: nat)
    requires Initial(c, s) && (!c.repeatCleanup || DistinctNames(c)) && Exec(c, s, actions).Some? && r < |c.names|
    requires Exec(c, s, actions).value.phases[r].RollingBack? || Exec(c, s, actions).value.phases[r].Ready?
    ensures var t := Exec(c, s, actions).value;
            var u := Exec(c, s, actions + [Verify(r)] + [DropDatabase(r, true)]);
            && u.Some? && c.names[r] in t.server && u.value.server == t.server - {c.names[r]}
            && u.value.drops == t.drops + [Drop(r, r)]
            && u.value.phases[r] == if t.phases[r].Ready? then Cleaned else Over
  {
    EveryRunKeepsInv(c, s, actions);
    ExecThen(c, s, actions, Verify(r));
    ExecThen(c, s, actions + [Verify(r)], DropDatabase(r, true));
  }

  /** If cleanup may repeat and two runs share a name, the first can drop the second's live database. */
  lemma SecondCleanupDropsOther(c: Config, s: State, r: nat, q: nat)
    requires Initial(c, s) && c.repeatCleanup && r < |c.names| && q < |c.names| && r != q
    requires c.names[r] == c.names[q] && c.names[r] !in s.server
    ensures exists actions :: Exec(c, s, actions).Some? && !OwnDrops(Exec(c, s, actions).value)
  {
    var actions := CreateAndClean(c, s, r);
    ExecThen(c, s, actions, CheckName(q));
    actions := actions + [CheckName(q)];
    ExecThen(c, s, actions, Create(q, false));
    actions := actions + [Create(q, false)];
    ExecThen(c, s, actions, Verify(r));
    actions := actions + [Verify(r)];
    ExecThen(c, s, actions, DropDatabase(r, true));
    actions := actions + [DropDatabase(r, true)];
    var t := Exec(c, s, actions).value;
    assert t.drops == [Drop(r, r)] + [Drop(r, q)];
    assert t.drops[1] == Drop(r, q) && !OwnDrops(t);
  }

  /** Exactly when every run drops only its own databases. */
  lemma OwnDropsIff(c: Config, s: State)
    requires Initial(c, s) && forall r :: 0 <= r < |c.names| ==> c.names[r] !in s.server
    ensures (forall actions :: Exec(c, s, actions).Some? ==> OwnDrops(Exec(c, s, actions).value))
            <==> !c.repeatCleanup || DistinctNames(c)
  {
    if !c.repeatCleanup || DistinctNames(c) {
      forall actions | Exec(c, s, actions).Some?
        ensures OwnDrops(Exec(c, s, actions).value)
      {
        DropsOnlyOwn(c, s, actions);
      }
    } else {
      var r, q :| 0 <= r < q < |c.names| && c.names[r] == c.names[q];
      SecondCleanupDropsOther(c, s, r, q);
    }
  }
}
