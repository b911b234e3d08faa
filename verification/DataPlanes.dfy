/** The three services one run takes its private resources from, and the calls that take and give them back. */
module DataPlanes {
  import opened Text
  import opened StringOrder

  /** Whose resource stands under a name: this run's, or another run's whose id maps to the same name. */
  datatype Who = This | Another

  /** The stage labels that errors carry. */
  datatype Stage =
    | RedisReserve | RedisOwnership | RedisCleanup
    | BucketCollisionCheck | BucketCollision | BucketMarker | BucketCreation
    | BucketOwnership | BucketPagination | BucketCleanup
    | DatabaseCollision | DatabaseRole | DatabaseCreation | DatabasePermissions
    | DatabaseOwnership | DatabaseCleanup
    | SchemaMigration | Provision

  datatype Plane = Redis | Bucket | Database

  /** The labels a failed removal of a plane can carry. */
  predicate RemovalLabel(p: Plane, s: Stage)
  {
    match p
    case Redis => s.RedisOwnership? || s.RedisCleanup?
    case Bucket => s.BucketOwnership? || s.BucketPagination? || s.BucketCleanup?
    case Database => s.DatabaseOwnership? || s.DatabaseCleanup?
  }

  /** The labels a failed creation of a plane can carry. */
  predicate CreationLabel(p: Plane, s: Stage)
  {
    match p
    case Redis => s.RedisReserve?
    case Bucket => s.BucketCollisionCheck? || s.BucketCollision? || s.BucketMarker? || s.BucketCreation?
    case Database => s.DatabaseCollision? || s.DatabaseRole? || s.DatabaseCreation? || s.DatabasePermissions?
  }

  /** A call returns, raises the labelled error, or raises something else. */
  datatype Outcome = Done | Isolation(stage: Stage) | Raw

  predicate Failed(o: Outcome)
  {
    !o.Done?
  }

  /** Removal calls and how they ended, oldest innermost. */
  datatype Trail = Start | Then(before: Trail, plane: Plane, outcome: Outcome)

  /** The removal calls made on any plane, in order. */
  class CallLog {
    ghost var removals: Trail

    constructor ()
      ensures removals == Start
    {
      removals := Start;
    }
  }

  const REDIS_DATABASES := 16

  predicate IsolatedDatabase(db: int)
  {
    1 <= db < REDIS_DATABASES
  }

  /** What can hide a claim from the caller. */
  datatype ClaimLoss = ReplyLost(db: int) | CloseFailed(db: int)

  /** The fault `l` happened between the two records. */
  predicate Grew<T(==)>(before: multiset<T>, after: multiset<T>, l: T)
  {
    before[l] < after[l]
  }

  datatype Reply = Claimed | Taken | NoReply

  /** What came of one candidate. */
  datatype Attempt = Won | Passed | Broken

  /** The candidates that may be isolated at all, in order. */
  function InRange(candidates: seq<int>): seq<int>
  {
    if candidates == [] then [] else
    var last := candidates[|candidates| - 1];
    InRange(candidates[..|candidates| - 1]) + if IsolatedDatabase(last) then [last] else []
  }

  lemma InRangeLast(candidates: seq<int>, i: nat)
    requires i < |candidates|
    ensures InRange(candidates[..i + 1]) ==
            InRange(candidates[..i]) + if IsolatedDatabase(candidates[i]) then [candidates[i]] else []
  {
    assert candidates[..i + 1][..i] == candidates[..i];
  }

  /** The losses of one candidate that was not won: perhaps its reply, and its close if that failed. */
  predicate Unanswered(before: multiset<ClaimLoss>, after: multiset<ClaimLoss>, db: int, broken: bool)
  {
    var closing := if broken then multiset{CloseFailed(db)} else multiset{};
    after == before + closing || after == before + multiset{ReplyLost(db)} + closing
  }

  /**
   * Losses are only added; every database newly held is a candidate in range and one of `returned`, or has a loss
   * recorded; a lost reply is of a database newly held and not returned.
   */
  ghost predicate Explained(
    before: set<int>, after: set<int>, lost: multiset<ClaimLoss>, losses: multiset<ClaimLoss>, candidates: seq<int>,
    returned: set<int>)
  {
    && lost <= losses && before <= after
    && (forall d :: d in after - before ==>
          && d in candidates && IsolatedDatabase(d)
          && (d in returned || Grew(lost, losses, ReplyLost(d)) || Grew(lost, losses, CloseFailed(d))))
    && (forall d :: Grew(lost, losses, ReplyLost(d)) ==> d in after - before && d !in returned)
  }

  lemma NothingToExplain(mine: set<int>, losses: multiset<ClaimLoss>, candidates: seq<int>)
    ensures Explained(mine, mine, losses, losses, candidates, {})
  {
  }

  lemma WonExplained(
    first: set<int>, before: set<int>, after: set<int>, lost: multiset<ClaimLoss>, losses: multiset<ClaimLoss>,
    candidates: seq<int>, db: int)
    requires Explained(first, before, lost, losses, candidates, {}) && Took(before, after, db)
    requires db in candidates && IsolatedDatabase(db)
    ensures Explained(first, after, lost, losses, candidates, {db}) && db in after - first
  {
  }

  lemma TriedExplained(
    first: set<int>, before: set<int>, after: set<int>, lost: multiset<ClaimLoss>, between: multiset<ClaimLoss>,
    losses: multiset<ClaimLoss>, candidates: seq<int>, db: int, broken: bool)
    requires Explained(first, before, lost, between, candidates, {}) && (after == before || Took(before, after, db))
    requires db in candidates && IsolatedDatabase(db) && Unanswered(between, losses, db, broken)
    requires !broken && after != before ==> Grew(between, losses, ReplyLost(db))
    requires Grew(between, losses, ReplyLost(db)) ==> after != before
    ensures Explained(first, after, lost, losses, candidates, {})
    ensures broken ==> Grew(lost, losses, CloseFailed(db))
  {
    forall d | d in after - first
      ensures d in candidates && IsolatedDatabase(d)
      ensures Grew(lost, losses, ReplyLost(d)) || Grew(lost, losses, CloseFailed(d))
    {
      if d != db || after == before {
        assert d in before - first;
      }
    }
    forall d | Grew(lost, losses, ReplyLost(d))
      ensures d in after - first
    {
      if d != db || !Grew(between, losses, ReplyLost(db)) {
        assert Grew(lost, between, ReplyLost(d));
      }
    }
  }

  /** The candidates asked are the ones in range, in order: up to the one returned or failed at, or all of them. */
  ghost predicate Scanned(before: seq<int>, after: seq<int>, candidates: seq<int>, db: int, r: Outcome)
  {
    exists k: nat ::
      && k <= |candidates| && after == before + InRange(candidates[..k])
      && if r.Isolation? then k == |candidates| else k > 0 && candidates[k - 1] == db && IsolatedDatabase(db)
  }

  lemma ScanBegins(before: seq<int>, candidates: seq<int>)
    ensures before == before + InRange(candidates[..0])
  {
  }

  lemma ScanStops(before: seq<int>, candidates: seq<int>, i: nat)
    requires i < |candidates| && IsolatedDatabase(candidates[i])
    ensures forall r: Outcome :: !r.Isolation? ==>
      Scanned(before, before + InRange(candidates[..i]) + [candidates[i]], candidates, candidates[i], r)
  {
    InRangeLast(candidates, i);
    var after := before + InRange(candidates[..i]) + [candidates[i]];
    assert after == before + InRange(candidates[..i + 1]);
    forall r: Outcome | !r.Isolation?
      ensures Scanned(before, after, candidates, candidates[i], r)
    {
      var k: nat := i + 1;
      assert candidates[k - 1] == candidates[i];
    }
  }

  lemma ScanExhausted(before: seq<int>, candidates: seq<int>)
    ensures Scanned(before, before + InRange(candidates[..|candidates|]), candidates, 0, Isolation(RedisReserve))
  {
  }

  /** The database was not this run's and now is. */
  predicate Took(before: set<int>, after: set<int>, db: int)
  {
    db !in before && after == before + {db}
  }

  /** The database was this run's and now is not. */
  predicate GaveBack(before: set<int>, after: set<int>, db: int)
  {
    db in before && after == before - {db}
  }

  class RedisServer {
    const log: CallLog
    var mine: set<int>                     // logical databases holding this run's marker
    ghost var claims: seq<int>             // claims whose reply arrived
    ghost var losses: multiset<ClaimLoss>  // lost replies and failed closes
    ghost var asked: seq<int>              // candidates pinged, in order
    ghost var faults: nat                  // calls of a release that raised
    ghost var escapes: nat                 // those among them whose error no label catches

    constructor (log: CallLog)
      ensures this.log == log && mine == {} && claims == [] && losses == multiset{}
    {
      this.log, mine, claims, losses, asked, faults, escapes := log, {}, [], multiset{}, [], 0, 0;
    }

    /** Ping and script on one candidate: its reply, or none when either raises. A lost reply may hide a claim. */
    method Script(db: int) returns (reply: Reply)
      modifies this`mine, this`claims, this`losses, this`asked
      ensures asked == old(asked) + [db]
      ensures reply.Claimed? ==>
        Took(old(mine), mine, db) && claims == old(claims) + [db] && losses == old(losses)
      ensures !reply.Claimed? ==> claims == old(claims)
      ensures reply.Taken? ==> mine == old(mine) && losses == old(losses)
      ensures reply.NoReply? ==>
        || (mine == old(mine) && losses == old(losses))
        || (Took(old(mine), mine, db) && losses == old(losses) + multiset{ReplyLost(db)})
    {
      var reached, empty, answered: bool := *, *, *;
      asked := asked + [db];
      var took := reached && empty && db !in mine;
      if took {
        mine := mine + {db};
        if answered {
          claims := claims + [db];
        } else {
          losses := losses + multiset{ReplyLost(db)};
        }
      }
      reply := if !reached || !answered then NoReply else if took then Claimed else Taken;
    }

    method Close(db: int) returns (ok: bool)
      modifies this`losses
      ensures losses == old(losses) + if ok then multiset{} else multiset{CloseFailed(db)}
    {
      ok := *;
      if !ok {
        losses := losses + multiset{CloseFailed(db)};
      }
    }

    /** One candidate on its own connection, which is closed whatever came of it. */
    method TryCandidate(db: int) returns (tried: Attempt)
      modifies this`mine, this`claims, this`losses, this`asked
      ensures asked == old(asked) + [db] && (mine == old(mine) || Took(old(mine), mine, db))
      ensures tried.Won? ==> Took(old(mine), mine, db) && claims == old(claims) + [db] && losses == old(losses)
      ensures tried.Passed? ==> claims == old(claims)
      ensures !tried.Won? ==> Unanswered(old(losses), losses, db, tried.Broken?)
      ensures tried.Passed? && mine != old(mine) ==> Grew(old(losses), losses, ReplyLost(db))
      ensures Grew(old(losses), losses, ReplyLost(db)) ==> mine != old(mine)
    {
      var reply := Script(db);
      var closed := Close(db);
      tried := if !closed then Broken else if reply.Claimed? then Won else Passed;
    }

    /** The reservation loop: the first candidate that is in range, reachable, empty and answers. */
    method Reserve(candidates: seq<int>) returns (db: int, r: Outcome)
      modifies this`mine, this`claims, this`losses, this`asked
      ensures Scanned(old(asked), asked, candidates, db, r)
      ensures r.Raw? ==> Grew(old(losses), losses, CloseFailed(db))
      ensures r.Done? ==> db in candidates && db in mine - old(mine) && claims == old(claims) + [db]
      ensures Failed(r) ==> claims == old(claims) || r.Raw?
      ensures Explained(old(mine), mine, old(losses), losses, candidates, if r.Done? then {db} else {})
      ensures r.Isolation? ==> CreationLabel(Redis, r.stage)
    {
      hide InRange, Scanned, Explained, Took, Grew;
      ScanBegins(old(asked), candidates);
      NothingToExplain(mine, losses, candidates);
      for i := 0 to |candidates|
        invariant claims == old(claims) && asked == old(asked) + InRange(candidates[..i])
        invariant Explained(old(mine), mine, old(losses), losses, candidates, {})
      {
        db := candidates[i];
        InRangeLast(candidates, i);
        if IsolatedDatabase(db) {
          ScanStops(old(asked), candidates, i);
          ghost var before, lost := mine, losses;
          var tried := TryCandidate(db);
          if tried.Won? {
            WonExplained(old(mine), before, mine, old(losses), losses, candidates, db);
            return db, Done;
          }
          TriedExplained(old(mine), before, mine, old(losses), lost, losses, candidates, db, tried.Broken?);
          if tried.Broken? {
            return db, Raw;
          }
        }
      }
      ScanExhausted(old(asked), candidates);
      db, r := 0, Isolation(RedisReserve);
    }

    method Call() returns (ok: bool)
      modifies this`faults
      ensures faults == old(faults) + if ok then 0 else 1
    {
      ok := *;
      if !ok {
        faults := faults + 1;
      }
    }

    /** Closing the connection of a release happens outside the handlers that label errors. */
    method CloseRelease() returns (ok: bool)
      modifies this`faults, this`escapes
      ensures faults == old(faults) + (if ok then 0 else 1) && escapes == old(escapes) + if ok then 0 else 1
    {
      ok := Call();
      if !ok {
        escapes := escapes + 1;
      }
    }

    /** Read the marker, then flush. */
    method ReleaseSteps(db: int) returns (r: Outcome)
      modifies this`mine, this`faults, this`escapes
      ensures escapes >= old(escapes) && (r.Raw? <==> escapes > old(escapes))
      ensures mine == old(mine) || GaveBack(old(mine), mine, db)
      ensures r.Done? ==> GaveBack(old(mine), mine, db)
      ensures r.Isolation? ==> RemovalLabel(Redis, r.stage)
      ensures faults >= old(faults) && (db in old(mine) && faults == old(faults) ==> r.Done?)
    {
      var read := Call();
      if !read {
        r := Isolation(RedisCleanup);
      } else if db !in mine {
        r := Isolation(RedisOwnership);
      } else {
        var flushed := Call();
        var applied: bool := *;
        if flushed || applied {
          mine := mine - {db};
        }
        r := if flushed then Done else Isolation(RedisCleanup);
      }
      var closed := CloseRelease();
      if !closed {
        r := Raw;
      }
    }

    /** Flush a database only after its marker has been read back. */
    method Release(db: int) returns (r: Outcome)
      modifies this`mine, this`faults, this`escapes, log`removals
      ensures escapes >= old(escapes) && (r.Raw? <==> escapes > old(escapes))
      ensures log.removals == Then(old(log.removals), Redis, r)
      ensures mine == old(mine) || GaveBack(old(mine), mine, db)
      ensures r.Done? ==> GaveBack(old(mine), mine, db)
      ensures r.Isolation? ==> RemovalLabel(Redis, r.stage)
      ensures faults >= old(faults) && (db in old(mine) && faults == old(faults) ==> r.Done?)
    {
      r := ReleaseSteps(db);
      log.removals := Then(log.removals, Redis, r);
    }
  }

  /** Faults that decide what becomes of a bucket. */
  datatype BucketLoss = BucketReplyLost | BucketRollbackFailed | BucketDropFailed

  /** How often each of them happened. */
  datatype BucketFaults = BucketFaults(reply: nat, rollback: nat, drop: nat)

  function BumpBucket(f: BucketFaults, l: BucketLoss): BucketFaults
  {
    match l
    case BucketReplyLost => f.(reply := f.reply + 1)
    case BucketRollbackFailed => f.(rollback := f.rollback + 1)
    case BucketDropFailed => f.(drop := f.drop + 1)
  }

  predicate BucketSince(b: BucketFaults, n: BucketFaults)
  {
    b.reply <= n.reply && b.rollback <= n.rollback && b.drop <= n.drop
  }

  predicate Beyond(after: Option<string>, key: string)
  {
    after.Some? ==> !LessEq(key, after.value)
  }

  /** One listing page in key order; `token` names the last key listed when more remain. */
  datatype Page = Page(keys: set<string>, truncated: bool, token: Option<string>)

  predicate PageOf(objects: set<string>, after: Option<string>, p: Page)
  {
    && p.keys <= objects
    && (forall k :: k in p.keys ==> Beyond(after, k))
    && (p.truncated ==> p.keys != {} && (p.token.Some? ==> p.token.value != "" && p.token.value in p.keys))
    && (forall k :: k in objects && Beyond(after, k) && k !in p.keys ==>
          p.truncated && (p.token.Some? ==> !LessEq(k, p.token.value)))
  }

  class BucketService {
    const log: CallLog
    const marker: string         // the key that proves ownership
    const runId: string
    var owner: Option<Who>       // who created the bucket under this run's bucket name
    var objects: map<string, string>
    ghost var faults: nat        // calls that failed or were only partly honoured
    ghost var losses: BucketFaults
    ghost var escapes: nat       // clients that could not be made, whose error no label catches

    constructor (log: CallLog, marker: string, runId: string)
      ensures this.log == log && this.marker == marker && this.runId == runId && owner == None && objects == map[]
      ensures losses == BucketFaults(0, 0, 0)
    {
      this.log, this.marker, this.runId := log, marker, runId;
      owner, objects, faults, losses, escapes := None, map[], 0, BucketFaults(0, 0, 0), 0;
    }

    /** The bucket exists and its marker object holds this run's id. */
    predicate Marked()
      reads this
    {
      owner != None && marker in objects && objects[marker] == runId
    }

    method Call() returns (ok: bool)
      modifies this`faults
      ensures faults == old(faults) + if ok then 0 else 1
    {
      ok := *;
      if !ok {
        faults := faults + 1;
      }
    }

    /** Making the client happens outside the handlers that label errors. */
    method Client() returns (ok: bool)
      modifies this`faults, this`escapes
      ensures faults == old(faults) + (if ok then 0 else 1) && escapes == old(escapes) + if ok then 0 else 1
    {
      ok := Call();
      if !ok {
        escapes := escapes + 1;
      }
    }

    /** Other runs create or remove a bucket of the same name, but only while this run has none. */
    method Interfere()
      modifies this`owner, this`objects
      ensures old(owner) == Some(This) ==> owner == old(owner) && objects == old(objects)
      ensures owner == Some(This) ==> old(owner) == Some(This)
    {
      var theirs: bool := *;
      if owner != Some(This) {
        owner := if theirs then Some(Another) else None;
        objects := *;
      }
    }

    /** `create_bucket`: refused when the name is taken; the reply can be lost after it took effect. */
    method CreateCall() returns (ok: bool)
      modifies this`owner, this`objects, this`faults, this`losses
      ensures ok ==> owner == Some(This) && objects == map[] && faults == old(faults) && losses == old(losses)
      ensures !ok ==> faults > old(faults)
      ensures !ok ==>
        || (losses == old(losses) && (owner == Some(This) <==> old(owner) == Some(This)))
        || (losses == BumpBucket(old(losses), BucketReplyLost) && owner == Some(This))
      ensures old(owner) == Some(This) ==> !ok && losses == old(losses) && objects == old(objects)
    {
      Interfere();
      var applied, answered: bool := *, *;
      ok := owner == None && applied && answered;
      if owner == None && applied {
        owner, objects := Some(This), map[];
        if !answered {
          losses := BumpBucket(losses, BucketReplyLost);
        }
      }
      if !ok {
        faults := faults + 1;
      }
    }

    /** `delete_bucket`: refused while objects remain; the reply can be lost after it took effect. */
    method DropCall(loss: BucketLoss) returns (ok: bool)
      modifies this`owner, this`faults, this`losses
      ensures ok ==> objects == map[] && owner == None && losses == old(losses)
      ensures !ok ==> losses == BumpBucket(old(losses), loss)
      ensures !ok ==> owner == old(owner) || (owner == None && objects == map[])
      ensures faults >= old(faults) && (objects == map[] && faults == old(faults) ==> ok)
    {
      var answered := Call();
      var applied: bool := *;
      if objects == map[] && (answered || applied) {
        owner := None;
      }
      ok := objects == map[] && answered;
      if !ok {
        losses := BumpBucket(losses, loss);
      }
    }

    /** Undo a creation: the marker first, then the bucket. Failures are only logged. */
    method Rollback() returns (done: bool)
      requires owner == Some(This) && objects.Keys <= {marker}
      modifies this`owner, this`objects, this`faults, this`losses
      ensures done ==> owner == None && losses == old(losses)
      ensures !done ==> losses == BumpBucket(old(losses), BucketRollbackFailed) && owner in {None, Some(This)}
      ensures faults >= old(faults) && (faults == old(faults) ==> done)
    {
      done := Call();
      if done {
        objects := objects - {marker};
        done := DropCall(BucketRollbackFailed);
      } else {
        losses := BumpBucket(losses, BucketRollbackFailed);
      }
    }

    /** Create the bucket, write the marker and read it back. */
    method Create() returns (r: Outcome)
      modifies this
      ensures escapes >= old(escapes) && (r.Raw? <==> escapes > old(escapes))
      ensures BucketSince(old(losses), losses) && faults >= old(faults)
      ensures r.Done? ==> owner == Some(This) && old(owner) != Some(This) && objects == map[marker := runId]
      ensures Failed(r) && owner == Some(This) ==>
        || old(owner) == Some(This)
        || losses.reply > old(losses.reply) || losses.rollback > old(losses.rollback)
      ensures losses.reply > old(losses.reply) ==> Failed(r) && owner == Some(This)
      ensures losses.reply > old(losses.reply) || losses.rollback > old(losses.rollback) ==> faults > old(faults)
      ensures faults == old(faults) ==> r.Done? || r == Isolation(BucketCollision)
      ensures r.Isolation? ==> CreationLabel(Bucket, r.stage)
      ensures r == Isolation(BucketCollision) ==> owner != None && losses == old(losses)
      ensures old(owner) == Some(This) ==> Failed(r) && owner == Some(This) && objects == old(objects)
    {
      Interfere();
      var client := Client();
      if !client {
        return Raw;
      }
      var head := Call();
      if !head {
        var labelled: bool := *;
        return Isolation(if labelled then BucketCollisionCheck else BucketCreation);
      }
      if owner != None {
        return Isolation(BucketCollision);
      }
      var created := CreateCall();
      if !created {
        return Isolation(BucketCreation);
      }
      r := MarkBucket();
      if Failed(r) {
        var _ := Rollback();
      }
    }

    /** Put the marker, read it back, look at the bucket once more. */
    method MarkBucket() returns (r: Outcome)
      requires owner == Some(This) && objects == map[]
      modifies this`objects, this`faults
      ensures r.Done? ==> objects == map[marker := runId] && faults == old(faults)
      ensures Failed(r) ==> objects.Keys <= {marker} && faults > old(faults)
      ensures Failed(r) ==> r.Isolation? && r.stage in {BucketCreation, BucketMarker}
    {
      var put := Call();
      var applied: bool := *;
      objects := if put || applied then map[marker := runId] else map[];
      if !put {
        return Isolation(BucketCreation);
      }
      var read := Call();
      if !read {
        return Isolation(BucketCreation);
      }
      var honest: bool := *;
      if !honest {
        faults := faults + 1;
        return Isolation(BucketMarker);
      }
      var head := Call();
      r := if head then Done else Isolation(BucketCreation);
    }

    /** One `list_objects_v2` answer, in key order; a truncated answer may come without its token. */
    method List(after: Option<string>) returns (p: Option<Page>)
      modifies this`faults
      ensures p.Some? ==> PageOf(objects.Keys, after, p.value)
      ensures p.Some? && (p.value.truncated ==> p.value.token.Some?) ==> faults == old(faults)
      ensures p.None? || (p.value.truncated && p.value.token.None?) ==> faults > old(faults)
    {
      var page: Page := *;
      var listed: bool := *;
      p := if listed && PageOf(objects.Keys, after, page) then Some(page) else None;
      if p.None? || (page.truncated && page.token.None?) {
        faults := faults + 1;
      }
    }

    /** `delete_objects`: keys that could not be deleted are reported in the reply, which nobody reads. */
    method DeleteKeys(keys: set<string>) returns (ok: bool)
      modifies this`objects, this`faults
      ensures objects.Keys <= old(objects.Keys) && old(objects.Keys) - keys <= objects.Keys
      ensures forall k :: k in objects ==> objects[k] == old(objects)[k]
      ensures faults >= old(faults)
      ensures faults == old(faults) ==> ok && objects.Keys == old(objects.Keys) - keys
    {
      ok := Call();
      var honoured: set<string> := *;
      if !(ok && keys <= honoured) {
        faults := faults + 1;
      }
      objects := objects - (keys * honoured);
    }

    method DeleteSteps() returns (r: Outcome)
      modifies this
      ensures escapes >= old(escapes) && (r.Raw? <==> escapes > old(escapes))
      ensures r.Done? ==> owner == None && objects == map[] && losses == old(losses)
      ensures Failed(r) ==> owner == old(owner) || (owner == None && losses.drop > old(losses.drop))
      ensures r.Isolation? ==> RemovalLabel(Bucket, r.stage)
      ensures !old(Marked()) ==> Failed(r) && objects == old(objects) && owner == old(owner)
      ensures old(Marked()) && faults == old(faults) ==> r.Done?
      ensures objects.Keys <= old(objects.Keys) && faults >= old(faults) && BucketSince(old(losses), losses)
    {
      var client := Client();
      if !client {
        return Raw;
      }
      var read := Call();
      if !read || owner == None || marker !in objects {
        return Isolation(BucketCleanup);
      }
      if objects[marker] != runId {
        return Isolation(BucketOwnership);
      }
      r := Empty();
      if r.Done? {
        var dropped := DropCall(BucketDropFailed);
        r := if dropped then Done else Isolation(BucketCleanup);
      }
    }

    /** Remove every object page by page, then the bucket; nothing happens unless the marker is this run's. */
    method Delete() returns (r: Outcome)
      modifies this, log`removals
      ensures escapes >= old(escapes) && (r.Raw? <==> escapes > old(escapes))
      ensures log.removals == Then(old(log.removals), Bucket, r)
      ensures r.Done? ==> owner == None && objects == map[] && losses == old(losses)
      ensures Failed(r) ==> owner == old(owner) || (owner == None && losses.drop > old(losses.drop))
      ensures r.Isolation? ==> RemovalLabel(Bucket, r.stage)
      ensures !old(Marked()) ==> Failed(r) && objects == old(objects) && owner == old(owner)
      ensures old(Marked()) && faults == old(faults) ==> r.Done?
      ensures objects.Keys <= old(objects.Keys) && faults >= old(faults) && BucketSince(old(losses), losses)
    {
      r := DeleteSteps();
      log.removals := Then(log.removals, Bucket, r);
    }

    /** The pagination loop. */
    method Empty() returns (r: Outcome)
      modifies this`objects, this`faults
      ensures objects.Keys <= old(objects.Keys) && faults >= old(faults)
      ensures faults == old(faults) ==> r.Done? && objects == map[]
      ensures r.Isolation? ==> RemovalLabel(Bucket, r.stage)
      ensures !r.Raw?
    {
      ghost var before := objects.Keys;
      var after: Option<string> := None;
      while true
        invariant objects.Keys <= before && faults >= old(faults)
        invariant faults == old(faults) ==> forall k :: k in objects ==> Beyond(after, k)
        decreases set k | k in before && Beyond(after, k)
      {
        var listing := List(after);
        if listing.None? {
          return Isolation(BucketCleanup);
        }
        var page := listing.value;
        if page.keys != {} {
          var deleted := DeleteKeys(page.keys);
          if !deleted {
            return Isolation(BucketCleanup);
          }
        }
        if !page.truncated {
          return Done;
        }
        if page.token.None? {
          return Isolation(BucketPagination);
        }
        TokenAdvances(before, after, page.token.value);
        after := page.token;
      }
      assert false;
    }
  }

  /** Faults that decide what becomes of a database. */
  datatype DatabaseLoss = CreateReplyLost | AdminCloseFailed | ReconnectFailed | DropFailed | TargetCloseFailed

  /** How often each of them happened. */
  datatype DatabaseFaults = DatabaseFaults(create: nat, adminClose: nat, reconnect: nat, drop: nat, targetClose: nat)

  function Bump(f: DatabaseFaults, l: DatabaseLoss): DatabaseFaults
  {
    match l
    case CreateReplyLost => f.(create := f.create + 1)
    case AdminCloseFailed => f.(adminClose := f.adminClose + 1)
    case ReconnectFailed => f.(reconnect := f.reconnect + 1)
    case DropFailed => f.(drop := f.drop + 1)
    case TargetCloseFailed => f.(targetClose := f.targetClose + 1)
  }

  /** Faults are only ever added. */
  predicate Since(b: DatabaseFaults, n: DatabaseFaults)
  {
    && b.create <= n.create && b.adminClose <= n.adminClose && b.reconnect <= n.reconnect
    && b.drop <= n.drop && b.targetClose <= n.targetClose
  }

  /** Whatever others did, this run has its database as before or still has none. */
  predicate Undisturbed(before: Option<Who>, after: Option<Who>)
  {
    before == Some(This) <==> after == Some(This)
  }

  class DatabaseServer {
    const log: CallLog
    var owner: Option<Who>        // who created the database under this run's database name
    ghost var dropped: seq<Who>   // whose databases were dropped, in order
    ghost var faults: DatabaseFaults
    ghost var refusals: nat       // connections, checks and statements that failed with nothing done
    ghost var escapes: nat        // connections, queries and closes whose error no label catches
    ghost var grants: nat         // times the extensions and grants went through
    ghost var migrations: nat     // times the schema was migrated

    constructor (log: CallLog)
      ensures this.log == log && owner == None && dropped == [] && faults == DatabaseFaults(0, 0, 0, 0, 0)
    {
      this.log, owner, dropped, faults, refusals := log, None, [], DatabaseFaults(0, 0, 0, 0, 0), 0;
      escapes, grants, migrations := 0, 0, 0;
    }

    /** Other runs create or drop a database of the same name, but only while this run has none. */
    method Interfere()
      modifies this`owner
      ensures Undisturbed(old(owner), owner)
    {
      var theirs: bool := *;
      if owner != Some(This) {
        owner := if theirs then Some(Another) else None;
      }
    }

    /** A connection, query or close that may raise, recorded under `loss` when it does. */
    method Try(loss: DatabaseLoss) returns (ok: bool)
      modifies this`faults, this`escapes
      ensures faults == if ok then old(faults) else Bump(old(faults), loss)
      ensures escapes == old(escapes) + if ok then 0 else 1
    {
      ok := *;
      if !ok {
        escapes := escapes + 1;
        faults := Bump(faults, loss);
      }
    }

    /** A connection, check or statement that may fail without any effect. */
    method Ask() returns (ok: bool)
      modifies this`refusals
      ensures refusals == old(refusals) + if ok then 0 else 1
    {
      ok := *;
      if !ok {
        refusals := refusals + 1;
      }
    }

    /** The first connection, made outside the handlers that label errors. */
    method Connect() returns (ok: bool)
      modifies this`refusals, this`escapes
      ensures refusals == old(refusals) + (if ok then 0 else 1) && escapes == old(escapes) + if ok then 0 else 1
    {
      ok := Ask();
      if !ok {
        escapes := escapes + 1;
      }
    }

    /** Extensions and grants: all of them, or a refusal. */
    method GrantStatements() returns (ok: bool)
      modifies this`refusals, this`grants
      ensures refusals == old(refusals) + (if ok then 0 else 1) && grants == old(grants) + if ok then 1 else 0
    {
      ok := Ask();
      if ok {
        grants := grants + 1;
      }
    }

    /** The schema migration against the created database. */
    method Migrate() returns (ok: bool)
      requires owner == Some(This) && grants > 0
      modifies this`migrations
      ensures migrations == old(migrations) + if ok then 1 else 0
    {
      ok := *;
      if ok {
        migrations := migrations + 1;
      }
    }

    /** `DROP DATABASE`, which removes whoever's database stands; its reply can be lost. */
    method DropStatement() returns (ok: bool)
      modifies this`owner, this`dropped, this`faults
      ensures ok ==> old(owner) != None && faults == old(faults) && dropped == old(dropped) + [old(owner).value]
      ensures !ok ==> faults == Bump(old(faults), DropFailed)
      ensures dropped == old(dropped) || (old(owner) != None && dropped == old(dropped) + [old(owner).value])
      ensures owner == if dropped == old(dropped) then old(owner) else None
    {
      var applied, answered: bool := *, *;
      ok := owner != None && applied && answered;
      if owner != None && applied {
        dropped := dropped + [owner.value];
        owner := None;
      }
      if !ok {
        faults := Bump(faults, DropFailed);
      }
    }

    method DropSteps() returns (r: Outcome)
      modifies this`owner, this`dropped, this`faults, this`escapes
      ensures escapes >= old(escapes) && (r.Raw? <==> escapes > old(escapes))
      ensures owner == Some(This) <==> old(owner) == Some(This) && dropped == old(dropped)
      ensures r.Done? ==> |dropped| == |old(dropped)| + 1 && faults == old(faults)
      ensures Failed(r) && old(owner) == Some(This) ==> faults.drop > old(faults.drop)
      ensures faults == old(faults).(drop := faults.drop) && faults.drop >= old(faults.drop)
      ensures old(dropped) <= dropped && |dropped| <= |old(dropped)| + 1
      ensures old(owner) == Some(This) && dropped != old(dropped) ==> dropped == old(dropped) + [This]
      ensures r.Isolation? ==> RemovalLabel(Database, r.stage)
    {
      Interfere();
      var verified := Try(DropFailed);
      if !verified {
        return Raw;
      }
      if owner == None {
        return Isolation(DatabaseOwnership);
      }
      Interfere();
      var connected := Try(DropFailed);
      if !connected {
        return Raw;
      }
      var executed := DropStatement();
      var closed := Try(DropFailed);
      r := if !closed then Raw else if executed then Done else Isolation(DatabaseCleanup);
    }

    /** Drop the database after checking its owner, which is one role shared by all runs. */
    method Drop() returns (r: Outcome)
      modifies this`owner, this`dropped, this`faults, this`escapes, log`removals
      ensures escapes >= old(escapes) && (r.Raw? <==> escapes > old(escapes))
      ensures log.removals == Then(old(log.removals), Database, r)
      ensures owner == Some(This) <==> old(owner) == Some(This) && dropped == old(dropped)
      ensures r.Done? ==> |dropped| == |old(dropped)| + 1 && faults == old(faults)
      ensures Failed(r) && old(owner) == Some(This) ==> faults.drop > old(faults.drop)
      ensures faults == old(faults).(drop := faults.drop) && faults.drop >= old(faults.drop)
      ensures old(dropped) <= dropped && |dropped| <= |old(dropped)| + 1
      ensures old(owner) == Some(This) && dropped != old(dropped) ==> dropped == old(dropped) + [This]
      ensures r.Isolation? ==> RemovalLabel(Database, r.stage)
    {
      r := DropSteps();
      log.removals := Then(log.removals, Database, r);
    }

    /** `CREATE DATABASE`: refused when the name is taken; the reply can be lost after it took effect. */
    method CreateStatement() returns (ok: bool)
      modifies this`owner, this`faults, this`refusals
      ensures ok ==> owner == Some(This) && old(owner) != Some(This) && faults == old(faults) && refusals == old(refusals)
      ensures refusals >= old(refusals) && (!ok ==> refusals > old(refusals) || faults != old(faults))
      ensures !ok ==>
        || (faults == old(faults) && (owner == Some(This) <==> old(owner) == Some(This)))
        || (faults == Bump(old(faults), CreateReplyLost) && owner == Some(This) && old(owner) != Some(This))
    {
      Interfere();
      var applied, answered: bool := *, *;
      ok := owner == None && applied && answered;
      if owner == None && applied {
        owner := Some(This);
        if !answered {
          faults := Bump(faults, CreateReplyLost);
        }
      } else {
        refusals := refusals + 1;
      }
    }

    /** Check the roles, then `CREATE DATABASE`. */
    method CreateIfRoles() returns (r: Outcome)
      modifies this`owner, this`faults, this`refusals
      ensures r.Done? ==> owner == Some(This) && old(owner) != Some(This) && faults == old(faults)
      ensures r.Done? || (r.Isolation? && r.stage in {DatabaseRole, DatabaseCreation})
      ensures refusals >= old(refusals) && (Failed(r) ==> refusals > old(refusals) || faults != old(faults))
      ensures Failed(r) ==>
        || (faults == old(faults) && (owner == Some(This) <==> old(owner) == Some(This)))
        || (faults == Bump(old(faults), CreateReplyLost) && owner == Some(This) && old(owner) != Some(This))
    {
      var roles := Ask();
      if !roles {
        return Isolation(DatabaseRole);
      }
      var created := CreateStatement();
      r := if created then Done else Isolation(DatabaseCreation);
    }

    /** Check the name and the roles, then `CREATE DATABASE`. */
    method CreateCall() returns (r: Outcome)
      modifies this`owner, this`faults, this`refusals, this`escapes
      ensures escapes >= old(escapes) && (r.Raw? <==> escapes > old(escapes))
      ensures Since(old(faults), faults) && refusals >= old(refusals)
      ensures faults == old(faults) && refusals == old(refusals) ==> r.Done? || r == Isolation(DatabaseCollision)
      ensures r == Isolation(DatabaseCollision) ==> owner != None && faults == old(faults)
      ensures r.Isolation? ==> CreationLabel(Database, r.stage)
      ensures r.Done? ==> owner == Some(This) && old(owner) != Some(This) && faults == old(faults)
      ensures Failed(r) && owner == Some(This) ==>
        || old(owner) == Some(This)
        || faults.create > old(faults.create) || faults.adminClose > old(faults.adminClose)
      ensures faults.create > old(faults.create) ==> owner == Some(This) && old(owner) != Some(This)
      ensures faults == old(faults).(create := faults.create, adminClose := faults.adminClose)
      ensures old(owner) == Some(This) ==> owner == Some(This)
    {
      Interfere();
      var connected := Connect();
      if !connected {
        return Raw;
      }
      var asked := Ask();
      if !asked {
        r := Isolation(DatabaseCreation);
      } else if owner != None {
        r := Isolation(DatabaseCollision);
      } else {
        r := CreateIfRoles();
      }
      var closed := Try(AdminCloseFailed);
      if !closed {
        r := Raw;
      }
    }

    /** Extensions and grants over a second connection; failing, the database is dropped again. */
    method Grant() returns (r: Outcome)
      requires owner == Some(This)
      modifies this, log`removals
      ensures escapes >= old(escapes) && (r.Raw? <==> escapes > old(escapes))
      ensures r.Done? ==> grants == old(grants) + 1
      ensures migrations == old(migrations)
      ensures Since(old(faults), faults)
      ensures r.Done? ==> owner == Some(This) && dropped == old(dropped) && faults == old(faults)
      ensures r.Done? ==> log.removals == old(log.removals)
      ensures log.removals == old(log.removals) || exists o :: log.removals == Then(old(log.removals), Database, o)
      ensures Failed(r) && owner == Some(This) ==>
        faults.drop > old(faults.drop) || faults.targetClose > old(faults.targetClose)
      ensures faults == old(faults).(drop := faults.drop, targetClose := faults.targetClose)
      ensures dropped == old(dropped) || dropped == old(dropped) + [This]
      ensures refusals >= old(refusals)
      ensures faults == old(faults) && refusals == old(refusals) ==> r.Done?
      ensures faults == old(faults) && refusals > old(refusals) ==> r == Isolation(DatabasePermissions) && owner != Some(This)
      ensures r.Isolation? ==> r.stage == DatabasePermissions
    {
      r := Done;
      var granted := GrantStatements();
      if !granted {
        var undone := Drop();
        r := if undone.Raw? then Raw else Isolation(DatabasePermissions);
      }
      var closed := Try(TargetCloseFailed);
      if !closed {
        r := Raw;
      }
    }

    /** Create the database, then connect to it for extensions and grants. */
    method Create() returns (r: Outcome)
      modifies this, log`removals
      ensures escapes >= old(escapes) && (r.Raw? <==> escapes > old(escapes))
      ensures r.Done? ==> grants == old(grants) + 1
      ensures migrations == old(migrations)
      ensures Since(old(faults), faults)
      ensures r.Done? ==> log.removals == old(log.removals)
      ensures log.removals == old(log.removals) || exists o :: log.removals == Then(old(log.removals), Database, o)
      ensures r.Done? ==> owner == Some(This) && old(owner) != Some(This) && dropped == old(dropped) && faults == old(faults)
      ensures Failed(r) && owner == Some(This) ==> old(owner) == Some(This) || faults != old(faults)
      ensures faults.create > old(faults.create) || faults.reconnect > old(faults.reconnect) ==>
        Failed(r) && owner == Some(This)
      ensures old(owner) == Some(This) ==> Failed(r) && owner == Some(This) && dropped == old(dropped)
      ensures dropped == old(dropped) || dropped == old(dropped) + [This]
      ensures refusals >= old(refusals)
      ensures faults == old(faults) && refusals == old(refusals) ==> r.Done? || r == Isolation(DatabaseCollision)
      ensures r == Isolation(DatabaseCollision) ==> owner != None && faults == old(faults)
      ensures r.Isolation? ==> CreationLabel(Database, r.stage)
    {
      r := CreateCall();
      if r.Done? {
        var reconnected := Try(ReconnectFailed);
        if reconnected {
          r := Grant();
        } else {
          r := Raw;
        }
      }
    }
  }

  /** Passing a key that was still ahead leaves strictly fewer keys ahead. */
  lemma TokenAdvances(keys: set<string>, after: Option<string>, token: string)
    requires token in keys && Beyond(after, token)
    ensures (set k | k in keys && Beyond(Some(token), k)) < (set k | k in keys && Beyond(after, k))
  {
    Total(token, token);
    var rest, ahead := set k | k in keys && Beyond(Some(token), k), set k | k in keys && Beyond(after, k);
    forall k | k in keys && Beyond(Some(token), k)
      ensures Beyond(after, k)
    {
      if after.Some? && LessEq(k, after.value) {
        Total(token, after.value);
        Transitive(k, after.value, token);
      }
    }
    assert rest <= ahead && token in ahead && token !in rest;
  }
}
