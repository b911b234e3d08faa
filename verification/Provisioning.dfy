/** One run reserves its three data planes in order and gives back what it took when a later step fails. */
module Provisioning {
  import opened Text
  import opened DataPlanes

  /** What each plane's removal call answered; `None` where it was never made. */
  datatype Calls = Calls(database: Option<Outcome>, bucket: Option<Outcome>, redis: Option<Outcome>)

  const NO_CALLS := Calls(None, None, None)

  /** A flagged plane is tried unless an earlier one raised an unlabelled error; an unflagged one never is. */
  predicate Follows(database: bool, bucket: bool, redis: bool, a: Calls)
  {
    && (a.database.Some? <==> database)
    && (a.bucket.Some? <==> bucket && a.database != Some(Raw))
    && (a.redis.Some? <==> redis && a.database != Some(Raw) && a.bucket != Some(Raw))
  }

  /** The calls in the order PostgreSQL, S3, Redis, each with its outcome. */
  function Extend(t: Trail, a: Calls): Trail
  {
    var t := if a.database.Some? then Then(t, Database, a.database.value) else t;
    var t := if a.bucket.Some? then Then(t, Bucket, a.bucket.value) else t;
    if a.redis.Some? then Then(t, Redis, a.redis.value) else t
  }

  predicate Escapes(a: Calls)
  {
    a.database == Some(Raw) || a.bucket == Some(Raw) || a.redis == Some(Raw)
  }

  function Label(o: Option<Outcome>): seq<Stage>
  {
    if o.Some? && o.value.Isolation? then [o.value.stage] else []
  }

  function Labels(a: Calls): seq<Stage>
  {
    Label(a.database) + Label(a.bucket) + Label(a.redis)
  }

  /** The plane's call was made and answered with one of the plane's labels. */
  predicate Reported(p: Plane, o: Option<Outcome>)
  {
    o.Some? && o.value.Isolation? && RemovalLabel(p, o.value.stage)
  }

  /** The labels returned are exactly those of the planes that reported one. */
  lemma LabelsAreReports(a: Calls, s: Stage)
    ensures s in Labels(a) <==>
      a.database == Some(Isolation(s)) || a.bucket == Some(Isolation(s)) || a.redis == Some(Isolation(s))
  {
    assert Labels(a) == Label(a.database) + (Label(a.bucket) + Label(a.redis));
  }

  // The three services as one value.

  datatype Planes = Planes(
    mine: set<int>, claims: seq<int>, claimLosses: multiset<ClaimLoss>, asked: seq<int>, redisCalls: nat,
    bucket: Option<Who>, objects: map<string, string>, marked: bool, bucketFaults: BucketFaults, bucketCalls: nat,
    database: Option<Who>, dropped: seq<Who>, databaseFaults: DatabaseFaults, refusals: nat,
    removals: Trail)

  ghost function Standing(redis: RedisServer, s3: BucketService, postgres: DatabaseServer): Planes
    reads redis, s3, postgres, redis.log
  {
    Planes(redis.mine, redis.claims, redis.losses, redis.asked, redis.faults,
      s3.owner, s3.objects, s3.Marked(), s3.losses, s3.faults,
      postgres.owner, postgres.dropped, postgres.faults, postgres.refusals, redis.log.removals)
  }

  /** No call failed between the two, as far as the services recorded. */
  predicate Faultless(b: Planes, n: Planes)
  {
    && n.claimLosses == b.claimLosses && n.redisCalls == b.redisCalls
    && n.bucketCalls == b.bucketCalls && n.bucketFaults == b.bucketFaults && n.databaseFaults == b.databaseFaults
  }

  /** At most this run's database was dropped. */
  predicate OneOwnDrop(before: seq<Who>, after: seq<Who>)
  {
    after == before || after == before + [This]
  }

  /** A bucket this run created stands without its flag only if a reply was lost or a rollback failed. */
  predicate BucketFilled(b: Planes, n: Planes, created: bool)
  {
    && BucketSince(b.bucketFaults, n.bucketFaults) && b.bucketCalls <= n.bucketCalls
    && (created ==> n.bucket == Some(This) && b.bucket != Some(This) && n.marked)
    && (!created && n.bucket == Some(This) ==>
          || b.bucket == Some(This)
          || n.bucketFaults.reply > b.bucketFaults.reply || n.bucketFaults.rollback > b.bucketFaults.rollback)
    && (b.bucket == Some(This) ==> !created && n.bucket == Some(This) && n.objects == b.objects)
  }

  /** A database this run created stands without its flag only if one of the five recorded faults happened. */
  ghost predicate DatabaseFilled(b: Planes, n: Planes, created: bool)
  {
    && Since(b.databaseFaults, n.databaseFaults) && OneOwnDrop(b.dropped, n.dropped)
    && (created ==> n.database == Some(This) && b.database != Some(This) && n.dropped == b.dropped && n.removals == b.removals)
    && (!created && n.database == Some(This) ==> b.database == Some(This) || n.databaseFaults != b.databaseFaults)
    && (b.database == Some(This) ==> !created && n.database == Some(This) && n.dropped == b.dropped)
    && (n.removals == b.removals || exists o :: n.removals == Then(b.removals, Database, o))
  }

  ghost predicate Filled(b: Planes, n: Planes, bucketCreated: bool, databaseCreated: bool)
  {
    && n.mine == b.mine && n.claims == b.claims && n.claimLosses == b.claimLosses && n.redisCalls == b.redisCalls
    && n.asked == b.asked && b.refusals <= n.refusals
    && BucketFilled(b, n, bucketCreated) && DatabaseFilled(b, n, databaseCreated)
    && (databaseCreated ==> bucketCreated)
  }

  /** Nothing failed and nothing was refused between the two. */
  predicate Smooth(b: Planes, n: Planes)
  {
    Faultless(b, n) && n.refusals == b.refusals
  }

  /** If nothing went wrong, a failed creation found its name taken, or the migration failed. */
  predicate FailedFor(b: Planes, n: Planes, r: Outcome)
  {
    Smooth(b, n) && Failed(r) ==> r.Isolation? && Occupied(n, r.stage)
  }

  predicate Occupied(n: Planes, stage: Stage)
  {
    || (stage.BucketCollision? && n.bucket != None)
    || (stage.DatabaseCollision? && n.database != None)
    || stage.SchemaMigration?
  }

  /** A plane whose call returned is gone, one not asked is untouched, and a label names the plane it came from. */
  predicate DatabaseCleaned(b: Planes, n: Planes, o: Option<Outcome>)
  {
    && (o == Some(Done) ==> n.database != Some(This))
    && (o.None? ==> n.database == b.database && n.dropped == b.dropped && n.databaseFaults == b.databaseFaults)
    && (o.Some? && Failed(o.value) && b.database == Some(This) ==> n.databaseFaults != b.databaseFaults)
    && (o.Some? && o.value.Isolation? ==> RemovalLabel(Database, o.value.stage))
    && (n.database == Some(This) ==> b.database == Some(This))
    && (b.database == Some(This) ==> OneOwnDrop(b.dropped, n.dropped))
  }

  predicate BucketCleaned(b: Planes, n: Planes, o: Option<Outcome>)
  {
    && (o == Some(Done) ==> n.bucket == None)
    && (o.None? ==> n.bucket == b.bucket && n.objects == b.objects && n.marked == b.marked)
    && (o.Some? && Failed(o.value) && b.marked ==> n.bucketCalls > b.bucketCalls)
    && (o.Some? && o.value.Isolation? ==> RemovalLabel(Bucket, o.value.stage))
    && (n.bucket == b.bucket || n.bucket == None)
  }

  predicate RedisCleaned(b: Planes, n: Planes, db: int, o: Option<Outcome>)
  {
    && (o == Some(Done) ==> db !in n.mine)
    && (o.None? ==> n.mine == b.mine)
    && (o.Some? && Failed(o.value) && db in b.mine ==> n.redisCalls > b.redisCalls)
    && (o.Some? && o.value.Isolation? ==> RemovalLabel(Redis, o.value.stage))
    && (n.mine == b.mine || n.mine == b.mine - {db})
  }

  predicate Cleaned(b: Planes, n: Planes, db: int, a: Calls)
  {
    && n.removals == Extend(b.removals, a) && n.claims == b.claims && n.claimLosses == b.claimLosses
    && n.asked == b.asked && n.refusals == b.refusals
    && DatabaseCleaned(b, n, a.database) && BucketCleaned(b, n, a.bucket) && RedisCleaned(b, n, db, a.redis)
    && BucketSince(b.bucketFaults, n.bucketFaults) && Since(b.databaseFaults, n.databaseFaults)
    && b.redisCalls <= n.redisCalls && b.bucketCalls <= n.bucketCalls
  }

  class BackendIsolation {
    const log: CallLog
    const redis: RedisServer
    const s3: BucketService
    const postgres: DatabaseServer
    const redisDatabase: int
    var postgresCreated: bool
    var s3Created: bool
    var redisClaimed: bool

    /** The instance exists only once the reservation has returned. */
    constructor (redis: RedisServer, s3: BucketService, postgres: DatabaseServer, redisDatabase: int)
      requires redis.log == s3.log == postgres.log
      ensures this.redis == redis && this.s3 == s3 && this.postgres == postgres && this.redisDatabase == redisDatabase
      ensures redisClaimed && !s3Created && !postgresCreated && Wired()
    {
      log := redis.log;
      this.redis, this.s3, this.postgres, this.redisDatabase := redis, s3, postgres, redisDatabase;
      redisClaimed, s3Created, postgresCreated := true, false, false;
    }

    /** The three services report to one log. */
    predicate Wired()
    {
      redis.log == s3.log == postgres.log == log
    }

    ghost function Now(): Planes
      reads redis, s3, postgres, redis.log
    {
      Standing(redis, s3, postgres)
    }

    /** Create the bucket and the database and migrate, raising each flag once its creation has returned. */
    method Fill() returns (r: Outcome)
      requires Wired() && redisClaimed && !s3Created && !postgresCreated
      modifies this, s3, postgres, log`removals
      ensures redisClaimed && Filled(old(Now()), Now(), s3Created, postgresCreated)
      ensures r.Done? ==> postgresCreated
      ensures r.Done? ==> s3Created
      ensures r.Done? ==> postgres.grants == old(postgres.grants) + 1 && postgres.migrations == old(postgres.migrations) + 1
      ensures FailedFor(old(Now()), Now(), r) && FailsBefore(r, s3Created, postgresCreated)
    {
      r := s3.Create();
      if Failed(r) {
        return;
      }
      s3Created := true;
      r := postgres.Create();
      if Failed(r) {
        return;
      }
      postgresCreated := true;
      var migrated := postgres.Migrate();
      r := if migrated then Done else Isolation(SchemaMigration);
    }

    method TryDatabase() returns (o: Option<Outcome>)
      requires Wired()
      modifies postgres, log`removals
      ensures (o.Some? <==> postgresCreated) && Cleaned(old(Now()), Now(), redisDatabase, Calls(o, None, None))
    {
      o := None;
      if postgresCreated {
        var r := postgres.Drop();
        o := Some(r);
      }
    }

    method TryBucket() returns (o: Option<Outcome>)
      requires Wired()
      modifies s3, log`removals
      ensures (o.Some? <==> s3Created) && Cleaned(old(Now()), Now(), redisDatabase, Calls(None, o, None))
    {
      o := None;
      if s3Created {
        var r := s3.Delete();
        o := Some(r);
      }
    }

    method TryRedis() returns (o: Option<Outcome>)
      requires Wired()
      modifies redis`mine, redis`faults, redis`escapes, log`removals
      ensures (o.Some? <==> redisClaimed) && Cleaned(old(Now()), Now(), redisDatabase, Calls(None, None, o))
    {
      o := None;
      if redisClaimed {
        var r := redis.Release(redisDatabase);
        o := Some(r);
      }
    }

    /**
     * Best-effort cleanup. Labelled errors are collected and the next plane is tried; any other
     * error escapes and the planes after it are not tried.
     */
    method Cleanup() returns (errors: seq<Stage>, escaped: bool, ghost a: Calls)
      requires Wired()
      modifies redis`mine, redis`faults, redis`escapes, s3, postgres, log`removals
      ensures Follows(postgresCreated, s3Created, redisClaimed, a) && Cleaned(old(Now()), Now(), redisDatabase, a)
      ensures errors == Labels(a) && escaped == Escapes(a)
    {
      var d := TryDatabase();
      var b: Option<Outcome>, c: Option<Outcome> := None, None;
      if d != Some(Raw) {
        b := TryBucket();
        if b != Some(Raw) {
          c := TryRedis();
        }
      }
      a := Calls(d, b, c);
      errors, escaped := Label(d) + Label(b) + Label(c), Escapes(Calls(d, b, c));
    }
  }

  // One provisioning.

  datatype Provisioned =
    | Ready(instance: BackendIsolation)
    | Refused(stage: Stage, cleanupErrors: seq<Stage>)
    | Escaped   // cleanup itself raised something it does not catch

  /** The reservation, as the services show it. */
  ghost predicate Reserved(b: Planes, n: Planes, db: int, done: bool, candidates: seq<int>)
  {
    && Explained(b.mine, n.mine, b.claimLosses, n.claimLosses, candidates, if done then {db} else {})
    && (done ==> db in n.mine - b.mine && n.claims == b.claims + [db])
    && (!done ==> n.claims == b.claims || Grew(b.claimLosses, n.claimLosses, CloseFailed(db)))
    && n == b.(mine := n.mine, claims := n.claims, claimLosses := n.claimLosses, asked := n.asked)
  }

  /** A claim of this database whose reply was lost, or whose connection could not be closed. */
  predicate Hidden(b: Planes, n: Planes, db: int)
  {
    Grew(b.claimLosses, n.claimLosses, ReplyLost(db)) || Grew(b.claimLosses, n.claimLosses, CloseFailed(db))
  }

  /** After a refusal, whatever of this run still stands was there before, is reported, or is due to a recorded fault. */
  predicate Conserved(b: Planes, n: Planes, a: Calls)
  {
    && (n.bucket == Some(This) ==>
          || b.bucket == Some(This) || Reported(Bucket, a.bucket)
          || n.bucketFaults.reply > b.bucketFaults.reply || n.bucketFaults.rollback > b.bucketFaults.rollback)
    && (n.database == Some(This) ==>
          b.database == Some(This) || Reported(Database, a.database) || n.databaseFaults != b.databaseFaults)
    && (forall d :: d in n.mine - b.mine ==> (Reported(Redis, a.redis) && n.claims == b.claims + [d]) || Hidden(b, n, d))
  }

  /** Exactly what stood before stands. */
  predicate NothingLeft(b: Planes, n: Planes)
  {
    && n.mine == b.mine
    && (n.bucket == Some(This) <==> b.bucket == Some(This))
    && (n.database == Some(This) <==> b.database == Some(This))
  }

  /** Nothing that was there before is lost, and no other run's database is dropped. */
  predicate Harmless(b: Planes, n: Planes)
  {
    && b.mine <= n.mine && OneOwnDrop(b.dropped, n.dropped)
    && (b.bucket == Some(This) ==> n.bucket == Some(This) && n.objects == b.objects)
    && (b.database == Some(This) ==> n.database == Some(This))
  }

  /** Cleanup came last, once, and after at most the one drop a failed creation makes itself. */
  ghost predicate CleanedOnce(b: Planes, n: Planes, a: Calls)
  {
    n.removals == Extend(b.removals, a) || exists o :: n.removals == Extend(Then(b.removals, Database, o), a)
  }

  /** An acknowledged claim is given back unless an earlier removal ended the cleanup. */
  ghost predicate ClaimAnswered(b: Planes, n: Planes, a: Calls)
  {
    n.claims == b.claims || a.redis.Some? || a.database == Some(Raw) || a.bucket == Some(Raw)
    || exists d :: Grew(b.claimLosses, n.claimLosses, CloseFailed(d))
  }

  /** Without a recorded loss the only new claim is the one returned. */
  lemma OnlyTheReturnedClaim(b: Planes, n: Planes, db: int, done: bool, candidates: seq<int>)
    requires Reserved(b, n, db, done, candidates) && n.claimLosses == b.claimLosses
    ensures n.mine == b.mine + if done then {db} else {}
  {
    var returned := if done then {db} else {};
    forall d | d in n.mine
      ensures d in b.mine + returned
    {
      assert d in n.mine - b.mine ==> !Hidden(b, n, d);
    }
    assert b.mine + returned <= n.mine;
  }

  /**
   * Why a run was refused: no candidate was left to ask, or, if nothing failed on the way, a name was taken or the
   * migration failed.
   */
  ghost predicate RefusedFor(b: Planes, n: Planes, stage: Stage, candidates: seq<int>)
  {
    && (stage.RedisReserve? ==> n.asked == b.asked + InRange(candidates) && n.claims == b.claims)
    && (Smooth(b, n) ==> stage.RedisReserve? || Occupied(n, stage))
  }

  lemma RefusedOutright(b: Planes, n: Planes, db: int, candidates: seq<int>)
    requires Reserved(b, n, db, false, candidates)
    ensures Conserved(b, n, NO_CALLS) && Harmless(b, n) && CleanedOnce(b, n, NO_CALLS) && ClaimAnswered(b, n, NO_CALLS)
    ensures Faultless(b, n) ==> NothingLeft(b, n)
  {
    assert Extend(b.removals, NO_CALLS) == b.removals;
    if Faultless(b, n) {
      OnlyTheReturnedClaim(b, n, db, false, candidates);
    }
  }

  lemma RolledBack(
    b: Planes, m: Planes, f: Planes, n: Planes, db: int, candidates: seq<int>, s3: bool, pg: bool, a: Calls)
    requires Reserved(b, m, db, true, candidates) && Filled(m, f, s3, pg) && Cleaned(f, n, db, a) && Follows(pg, s3, true, a)
    ensures Harmless(b, n) && CleanedOnce(b, n, a) && ClaimAnswered(b, n, a)
    ensures !Escapes(a) ==> Conserved(b, n, a)
    ensures Faultless(b, n) ==> NothingLeft(b, n) && !Escapes(a)
  {
    assert f.removals == b.removals ==> n.removals == Extend(b.removals, a);
    if Faultless(b, n) {
      OnlyTheReturnedClaim(b, m, db, true, candidates);
    }
    forall d | d in n.mine - b.mine && !Escapes(a)
      ensures (Reported(Redis, a.redis) && n.claims == b.claims + [d]) || Hidden(b, n, d)
    {
      assert d in m.mine - b.mine;
    }
  }

  /** The failure's own label, or the general one. */
  function StageOf(r: Outcome): Stage
  {
    if r.Isolation? then r.stage else DataPlanes.Provision
  }

  lemma RefusedAtReserve(b: Planes, n: Planes, db: int, r: Outcome, candidates: seq<int>)
    requires Reserved(b, n, db, false, candidates) && Scanned(b.asked, n.asked, candidates, db, r) && Failed(r)
    requires r.Raw? ==> Grew(b.claimLosses, n.claimLosses, CloseFailed(db))
    requires r.Isolation? ==> CreationLabel(Redis, r.stage) && n.claims == b.claims
    ensures RefusedFor(b, n, StageOf(r), candidates)
  {
    if r.Isolation? {
      assert candidates[..|candidates|] == candidates;
    }
  }

  lemma RefusedLater(
    b: Planes, m: Planes, f: Planes, n: Planes, db: int, candidates: seq<int>, s3: bool, pg: bool, a: Calls, r: Outcome)
    requires Reserved(b, m, db, true, candidates) && Filled(m, f, s3, pg) && Cleaned(f, n, db, a) && Follows(pg, s3, true, a)
    requires Failed(r) && FailedFor(m, f, r) && FailsBefore(r, s3, pg)
    ensures RefusedFor(b, n, StageOf(r), candidates)
  {
    if Smooth(b, n) {
      assert Smooth(m, f);
    }
  }

  /** A flagged plane's creation did not collide, and the reservation is over. */
  predicate FailsBefore(r: Outcome, s3: bool, pg: bool)
  {
    r.Isolation? ==> !r.stage.RedisReserve? && (r.stage.BucketCollision? ==> !s3) && (r.stage.DatabaseCollision? ==> !pg)
  }

  /** Every plane stands, and none of it stood before. */
  predicate Held(b: Planes, n: Planes, db: int)
  {
    && db in n.mine - b.mine
    && n.bucket == Some(This) && b.bucket != Some(This)
    && n.database == Some(This) && b.database != Some(This)
    && n.removals == b.removals
  }

  lemma FilledHolds(b: Planes, m: Planes, f: Planes, db: int, candidates: seq<int>)
    requires Reserved(b, m, db, true, candidates) && Filled(m, f, true, true)
    ensures Held(b, f, db)
  {
  }

  /** Every plane is flagged and held. */
  ghost predicate Holding(i: BackendIsolation, b: Planes, redis: RedisServer, s3: BucketService, postgres: DatabaseServer)
    reads i, redis, s3, postgres, redis.log
  {
    && i.redis == redis && i.s3 == s3 && i.postgres == postgres
    && i.redisClaimed && i.s3Created && i.postgresCreated
    && Held(b, Standing(redis, s3, postgres), i.redisDatabase)
  }

  method Claim(redis: RedisServer, s3: BucketService, postgres: DatabaseServer, candidates: seq<int>)
    returns (db: int, r: Outcome)
    modifies redis`mine, redis`claims, redis`losses, redis`asked
    ensures Reserved(old(Standing(redis, s3, postgres)), Standing(redis, s3, postgres), db, r.Done?, candidates)
    ensures Failed(r) ==> RefusedFor(old(Standing(redis, s3, postgres)), Standing(redis, s3, postgres), StageOf(r), candidates)
  {
    ghost var before := Standing(redis, s3, postgres);
    db, r := redis.Reserve(candidates);
    if Failed(r) {
      RefusedAtReserve(before, Standing(redis, s3, postgres), db, r, candidates);
    }
  }

  /** Reserve Redis, create the bucket, create the database, migrate; undo on any failure. */
  method Provision(redis: RedisServer, s3: BucketService, postgres: DatabaseServer, candidates: seq<int>)
    returns (r: Provisioned, ghost a: Calls)
    requires redis.log == s3.log == postgres.log
    modifies redis, s3, postgres, redis.log`removals
    ensures r.Ready? ==> a == NO_CALLS && Holding(r.instance, old(Standing(redis, s3, postgres)), redis, s3, postgres)
    ensures r.Ready? ==> postgres.grants == old(postgres.grants) + 1 && postgres.migrations == old(postgres.migrations) + 1
    ensures !r.Ready? ==>
      var b, n := old(Standing(redis, s3, postgres)), Standing(redis, s3, postgres);
      Harmless(b, n) && CleanedOnce(b, n, a) && ClaimAnswered(b, n, a) && (Faultless(b, n) ==> NothingLeft(b, n) && r.Refused?)
    ensures r.Refused? ==> Conserved(old(Standing(redis, s3, postgres)), Standing(redis, s3, postgres), a)
    ensures r.Refused? ==> RefusedFor(old(Standing(redis, s3, postgres)), Standing(redis, s3, postgres), r.stage, candidates)
    ensures r.Refused? ==> r.cleanupErrors == Labels(a)
    ensures r.Escaped? <==> Escapes(a)
  {
    hide Reserved, Filled, Cleaned, Follows, Conserved, Harmless, CleanedOnce, ClaimAnswered, Faultless, NothingLeft;
    hide RefusedFor, FailedFor, FailsBefore, Held;
    ghost var before := Standing(redis, s3, postgres);
    a := NO_CALLS;
    var db, reserved := Claim(redis, s3, postgres, candidates);
    ghost var claimed := Standing(redis, s3, postgres);
    if Failed(reserved) {
      RefusedOutright(before, claimed, db, candidates);
      return Refused(StageOf(reserved), []), a;
    }
    var instance := new BackendIsolation(redis, s3, postgres, db);
    var failure := instance.Fill();
    ghost var filled := Standing(redis, s3, postgres);
    if !Failed(failure) {
      FilledHolds(before, claimed, filled, db, candidates);
      return Ready(instance), a;
    }
    var errors, escaped, answers := instance.Cleanup();
    a := answers;
    RolledBack(before, claimed, filled, Standing(redis, s3, postgres), db, candidates,
      instance.s3Created, instance.postgresCreated, a);
    RefusedLater(before, claimed, filled, Standing(redis, s3, postgres), db, candidates,
      instance.s3Created, instance.postgresCreated, a, failure);
    r := if escaped then Escaped else Refused(StageOf(failure), errors);
  }
}
