/** Tenant-isolated Redis keys of the migration fixture: the emptiness check and the seeding. */
module ProjectionKeys {
  import opened Text
  import opened Prefixes
  import Utf8
  import Base64Url

  const V2_PREFIX := "trpc:projection:session:v2:"

  /** One identifier as it stands in a v2 key. */
  function Part(id: string): string
  {
    Base64Url.Encode(Utf8.Encode(id))
  }

  function TenantPrefix(tenant: string): string
  {
    V2_PREFIX + Part(tenant) + "."
  }

  function ProjectionKey(tenant: string, session: string): string
  {
    V2_PREFIX + Part(tenant) + "." + Part(session)
  }

  lemma PartInjective(a: string, b: string)
    requires Part(a) == Part(b)
    ensures a == b
  {
    Base64Url.RoundTrip(Utf8.Encode(a));
    Base64Url.RoundTrip(Utf8.Encode(b));
    Utf8.EncodeInjective(a, b);
  }

  lemma PartHasNoDot(id: string)
    ensures '.' !in Part(id)
  {
    Base64Url.EncodeIsUnpadded(Utf8.Encode(id));
  }

  /** A key lies under a tenant's prefix exactly when it is that tenant's. */
  lemma PrefixIffSameTenant(tenant: string, other: string, session: string)
    ensures TenantPrefix(tenant) <= ProjectionKey(other, session) <==> tenant == other
  {
    PartHasNoDot(tenant);
    PartHasNoDot(other);
    SeparatedPrefix(V2_PREFIX, '.', Part(tenant), Part(other), Part(session));
    if Part(tenant) == Part(other) {
      PartInjective(tenant, other);
    }
  }

  /** Different tenants or sessions never share a key. */
  lemma KeyInjective(t1: string, s1: string, t2: string, s2: string)
    requires ProjectionKey(t1, s1) == ProjectionKey(t2, s2)
    ensures t1 == t2 && s1 == s2
  {
    PrefixIffSameTenant(t1, t1, s1);
    PrefixIffSameTenant(t1, t2, s2);
    PrefixCancels(TenantPrefix(t1), Part(s1), Part(s2));
    PartInjective(s1, s2);
  }

  // The emptiness check.

  const FIXTURE_PREFIX := "migration-acceptance-"

  /** What every identifier of a fixture scope has been checked for. */
  predicate FixtureId(id: string)
  {
    IsContainerSelector(id) && FIXTURE_PREFIX <= id
  }

  function MemoryPrefix(tenant: string): string
  {
    "trpc:memory:" + tenant + ":"
  }

  function V1Prefix(tenant: string): string
  {
    "trpc:projection:session:" + tenant + ":"
  }

  /** The three scans, each a literal prefix because a checked identifier holds no glob character. */
  function Scans(tenant: string): seq<string>
  {
    [V1Prefix(tenant), V2_PREFIX, MemoryPrefix(tenant)]
  }

  /** The v2 scan sees every tenant's keys, so it is narrowed by the tenant's own prefix. */
  predicate Hit(tenant: string, scan: string, key: string)
  {
    scan <= key && (scan == V2_PREFIX ==> TenantPrefix(tenant) <= key)
  }

  predicate BelongsTo(tenant: string, key: string)
  {
    V1Prefix(tenant) <= key || TenantPrefix(tenant) <= key || MemoryPrefix(tenant) <= key
  }

  method AssertEmpty(keys: seq<string>, tenant: string) returns (ok: bool)
    requires FixtureId(tenant)
    ensures ok <==> forall k :: k in keys ==> !BelongsTo(tenant, k)
  {
    var scans := Scans(tenant);
    for i := 0 to |scans|
      invariant forall j, k :: 0 <= j < i && k in keys ==> !Hit(tenant, scans[j], k)
    {
      for n := 0 to |keys|
        invariant forall m :: 0 <= m < n ==> !Hit(tenant, scans[i], keys[m])
      {
        if Hit(tenant, scans[i], keys[n]) {
          HitsBelong(tenant, keys[n]);
          return false;
        }
      }
    }
    forall k | k in keys
      ensures !BelongsTo(tenant, k)
    {
      assert !Hit(tenant, scans[0], k) && !Hit(tenant, scans[1], k) && !Hit(tenant, scans[2], k);
      HitsBelong(tenant, k);
    }
    ok := true;
  }

  /** The scans find exactly the keys that belong to the tenant. */
  lemma HitsBelong(tenant: string, key: string)
    requires FixtureId(tenant)
    ensures BelongsTo(tenant, key) <==> exists i :: 0 <= i < 3 && Hit(tenant, Scans(tenant)[i], key)
  {
    assert V1Prefix(tenant) != V2_PREFIX by {
      V1IsV2Iff(tenant);
    }
    assert MemoryPrefix(tenant)[5] == 'm' && V2_PREFIX[5] == 'p';
    assert V2_PREFIX <= TenantPrefix(tenant);
    assert Hit(tenant, Scans(tenant)[0], key) <==> V1Prefix(tenant) <= key;
    assert Hit(tenant, Scans(tenant)[1], key) <==> TenantPrefix(tenant) <= key;
    assert Hit(tenant, Scans(tenant)[2], key) <==> MemoryPrefix(tenant) <= key;
  }

  lemma V1IsV2Iff(tenant: string)
    ensures V1Prefix(tenant) == V2_PREFIX <==> tenant == "v2"
  {
    var p := "trpc:projection:session:";
    assert V2_PREFIX == p + "v2:";
    assert V1Prefix(tenant) == p + (tenant + ":");
    PrefixCancels(p, tenant + ":", "v2:");
    if tenant + ":" == "v2:" {
      assert (tenant + ":")[..|tenant|] == tenant;
    }
  }

  // Seeding.

  const SESSIONS := 100
  const MEMORIES := 100

  function DecimalDigit(n: nat): char
  {
    ('0' as int + n % 10) as char
  }

  /** `{n:03d}` below 1000. */
  function Pad3(n: nat): string
  {
    [DecimalDigit(n / 100), DecimalDigit(n / 10), DecimalDigit(n)]
  }

  datatype Scope = Scope(tenant: string, app: string)

  function SessionId(scope: Scope, n: nat): string
  {
    scope.app + "-session-" + Pad3(n)
  }

  function PrincipalId(scope: Scope, n: nat): string
  {
    scope.app + "-principal-" + Pad3(n)
  }

  function SessionKey(scope: Scope, n: nat): string
  {
    ProjectionKey(scope.tenant, SessionId(scope, n))
  }

  function MemoryKey(scope: Scope, n: nat): string
  {
    MemoryPrefix(scope.tenant) + (scope.app + "-memory-" + Pad3(n))
  }

  /** A projection at version 1 with no events yet, or a memory of one session. */
  datatype Record =
    | Session(app: string, principal: string, fixture: nat, version: nat, nextSequence: nat)
    | Memory(principal: string, session: string, sourceSequence: nat, fixture: nat)

  function SessionRecord(scope: Scope, n: nat): Record
  {
    Session(scope.app, PrincipalId(scope, n), n, 1, 1)
  }

  function MemoryRecord(scope: Scope, n: nat): Record
  {
    Memory(PrincipalId(scope, n), SessionId(scope, n), n + 1, n)
  }

  lemma Pad3Injective(m: nat, n: nat)
    requires m < 1000 && n < 1000 && Pad3(m) == Pad3(n)
    ensures m == n
  {
    assert Pad3(m)[0] == Pad3(n)[0] && Pad3(m)[1] == Pad3(n)[1] && Pad3(m)[2] == Pad3(n)[2];
    DigitsTell(DecimalDigit(m), m, n);
    DigitsTell(DecimalDigit(m / 10), m / 10, n / 10);
    DigitsTell(DecimalDigit(m / 100), m / 100, n / 100);
    ThreeDigits(m);
    ThreeDigits(n);
  }

  lemma ThreeDigits(n: nat)
    requires n < 1000
    ensures n == n / 100 % 10 * 100 + n / 10 % 10 * 10 + n % 10
  {
  }

  lemma DigitsTell(c: char, m: nat, n: nat)
    requires c == DecimalDigit(m) && c == DecimalDigit(n)
    ensures m % 10 == n % 10
  {
    assert DecimalDigit(m) as int == '0' as int + m % 10;
    assert DecimalDigit(n) as int == '0' as int + n % 10;
  }

  lemma SessionKeysDiffer(scope: Scope, m: nat, n: nat)
    requires m < n < 1000
    ensures SessionKey(scope, m) != SessionKey(scope, n)
  {
    if SessionKey(scope, m) == SessionKey(scope, n) {
      var p := scope.app + "-session-";
      KeyInjective(scope.tenant, p + Pad3(m), scope.tenant, p + Pad3(n));
      PrefixCancels(p, Pad3(m), Pad3(n));
      Pad3Injective(m, n);
    }
  }

  lemma MemoryKeysDiffer(scope: Scope, m: nat, n: nat)
    requires m < n < 1000
    ensures MemoryKey(scope, m) != MemoryKey(scope, n)
  {
    if MemoryKey(scope, m) == MemoryKey(scope, n) {
      var p := scope.app + "-memory-";
      PrefixCancels(MemoryPrefix(scope.tenant), p + Pad3(m), p + Pad3(n));
      PrefixCancels(p, Pad3(m), Pad3(n));
      Pad3Injective(m, n);
    }
  }

  lemma KindsDiffer(scope: Scope, m: nat, n: nat)
    ensures SessionKey(scope, m) != MemoryKey(scope, n)
  {
    assert SessionKey(scope, m)[5] == V2_PREFIX[5] == 'p';
    assert MemoryKey(scope, n)[5] == "trpc:memory:"[5] == 'm';
  }

  function SessionKeys(scope: Scope, s: nat): set<string>
  {
    set n | 0 <= n < s :: SessionKey(scope, n)
  }

  function MemoryKeys(scope: Scope, m: nat): set<string>
  {
    set n | 0 <= n < m :: MemoryKey(scope, n)
  }

  /** The first `s` session keys and the first `m` memory keys. */
  function SeedKeys(scope: Scope, s: nat, m: nat): set<string>
  {
    SessionKeys(scope, s) + MemoryKeys(scope, m)
  }

  /** `after` is `before` with records written under `keys` and nothing else touched. */
  ghost predicate Writes(before: map<string, Record>, keys: set<string>, after: map<string, Record>)
  {
    after.Keys == before.Keys + keys && forall k :: k in before && k !in keys ==> after[k] == before[k]
  }

  lemma WriteOne(before: map<string, Record>, keys: set<string>, after: map<string, Record>, k: string, r: Record)
    requires Writes(before, keys, after)
    ensures Writes(before, keys + {k}, after[k := r])
  {
  }

  /** Each of the first `s` session keys holds its own session record, and each of the first `m` memory keys its memory. */
  ghost predicate Holds(store: map<string, Record>, scope: Scope, s: nat, m: nat)
  {
    && (forall n :: 0 <= n < s ==>
          SessionKey(scope, n) in store && store[SessionKey(scope, n)] == Session(scope.app, PrincipalId(scope, n), n, 1, 1))
    && (forall n :: 0 <= n < m ==>
          MemoryKey(scope, n) in store
          && store[MemoryKey(scope, n)] == Memory(PrincipalId(scope, n), SessionId(scope, n), n + 1, n))
  }

  /** The store once `s` sessions and `m` memories are written. */
  ghost predicate Seeded(before: map<string, Record>, scope: Scope, s: nat, m: nat, after: map<string, Record>, count: nat)
  {
    && Writes(before, SeedKeys(scope, s, m), after) && Holds(after, scope, s, m)
    && count == s + m == |SeedKeys(scope, s, m)|
  }

  /** Write every session and memory record, counting the writes. */
  method Seed(store: map<string, Record>, scope: Scope) returns (after: map<string, Record>, count: nat)
    ensures Writes(store, SeedKeys(scope, SESSIONS, MEMORIES), after) && Holds(after, scope, SESSIONS, MEMORIES)
    ensures count == |SeedKeys(scope, SESSIONS, MEMORIES)| == SESSIONS + MEMORIES
  {
    after, count := store, 0;
    assert SeedKeys(scope, 0, 0) == {};
    for n := 0 to SESSIONS
      invariant Seeded(store, scope, n, 0, after, count)
    {
      AnotherSession(store, scope, n, after, count);
      after := after[SessionKey(scope, n) := SessionRecord(scope, n)];
      count := count + 1;
    }
    for n := 0 to MEMORIES
      invariant Seeded(store, scope, SESSIONS, n, after, count)
    {
      AnotherMemory(store, scope, n, after, count);
      after := after[MemoryKey(scope, n) := MemoryRecord(scope, n)];
      count := count + 1;
    }
  }

  /** A write under a key of neither list leaves both lists as they are. */
  lemma HoldsStill(store: map<string, Record>, scope: Scope, s: nat, m: nat, k: string, r: Record)
    requires Holds(store, scope, s, m) && k !in SeedKeys(scope, s, m)
    ensures Holds(store[k := r], scope, s, m)
  {
    forall n | 0 <= n < s
      ensures SessionKey(scope, n) != k
    {
      assert SessionKey(scope, n) in SessionKeys(scope, s);
    }
    forall n | 0 <= n < m
      ensures MemoryKey(scope, n) != k
    {
      assert MemoryKey(scope, n) in MemoryKeys(scope, m);
    }
  }

  /** Every seeded memory names a session of the same principal that the seeding also wrote. */
  lemma MemoriesHaveSessions(store: map<string, Record>, scope: Scope, k: string)
    requires Holds(store, scope, SESSIONS, MEMORIES) && k in MemoryKeys(scope, MEMORIES)
    ensures
      && k in store && store[k].Memory?
      && var session := ProjectionKey(scope.tenant, store[k].session);
         session in store && store[session].Session? && store[session].principal == store[k].principal
  {
    var n :| 0 <= n < MEMORIES && k == MemoryKey(scope, n);
    assert SessionKey(scope, n) in store;
  }

  lemma AnotherSession(store: map<string, Record>, scope: Scope, n: nat, after: map<string, Record>, count: nat)
    requires n < 1000
    ensures Seeded(store, scope, n, 0, after, count) ==>
      Seeded(store, scope, n + 1, 0, after[SessionKey(scope, n) := SessionRecord(scope, n)], count + 1)
  {
    AddSession(scope, n);
    if Seeded(store, scope, n, 0, after, count) {
      HoldsStill(after, scope, n, 0, SessionKey(scope, n), SessionRecord(scope, n));
      WriteOne(store, SeedKeys(scope, n, 0), after, SessionKey(scope, n), SessionRecord(scope, n));
    }
  }

  lemma AnotherMemory(store: map<string, Record>, scope: Scope, n: nat, after: map<string, Record>, count: nat)
    requires n < 1000
    ensures Seeded(store, scope, SESSIONS, n, after, count) ==>
      Seeded(store, scope, SESSIONS, n + 1, after[MemoryKey(scope, n) := MemoryRecord(scope, n)], count + 1)
  {
    AddMemory(scope, n);
    if Seeded(store, scope, SESSIONS, n, after, count) {
      HoldsStill(after, scope, SESSIONS, n, MemoryKey(scope, n), MemoryRecord(scope, n));
      WriteOne(store, SeedKeys(scope, SESSIONS, n), after, MemoryKey(scope, n), MemoryRecord(scope, n));
    }
  }

  lemma SessionKeysGrow(scope: Scope, n: nat)
    requires n < 1000
    ensures SessionKey(scope, n) !in SessionKeys(scope, n)
    ensures SessionKeys(scope, n + 1) == SessionKeys(scope, n) + {SessionKey(scope, n)}
  {
    forall m | 0 <= m < n
      ensures SessionKey(scope, m) != SessionKey(scope, n)
    {
      SessionKeysDiffer(scope, m, n);
    }
  }

  lemma AddSession(scope: Scope, n: nat)
    requires n < 1000
    ensures SessionKey(scope, n) !in SeedKeys(scope, n, 0)
    ensures SeedKeys(scope, n + 1, 0) == SeedKeys(scope, n, 0) + {SessionKey(scope, n)}
  {
    SessionKeysGrow(scope, n);
    assert MemoryKeys(scope, 0) == {};
  }

  lemma AddMemory(scope: Scope, n: nat)
    requires n < 1000
    ensures MemoryKey(scope, n) !in SeedKeys(scope, SESSIONS, n)
    ensures SeedKeys(scope, SESSIONS, n + 1) == SeedKeys(scope, SESSIONS, n) + {MemoryKey(scope, n)}
  {
    forall m | 0 <= m < n
      ensures MemoryKey(scope, m) != MemoryKey(scope, n)
    {
      MemoryKeysDiffer(scope, m, n);
    }
    forall m | 0 <= m < SESSIONS
      ensures SessionKey(scope, m) != MemoryKey(scope, n)
    {
      KindsDiffer(scope, m, n);
    }
    assert MemoryKeys(scope, n + 1) == MemoryKeys(scope, n) + {MemoryKey(scope, n)};
  }

  // Isolation between tenants.

  lemma FixtureIdHasNoColon(id: string)
    requires FixtureId(id)
    ensures ':' !in id && id != "v2"
  {
  }

  lemma SessionKeyBelongsIff(scope: Scope, n: nat, tenant: string)
    requires FixtureId(tenant)
    ensures BelongsTo(tenant, SessionKey(scope, n)) <==> tenant == scope.tenant
  {
    var session := scope.app + "-session-" + Pad3(n);
    var rest := Part(scope.tenant) + "." + Part(session);
    PrefixIffSameTenant(tenant, scope.tenant, session);
    FixtureIdHasNoColon(tenant);
    NotV1(tenant, rest);
    NotMemory(tenant, rest);
    KeyParts(V2_PREFIX, Part(scope.tenant), Part(session));
  }

  lemma KeyParts(p: string, a: string, b: string)
    ensures p + a + "." + b == p + (a + "." + b)
  {
  }

  lemma NotMemory(tenant: string, rest: string)
    ensures !(MemoryPrefix(tenant) <= V2_PREFIX + rest)
  {
    assert (V2_PREFIX + rest)[5] == V2_PREFIX[5] == 'p';
    assert MemoryPrefix(tenant)[5] == "trpc:memory:"[5] == 'm';
  }

  lemma NotV1(tenant: string, rest: string)
    requires ':' !in tenant && tenant != "v2"
    ensures !(V1Prefix(tenant) <= V2_PREFIX + rest)
  {
    SeparatedPrefix("trpc:projection:session:", ':', tenant, "v2", rest);
    assert "trpc:projection:session:" + "v2" + [':'] == V2_PREFIX;
  }

  lemma MemoryKeyBelongsIff(scope: Scope, n: nat, tenant: string)
    requires FixtureId(tenant) && FixtureId(scope.tenant)
    ensures BelongsTo(tenant, MemoryKey(scope, n)) <==> tenant == scope.tenant
  {
    var k := MemoryKey(scope, n);
    FixtureIdHasNoColon(tenant);
    FixtureIdHasNoColon(scope.tenant);
    SeparatedPrefix("trpc:memory:", ':', tenant, scope.tenant, scope.app + "-memory-" + Pad3(n));
    assert k[5] == "trpc:memory:"[5] == 'm';
    assert V1Prefix(tenant)[5] == "trpc:projection:session:"[5] == 'p' && TenantPrefix(tenant)[5] == V2_PREFIX[5] == 'p';
  }

  /** A seeded key belongs to its own tenant and to no other. */
  lemma SeedKeysBelongIff(scope: Scope, k: string, tenant: string)
    requires FixtureId(tenant) && FixtureId(scope.tenant)
    ensures k in SeedKeys(scope, SESSIONS, MEMORIES) ==> (BelongsTo(tenant, k) <==> tenant == scope.tenant)
  {
    if k in SessionKeys(scope, SESSIONS) {
      var n :| 0 <= n < SESSIONS && k == SessionKey(scope, n);
      SessionKeyBelongsIff(scope, n, tenant);
    } else if k in MemoryKeys(scope, MEMORIES) {
      var n :| 0 <= n < MEMORIES && k == MemoryKey(scope, n);
      MemoryKeyBelongsIff(scope, n, tenant);
    }
  }

  /** After a passed emptiness check, seeding adds exactly the fixture's keys to the store. */
  lemma SeedingAddsAll(before: map<string, Record>, after: map<string, Record>, scope: Scope)
    requires FixtureId(scope.tenant) && forall k :: k in before ==> !BelongsTo(scope.tenant, k)
    requires Writes(before, SeedKeys(scope, SESSIONS, MEMORIES), after)
    ensures |after| == |before| + |SeedKeys(scope, SESSIONS, MEMORIES)|
    ensures forall k :: k in before ==> k in after && after[k] == before[k]
  {
    var keys := SeedKeys(scope, SESSIONS, MEMORIES);
    forall k | k in keys
      ensures k !in before
    {
      SeedKeysBelongIff(scope, k, scope.tenant);
    }
    assert |after| == |after.Keys| && |before| == |before.Keys|;
    assert before.Keys !! keys;
  }
}
