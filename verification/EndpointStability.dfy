/** The gateway's endpoint listing reduced to one observation, and the wait for it to hold still. */
module EndpointStability {
  import opened Text
  import opened StringOrder
  import opened Prefixes

  // The listing.

  datatype Conditions = Malformed | Conditions(ready: bool, terminating: bool)

  /** `addresses` is `None` when it is not a list, and holds `None` for an entry that is not a string. */
  datatype Endpoint = NotAnEndpoint | Endpoint(addresses: Option<seq<Option<string>>>, conditions: Conditions)

  datatype Slice = NotASlice | Slice(endpoints: Option<seq<Endpoint>>)

  predicate ValidAddress(a: Option<string>)
  {
    a.Some? && a.value != ""
  }

  predicate ValidEndpoint(e: Endpoint)
  {
    && e.Endpoint?
    && e.addresses.Some? && e.addresses.value != []
    && (forall a :: a in e.addresses.value ==> ValidAddress(a))
    && e.conditions.Conditions?
  }

  predicate Listed(s: Slice)
  {
    s.Slice? && s.endpoints.Some?
  }

  predicate ValidSlice(s: Slice)
  {
    Listed(s) && forall e :: e in s.endpoints.value ==> ValidEndpoint(e)
  }

  predicate ValidListing(slices: seq<Slice>)
  {
    forall s :: s in slices ==> ValidSlice(s)
  }

  /** What the observation keeps of an endpoint. */
  datatype Member = Member(addresses: seq<string>, ready: bool, terminating: bool)

  function Id(s: string): string
  {
    s
  }

  /** The address strings; entries the observation rejects anyway read as empty. */
  function Strings(xs: seq<Option<string>>): seq<string>
  {
    seq(|xs|, i requires 0 <= i < |xs| => if xs[i].Some? then xs[i].value else "")
  }

  function MemberOf(e: Endpoint): Member
  {
    if !ValidEndpoint(e) then Member([], false, false)
    else Member(SortBy(Strings(e.addresses.value), Id), e.conditions.ready, e.conditions.terminating)
  }

  function Members(es: seq<Endpoint>): seq<Member>
  {
    if es == [] then [] else [MemberOf(es[0])] + Members(es[1..])
  }

  /** All endpoints of all slices. */
  function AllMembers(slices: seq<Slice>): seq<Member>
  {
    if slices == [] then []
    else (if Listed(slices[0]) then Members(slices[0].endpoints.value) else []) + AllMembers(slices[1..])
  }

  // The observation.

  const SEPARATOR := 0x1f as char

  function Join(xs: seq<string>): string
  {
    if xs == [] then "" else if |xs| == 1 then xs[0] else xs[0] + [SEPARATOR] + Join(xs[1..])
  }

  datatype Digest = Sha256(keys: seq<string>)

  datatype Observation = Observation(ready: nat, unready: nat, terminating: nat, total: nat, endpoints: Digest)

  function Ready(ms: seq<Member>): nat
  {
    if ms == [] then 0 else One(ms[0].ready) + Ready(ms[1..])
  }

  function Terminating(ms: seq<Member>): nat
  {
    if ms == [] then 0 else One(ms[0].terminating) + Terminating(ms[1..])
  }

  function Keys(ms: seq<Member>): seq<string>
  {
    if ms == [] then [] else [Join(ms[0].addresses)] + Keys(ms[1..])
  }

  lemma {:induction false} ReadyBounded(ms: seq<Member>)
    ensures Ready(ms) <= |ms| == |Keys(ms)|
  {
    if ms != [] {
      ReadyBounded(ms[1..]);
    }
  }

  /** What a listing of these endpoints is observed as. */
  function Observed(ms: seq<Member>): Observation
  {
    ReadyBounded(ms);
    Observation(Ready(ms), |ms| - Ready(ms), Terminating(ms), |ms|, Sha256(SortBy(Keys(ms), Id)))
  }

  // Running totals.

  datatype Tally = Tally(ready: nat, unready: nat, terminating: nat, keys: seq<string>)

  /** The totals so far account for everything but the endpoints still ahead. */
  ghost predicate Accounts(all: seq<Member>, ahead: seq<Member>, t: Tally)
  {
    && t.ready + Ready(ahead) == Ready(all)
    && t.terminating + Terminating(ahead) == Terminating(all)
    && t.keys + Keys(ahead) == Keys(all)
    && t.ready + t.unready == |t.keys|
  }

  function Add(t: Tally, m: Member): Tally
  {
    Tally(t.ready + One(m.ready), t.unready + One(!m.ready), t.terminating + One(m.terminating), t.keys + [Join(m.addresses)])
  }

  lemma AddAccounts(all: seq<Member>, m: Member, rest: seq<Member>, t: Tally)
    requires Accounts(all, [m] + rest, t)
    ensures Accounts(all, rest, Add(t, m))
  {
    assert ([m] + rest)[1..] == rest;
  }

  lemma NothingAhead(all: seq<Member>, t: Tally)
    requires Accounts(all, [], t)
    ensures Observed(all) == Observation(t.ready, t.unready, t.terminating, |t.keys|, Sha256(SortBy(t.keys, Id)))
  {
    assert t.keys + [] == t.keys;
    ReadyBounded(all);
  }

  /** The inner loop over one slice's endpoints. */
  method CountSlice(es: seq<Endpoint>, before: Tally, ghost all: seq<Member>, ghost ahead: seq<Member>)
    returns (t: Tally, ok: bool)
    requires Accounts(all, Members(es) + ahead, before)
    ensures ok <==> forall e :: e in es ==> ValidEndpoint(e)
    ensures ok ==> Accounts(all, ahead, t)
  {
    t := before;
    assert es[0..] == es;
    for i := 0 to |es|
      invariant forall e :: e in es[..i] ==> ValidEndpoint(e)
      invariant Accounts(all, Members(es[i..]) + ahead, t)
    {
      var e := es[i];
      if !ValidEndpoint(e) {
        assert e in es;
        return t, false;
      }
      assert es[i..][1..] == es[i + 1..];
      assert Members(es[i..]) + ahead == [MemberOf(e)] + (Members(es[i + 1..]) + ahead);
      AddAccounts(all, MemberOf(e), Members(es[i + 1..]) + ahead, t);
      t := Add(t, MemberOf(e));
    }
    assert es[..|es|] == es && Members(es[|es|..]) + ahead == ahead;
    ok := true;
  }

  /** Summarise a listing, or reject it when any part has the wrong shape. */
  method Observe(items: Option<seq<Slice>>) returns (r: Option<Observation>)
    ensures r.Some? <==> items.Some? && ValidListing(items.value)
    ensures r.Some? ==> r.value == Observed(AllMembers(items.value))
    ensures r.Some? ==> Observes(r.value, Endpoints(items.value))
  {
    if items.None? {
      return None;
    }
    var slices := items.value;
    ghost var all := AllMembers(slices);
    var t := Tally(0, 0, 0, []);
    assert slices[0..] == slices;
    for i := 0 to |slices|
      invariant forall s :: s in slices[..i] ==> ValidSlice(s)
      invariant Accounts(all, AllMembers(slices[i..]), t)
    {
      var s := slices[i];
      assert s in slices;
      if !Listed(s) {
        return None;
      }
      assert slices[i..][1..] == slices[i + 1..];
      var ok;
      t, ok := CountSlice(s.endpoints.value, t, all, AllMembers(slices[i + 1..]));
      if !ok {
        return None;
      }
    }
    assert slices[..|slices|] == slices;
    NothingAhead(all, t);
    ListingObserved(slices);
    r := Some(Observation(t.ready, t.unready, t.terminating, |t.keys|, Sha256(SortBy(t.keys, Id))));
  }

  // The observation does not depend on how the endpoints are listed.

  function Remove<T>(xs: seq<T>, i: nat): seq<T>
    requires i < |xs|
  {
    xs[..i] + xs[i + 1..]
  }

  lemma Split<T>(xs: seq<T>, i: nat)
    requires i < |xs|
    ensures xs == xs[..i] + ([xs[i]] + xs[i + 1..])
  {
  }

  lemma RemoveMultiset<T>(a: seq<T>, b: seq<T>, i: nat)
    requires a != [] && i < |b| && b[i] == a[0] && multiset(a) == multiset(b)
    ensures multiset(a[1..]) == multiset(Remove(b, i))
  {
    TailMultiset(a);
    Split(b, i);
    MiddleMultiset(b[..i], b[i], b[i + 1..]);
  }

  lemma MiddleMultiset<T>(front: seq<T>, x: T, back: seq<T>)
    ensures multiset(front + back) == multiset(front + ([x] + back)) - multiset{x}
  {
    assert multiset(front + ([x] + back)) == multiset(front) + multiset([x] + back);
    assert multiset([x] + back) == multiset{x} + multiset(back);
  }

  lemma Associative<T>(x: seq<T>, y: seq<T>, z: seq<T>)
    ensures x + y + z == x + (y + z)
  {
  }

  lemma {:induction false} ReadyConcat(a: seq<Member>, b: seq<Member>)
    ensures Ready(a + b) == Ready(a) + Ready(b)
  {
    if a == [] {
      assert a + b == b;
    } else {
      ReadyConcat(a[1..], b);
      assert (a + b)[1..] == a[1..] + b;
    }
  }

  lemma {:induction false} TerminatingConcat(a: seq<Member>, b: seq<Member>)
    ensures Terminating(a + b) == Terminating(a) + Terminating(b)
  {
    if a == [] {
      assert a + b == b;
    } else {
      TerminatingConcat(a[1..], b);
      assert (a + b)[1..] == a[1..] + b;
    }
  }

  lemma {:induction false} KeysConcat(a: seq<Member>, b: seq<Member>)
    ensures Keys(a + b) == Keys(a) + Keys(b)
  {
    if a == [] {
      assert a + b == b;
    } else {
      KeysConcat(a[1..], b);
      assert (a + b)[1..] == a[1..] + b;
      Associative([Join(a[0].addresses)], Keys(a[1..]), Keys(b));
    }
  }

  lemma RemoveMember(ms: seq<Member>, i: nat)
    requires i < |ms|
    ensures Ready(ms) == One(ms[i].ready) + Ready(Remove(ms, i))
    ensures Terminating(ms) == One(ms[i].terminating) + Terminating(Remove(ms, i))
    ensures multiset(Keys(ms)) == multiset{Join(ms[i].addresses)} + multiset(Keys(Remove(ms, i)))
  {
    var front, back := ms[..i], ms[i + 1..];
    Split(ms, i);
    ReadyConcat(front, [ms[i]] + back);
    ReadyConcat(front, back);
    TerminatingConcat(front, [ms[i]] + back);
    TerminatingConcat(front, back);
    KeysConcat(front, [ms[i]] + back);
    KeysConcat(front, back);
    assert ([ms[i]] + back)[1..] == back;
  }

  lemma {:induction false} PermutedMembers(a: seq<Member>, b: seq<Member>)
    requires multiset(a) == multiset(b)
    ensures |a| == |b| && Ready(a) == Ready(b) && Terminating(a) == Terminating(b)
    ensures multiset(Keys(a)) == multiset(Keys(b))
  {
    assert |a| == |multiset(a)| == |multiset(b)| == |b|;
    if a != [] {
      assert a[0] in multiset(b);
      var i :| 0 <= i < |b| && b[i] == a[0];
      RemoveMultiset(a, b, i);
      PermutedMembers(a[1..], Remove(b, i));
      RemoveMember(b, i);
    }
  }

  lemma SameKeysSameDigest(a: seq<string>, b: seq<string>)
    ensures multiset(a) == multiset(b) <==> SortBy(a, Id) == SortBy(b, Id)
  {
    SortBySorts(a, Id);
    SortBySorts(b, Id);
    if multiset(a) == multiset(b) {
      SortByOrderFree(a, b, Id);
    }
  }

  lemma ObservedOrderFree(a: seq<Member>, b: seq<Member>)
    requires multiset(a) == multiset(b)
    ensures Observed(a) == Observed(b)
  {
    PermutedMembers(a, b);
    SameKeysSameDigest(Keys(a), Keys(b));
  }

  /** All endpoints, slice by slice. */
  function Endpoints(slices: seq<Slice>): seq<Endpoint>
  {
    if slices == [] then []
    else (if Listed(slices[0]) then slices[0].endpoints.value else []) + Endpoints(slices[1..])
  }

  lemma {:induction false} MembersConcat(a: seq<Endpoint>, b: seq<Endpoint>)
    ensures Members(a + b) == Members(a) + Members(b)
  {
    if a == [] {
      assert a + b == b;
    } else {
      MembersConcat(a[1..], b);
      assert (a + b)[1..] == a[1..] + b;
      Associative([MemberOf(a[0])], Members(a[1..]), Members(b));
    }
  }

  /** Which slice an endpoint stands in does not matter. */
  lemma {:induction false} GroupingIrrelevant(slices: seq<Slice>)
    ensures AllMembers(slices) == Members(Endpoints(slices))
  {
    if slices != [] {
      GroupingIrrelevant(slices[1..]);
      MembersConcat(if Listed(slices[0]) then slices[0].endpoints.value else [], Endpoints(slices[1..]));
    }
  }

  lemma RemoveEndpoint(es: seq<Endpoint>, i: nat)
    requires i < |es|
    ensures multiset(Members(es)) == multiset{MemberOf(es[i])} + multiset(Members(Remove(es, i)))
  {
    var front, back := es[..i], es[i + 1..];
    Split(es, i);
    MembersConcat(front, [es[i]] + back);
    MembersConcat(front, back);
    assert ([es[i]] + back)[1..] == back;
  }

  lemma {:induction false} PermutedEndpoints(a: seq<Endpoint>, b: seq<Endpoint>)
    requires multiset(a) == multiset(b)
    ensures multiset(Members(a)) == multiset(Members(b))
  {
    assert |a| == |multiset(a)| == |multiset(b)| == |b|;
    if a != [] {
      assert a[0] in multiset(b);
      var i :| 0 <= i < |b| && b[i] == a[0];
      RemoveMultiset(a, b, i);
      PermutedEndpoints(a[1..], Remove(b, i));
      RemoveEndpoint(b, i);
    }
  }

  // What the observation says of the endpoints.

  predicate IsReady(e: Endpoint)
  {
    e.Endpoint? && e.conditions.Conditions? && e.conditions.ready
  }

  predicate IsTerminating(e: Endpoint)
  {
    e.Endpoint? && e.conditions.Conditions? && e.conditions.terminating
  }

  /** The endpoint's addresses in order, joined. */
  ghost predicate KeyOf(key: string, e: Endpoint)
  {
    && e.Endpoint? && e.addresses.Some?
    && exists xs :: SortedBy(xs, Id) && multiset(xs) == multiset(Strings(e.addresses.value)) && key == Join(xs)
  }

  /** The counts are those of the endpoints, and the digest is of their keys in order. */
  ghost predicate Observes(o: Observation, es: seq<Endpoint>)
  {
    && o.ready == Number(es, IsReady) && o.terminating == Number(es, IsTerminating)
    && o.ready + o.unready == o.total == |es|
    && exists keys: seq<string> ::
         && |keys| == |es| && (forall i :: 0 <= i < |es| ==> KeyOf(keys[i], es[i]))
         && SortedBy(o.endpoints.keys, Id) && multiset(o.endpoints.keys) == multiset(keys)
  }

  lemma LastMember(es: seq<Endpoint>)
    requires es != []
    ensures var n := |es| - 1; Members(es) == Members(es[..n]) + [MemberOf(es[n])]
  {
    hide MemberOf;
    var n := |es| - 1;
    assert es == es[..n] + [es[n]];
    var last := [es[n]];
    assert last[1..] == [] && Members(last) == [MemberOf(es[n])];
    MembersConcat(es[..n], last);
  }

  lemma {:induction false} ReadyCounted(es: seq<Endpoint>)
    requires forall e :: e in es ==> ValidEndpoint(e)
    ensures Ready(Members(es)) == Number(es, IsReady) && Terminating(Members(es)) == Number(es, IsTerminating)
  {
    if es != [] {
      var n := |es| - 1;
      ReadyCounted(es[..n]);
      LastMember(es);
      ReadyConcat(Members(es[..n]), [MemberOf(es[n])]);
      TerminatingConcat(Members(es[..n]), [MemberOf(es[n])]);
      assert es[n] in es;
      NumberLast(es, IsReady);
      NumberLast(es, IsTerminating);
    }
  }

  lemma {:induction false} KeysOfEndpoints(es: seq<Endpoint>)
    requires forall e :: e in es ==> ValidEndpoint(e)
    ensures |Keys(Members(es))| == |Members(es)| == |es|
    ensures forall i :: 0 <= i < |es| ==> KeyOf(Keys(Members(es))[i], es[i])
  {
    if es != [] {
      var keys := Keys(Members(es));
      KeysOfEndpoints(es[1..]);
      assert es[0] in es;
      SortBySorts(Strings(es[0].addresses.value), Id);
      forall i | 0 <= i < |es|
        ensures KeyOf(keys[i], es[i])
      {
        if i > 0 {
          assert keys[i] == Keys(Members(es[1..]))[i - 1] && es[i] == es[1..][i - 1];
        }
      }
    }
  }

  lemma {:induction false} EndpointsValid(slices: seq<Slice>)
    requires ValidListing(slices)
    ensures forall e :: e in Endpoints(slices) ==> ValidEndpoint(e)
  {
    if slices != [] {
      assert slices[0] in slices;
      EndpointsValid(slices[1..]);
    }
  }

  lemma ListingObserved(slices: seq<Slice>)
    requires ValidListing(slices)
    ensures Observes(Observed(AllMembers(slices)), Endpoints(slices))
  {
    var es := Endpoints(slices);
    EndpointsValid(slices);
    GroupingIrrelevant(slices);
    ReadyCounted(es);
    KeysOfEndpoints(es);
    ReadyBounded(Members(es));
    SortBySorts(Keys(Members(es)), Id);
  }

  /** Permuting or regrouping the endpoints leaves the observation unchanged. */
  lemma ListingOrderFree(a: seq<Slice>, b: seq<Slice>)
    requires multiset(Endpoints(a)) == multiset(Endpoints(b))
    ensures Observed(AllMembers(a)) == Observed(AllMembers(b))
  {
    GroupingIrrelevant(a);
    GroupingIrrelevant(b);
    PermutedEndpoints(Endpoints(a), Endpoints(b));
    ObservedOrderFree(AllMembers(a), AllMembers(b));
  }

  /** The same endpoint with its addresses in another order. */
  predicate SameEndpoint(e: Endpoint, f: Endpoint)
  {
    ValidEndpoint(e) && ValidEndpoint(f) && e.conditions == f.conditions &&
    multiset(Strings(e.addresses.value)) == multiset(Strings(f.addresses.value))
  }

  /** Reordering addresses within endpoints leaves the observation unchanged. */
  lemma {:induction false} AddressOrderFree(a: seq<Endpoint>, b: seq<Endpoint>)
    requires |a| == |b| && forall i :: 0 <= i < |a| ==> SameEndpoint(a[i], b[i])
    ensures Members(a) == Members(b)
  {
    if a != [] {
      assert SameEndpoint(a[0], b[0]);
      SameKeysSameDigest(Strings(a[0].addresses.value), Strings(b[0].addresses.value));
      AddressOrderFree(a[1..], b[1..]);
    }
  }

  // What equal digests say.

  /** The addresses, each cut at its separators. */
  function Pieces(xs: seq<string>): seq<string>
  {
    if xs == [] then [] else SplitAt(SEPARATOR, xs[0]) + Pieces(xs[1..])
  }

  /** A key cut at its separators shows the pieces of the addresses it was joined from. */
  lemma {:induction false} SplitOfJoin(xs: seq<string>)
    requires xs != []
    ensures SplitAt(SEPARATOR, Join(xs)) == Pieces(xs)
  {
    if |xs| == 1 {
      assert Pieces(xs[1..]) == [];
    } else {
      SplitOfJoin(xs[1..]);
      SplitConcat(SEPARATOR, xs[0], Join(xs[1..]));
    }
  }

  lemma JoinOfAttach(c: char, ps: seq<string>)
    requires ps != []
    ensures Join(Attach(SEPARATOR, c, ps)) == [c] + Join(ps)
  {
    var longer := Attach(SEPARATOR, c, ps);
    if c == SEPARATOR {
      assert longer[1..] == ps;
    } else {
      assert longer[1..] == ps[1..];
    }
  }

  lemma {:induction false} JoinOfSplit(s: string)
    ensures Join(SplitAt(SEPARATOR, s)) == s
  {
    if s != "" {
      JoinOfSplit(s[1..]);
      JoinOfAttach(s[0], SplitAt(SEPARATOR, s[1..]));
    }
  }

  /** Two address lists share a key exactly when their pieces are the same. */
  lemma JoinEqualIff(xs: seq<string>, ys: seq<string>)
    requires xs != [] && ys != []
    ensures Join(xs) == Join(ys) <==> Pieces(xs) == Pieces(ys)
  {
    SplitOfJoin(xs);
    SplitOfJoin(ys);
    JoinOfSplit(Join(xs));
    JoinOfSplit(Join(ys));
  }

  predicate Addressed(ms: seq<Member>)
  {
    forall i :: 0 <= i < |ms| ==> ms[i].addresses != []
  }

  function PieceLists(ms: seq<Member>): seq<seq<string>>
  {
    if ms == [] then [] else [Pieces(ms[0].addresses)] + PieceLists(ms[1..])
  }

  /** Each piece list occurs as often as its key, and lists that come from no key not at all. */
  lemma {:induction false} PieceCount(ms: seq<Member>, ps: seq<string>)
    requires Addressed(ms)
    ensures multiset(PieceLists(ms))[ps] == if SplitAt(SEPARATOR, Join(ps)) == ps then multiset(Keys(ms))[Join(ps)] else 0
  {
    if ms != [] {
      PieceCount(ms[1..], ps);
      SplitOfJoin(ms[0].addresses);
      JoinOfSplit(Join(ms[0].addresses));
    }
  }

  /** Equal digests mean exactly the same pieces, endpoint by endpoint in some order. */
  lemma SameDigestIff(a: seq<Member>, b: seq<Member>)
    requires Addressed(a) && Addressed(b)
    ensures Observed(a).endpoints == Observed(b).endpoints <==> multiset(PieceLists(a)) == multiset(PieceLists(b))
  {
    SameKeysSameDigest(Keys(a), Keys(b));
    if multiset(Keys(a)) == multiset(Keys(b)) {
      forall ps: seq<string>
        ensures multiset(PieceLists(a))[ps] == multiset(PieceLists(b))[ps]
      {
        PieceCount(a, ps);
        PieceCount(b, ps);
      }
    }
    if multiset(PieceLists(a)) == multiset(PieceLists(b)) {
      forall k: string
        ensures multiset(Keys(a))[k] == multiset(Keys(b))[k]
      {
        JoinOfSplit(k);
        PieceCount(a, SplitAt(SEPARATOR, k));
        PieceCount(b, SplitAt(SEPARATOR, k));
      }
    }
  }

  // Separator-free addresses are their own pieces.

  predicate PlainList(xs: seq<string>)
  {
    forall i :: 0 <= i < |xs| ==> SEPARATOR !in xs[i]
  }

  lemma {:induction false} PlainPieces(xs: seq<string>)
    requires PlainList(xs)
    ensures Pieces(xs) == xs
  {
    if xs != [] {
      PlainPieces(xs[1..]);
      SplitPlain(SEPARATOR, xs[0]);
    }
  }

  /** Joining loses nothing as long as no address holds the separator. */
  lemma JoinInjective(xs: seq<string>, ys: seq<string>)
    requires xs != [] && ys != [] && PlainList(xs) && PlainList(ys) && Join(xs) == Join(ys)
    ensures xs == ys
  {
    JoinEqualIff(xs, ys);
    PlainPieces(xs);
    PlainPieces(ys);
  }

  predicate PlainMembers(ms: seq<Member>)
  {
    Addressed(ms) && forall i :: 0 <= i < |ms| ==> PlainList(ms[i].addresses)
  }

  function Lists(ms: seq<Member>): seq<seq<string>>
  {
    if ms == [] then [] else [ms[0].addresses] + Lists(ms[1..])
  }

  lemma {:induction false} PlainLists(ms: seq<Member>)
    requires PlainMembers(ms)
    ensures PieceLists(ms) == Lists(ms)
  {
    if ms != [] {
      PlainLists(ms[1..]);
      PlainPieces(ms[0].addresses);
    }
  }

  /** With separator-free addresses, equal digests mean exactly the same endpoints' addresses. */
  lemma SameDigestSameAddresses(a: seq<Member>, b: seq<Member>)
    requires PlainMembers(a) && PlainMembers(b)
    ensures Observed(a).endpoints == Observed(b).endpoints <==> multiset(Lists(a)) == multiset(Lists(b))
  {
    SameDigestIff(a, b);
    PlainLists(a);
    PlainLists(b);
  }

  /** Two addresses and one address holding the separator between them share a key. */
  lemma SeparatorConfuses(x: string, y: string)
    ensures [x, y] != [x + [SEPARATOR] + y] && Join([x, y]) == Join([x + [SEPARATOR] + y])
  {
    assert [x, y][1..] == [y];
  }

  // The wait.

  const INTERVAL := 2.0

  predicate Healthy(o: Observation, expected: int)
  {
    o.ready >= expected && o.unready == 0 && o.terminating == 0
  }

  /** A healthy observation shows at least the expected number of endpoints, all ready and none terminating. */
  lemma HealthyIff(o: Observation, es: seq<Endpoint>, expected: int)
    requires Observes(o, es)
    ensures Healthy(o, expected) <==>
      |es| >= expected && forall i :: 0 <= i < |es| ==> IsReady(es[i]) && !IsTerminating(es[i])
  {
    NumberAll(es, IsReady);
    NumberNone(es, IsTerminating);
  }

  /** The last `n` observations are equal and healthy. */
  predicate StableSuffix(obs: seq<Observation>, expected: int, n: nat)
  {
    n <= |obs| && forall i :: |obs| - n <= i < |obs| ==> obs[i] == obs[|obs| - 1] && Healthy(obs[i], expected)
  }

  /** The loop's counter, as its updates compute it. */
  function Counter(obs: seq<Observation>, expected: int): nat
  {
    if obs == [] || !Healthy(obs[|obs| - 1], expected) then 0
    else if |obs| > 1 && obs[|obs| - 2] == obs[|obs| - 1] then Counter(obs[..|obs| - 1], expected) + 1
    else 1
  }

  /** The counter is the length of the longest stable suffix. */
  lemma {:induction false} CounterIsLongestSuffix(obs: seq<Observation>, expected: int, n: nat)
    ensures Counter(obs, expected) >= n <==> StableSuffix(obs, expected, n)
  {
    if obs != [] && n > 0 {
      var front, last := obs[..|obs| - 1], obs[|obs| - 1];
      CounterIsLongestSuffix(front, expected, n - 1);
      if StableSuffix(obs, expected, n) {
        assert obs[|obs| - 1] == last && Healthy(last, expected);
        if n > 1 {
          assert obs[|obs| - 2] == last;
        }
      }
    }
  }

  /** Time slept between `n + 1` observations, when no sleep was cut short by the deadline. */
  function Slept(n: int): real
  {
    INTERVAL * n as real
  }

  /** How many more rounds fit in the time left. */
  function Rounds(left: real): int
  {
    if left > 0.0 then 1 + (left / INTERVAL).Floor else 0
  }

  lemma FewerRounds(before: real, after: real)
    requires before > 0.0 && (after <= 0.0 || after <= before - INTERVAL)
    ensures Rounds(after) < Rounds(before) && Rounds(before) >= 0
  {
    assert after / INTERVAL <= before / INTERVAL - 1.0 || after <= 0.0;
  }

  datatype Verdict = Stable(observations: nat) | TimedOut | Rejected

  class Cluster {
    var now: real
    ghost var seen: seq<Observation>   // by the current wait
    ghost var naps: seq<real>          // its sleeps
    ghost var failures: nat            // looks that failed or were rejected

    constructor ()
      ensures seen == [] && naps == []
    {
      now, seen, naps, failures := 0.0, [], [], 0;
    }

    method Elapse()
      modifies this`now
      ensures now >= old(now)
    {
      var t: real := *;
      if t > now {
        now := t;
      }
    }

    method Sleep(seconds: real)
      requires seconds >= 0.0
      modifies this`now, this`naps
      ensures now >= old(now) + seconds && naps == old(naps) + [seconds]
    {
      now, naps := now + seconds, naps + [seconds];
      Elapse();
    }

    /** One `kubectl get endpointslice` and its summary. */
    method Look() returns (o: Option<Observation>)
      modifies this`now, this`seen, this`failures
      ensures now >= old(now)
      ensures seen == if o.Some? then old(seen) + [o.value] else old(seen)
      ensures failures == old(failures) + if o.Some? then 0 else 1
      ensures o.Some? ==> o.value.ready + o.value.unready == o.value.total
    {
      var failed: bool := *;
      var items: Option<seq<Slice>> := *;
      Elapse();
      o := None;
      if !failed {
        o := Observe(items);
        if o.Some? {
          seen := seen + [o.value];
        }
      }
      if o.None? {
        failures := failures + 1;
      }
    }

    /** Poll until `required` observations in a row are equal and healthy, or time runs out. */
    method AwaitStable(expected: int, timeout: real, required: nat) returns (v: Verdict)
      requires required >= 1
      modifies this
      ensures v.Stable? ==> FirstStable(seen, expected, required)
      ensures v.Stable? ==> v.observations == |seen| && expected >= 1
      ensures !v.Stable? ==> NeverStable(seen, expected, required)
      ensures v.TimedOut? ==> now >= old(now) + timeout && failures == old(failures)
      ensures v.Rejected? <==> expected < 1 || timeout <= 0.0 || failures > old(failures)
      ensures |seen| <= |naps| + 1 && forall i :: 0 <= i < |naps| ==> 0.0 < naps[i] <= INTERVAL
      ensures seen == [] || Slept(|seen| - 1) < timeout
    {
      hide Healthy, StableSuffix, FirstStable, NeverStable;
      seen, naps := [], [];
      NothingSeen(expected, required);
      if expected < 1 || timeout <= 0.0 {
        return Rejected;
      }
      Elapse();
      var start := now;
      var deadline := start + timeout;
      var previous: Option<Observation> := None;
      var stable := 0;
      var observations := 0;
      while true
        invariant stable == Counter(seen, expected) && observations == |seen|
        invariant previous == if seen == [] then None else Some(seen[|seen| - 1])
        invariant NeverStable(seen, expected, required)
        invariant failures == old(failures) && |seen| == |naps| && forall i :: 0 <= i < |naps| ==> 0.0 < naps[i] <= INTERVAL
        invariant now >= deadline || now >= start + Slept(|seen|)
        invariant seen == [] || Slept(|seen| - 1) < timeout
        decreases Rounds(deadline - now)
      {
        Elapse();
        if deadline - now <= 0.0 {
          return TimedOut;
        }
        ghost var before := seen;
        var o := Look();
        if o.None? {
          return Rejected;
        }
        assert seen[..|seen| - 1] == before;
        observations := observations + 1;
        if Healthy(o.value, expected) && Some(o.value) == previous {
          stable := stable + 1;
        } else if Healthy(o.value, expected) {
          stable := 1;
        } else {
          stable := 0;
        }
        previous := o;
        OneMore(before, o.value, expected, required);
        if stable >= required {
          return Stable(observations);
        }
        Elapse();
        var remaining := deadline - now;
        if remaining <= 0.0 {
          return TimedOut;
        }
        Sleep(if INTERVAL < remaining then INTERVAL else remaining);
        FewerRounds(remaining, deadline - now);
      }
      assert false;
    }
  }

  /** No prefix ends in a stable suffix. */
  ghost predicate NeverStable(obs: seq<Observation>, expected: int, required: nat)
  {
    forall m :: 0 <= m <= |obs| ==> !StableSuffix(obs[..m], expected, required)
  }

  /** The whole sequence does, and no proper prefix. */
  ghost predicate FirstStable(obs: seq<Observation>, expected: int, required: nat)
  {
    StableSuffix(obs, expected, required) && forall m :: 0 <= m < |obs| ==> !StableSuffix(obs[..m], expected, required)
  }

  lemma NothingSeen(expected: int, required: nat)
    requires required >= 1
    ensures NeverStable([], expected, required)
  {
  }

  lemma OneMore(before: seq<Observation>, o: Observation, expected: int, required: nat)
    requires NeverStable(before, expected, required)
    ensures var obs := before + [o];
            if Counter(obs, expected) >= required then FirstStable(obs, expected, required)
            else NeverStable(obs, expected, required)
  {
    var obs := before + [o];
    CounterIsLongestSuffix(obs, expected, required);
    forall m | 0 <= m <= |before|
      ensures !StableSuffix(obs[..m], expected, required)
    {
      assert obs[..m] == before[..m];
    }
    assert obs[..|obs|] == obs;
  }
}
