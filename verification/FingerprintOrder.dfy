/** How the order of a walk decides what a fingerprint reports. */
module FingerprintOrder {
  import opened Text
  import opened StringOrder
  import opened SourceFingerprint

  // Where one order stops.

  predicate Statted(e: Event)
  {
    e.File? && e.candidate.stat.Some?
  }

  function Size(e: Event): nat
  {
    if Statted(e) then e.candidate.stat.value.size else 0
  }

  function Bytes(es: seq<Event>): nat
  {
    if es == [] then 0 else Size(es[0]) + Bytes(es[1..])
  }

  /** What the walk makes of one entry, with `count` files and `total` bytes before it. */
  function Check(e: Event, count: nat, total: nat, maxFiles: int, maxBytes: int): Option<Reason>
  {
    if e.WalkError? then Some(WalkFailed)
    else if !Statted(e) then Some(StatFailed)
    else if count >= maxFiles then Some(CountLimit)
    else if total + Size(e) > maxBytes then Some(ByteLimit)
    else None
  }

  /** The first `k` entries can be collected and the next one cannot, for this reason. */
  predicate StopsAt(es: seq<Event>, k: nat, r: Reason, count: nat, total: nat, maxFiles: int, maxBytes: int)
  {
    && k < |es| && AllStatted(es[..k])
    && (k > 0 ==> count + k <= maxFiles && total + Bytes(es[..k]) <= maxBytes)
    && Check(es[k], count + k, total + Bytes(es[..k]), maxFiles, maxBytes) == Some(r)
  }

  lemma {:induction false} WhereStopped(es: seq<Event>, count: nat, total: nat, maxFiles: int, maxBytes: int)
    returns (k: nat)
    requires Stop(es, count, total, maxFiles, maxBytes).Some?
    ensures StopsAt(es, k, Stop(es, count, total, maxFiles, maxBytes).value, count, total, maxFiles, maxBytes)
  {
    if Check(es[0], count, total, maxFiles, maxBytes).Some? {
      k := 0;
    } else {
      var size := Size(es[0]);
      k := WhereStopped(es[1..], count + 1, total + size, maxFiles, maxBytes);
      k := k + 1;
      Prefix(es, k);
    }
  }

  lemma Prefix(es: seq<Event>, k: nat)
    requires 0 < k <= |es|
    ensures es[..k] == [es[0]] + es[1..][..k - 1] && Bytes(es[..k]) == Size(es[0]) + Bytes(es[1..][..k - 1])
    ensures AllStatted(es[..k]) <==> Statted(es[0]) && AllStatted(es[1..][..k - 1])
  {
    assert es[..k] == [es[0]] + es[1..][..k - 1];
    assert es[..k][1..] == es[1..][..k - 1];
  }

  lemma {:induction false} StopsThere(
    es: seq<Event>, k: nat, r: Reason, count: nat, total: nat, maxFiles: int, maxBytes: int)
    requires StopsAt(es, k, r, count, total, maxFiles, maxBytes)
    ensures Stop(es, count, total, maxFiles, maxBytes) == Some(r)
  {
    if k > 0 {
      Prefix(es, k);
      assert es[..k][0] == es[0];
      StopsThere(es[1..], k - 1, r, count + 1, total + Size(es[0]), maxFiles, maxBytes);
    }
  }

  /** Which reason an order gives: that of the first entry that cannot be collected after those before it. */
  lemma ReasonOfOrder(es: seq<Event>, r: Reason, maxFiles: int, maxBytes: int)
    ensures Stop(es, 0, 0, maxFiles, maxBytes) == Some(r) <==> exists k :: StopsAt(es, k, r, 0, 0, maxFiles, maxBytes)
  {
    if Stop(es, 0, 0, maxFiles, maxBytes) == Some(r) {
      var k := WhereStopped(es, 0, 0, maxFiles, maxBytes);
    }
    if k :| StopsAt(es, k, r, 0, 0, maxFiles, maxBytes) {
      StopsThere(es, k, r, 0, 0, maxFiles, maxBytes);
    }
  }

  // Files by size.

  predicate Ascending(es: seq<Event>)
  {
    |es| < 2 || (Size(es[0]) <= Size(es[1]) && Ascending(es[1..]))
  }

  function Insert(es: seq<Event>, e: Event): seq<Event>
  {
    if es == [] || Size(e) <= Size(es[0]) then [e] + es else [es[0]] + Insert(es[1..], e)
  }

  lemma {:induction false} InsertAscends(es: seq<Event>, e: Event)
    requires Ascending(es)
    ensures Ascending(Insert(es, e))
  {
    if es == [] || Size(e) <= Size(es[0]) {
      assert ([e] + es)[1..] == es;
    } else {
      InsertAscends(es[1..], e);
      assert Insert(es, e)[1..] == Insert(es[1..], e);
    }
  }

  lemma {:induction false} InsertAdds(es: seq<Event>, e: Event)
    ensures multiset(Insert(es, e)) == multiset(es) + multiset{e}
  {
    if es != [] && Size(e) > Size(es[0]) {
      InsertAdds(es[1..], e);
      assert es == [es[0]] + es[1..];
    }
  }

  /** The files that could be statted. */
  function Collectable(es: seq<Event>): seq<Event>
  {
    if es == [] then [] else (if Statted(es[0]) then [es[0]] else []) + Collectable(es[1..])
  }

  /** The other entries. */
  function Rest(es: seq<Event>): seq<Event>
  {
    if es == [] then [] else (if Statted(es[0]) then [] else [es[0]]) + Rest(es[1..])
  }

  /** Smallest first. */
  function Sort(es: seq<Event>): seq<Event>
  {
    if es == [] then [] else Insert(Sort(es[1..]), es[0])
  }

  function BySize(es: seq<Event>): seq<Event>
  {
    Sort(Collectable(es))
  }

  lemma {:induction false} SortSorts(es: seq<Event>)
    ensures Ascending(Sort(es)) && multiset(Sort(es)) == multiset(es)
  {
    if es != [] {
      SortSorts(es[1..]);
      InsertAscends(Sort(es[1..]), es[0]);
      InsertAdds(Sort(es[1..]), es[0]);
      assert es == [es[0]] + es[1..];
    }
  }

  lemma {:induction false} Parted(es: seq<Event>)
    ensures multiset(Collectable(es)) + multiset(Rest(es)) == multiset(es)
    ensures AllStatted(Collectable(es))
  {
    if es != [] {
      Parted(es[1..]);
      assert es == [es[0]] + es[1..];
    }
  }

  lemma BySizeSorts(es: seq<Event>)
    ensures Ascending(BySize(es)) && multiset(BySize(es)) == multiset(Collectable(es))
    ensures multiset(BySize(es)) + multiset(Rest(es)) == multiset(es)
    ensures AllStatted(BySize(es))
  {
    SortSorts(Collectable(es));
    Parted(es);
    forall e | e in BySize(es)
      ensures Statted(e)
    {
      assert e in multiset(BySize(es));
      assert e in Collectable(es);
    }
  }

  lemma {:induction false} CollectableCount(es: seq<Event>, e: Event)
    ensures multiset(Collectable(es))[e] == if Statted(e) then multiset(es)[e] else 0
  {
    if es != [] {
      CollectableCount(es[1..], e);
      assert es == [es[0]] + es[1..];
    }
  }

  lemma {:induction false} CollectableConcat(a: seq<Event>, b: seq<Event>)
    requires AllStatted(a)
    ensures Collectable(a + b) == a + Collectable(b)
  {
    if a == [] {
      assert a + b == b;
    } else {
      assert a[0] in a;
      CollectableConcat(a[1..], b);
      assert (a + b)[1..] == a[1..] + b;
    }
  }

  lemma {:induction false} BytesConcat(a: seq<Event>, b: seq<Event>)
    ensures Bytes(a + b) == Bytes(a) + Bytes(b)
  {
    if a == [] {
      assert a + b == b;
    } else {
      BytesConcat(a[1..], b);
      assert (a + b)[1..] == a[1..] + b;
    }
  }

  function Without(es: seq<Event>, i: nat): seq<Event>
    requires i < |es|
  {
    es[..i] + es[i + 1..]
  }

  lemma TakeOut(es: seq<Event>, i: nat)
    requires i < |es|
    ensures multiset(Without(es, i)) == multiset(es) - multiset{es[i]}
    ensures multiset([es[i]] + Without(es, i)) == multiset(es)
  {
    assert es == es[..i] + ([es[i]] + es[i + 1..]);
  }

  lemma {:induction false} BytesTakenOut(es: seq<Event>, i: nat)
    requires i < |es|
    ensures Bytes(es) == Bytes(Without(es, i)) + Size(es[i])
  {
    if i == 0 {
      assert Without(es, 0) == es[1..];
    } else {
      BytesTakenOut(es[1..], i - 1);
      assert Without(es, i)[1..] == Without(es[1..], i - 1);
    }
  }

  lemma {:induction false} SameBytes(a: seq<Event>, b: seq<Event>)
    requires multiset(a) == multiset(b)
    ensures Bytes(a) == Bytes(b)
  {
    assert |a| == |multiset(a)| == |multiset(b)| == |b|;
    if a != [] {
      assert a[0] in multiset(b);
      var i :| 0 <= i < |b| && b[i] == a[0];
      TakeOut(a, 0);
      TakeOut(b, i);
      BytesTakenOut(b, i);
      assert Without(a, 0) == a[1..];
      SameBytes(a[1..], Without(b, i));
    }
  }

  /** Dropping the head from the front drops the smallest. */
  lemma {:induction false} ShiftedIsLarger(s: seq<Event>, n: nat)
    requires Ascending(s) && n < |s|
    ensures Bytes(s[..n]) <= Bytes(s[1..][..n])
  {
    if n > 0 {
      ShiftedIsLarger(s[1..], n - 1);
      Prefix(s, n);
      Prefix(s[1..], n);
    }
  }

  lemma TailHolds(s: seq<Event>, u: seq<Event>)
    requires s != [] && multiset(u) <= multiset(s) && s[0] !in u
    ensures multiset(u) <= multiset(s[1..])
  {
    assert s == [s[0]] + s[1..];
    assert multiset(u)[s[0]] == 0;
  }

  lemma TailHoldsRest(s: seq<Event>, u: seq<Event>, i: nat)
    requires s != [] && i < |u| && u[i] == s[0] && multiset(u) <= multiset(s)
    ensures multiset(Without(u, i)) <= multiset(s[1..])
  {
    TakeOut(u, i);
    TakeOut(s, 0);
    assert Without(s, 0) == s[1..];
  }

  lemma NotMore(s: seq<Event>, u: seq<Event>)
    requires multiset(u) <= multiset(s)
    ensures |u| <= |s|
  {
    assert multiset(s) == multiset(u) + (multiset(s) - multiset(u));
    assert |s| == |multiset(s)| == |multiset(u)| + |multiset(s) - multiset(u)|;
  }

  lemma TwoParts(s: seq<Event>, u: seq<Event>, v: seq<Event>)
    requires multiset(u + v) == multiset(s)
    ensures multiset(u) <= multiset(s) && multiset(v) <= multiset(s) && |u| + |v| == |s|
  {
    assert |u + v| == |multiset(u + v)| == |multiset(s)| == |s|;
  }

  /** No choice of files is smaller than as many of the smallest. */
  lemma {:induction false} SmallestFirst(s: seq<Event>, u: seq<Event>)
    requires Ascending(s) && multiset(u) <= multiset(s)
    ensures |u| <= |s| && Bytes(s[..|u|]) <= Bytes(u)
    decreases |s|
  {
    NotMore(s, u);
    if u != [] {
      if i :| 0 <= i < |u| && u[i] == s[0] {
        TailHoldsRest(s, u, i);
        SmallestFirst(s[1..], Without(u, i));
        BytesTakenOut(u, i);
        Prefix(s, |u|);
      } else {
        TailHolds(s, u);
        SmallestFirst(s[1..], u);
        ShiftedIsLarger(s, |u|);
      }
    }
  }

  /** The `k` last of a list. */
  function Largest(s: seq<Event>, k: nat): seq<Event>
    requires k <= |s|
  {
    s[|s| - k..]
  }

  /** No choice of files is larger than as many of the largest. */
  lemma LargestLast(s: seq<Event>, u: seq<Event>, v: seq<Event>)
    requires Ascending(s) && multiset(u + v) == multiset(s)
    ensures |u| <= |s| && Bytes(u) <= Bytes(Largest(s, |u|))
  {
    TwoParts(s, u, v);
    SameBytes(u + v, s);
    BytesConcat(u, v);
    SmallestFirst(s, v);
    Halves(s, |u|);
  }

  lemma Halves(s: seq<Event>, k: nat)
    requires k <= |s|
    ensures Bytes(s) == Bytes(s[..|s| - k]) + Bytes(Largest(s, k))
  {
    assert s == s[..|s| - k] + Largest(s, k);
    BytesConcat(s[..|s| - k], Largest(s, k));
  }

  lemma MoreIsLarger(s: seq<Event>, k: nat, m: nat)
    requires k <= m <= |s|
    ensures Bytes(Largest(s, k)) <= Bytes(Largest(s, m))
  {
    assert Largest(s, m) == s[|s| - m..|s| - k] + Largest(s, k);
    BytesConcat(s[|s| - m..|s| - k], Largest(s, k));
  }

  // Which reasons the orders of the same entries can give.

  /** The files the count limit leaves room for. */
  function Room(maxFiles: int): nat
  {
    if maxFiles > 0 then maxFiles else 0
  }

  function Least(a: nat, b: nat): nat
  {
    if a <= b then a else b
  }

  /** A condition on the entries alone, for each reason. */
  predicate CanStop(es: seq<Event>, r: Reason, maxFiles: int, maxBytes: int)
  {
    var s, m := BySize(es), Room(maxFiles);
    match r
    case WalkFailed => WalkError in es
    case StatFailed => exists e :: e in es && e.File? && !Statted(e)
    case CountLimit => |s| > m && (m > 0 ==> Bytes(s[..m]) <= maxBytes)
    case ByteLimit => s != [] && m > 0 && Bytes(Largest(s, Least(m, |s|))) > maxBytes
    case _ => false
  }

  predicate Permutes(a: seq<Event>, es: seq<Event>)
  {
    multiset(a) == multiset(es)
  }

  /** An order that begins with `k` statted files begins with `k` of the files sorted by size. */
  lemma Begins(es: seq<Event>, b: seq<Event>, k: nat) returns (v: seq<Event>)
    requires Permutes(b, es) && k <= |b| && AllStatted(b[..k])
    ensures multiset(b[..k] + v) == multiset(BySize(es))
  {
    v := Collectable(b[k..]);
    CollectableConcat(b[..k], b[k..]);
    assert b == b[..k] + b[k..];
    BySizeSorts(es);
    forall e: Event
      ensures multiset(Collectable(b))[e] == multiset(Collectable(es))[e]
    {
      CollectableCount(b, e);
      CollectableCount(es, e);
    }
  }

  lemma OneMore(b: seq<Event>, k: nat)
    requires k < |b| && AllStatted(b[..k]) && Statted(b[k])
    ensures AllStatted(b[..k + 1]) && Bytes(b[..k + 1]) == Bytes(b[..k]) + Size(b[k])
    ensures b[..k + 1] == b[..k] + [b[k]]
  {
    assert b[..k + 1] == b[..k] + [b[k]];
    BytesConcat(b[..k], [b[k]]);
  }

  lemma CountFits(es: seq<Event>, b: seq<Event>, k: nat, maxFiles: int, maxBytes: int)
    requires Permutes(b, es) && StopsAt(b, k, CountLimit, 0, 0, maxFiles, maxBytes)
    ensures CanStop(es, CountLimit, maxFiles, maxBytes)
  {
    var s := BySize(es);
    BySizeSorts(es);
    OneMore(b, k);
    var v := Begins(es, b, k + 1);
    ShorterPart(s, b[..k], b[k], v);
    SmallestFirst(s, b[..k]);
    assert Room(maxFiles) == k;
  }

  lemma ShorterPart(s: seq<Event>, u: seq<Event>, e: Event, v: seq<Event>)
    requires multiset(u + [e] + v) == multiset(s)
    ensures multiset(u) <= multiset(s) && |u| < |s|
  {
    assert u + [e] + v == u + ([e] + v);
    TwoParts(s, u, [e] + v);
  }

  lemma BytesFit(es: seq<Event>, b: seq<Event>, k: nat, maxFiles: int, maxBytes: int)
    requires Permutes(b, es) && StopsAt(b, k, ByteLimit, 0, 0, maxFiles, maxBytes)
    ensures CanStop(es, ByteLimit, maxFiles, maxBytes)
  {
    var s := BySize(es);
    BySizeSorts(es);
    OneMore(b, k);
    var v := Begins(es, b, k + 1);
    LargestLast(s, b[..k + 1], v);
    MoreIsLarger(s, k + 1, Least(Room(maxFiles), |s|));
  }

  lemma GivenReasonFits(es: seq<Event>, b: seq<Event>, maxFiles: int, maxBytes: int)
    requires Permutes(b, es) && Stop(b, 0, 0, maxFiles, maxBytes).Some?
    ensures CanStop(es, Stop(b, 0, 0, maxFiles, maxBytes).value, maxFiles, maxBytes)
  {
    var r := Stop(b, 0, 0, maxFiles, maxBytes).value;
    var k := WhereStopped(b, 0, 0, maxFiles, maxBytes);
    if r.CountLimit? {
      CountFits(es, b, k, maxFiles, maxBytes);
    } else if r.ByteLimit? {
      BytesFit(es, b, k, maxFiles, maxBytes);
    } else {
      assert b[k] in multiset(b);
      assert b[k] in es;
    }
  }

  lemma {:induction false} TooManyBytes(es: seq<Event>, k: nat, count: nat, total: nat, maxFiles: int, maxBytes: int)
    requires 0 < k <= |es| && AllStatted(es[..k]) && count + k <= maxFiles && total + Bytes(es[..k]) > maxBytes
    ensures Stop(es, count, total, maxFiles, maxBytes) == Some(ByteLimit)
  {
    Prefix(es, k);
    assert es[..k][0] == es[0];
    if total + Size(es[0]) <= maxBytes {
      TooManyBytes(es[1..], k - 1, count + 1, total + Size(es[0]), maxFiles, maxBytes);
    }
  }

  /** The entry first, then the others in their order. */
  lemma PutFirst(es: seq<Event>, e: Event) returns (b: seq<Event>)
    requires e in es
    ensures Permutes(b, es) && b != [] && b[0] == e
  {
    var i :| 0 <= i < |es| && es[i] == e;
    TakeOut(es, i);
    b := [e] + Without(es, i);
  }

  /** An order of the entries that gives the reason. */
  lemma Reached(es: seq<Event>, r: Reason, maxFiles: int, maxBytes: int) returns (b: seq<Event>)
    requires CanStop(es, r, maxFiles, maxBytes)
    ensures Permutes(b, es) && Stop(b, 0, 0, maxFiles, maxBytes) == Some(r)
  {
    var s, m := BySize(es), Room(maxFiles);
    BySizeSorts(es);
    match r
    case WalkFailed =>
      b := PutFirst(es, WalkError);
    case StatFailed =>
      var e :| e in es && e.File? && !Statted(e);
      b := PutFirst(es, e);
    case CountLimit =>
      b := s + Rest(es);
      assert b[..m] == s[..m] && b[m] == s[m];
      assert s[m] in s;
      StopsThere(b, m, CountLimit, 0, 0, maxFiles, maxBytes);
    case ByteLimit =>
      var k := Least(m, |s|);
      b := LargestFirst(s, Rest(es), k);
      TooManyBytes(b, k, 0, 0, maxFiles, maxBytes);
  }

  lemma LargestFirst(s: seq<Event>, rest: seq<Event>, k: nat) returns (b: seq<Event>)
    requires AllStatted(s) && k <= |s|
    ensures |b| >= k && b[..k] == Largest(s, k) && AllStatted(b[..k])
    ensures multiset(b) == multiset(s) + multiset(rest)
  {
    b := Largest(s, k) + (s[..|s| - k] + rest);
    assert s == s[..|s| - k] + Largest(s, k);
  }

  /** A reason is given by some order of the entries exactly under its condition. */
  lemma ReasonReachableIff(es: seq<Event>, r: Reason, maxFiles: int, maxBytes: int)
    ensures (exists b :: Permutes(b, es) && Stop(b, 0, 0, maxFiles, maxBytes) == Some(r))
            <==> CanStop(es, r, maxFiles, maxBytes)
  {
    if b :| Permutes(b, es) && Stop(b, 0, 0, maxFiles, maxBytes) == Some(r) {
      GivenReasonFits(es, b, maxFiles, maxBytes);
    }
    if CanStop(es, r, maxFiles, maxBytes) {
      var b := Reached(es, r, maxFiles, maxBytes);
    }
  }

  // Whether the order matters.

  /** Two orders of the same entries can be fingerprinted differently exactly when two reasons are possible. */
  lemma OrderMattersIff(es: seq<Event>, maxFiles: int, maxBytes: int)
    requires Stable(es)
    ensures
      (exists a, b :: Permutes(a, es) && Permutes(b, es)
                      && Fingerprint(a, maxFiles, maxBytes) != Fingerprint(b, maxFiles, maxBytes))
      <==> exists r, q :: r != q && CanStop(es, r, maxFiles, maxBytes) && CanStop(es, q, maxFiles, maxBytes)
  {
    if a, b :| Permutes(a, es) && Permutes(b, es) && Fingerprint(a, maxFiles, maxBytes) != Fingerprint(b, maxFiles, maxBytes) {
      StablePermuted(a, es);
      StablePermuted(b, es);
      if Stop(a, 0, 0, maxFiles, maxBytes).None? {
        SameWhenCollected(a, b, maxFiles, maxBytes);
      } else if Stop(b, 0, 0, maxFiles, maxBytes).None? {
        SameWhenCollected(b, a, maxFiles, maxBytes);
      } else {
        GivenReasonFits(es, a, maxFiles, maxBytes);
        GivenReasonFits(es, b, maxFiles, maxBytes);
      }
    }
    if r, q :| r != q && CanStop(es, r, maxFiles, maxBytes) && CanStop(es, q, maxFiles, maxBytes) {
      var a := Reached(es, r, maxFiles, maxBytes);
      var b := Reached(es, q, maxFiles, maxBytes);
    }
  }

  /** When every entry can be statted, the order matters exactly if the smallest files reach the count limit and the largest do not. */
  lemma LimitsDependOnOrderIff(es: seq<Event>, maxFiles: int, maxBytes: int)
    requires Stable(es) && AllStatted(es)
    ensures |BySize(es)| == |es|
    ensures
      (exists a, b :: Permutes(a, es) && Permutes(b, es)
                      && Fingerprint(a, maxFiles, maxBytes) != Fingerprint(b, maxFiles, maxBytes))
      <==> 0 < maxFiles < |es| && Bytes(BySize(es)[..maxFiles]) <= maxBytes < Bytes(Largest(BySize(es), maxFiles))
  {
    OrderMattersIff(es, maxFiles, maxBytes);
    CollectableConcat(es, []);
    assert es + [] == es;
    SortSorts(es);
    assert |BySize(es)| == |multiset(BySize(es))| == |multiset(es)| == |es|;
    if r, q :| r != q && CanStop(es, r, maxFiles, maxBytes) && CanStop(es, q, maxFiles, maxBytes) {
      assert CanStop(es, CountLimit, maxFiles, maxBytes) && CanStop(es, ByteLimit, maxFiles, maxBytes);
    }
    if 0 < maxFiles < |es| && Bytes(BySize(es)[..maxFiles]) <= maxBytes < Bytes(Largest(BySize(es), maxFiles)) {
      assert CanStop(es, CountLimit, maxFiles, maxBytes) && CanStop(es, ByteLimit, maxFiles, maxBytes);
    }
  }

  // Roots and directory listings.

  lemma {:induction false} KeptCount(cs: seq<Candidate>, e: Event)
    ensures multiset(Eligible(cs))[e] == if e.File? && Kept(e.candidate) then multiset(cs)[e.candidate] else 0
  {
    if cs != [] {
      KeptCount(cs[1..], e);
      assert cs == [cs[0]] + cs[1..];
    }
  }

  /** The same root with its entries listed in any order. */
  predicate Relisted(a: Root, b: Root)
  {
    && a.path == b.path
    && (a.found == b.found
        || (a.found.Listed? && b.found.Listed? && multiset(a.found.candidates) == multiset(b.found.candidates)))
  }

  lemma RelistedEvents(a: Root, b: Root)
    requires Relisted(a, b)
    ensures multiset(RootEvents(a)) == multiset(RootEvents(b))
  {
    if a.found != b.found {
      forall e: Event
        ensures multiset(Eligible(a.found.candidates))[e] == multiset(Eligible(b.found.candidates))[e]
      {
        KeptCount(a.found.candidates, e);
        KeptCount(b.found.candidates, e);
      }
    }
  }

  lemma {:induction false} AllRelisted(a: seq<Root>, b: seq<Root>)
    requires |a| == |b| && forall i :: 0 <= i < |a| ==> Relisted(a[i], b[i])
    ensures multiset(Events(a)) == multiset(Events(b))
  {
    if a != [] {
      RelistedEvents(a[0], b[0]);
      AllRelisted(a[1..], b[1..]);
    }
  }

  lemma {:induction false} EventsConcat(a: seq<Root>, b: seq<Root>)
    ensures Events(a + b) == Events(a) + Events(b)
  {
    hide RootEvents;
    if a == [] {
      assert a + b == b;
    } else {
      EventsConcat(a[1..], b);
      assert (a + b)[1..] == a[1..] + b;
    }
  }

  lemma RootFirst(roots: seq<Root>, i: nat) returns (others: seq<Root>)
    requires i < |roots|
    ensures |others| == |roots| - 1 && multiset(others) == multiset(roots) - multiset{roots[i]}
    ensures multiset(Events(roots)) == multiset(RootEvents(roots[i])) + multiset(Events(others))
  {
    hide RootEvents;
    others := roots[..i] + roots[i + 1..];
    var tail := [roots[i]] + roots[i + 1..];
    assert roots == roots[..i] + tail && tail[1..] == roots[i + 1..];
    EventsConcat(roots[..i], tail);
    EventsConcat(roots[..i], roots[i + 1..]);
  }

  lemma {:induction false} RootsReordered(a: seq<Root>, b: seq<Root>)
    requires multiset(a) == multiset(b)
    ensures multiset(Events(a)) == multiset(Events(b))
    decreases |a|
  {
    assert |a| == |multiset(a)| == |multiset(b)| == |b|;
    if a != [] {
      assert a[0] in multiset(b);
      var i :| 0 <= i < |b| && b[i] == a[0];
      var rest := RootFirst(a, 0);
      var others := RootFirst(b, i);
      RootsReordered(rest, others);
    }
  }

  /** The same roots in another order, each listed in any order. */
  predicate SameTree(a: seq<Root>, c: seq<Root>, b: seq<Root>)
  {
    multiset(a) == multiset(c) && |c| == |b| && forall i :: 0 <= i < |c| ==> Relisted(c[i], b[i])
  }

  /** An available fingerprint of a tree does not depend on the order of its roots or of any directory listing. */
  lemma TreeOrderFree(a: seq<Root>, c: seq<Root>, b: seq<Root>, maxFiles: int, maxBytes: int)
    requires SameTree(a, c, b) && Stable(Events(a))
    ensures Permutes(Events(b), Events(a))
    ensures var r, q := Fingerprint(Events(a), maxFiles, maxBytes), Fingerprint(Events(b), maxFiles, maxBytes);
            r.Available? || q.Available? ==> r == q
  {
    RootsReordered(a, c);
    AllRelisted(c, b);
    WalkOrderFree(Events(a), Events(b), maxFiles, maxBytes);
  }
}
