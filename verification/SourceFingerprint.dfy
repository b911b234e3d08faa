/** The bounded, content-addressed fingerprint of a source checkout. */
module SourceFingerprint {
  import opened Text
  import opened Utf8
  import opened StringOrder
  import opened SourceFilter

  // Framing: every path and every content is preceded by its length in eight big-endian bytes.

  datatype Entry = Entry(path: seq<Byte>, content: seq<Byte>)

  function Pow256(k: nat): nat
  {
    if k == 0 then 1 else 256 * Pow256(k - 1)
  }

  const LENGTH_LIMIT := 0x1_0000_0000_0000_0000

  function BigEndian(n: nat, k: nat): (r: seq<Byte>)
    ensures |r| == k
  {
    if k == 0 then [] else BigEndian(n / 256, k - 1) + [n % 256]
  }

  function Value(bs: seq<Byte>): nat
  {
    if bs == [] then 0 else 256 * Value(bs[..|bs| - 1]) + bs[|bs| - 1]
  }

  lemma {:induction false} BigEndianRoundTrip(n: nat, k: nat)
    requires n < Pow256(k)
    ensures Value(BigEndian(n, k)) == n
  {
    if k > 0 {
      BigEndianRoundTrip(n / 256, k - 1);
      assert BigEndian(n, k)[..k - 1] == BigEndian(n / 256, k - 1);
    }
  }

  lemma EightBytes(n: nat)
    requires n < LENGTH_LIMIT
    ensures Value(BigEndian(n, 8)) == n
  {
    assert Pow256(4) == 0x1_0000_0000;
    assert Pow256(6) == 0x1_0000_0000_0000;
    assert Pow256(8) == LENGTH_LIMIT;
    BigEndianRoundTrip(n, 8);
  }

  function Framed(bs: seq<Byte>): seq<Byte>
  {
    BigEndian(|bs|, 8) + bs
  }

  predicate Framable(e: Entry)
  {
    |e.path| < LENGTH_LIMIT && |e.content| < LENGTH_LIMIT
  }

  function Frame(e: Entry): seq<Byte>
  {
    Framed(e.path) + Framed(e.content)
  }

  /** What the digest has been fed once these files are read. */
  function Preimage(es: seq<Entry>): seq<Byte>
  {
    if es == [] then [] else Frame(es[0]) + Preimage(es[1..])
  }

  /** Take one length-prefixed block off the front. */
  function Block(bs: seq<Byte>): (r: Option<(seq<Byte>, seq<Byte>)>)
    ensures r.Some? ==> |r.value.1| + 8 <= |bs|
  {
    if |bs| < 8 then None else
    var n := Value(bs[..8]);
    if n > |bs| - 8 then None else Some((bs[8..8 + n], bs[8 + n..]))
  }

  /** The decoder. */
  function Parse(bs: seq<Byte>): Option<seq<Entry>>
    decreases |bs|
  {
    if bs == [] then Some([]) else
    var path := Block(bs);
    if path.None? then None else
    var content := Block(path.value.1);
    if content.None? then None else
    var rest := Parse(content.value.1);
    if rest.None? then None else Some([Entry(path.value.0, content.value.0)] + rest.value)
  }

  lemma BlockUndoesFramed(bs: seq<Byte>, rest: seq<Byte>)
    requires |bs| < LENGTH_LIMIT
    ensures Block(Framed(bs) + rest) == Some((bs, rest))
  {
    var all := Framed(bs) + rest;
    EightBytes(|bs|);
    assert all[..8] == BigEndian(|bs|, 8);
    assert all[8..8 + |bs|] == bs && all[8 + |bs|..] == rest;
  }

  lemma ParseEntry(e: Entry, rest: seq<Byte>)
    requires Framable(e) && Parse(rest).Some?
    ensures Parse(Frame(e) + rest) == Some([e] + Parse(rest).value)
  {
    var tail := Framed(e.content) + rest;
    Regroup(Framed(e.path), Framed(e.content), rest);
    BlockUndoesFramed(e.path, tail);
    BlockUndoesFramed(e.content, rest);
  }

  lemma Regroup(a: seq<Byte>, b: seq<Byte>, c: seq<Byte>)
    ensures a + b + c == a + (b + c)
  {
  }

  /** The decoder undoes the framing. */
  lemma {:induction false} ParseUndoesPreimage(es: seq<Entry>)
    requires forall e :: e in es ==> Framable(e)
    ensures Parse(Preimage(es)) == Some(es)
  {
    if es != [] {
      ParseUndoesPreimage(es[1..]);
      ParseEntry(es[0], Preimage(es[1..]));
      assert es == [es[0]] + es[1..];
    }
  }

  /** Reading one more file appends its frame. */
  lemma {:induction false} PreimageSnoc(es: seq<Entry>, e: Entry)
    ensures Preimage(es + [e]) == Preimage(es) + Frame(e)
  {
    if es == [] {
      assert Preimage([e]) == Frame(e) + Preimage([e][1..]);
    } else {
      PreimageSnoc(es[1..], e);
      assert (es + [e])[1..] == es[1..] + [e];
    }
  }

  // The walk.

  datatype Stat = Stat(size: nat, modified: int)

  datatype Reading = Reading(content: seq<Byte>, after: Stat)

  /** A directory entry as the walk meets it, with what `stat` and reading it answer. */
  datatype Candidate = Candidate(path: string, link: bool, file: bool, stat: Option<Stat>, reading: Option<Reading>)

  predicate Kept(c: Candidate)
  {
    !Ignored(c.path) && !c.link && c.file && !IgnoredSuffix(c.path)
  }

  /** What stands at a root: nothing to walk, a failing walk, or its entries. */
  datatype Found = Absent | WalkFails | Listed(candidates: seq<Candidate>)

  datatype Root = Root(path: string, found: Found)

  datatype Reason = WalkFailed | StatFailed | CountLimit | ByteLimit | ReadFailed | ChangedWhileReading

  datatype Digest = Sha256(preimage: seq<Byte>)

  datatype Result =
    | Unavailable(reason: Reason)
    | Overflows   // a length that does not fit eight bytes
    | Available(digest: Digest, count: nat, total: nat)

  datatype Event = WalkError | File(candidate: Candidate)

  function Eligible(cs: seq<Candidate>): seq<Event>
  {
    if cs == [] then [] else (if Kept(cs[0]) then [File(cs[0])] else []) + Eligible(cs[1..])
  }

  function Events(roots: seq<Root>): seq<Event>
  {
    if roots == [] then [] else RootEvents(roots[0]) + Events(roots[1..])
  }

  /** An ignored root is skipped before it is looked at. */
  function RootEvents(root: Root): seq<Event>
  {
    if Ignored(root.path) then []
    else
      match root.found
      case Absent => []
      case WalkFails => [WalkError]
      case Listed(cs) => Eligible(cs)
  }

  /** What the walk collects: listed plain files below roots that are not ignored, themselves neither ignored nor compiled. */
  lemma {:induction false} CollectedFiles(roots: seq<Root>, c: Candidate)
    ensures c in Files(Events(roots)) <==>
      exists i :: 0 <= i < |roots| && !Ignored(roots[i].path) && roots[i].found.Listed? && c in roots[i].found.candidates
                  && c.file && !c.link && !Ignored(c.path) && !EndsAsBytecode(c.path)
  {
    BytecodeIff(c.path);
    if roots != [] {
      CollectedFiles(roots[1..], c);
      FilesConcat(RootEvents(roots[0]), Events(roots[1..]));
      if roots[0].found.Listed? {
        EligibleFiles(roots[0].found.candidates, c);
      }
      if i :| 0 <= i < |roots| && !Ignored(roots[i].path) && roots[i].found.Listed? && c in roots[i].found.candidates && Kept(c) {
        if i > 0 {
          assert roots[1..][i - 1] == roots[i];
        }
      }
    }
  }

  lemma {:induction false} FilesConcat(a: seq<Event>, b: seq<Event>)
    ensures Files(a + b) == Files(a) + Files(b)
  {
    if a == [] {
      assert a + b == b;
    } else {
      FilesConcat(a[1..], b);
      assert (a + b)[1..] == a[1..] + b;
    }
  }

  lemma {:induction false} EligibleFiles(cs: seq<Candidate>, c: Candidate)
    ensures c in Files(Eligible(cs)) <==> c in cs && Kept(c)
  {
    if cs != [] {
      EligibleFiles(cs[1..], c);
      FilesConcat(if Kept(cs[0]) then [File(cs[0])] else [], Eligible(cs[1..]));
      assert cs == [cs[0]] + cs[1..];
      assert Files([File(cs[0])]) == [cs[0]];
    }
  }

  /** Skipping an ignored directory drops nothing the filters would have kept. */
  lemma {:induction false} NothingKeptBelowIgnored(root: string, cs: seq<Candidate>)
    requires InIgnoredDir(root) && forall c :: c in cs ==> Below(root, c.path)
    ensures Eligible(cs) == []
  {
    if cs != [] {
      assert cs[0] in cs;
      var rest :| cs[0].path == root + "/" + rest;
      IgnoredBelowIff(root, rest);
      NothingKeptBelowIgnored(root, cs[1..]);
    }
  }

  ghost predicate Below(root: string, path: string)
  {
    exists rest :: path == root + "/" + rest
  }

  /** Why the walk stops, if it does, with `count` files and `total` bytes collected before `events`. */
  function Stop(events: seq<Event>, count: nat, total: nat, maxFiles: int, maxBytes: int): Option<Reason>
  {
    if events == [] then None
    else if events[0].WalkError? then Some(WalkFailed)
    else if events[0].candidate.stat.None? then Some(StatFailed)
    else if count >= maxFiles then Some(CountLimit)
    else
      var size := events[0].candidate.stat.value.size;
      if total + size > maxBytes then Some(ByteLimit)
      else Stop(events[1..], count + 1, total + size, maxFiles, maxBytes)
  }

  function Files(events: seq<Event>): seq<Candidate>
  {
    if events == [] then [] else (if events[0].File? then [events[0].candidate] else []) + Files(events[1..])
  }

  function SizeOf(c: Candidate): nat
  {
    if c.stat.Some? then c.stat.value.size else 0
  }

  function TotalBytes(cs: seq<Candidate>): nat
  {
    if cs == [] then 0 else SizeOf(cs[0]) + TotalBytes(cs[1..])
  }

  predicate AllStatted(events: seq<Event>)
  {
    forall e :: e in events ==> e.File? && e.candidate.stat.Some?
  }

  /** The walk goes through exactly when every entry could be listed and statted and the sums stay in bounds. */
  lemma {:induction false} StopsIff(events: seq<Event>, count: nat, total: nat, maxFiles: int, maxBytes: int)
    ensures Stop(events, count, total, maxFiles, maxBytes).None? <==>
      events == [] ||
      (AllStatted(events) && count + |events| <= maxFiles && total + TotalBytes(Files(events)) <= maxBytes)
  {
    if events != [] && events[0].File? && events[0].candidate.stat.Some? {
      var size := events[0].candidate.stat.value.size;
      StopsIff(events[1..], count + 1, total + size, maxFiles, maxBytes);
      assert events == [events[0]] + events[1..];
      assert AllStatted(events) <==> AllStatted(events[1..]);
      assert Files(events) == [events[0].candidate] + Files(events[1..]);
      assert Files(events)[1..] == Files(events[1..]);
    }
  }

  // Reading.

  function EntryOf(c: Candidate): Entry
  {
    Entry(Encode(c.path), if c.reading.Some? then c.reading.value.content else [])
  }

  function Entries(cs: seq<Candidate>): seq<Entry>
  {
    seq(|cs|, i requires 0 <= i < |cs| => EntryOf(cs[i]))
  }

  predicate Steady(c: Candidate)
  {
    && c.stat.Some? && c.reading.Some?
    && |c.reading.value.content| == c.stat.value.size
    && c.reading.value.after == c.stat.value
  }

  /** What reading one file contributes: nothing, a reason, or an overflow. */
  function Trouble(c: Candidate): Option<Result>
  {
    if |Encode(c.path)| >= LENGTH_LIMIT then Some(Overflows)
    else if c.reading.None? then Some(Unavailable(ReadFailed))
    else if !Steady(c) then Some(Unavailable(ChangedWhileReading))
    else if |c.reading.value.content| >= LENGTH_LIMIT then Some(Overflows)
    else None
  }

  /** The first trouble in reading order. */
  function FirstTrouble(cs: seq<Candidate>): Option<Result>
  {
    if cs == [] then None else if Trouble(cs[0]).Some? then Trouble(cs[0]) else FirstTrouble(cs[1..])
  }

  function PathOf(c: Candidate): string
  {
    c.path
  }

  function Ordered(events: seq<Event>): seq<Candidate>
  {
    SortBy(Files(events), PathOf)
  }

  /** The fingerprint of a walk. */
  function Fingerprint(events: seq<Event>, maxFiles: int, maxBytes: int): Result
  {
    var stop := Stop(events, 0, 0, maxFiles, maxBytes);
    if stop.Some? then Unavailable(stop.value) else
    var trouble := FirstTrouble(Ordered(events));
    if trouble.Some? then trouble.value
    else Available(Sha256(Preimage(Entries(Ordered(events)))), |Files(events)|, TotalBytes(Files(events)))
  }

  lemma {:induction false} TotalSnoc(cs: seq<Candidate>, c: Candidate)
    ensures TotalBytes(cs + [c]) == TotalBytes(cs) + SizeOf(c)
  {
    if cs == [] {
      assert ([c])[1..] == [];
    } else {
      TotalSnoc(cs[1..], c);
      assert (cs + [c])[1..] == cs[1..] + [c];
    }
  }

  /** What a partial walk has collected accounts for everything but the events still ahead. */
  ghost predicate Collected(all: seq<Event>, ahead: seq<Event>, files: seq<Candidate>, total: nat, maxFiles: int, maxBytes: int)
  {
    && Stop(all, 0, 0, maxFiles, maxBytes) == Stop(ahead, |files|, total, maxFiles, maxBytes)
    && Files(all) == files + Files(ahead)
    && total == TotalBytes(files)
  }

  lemma CollectOne(all: seq<Event>, c: Candidate, ahead: seq<Event>, files: seq<Candidate>, total: nat, maxFiles: int, maxBytes: int)
    requires Collected(all, [File(c)] + ahead, files, total, maxFiles, maxBytes)
    requires c.stat.Some? && |files| < maxFiles && total + c.stat.value.size <= maxBytes
    ensures Collected(all, ahead, files + [c], total + c.stat.value.size, maxFiles, maxBytes)
  {
    var events := [File(c)] + ahead;
    assert events[1..] == ahead;
    TotalSnoc(files, c);
  }

  /** The inner loop: filter, stat and add the entries of one root. */
  method WalkRoot(cs: seq<Candidate>, before: seq<Candidate>, bytes: nat, maxFiles: int, maxBytes: int,
                  ghost all: seq<Event>, ghost ahead: seq<Event>)
    returns (files: seq<Candidate>, total: nat, stop: Option<Reason>)
    requires Collected(all, Eligible(cs) + ahead, before, bytes, maxFiles, maxBytes)
    ensures stop.Some? ==> Stop(all, 0, 0, maxFiles, maxBytes) == stop
    ensures stop.None? ==> Collected(all, ahead, files, total, maxFiles, maxBytes)
  {
    hide Kept;
    files, total := before, bytes;
    for j := 0 to |cs|
      invariant Collected(all, Eligible(cs[j..]) + ahead, files, total, maxFiles, maxBytes)
    {
      var c := cs[j];
      assert cs[j..][1..] == cs[j + 1..];
      if Kept(c) {
        assert Eligible(cs[j..]) + ahead == [File(c)] + (Eligible(cs[j + 1..]) + ahead);
        if c.stat.None? {
          return files, total, Some(StatFailed);
        }
        if |files| >= maxFiles {
          return files, total, Some(CountLimit);
        }
        if total + c.stat.value.size > maxBytes {
          return files, total, Some(ByteLimit);
        }
        CollectOne(all, c, Eligible(cs[j + 1..]) + ahead, files, total, maxFiles, maxBytes);
        files, total := files + [c], total + c.stat.value.size;
      } else {
        assert Eligible(cs[j..]) + ahead == Eligible(cs[j + 1..]) + ahead;
      }
    }
    assert Eligible(cs[|cs|..]) + ahead == ahead;
    stop := None;
  }

  /** The outer loop over the roots. */
  method Walk(roots: seq<Root>, maxFiles: int, maxBytes: int)
    returns (files: seq<Candidate>, total: nat, stop: Option<Reason>)
    ensures Stop(Events(roots), 0, 0, maxFiles, maxBytes) == stop
    ensures stop.None? ==> files == Files(Events(roots)) && total == TotalBytes(files)
  {
    files, total := [], 0;
    ghost var all := Events(roots);
    assert roots[0..] == roots;
    for i := 0 to |roots|
      invariant Collected(all, Events(roots[i..]), files, total, maxFiles, maxBytes)
    {
      assert roots[i..][1..] == roots[i + 1..];
      if !Ignored(roots[i].path) {
        match roots[i].found {
          case Absent =>
            assert Events(roots[i..]) == Events(roots[i + 1..]);
          case WalkFails =>
            assert Events(roots[i..]) == [WalkError] + Events(roots[i + 1..]);
            return files, total, Some(WalkFailed);
          case Listed(cs) =>
            files, total, stop := WalkRoot(cs, files, total, maxFiles, maxBytes, all, Events(roots[i + 1..]));
            if stop.Some? {
              return;
            }
        }
      } else {
        assert Events(roots[i..]) == Events(roots[i + 1..]);
      }
    }
    stop := None;
  }

  /** Read the sorted files and feed the digest; the path is fed before the content is read. */
  method Read(cs: seq<Candidate>) returns (preimage: seq<Byte>, trouble: Option<Result>)
    ensures trouble == FirstTrouble(cs)
    ensures trouble.None? ==> preimage == Preimage(Entries(cs))
  {
    preimage := [];
    assert cs[0..] == cs;
    for i := 0 to |cs|
      invariant FirstTrouble(cs) == FirstTrouble(cs[i..])
      invariant preimage == Preimage(Entries(cs[..i]))
    {
      var c := cs[i];
      assert cs[i..][1..] == cs[i + 1..];
      var path := Encode(c.path);
      if |path| >= LENGTH_LIMIT {
        return preimage, Some(Overflows);
      }
      if c.reading.None? {
        return preimage, Some(Unavailable(ReadFailed));
      }
      var content := c.reading.value.content;
      if !Steady(c) {
        return preimage, Some(Unavailable(ChangedWhileReading));
      }
      if |content| >= LENGTH_LIMIT {
        return preimage, Some(Overflows);
      }
      preimage := preimage + (BigEndian(|path|, 8) + path + (BigEndian(|content|, 8) + content));
      PreimageSnoc(Entries(cs[..i]), EntryOf(c));
      assert Entries(cs[..i + 1]) == Entries(cs[..i]) + [EntryOf(c)];
    }
    assert cs[..|cs|] == cs;
    trouble := None;
  }

  /** Walk, sort by relative path, read and hash. */
  method ComputeFingerprint(roots: seq<Root>, maxFiles: int, maxBytes: int) returns (r: Result)
    ensures r == Fingerprint(Events(roots), maxFiles, maxBytes)
  {
    var files, total, stop := Walk(roots, maxFiles, maxBytes);
    if stop.Some? {
      return Unavailable(stop.value);
    }
    var preimage, trouble := Read(SortBy(files, PathOf));
    if trouble.Some? {
      return trouble.value;
    }
    r := Available(Sha256(preimage), |files|, total);
  }

  // What the fingerprint means.

  predicate Readable(c: Candidate)
  {
    Trouble(c).None?
  }

  lemma {:induction false} NoTroubleIff(cs: seq<Candidate>)
    ensures FirstTrouble(cs).None? <==> forall c :: c in cs ==> Readable(c)
  {
    if cs != [] {
      NoTroubleIff(cs[1..]);
      assert cs == [cs[0]] + cs[1..] && cs[0] in cs;
    }
  }

  /** When a fingerprint is available: a condition on the entries met, whatever order they come in. */
  predicate InBounds(events: seq<Event>, maxFiles: int, maxBytes: int)
  {
    events == [] || (AllStatted(events) && |events| <= maxFiles && TotalBytes(Files(events)) <= maxBytes)
  }

  lemma AvailableIff(events: seq<Event>, maxFiles: int, maxBytes: int)
    ensures Fingerprint(events, maxFiles, maxBytes).Available? <==>
      InBounds(events, maxFiles, maxBytes) && forall c :: c in Files(events) ==> Readable(c)
  {
    StopsIff(events, 0, 0, maxFiles, maxBytes);
    NoTroubleIff(Ordered(events));
    SortBySorts(Files(events), PathOf);
    assert forall c :: c in Ordered(events) <==> c in multiset(Ordered(events));
    assert forall c :: c in Files(events) <==> c in multiset(Files(events));
    FirstTroubleFails(Ordered(events));
  }

  lemma {:induction false} FirstTroubleFails(cs: seq<Candidate>)
    ensures FirstTrouble(cs).Some? ==> !FirstTrouble(cs).value.Available?
  {
    if cs != [] {
      FirstTroubleFails(cs[1..]);
    }
  }

  lemma {:induction false} FilesCount(events: seq<Event>, c: Candidate)
    ensures multiset(Files(events))[c] == multiset(events)[File(c)]
  {
    if events != [] {
      FilesCount(events[1..], c);
      assert events == [events[0]] + events[1..];
      assert multiset(events) == multiset{events[0]} + multiset(events[1..]);
      assert multiset(Files(events)) ==
        (if events[0].File? then multiset{events[0].candidate} else multiset{}) + multiset(Files(events[1..]));
    }
  }

  lemma FilesOrderFree(a: seq<Event>, b: seq<Event>)
    requires multiset(a) == multiset(b)
    ensures multiset(Files(a)) == multiset(Files(b))
  {
    forall c: Candidate
      ensures multiset(Files(a))[c] == multiset(Files(b))[c]
    {
      FilesCount(a, c);
      FilesCount(b, c);
    }
  }

  lemma {:induction false} TotalOfInsert(cs: seq<Candidate>, c: Candidate)
    ensures TotalBytes(InsertBy(cs, c, PathOf)) == SizeOf(c) + TotalBytes(cs)
  {
    if cs == [] || LessEq(PathOf(c), PathOf(cs[0])) {
      assert ([c] + cs)[1..] == cs;
    } else {
      TotalOfInsert(cs[1..], c);
      assert InsertBy(cs, c, PathOf)[1..] == InsertBy(cs[1..], c, PathOf);
    }
  }

  lemma {:induction false} TotalOfSort(cs: seq<Candidate>)
    ensures TotalBytes(SortBy(cs, PathOf)) == TotalBytes(cs)
  {
    if cs != [] {
      TotalOfSort(cs[1..]);
      TotalOfInsert(SortBy(cs[1..], PathOf), cs[0]);
    }
  }

  /** A path names one state of one file, however often the roots lead to it. */
  ghost predicate Stable(events: seq<Event>)
  {
    KeyDetermines(Files(events), PathOf)
  }

  lemma StablePermuted(a: seq<Event>, b: seq<Event>)
    requires multiset(a) == multiset(b) && Stable(b)
    ensures Stable(a)
  {
    FilesOrderFree(a, b);
    assert forall c :: c in Files(a) ==> c in multiset(Files(a));
    assert forall c :: c in multiset(Files(b)) ==> c in Files(b);
  }

  /** If one order can be collected so can every other, with the same result down to the first trouble in reading. */
  lemma SameWhenCollected(a: seq<Event>, b: seq<Event>, maxFiles: int, maxBytes: int)
    requires multiset(a) == multiset(b) && Stable(a) && Stop(a, 0, 0, maxFiles, maxBytes).None?
    ensures Stop(b, 0, 0, maxFiles, maxBytes).None? && Fingerprint(a, maxFiles, maxBytes) == Fingerprint(b, maxFiles, maxBytes)
  {
    FilesOrderFree(a, b);
    SortByOrderFree(Files(a), Files(b), PathOf);
    TotalOfSort(Files(a));
    TotalOfSort(Files(b));
    SameBounds(a, b, maxFiles, maxBytes);
    StopsIff(a, 0, 0, maxFiles, maxBytes);
    StopsIff(b, 0, 0, maxFiles, maxBytes);
    assert |Files(a)| == |multiset(Files(a))| == |multiset(Files(b))| == |Files(b)|;
  }

  /** Availability, digest, count and total do not depend on the order of the walk. */
  lemma WalkOrderFree(a: seq<Event>, b: seq<Event>, maxFiles: int, maxBytes: int)
    requires multiset(a) == multiset(b) && Stable(a)
    ensures var r, q := Fingerprint(a, maxFiles, maxBytes), Fingerprint(b, maxFiles, maxBytes);
            r.Available? || q.Available? ==> r == q
  {
    StablePermuted(b, a);
    if Stop(a, 0, 0, maxFiles, maxBytes).None? {
      SameWhenCollected(a, b, maxFiles, maxBytes);
    } else if Stop(b, 0, 0, maxFiles, maxBytes).None? {
      SameWhenCollected(b, a, maxFiles, maxBytes);
    }
  }

  lemma SameBounds(a: seq<Event>, b: seq<Event>, maxFiles: int, maxBytes: int)
    requires multiset(a) == multiset(b) && TotalBytes(Files(a)) == TotalBytes(Files(b))
    ensures InBounds(a, maxFiles, maxBytes) <==> InBounds(b, maxFiles, maxBytes)
  {
    assert |a| == |multiset(a)| == |multiset(b)| == |b|;
    assert forall e :: e in a <==> e in multiset(a);
    assert forall e :: e in b <==> e in multiset(b);
  }

  /** The reason for a refusal does depend on the order: a count limit met in one order is a byte limit in the other. */
  lemma ReasonDependsOnOrder(small: Candidate, large: Candidate)
    requires small.stat == Some(Stat(1, 0)) && large.stat == Some(Stat(5, 0))
    ensures Fingerprint([File(small), File(large)], 1, 4) == Unavailable(CountLimit)
    ensures Fingerprint([File(large), File(small)], 1, 4) == Unavailable(ByteLimit)
  {
    assert [File(small), File(large)][1..] == [File(large)];
    assert Stop([File(large)], 1, 1, 1, 4) == Some(CountLimit);
  }

  /** Equal digests mean the same paths with the same contents. */
  lemma SameDigestSameSources(a: seq<Event>, b: seq<Event>, maxFiles: int, maxBytes: int)
    requires Fingerprint(a, maxFiles, maxBytes).Available? && Fingerprint(b, maxFiles, maxBytes).Available?
    requires Fingerprint(a, maxFiles, maxBytes).digest == Fingerprint(b, maxFiles, maxBytes).digest
    ensures |Ordered(a)| == |Ordered(b)|
    ensures forall i :: 0 <= i < |Ordered(a)| ==>
      Ordered(a)[i].path == Ordered(b)[i].path &&
      Ordered(a)[i].reading.Some? && Ordered(b)[i].reading.Some? &&
      Ordered(a)[i].reading.value.content == Ordered(b)[i].reading.value.content
  {
    var x, y := Ordered(a), Ordered(b);
    NoTroubleIff(x);
    NoTroubleIff(y);
    FirstTroubleFails(x);
    FirstTroubleFails(y);
    EntriesFramable(x);
    EntriesFramable(y);
    ParseUndoesPreimage(Entries(x));
    ParseUndoesPreimage(Entries(y));
    assert Entries(x) == Entries(y);
    forall i | 0 <= i < |x|
      ensures x[i].path == y[i].path
    {
      assert Entries(x)[i] == EntryOf(x[i]) && Entries(y)[i] == EntryOf(y[i]);
      EncodeInjective(x[i].path, y[i].path);
    }
    forall i | 0 <= i < |x|
      ensures x[i].reading.Some? && y[i].reading.Some? && x[i].reading.value.content == y[i].reading.value.content
    {
      assert Entries(x)[i] == EntryOf(x[i]) && Entries(y)[i] == EntryOf(y[i]);
      assert Readable(x[i]) && Readable(y[i]);
    }
  }

  lemma EntriesFramable(cs: seq<Candidate>)
    requires forall c :: c in cs ==> Readable(c)
    ensures forall e :: e in Entries(cs) ==> Framable(e)
  {
    forall e | e in Entries(cs)
      ensures Framable(e)
    {
      var i :| 0 <= i < |cs| && Entries(cs)[i] == e;
      assert Readable(cs[i]);
    }
  }
}
