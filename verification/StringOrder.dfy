/** Python's order on strings (by code point) and sorting by a string key. */
module StringOrder {

  predicate LessEq(a: string, b: string)
  {
    a == "" || (b != "" && (a[0] < b[0] || (a[0] == b[0] && LessEq(a[1..], b[1..]))))
  }

  lemma {:induction false} Total(a: string, b: string)
    ensures LessEq(a, b) || LessEq(b, a)
  {
    if a != "" && b != "" && a[0] == b[0] {
      Total(a[1..], b[1..]);
    }
  }

  lemma {:induction false} Antisymmetric(a: string, b: string)
    requires LessEq(a, b) && LessEq(b, a)
    ensures a == b
  {
    if a != "" {
      Antisymmetric(a[1..], b[1..]);
      assert a == [a[0]] + a[1..] && b == [b[0]] + b[1..];
    }
  }

  lemma {:induction false} Transitive(a: string, b: string, c: string)
    requires LessEq(a, b) && LessEq(b, c)
    ensures LessEq(a, c)
  {
    if a != "" && a[0] == b[0] == c[0] {
      Transitive(a[1..], b[1..], c[1..]);
    }
  }

  predicate SortedBy<T(!new)>(xs: seq<T>, key: T -> string)
  {
    forall i, j :: 0 <= i < j < |xs| ==> LessEq(key(xs[i]), key(xs[j]))
  }

  function InsertBy<T>(xs: seq<T>, x: T, key: T -> string): seq<T>
  {
    if xs == [] || LessEq(key(x), key(xs[0])) then [x] + xs else [xs[0]] + InsertBy(xs[1..], x, key)
  }

  /** `sorted(xs, key=key)`. */
  function SortBy<T>(xs: seq<T>, key: T -> string): seq<T>
  {
    if xs == [] then [] else InsertBy(SortBy(xs[1..], key), xs[0], key)
  }

  lemma {:induction false} InsertByMultiset<T>(xs: seq<T>, x: T, key: T -> string)
    ensures multiset(InsertBy(xs, x, key)) == multiset(xs) + multiset{x}
  {
    if xs != [] && !LessEq(key(x), key(xs[0])) {
      InsertByMultiset(xs[1..], x, key);
      assert xs == [xs[0]] + xs[1..];
    }
  }

  lemma {:induction false} InsertBySorted<T(!new)>(xs: seq<T>, x: T, key: T -> string)
    requires SortedBy(xs, key)
    ensures SortedBy(InsertBy(xs, x, key), key)
  {
    if xs == [] {
    } else if LessEq(key(x), key(xs[0])) {
      forall j | 0 <= j < |xs|
        ensures LessEq(key(x), key(xs[j]))
      {
        if j > 0 {
          Transitive(key(x), key(xs[0]), key(xs[j]));
        }
      }
    } else {
      Total(key(x), key(xs[0]));
      var rest := InsertBy(xs[1..], x, key);
      InsertBySorted(xs[1..], x, key);
      InsertByMultiset(xs[1..], x, key);
      forall j | 0 <= j < |rest|
        ensures LessEq(key(xs[0]), key(rest[j]))
      {
        assert rest[j] in multiset(xs[1..]) + multiset{x};
      }
    }
  }

  /** Sorting yields a sorted rearrangement. */
  lemma {:induction false} SortBySorts<T(!new)>(xs: seq<T>, key: T -> string)
    ensures multiset(SortBy(xs, key)) == multiset(xs)
    ensures SortedBy(SortBy(xs, key), key)
  {
    if xs != [] {
      SortBySorts(xs[1..], key);
      InsertBySorted(SortBy(xs[1..], key), xs[0], key);
      InsertByMultiset(SortBy(xs[1..], key), xs[0], key);
      assert xs == [xs[0]] + xs[1..];
    }
  }

  ghost predicate KeyDetermines<T(!new)>(xs: seq<T>, key: T -> string)
  {
    forall x, y :: x in xs && y in xs && key(x) == key(y) ==> x == y
  }

  lemma HeadIsLeast<T(!new)>(xs: seq<T>, x: T, key: T -> string)
    requires SortedBy(xs, key) && x in multiset(xs)
    ensures |xs| > 0 && LessEq(key(xs[0]), key(x))
  {
    Total(key(x), key(x));
  }

  lemma TailMultiset<T>(xs: seq<T>)
    requires |xs| > 0
    ensures multiset(xs[1..]) == multiset(xs) - multiset{xs[0]}
  {
    assert xs == [xs[0]] + xs[1..];
  }

  lemma TailSorted<T(!new)>(xs: seq<T>, key: T -> string)
    requires |xs| > 0 && SortedBy(xs, key)
    ensures SortedBy(xs[1..], key)
  {
  }

  lemma TailKeyed<T(!new)>(xs: seq<T>, key: T -> string)
    requires |xs| > 0 && KeyDetermines(xs, key)
    ensures KeyDetermines(xs[1..], key)
  {
    forall x, y | x in xs[1..] && y in xs[1..] && key(x) == key(y)
      ensures x == y
    {
      assert x in xs && y in xs;
    }
  }

  lemma SameHead<T(!new)>(a: seq<T>, b: seq<T>, key: T -> string)
    requires multiset(a) == multiset(b) && |a| > 0 && |b| > 0
    requires SortedBy(a, key) && SortedBy(b, key) && KeyDetermines(a, key)
    ensures a[0] == b[0]
  {
    assert b[0] in multiset(b) && a[0] in multiset(a);
    HeadIsLeast(a, b[0], key);
    HeadIsLeast(b, a[0], key);
    Antisymmetric(key(a[0]), key(b[0]));
    assert b[0] in a;
  }

  lemma SameParts<T>(a: seq<T>, b: seq<T>)
    requires |a| > 0 && |b| > 0 && a[0] == b[0] && a[1..] == b[1..]
    ensures a == b
  {
    assert a == [a[0]] + a[1..] && b == [b[0]] + b[1..];
  }

  /** A sorted list is determined by what it holds, if equal keys mean equal elements. */
  lemma {:induction false} SortedUnique<T(!new)>(a: seq<T>, b: seq<T>, key: T -> string)
    requires multiset(a) == multiset(b) && SortedBy(a, key) && SortedBy(b, key) && KeyDetermines(a, key)
    ensures a == b
  {
    assert |a| == |multiset(a)| == |multiset(b)| == |b|;
    if a != [] {
      SameHead(a, b, key);
      TailMultiset(a);
      TailMultiset(b);
      TailSorted(a, key);
      TailSorted(b, key);
      TailKeyed(a, key);
      SortedUnique(a[1..], b[1..], key);
      SameParts(a, b);
    }
  }

  /** Sorting forgets the order its input came in. */
  lemma SortByOrderFree<T(!new)>(a: seq<T>, b: seq<T>, key: T -> string)
    requires multiset(a) == multiset(b) && KeyDetermines(a, key)
    ensures SortBy(a, key) == SortBy(b, key)
  {
    SortBySorts(a, key);
    SortBySorts(b, key);
    forall x | x in SortBy(a, key)
      ensures x in a
    {
      assert x in multiset(SortBy(a, key));
    }
    SortedUnique(SortBy(a, key), SortBy(b, key), key);
  }
}
