/** Optional values and the string tests the acceptance scripts apply to identifiers. */
module Text {

  datatype Option<+T> = None | Some(value: T)

  /** Python's `str.isspace` on one character. */
  predicate IsSpace(c: char)
  {
    var n := c as int;
    9 <= n <= 13 || 28 <= n <= 32 || n == 0x85 || n == 0xa0 || n == 0x1680 || 0x2000 <= n <= 0x200a
    || n == 0x2028 || n == 0x2029 || n == 0x202f || n == 0x205f || n == 0x3000
  }

  /** `not s.strip()`. */
  predicate Blank(s: string)
  {
    forall i :: 0 <= i < |s| ==> IsSpace(s[i])
  }

  predicate BlankOption(s: Option<string>)
  {
    s.None? || Blank(s.value)
  }

  predicate IsAlnum(c: char)
  {
    'a' <= c <= 'z' || 'A' <= c <= 'Z' || '0' <= c <= '9'
  }

  /** `[A-Za-z0-9][A-Za-z0-9_.-]{0,127}`. */
  predicate IsContainerSelector(s: string)
  {
    && 1 <= |s| <= 128
    && IsAlnum(s[0])
    && forall i :: 0 <= i < |s| ==> IsAlnum(s[i]) || s[i] == '_' || s[i] == '.' || s[i] == '-'
  }

  lemma SelectorIsNotBlank(s: string)
    requires IsContainerSelector(s)
    ensures !Blank(s)
  {
    assert !IsSpace(s[0]);
  }

  /** Counts one for a fact that holds. */
  function One(b: bool): nat
  {
    if b then 1 else 0
  }

  /** The number of places whose element satisfies `p`. */
  ghost function Number<T>(xs: seq<T>, p: T -> bool): nat
  {
    |set i | 0 <= i < |xs| && p(xs[i])|
  }

  lemma NumberIs<T>(xs: seq<T>, p: T -> bool, places: set<int>)
    requires forall i :: i in places <==> 0 <= i < |xs| && p(xs[i])
    ensures Number(xs, p) == |places|
  {
    assert places == set i | 0 <= i < |xs| && p(xs[i]);
  }

  lemma {:induction false} NumberAll<T>(xs: seq<T>, p: T -> bool)
    ensures Number(xs, p) <= |xs|
    ensures Number(xs, p) == |xs| <==> forall i :: 0 <= i < |xs| ==> p(xs[i])
  {
    if xs != [] {
      var n := |xs| - 1;
      NumberAll(xs[..n], p);
      NumberLast(xs, p);
      assert forall i :: 0 <= i < n ==> xs[..n][i] == xs[i];
    }
  }

  lemma NumberNone<T>(xs: seq<T>, p: T -> bool)
    ensures Number(xs, p) == 0 <==> forall i :: 0 <= i < |xs| ==> !p(xs[i])
  {
    var places := set i | 0 <= i < |xs| && p(xs[i]);
    NumberIs(xs, p, places);
    if i :| 0 <= i < |xs| && p(xs[i]) {
      assert i in places;
    }
  }

  lemma NumberLast<T>(xs: seq<T>, p: T -> bool)
    requires xs != []
    ensures Number(xs, p) == Number(xs[..|xs| - 1], p) + One(p(xs[|xs| - 1]))
  {
    var n := |xs| - 1;
    var front, all := set i | 0 <= i < n && p(xs[..n][i]), set i | 0 <= i < |xs| && p(xs[i]);
    assert all == front + if p(xs[n]) then {n} else {};
  }
}
