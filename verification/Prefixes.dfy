/** Facts about string prefixes and separators. */
module Prefixes {

  /** A string starts with `a` and a separator only if what precedes its first separator is `a`. */
  lemma FirstSeparatorSplits(c: char, a: string, b: string, y: string)
    requires c !in a && c !in b && a + [c] <= b + [c] + y
    ensures a == b
  {
    var s := b + [c] + y;
    assert s[|a|] == (a + [c])[|a|] == c && s[|b|] == c;
    assert forall i :: 0 <= i < |b| ==> s[i] == b[i];
    assert forall i :: 0 <= i < |a| ==> s[i] == (a + [c])[i] == a[i];
    assert |a| == |b|;
  }

  lemma PrefixCancels(p: string, a: string, b: string)
    ensures p + a <= p + b <==> a <= b
    ensures p + a == p + b <==> a == b
  {
    assert (p + a)[|p|..] == a && (p + b)[|p|..] == b;
    if a <= b {
      assert p + b == p + a + b[|a|..];
    }
    if p + a <= p + b {
      assert (p + b)[..|p| + |a|] == p + a;
      assert b[..|a|] == a;
    }
  }

  lemma SeparatedPrefix(p: string, c: char, a: string, b: string, y: string)
    requires c !in a && c !in b
    ensures p + a + [c] <= p + b + [c] + y <==> a == b
  {
    assert p + a + [c] == p + (a + [c]);
    assert p + b + [c] + y == p + (b + [c] + y);
    PrefixCancels(p, a + [c], b + [c] + y);
    if a + [c] <= b + [c] + y {
      FirstSeparatorSplits(c, a, b, y);
    }
  }

  /** The pieces of a string between its separators. */
  function SplitAt(sep: char, s: string): (r: seq<string>)
    ensures |r| >= 1
  {
    if s == "" then [""] else Attach(sep, s[0], SplitAt(sep, s[1..]))
  }

  /** One more character in front of some pieces. */
  function Attach(sep: char, c: char, pieces: seq<string>): (r: seq<string>)
    requires |pieces| >= 1
    ensures |r| >= 1
  {
    if c == sep then [""] + pieces else [[c] + pieces[0]] + pieces[1..]
  }

  lemma AttachLeft(sep: char, c: char, a: seq<string>, b: seq<string>)
    requires |a| >= 1
    ensures Attach(sep, c, a + b) == Attach(sep, c, a) + b
  {
  }

  /** Around a separator the pieces are those of the left and then those of the right. */
  lemma {:induction false} SplitConcat(sep: char, a: string, b: string)
    ensures SplitAt(sep, a + [sep] + b) == SplitAt(sep, a) + SplitAt(sep, b)
  {
    var s := a + [sep] + b;
    if a == "" {
      assert s[1..] == b;
    } else {
      SplitConcat(sep, a[1..], b);
      assert s[1..] == a[1..] + [sep] + b;
      AttachLeft(sep, a[0], SplitAt(sep, a[1..]), SplitAt(sep, b));
    }
  }

  lemma {:induction false} SplitPlain(sep: char, s: string)
    requires sep !in s
    ensures SplitAt(sep, s) == [s]
  {
    if s != "" {
      SplitPlain(sep, s[1..]);
      assert s == [s[0]] + s[1..];
    }
  }

  /** The last piece is what follows the last separator. */
  lemma {:induction false} LastPiece(sep: char, s: string)
    ensures var ps := SplitAt(sep, s);
            var last := ps[|ps| - 1];
            && sep !in last && |last| <= |s| && s[|s| - |last|..] == last
            && (|last| == |s| <==> |ps| == 1) && (|last| < |s| ==> s[|s| - |last| - 1] == sep)
  {
    if s != "" {
      LastPiece(sep, s[1..]);
      var ps, rest := SplitAt(sep, s), SplitAt(sep, s[1..]);
      var last := rest[|rest| - 1];
      if s[0] == sep || |rest| > 1 {
        assert ps[|ps| - 1] == last;
        assert s[|s| - |last|..] == s[1..][|s| - 1 - |last|..];
      } else {
        assert ps == [[s[0]] + last] && last == s[1..];
        assert s == [s[0]] + s[1..];
      }
    }
  }
}
