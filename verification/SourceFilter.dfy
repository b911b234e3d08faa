/** Which paths of a checkout are source inputs: the ignored files, directories and suffixes. */
module SourceFilter {
  import opened Prefixes

  const IGNORED_FILES := {"deploy/runtime-gate.yaml"}
  const IGNORED_DIRS :=
    {"__pycache__", ".mypy_cache", ".pytest_cache", ".ruff_cache", ".cache", "cache", "runs", "secrets"}
  const IGNORED_SUFFIXES := {".pyc", ".pyo"}

  /**
   * `str.lower` as far as it decides equality with the names above: the one other character whose lower
   * case is an ASCII letter is the Kelvin sign, and none of the names holds a `k`.
   */
  function LowerChar(c: char): char
  {
    if 'A' <= c <= 'Z' then (c as int + 32) as char else c
  }

  function Lower(s: string): string
  {
    seq(|s|, i requires 0 <= i < |s| => LowerChar(s[i]))
  }

  /** The parts of a relative path. */
  function Parts(path: string): seq<string>
  {
    SplitAt('/', path)
  }

  /** `PurePath.suffix`: from the last dot, unless it starts or ends the name. */
  function Suffix(name: string): string
  {
    var i := LastDot(name, |name|);
    if 0 < i < |name| - 1 then name[i..] else ""
  }

  /** The last dot below `n`, or -1. */
  function LastDot(name: string, n: nat): (i: int)
    requires n <= |name|
    ensures -1 <= i < n && (i >= 0 ==> name[i] == '.')
    ensures forall k :: i < k < n ==> name[k] != '.'
  {
    if n == 0 then -1 else if name[n - 1] == '.' then n - 1 else LastDot(name, n - 1)
  }

  predicate NameIgnored(parts: seq<string>)
  {
    exists i :: 0 <= i < |parts| && Lower(parts[i]) in IGNORED_DIRS
  }

  predicate InIgnoredDir(path: string)
  {
    NameIgnored(Parts(path))
  }

  /** `_is_ignored_path`. */
  predicate Ignored(path: string)
  {
    Lower(path) in IGNORED_FILES || InIgnoredDir(path)
  }

  predicate IgnoredSuffix(path: string)
  {
    var parts := Parts(path);
    Lower(Suffix(parts[|parts| - 1])) in IGNORED_SUFFIXES
  }

  lemma NameIgnoredConcat(a: seq<string>, b: seq<string>)
    ensures NameIgnored(a + b) <==> NameIgnored(a) || NameIgnored(b)
  {
    if i :| 0 <= i < |a| && Lower(a[i]) in IGNORED_DIRS {
      assert (a + b)[i] == a[i];
    }
    if i :| 0 <= i < |b| && Lower(b[i]) in IGNORED_DIRS {
      assert (a + b)[|a| + i] == b[i];
    }
  }

  /** A path is inside an ignored directory exactly when some part of it, above or below any cut, names one. */
  lemma IgnoredBelowIff(dir: string, rest: string)
    ensures InIgnoredDir(dir + "/" + rest) <==> InIgnoredDir(dir) || InIgnoredDir(rest)
  {
    SplitConcat('/', dir, rest);
    NameIgnoredConcat(Parts(dir), Parts(rest));
  }

  /** The path ends in `.pyc` or `.pyo`, in any case, after at least one character of the name. */
  predicate EndsAsBytecode(path: string)
  {
    |path| >= 5 && path[|path| - 5] != '/' && Lower(path[|path| - 4..]) in {".pyc", ".pyo"}
  }

  lemma SuffixEnds(name: string)
    ensures Lower(Suffix(name)) in IGNORED_SUFFIXES <==> |name| >= 5 && Lower(name[|name| - 4..]) in IGNORED_SUFFIXES
  {
    var i := LastDot(name, |name|);
    if Lower(Suffix(name)) in IGNORED_SUFFIXES {
      assert |Lower(Suffix(name))| == 4 && Suffix(name) == name[i..];
    }
    if |name| >= 5 && Lower(name[|name| - 4..]) in IGNORED_SUFFIXES {
      var end := name[|name| - 4..];
      assert Lower(end)[0] == LowerChar(end[0]) == '.' && Lower(end)[1] == LowerChar(end[1]) == 'p';
      assert Lower(end)[2] == LowerChar(end[2]) == 'y' && Lower(end)[3] == LowerChar(end[3]) != '.';
      assert end[0] == '.' && end[1] != '.' && end[2] != '.' && end[3] != '.';
      assert name[|name| - 4] == '.' && name[|name| - 3] == end[1] && name[|name| - 2] == end[2] && name[|name| - 1] == end[3];
      assert i == |name| - 4;
    }
  }

  /** The suffix filter drops exactly the compiled files, by their ending. */
  lemma BytecodeIff(path: string)
    ensures IgnoredSuffix(path) <==> EndsAsBytecode(path)
  {
    var parts := Parts(path);
    var name := parts[|parts| - 1];
    LastPiece('/', path);
    SuffixEnds(name);
    if |name| >= 5 {
      assert name[|name| - 4..] == path[|path| - 4..] && path[|path| - 5] == name[|name| - 5];
    } else if |path| >= 5 && path[|path| - 5] != '/' && Lower(path[|path| - 4..]) in IGNORED_SUFFIXES {
      SlashNotLower(path[|path| - 4..]);
      assert false;
    }
  }

  lemma SlashNotLower(end: string)
    requires Lower(end) in IGNORED_SUFFIXES
    ensures |end| == 4 && '/' !in end
  {
    assert |end| == |Lower(end)| == 4;
    assert forall i :: 0 <= i < 4 ==> Lower(end)[i] == LowerChar(end[i]);
    assert forall i :: 0 <= i < 4 ==> Lower(end)[i] != '/';
  }
}
