/** URL-safe base64 (section 5 of RFC 4648) with the padding stripped, and its decoder. */
module Base64Url {
  import opened Text
  import opened Utf8

  predicate Sextet(v: int)
  {
    0 <= v < 64
  }

  function Digit(v: int): char
    requires Sextet(v)
  {
    if v < 26 then ('A' as int + v) as char
    else if v < 52 then ('a' as int + v - 26) as char
    else if v < 62 then ('0' as int + v - 52) as char
    else if v == 62 then '-' else '_'
  }

  function DigitValue(c: char): Option<int>
  {
    if 'A' <= c <= 'Z' then Some(c as int - 'A' as int)
    else if 'a' <= c <= 'z' then Some(c as int - 'a' as int + 26)
    else if '0' <= c <= '9' then Some(c as int - '0' as int + 52)
    else if c == '-' then Some(62)
    else if c == '_' then Some(63)
    else None
  }

  const UPPER := "ABCDEFGHIJKLMNOPQRSTUVWXYZ"
  const LOWER := "abcdefghijklmnopqrstuvwxyz"
  const DIGITS := "0123456789"

  /** The alphabet is the table of section 5 of RFC 4648. */
  lemma AlphabetIsTable(v: int)
    requires Sextet(v)
    ensures |UPPER| == |LOWER| == 26 && |DIGITS| == 10
    ensures Digit(v) == (UPPER + LOWER + DIGITS + "-_")[v]
  {
  }

  predicate InAlphabet(s: string)
  {
    forall c :: c in s ==> DigitValue(c).Some?
  }

  function Group(x: Byte, y: Byte, z: Byte): string
  {
    [Digit(x / 4), Digit(x % 4 * 16 + y / 16), Digit(y % 16 * 4 + z / 64), Digit(z % 64)]
  }

  /** `base64.urlsafe_b64encode`: groups of three bytes, the last one padded with `=`. */
  function Padded(bs: seq<Byte>): string
  {
    if bs == [] then ""
    else if |bs| == 1 then [Digit(bs[0] / 4), Digit(bs[0] % 4 * 16), '=', '=']
    else if |bs| == 2 then
      [Digit(bs[0] / 4), Digit(bs[0] % 4 * 16 + bs[1] / 16), Digit(bs[1] % 16 * 4), '=']
    else Group(bs[0], bs[1], bs[2]) + Padded(bs[3..])
  }

  /** A group writes the 24 bits of its bytes in four digits, highest first. */
  lemma GroupValue(x: Byte, y: Byte, z: Byte)
    ensures forall i :: 0 <= i < 4 ==> DigitValue(Group(x, y, z)[i]).Some?
    ensures var g := Group(x, y, z);
            262144 * DigitValue(g[0]).value + 4096 * DigitValue(g[1]).value + 64 * DigitValue(g[2]).value
            + DigitValue(g[3]).value == 65536 * x + 256 * y + z
  {
    DigitRoundTrip(x / 4);
    DigitRoundTrip(x % 4 * 16 + y / 16);
    DigitRoundTrip(y % 16 * 4 + z / 64);
    DigitRoundTrip(z % 64);
    assert x == 4 * (x / 4) + x % 4 && y == 16 * (y / 16) + y % 16 && z == 64 * (z / 64) + z % 64;
  }

  /** `rstrip(b"=")`. */
  function Stripped(s: string): string
  {
    if s != "" && s[|s| - 1] == '=' then Stripped(s[..|s| - 1]) else s
  }

  function Encode(bs: seq<Byte>): string
  {
    Stripped(Padded(bs))
  }

  /** Undo `Encode`. */
  function Decode(s: string): Option<seq<Byte>>
    decreases |s|
  {
    if s == "" then Some([])
    else if |s| < 2 then None
    else
      var a, b := DigitValue(s[0]), DigitValue(s[1]);
      if a.None? || b.None? then None
      else if |s| == 2 then Some([First(a.value, b.value)])
      else
        var c := DigitValue(s[2]);
        if c.None? then None
        else if |s| == 3 then Some([First(a.value, b.value), Second(b.value, c.value)])
        else
          var d, rest := DigitValue(s[3]), Decode(s[4..]);
          if d.None? || rest.None? then None
          else Some([First(a.value, b.value), Second(b.value, c.value), Third(c.value, d.value)] + rest.value)
  }

  function First(a: int, b: int): Byte
  {
    (a * 4 + b / 16) % 256
  }

  function Second(b: int, c: int): Byte
  {
    (b % 16 * 16 + c / 4) % 256
  }

  function Third(c: int, d: int): Byte
  {
    (c % 4 * 64 + d) % 256
  }

  lemma DigitRoundTrip(v: int)
    requires Sextet(v)
    ensures DigitValue(Digit(v)) == Some(v) && Digit(v) != '='
  {
  }

  /** The three bytes of a group come back from its four digits. */
  lemma GroupRoundTrip(x: Byte, y: Byte, z: Byte)
    ensures First(x / 4, x % 4 * 16 + y / 16) == x
    ensures Second(x % 4 * 16 + y / 16, y % 16 * 4 + z / 64) == y
    ensures Third(y % 16 * 4 + z / 64, z % 64) == z
  {
    Digits(x % 4, y / 16, 16);
    Digits(y % 16, z / 64, 4);
  }

  lemma Digits(high: int, low: int, base: int)
    requires 0 <= low < base && (base == 4 || base == 16)
    ensures (high * base + low) / base == high && (high * base + low) % base == low
  {
  }

  /** The encoding without its padding, group by group. */
  function Unpadded(bs: seq<Byte>): string
  {
    if bs == [] then ""
    else if |bs| == 1 then [Digit(bs[0] / 4), Digit(bs[0] % 4 * 16)]
    else if |bs| == 2 then [Digit(bs[0] / 4), Digit(bs[0] % 4 * 16 + bs[1] / 16), Digit(bs[1] % 16 * 4)]
    else Group(bs[0], bs[1], bs[2]) + Unpadded(bs[3..])
  }

  lemma StrippedKeeps(s: string)
    requires s == "" || s[|s| - 1] != '='
    ensures Stripped(s) == s && Stripped(s + "=") == s && Stripped(s + "==") == s
  {
    assert (s + "=")[..|s|] == s;
    assert (s + "==")[..|s| + 1] == s + "=";
  }

  function Padding(n: nat): string
  {
    if n % 3 == 0 then "" else if n % 3 == 1 then "==" else "="
  }

  lemma {:induction false} PaddedIsUnpaddedPlus(bs: seq<Byte>)
    ensures Padded(bs) == Unpadded(bs) + Padding(|bs|)
  {
    if |bs| >= 3 {
      PaddedIsUnpaddedPlus(bs[3..]);
      assert Padding(|bs|) == Padding(|bs| - 3);
    }
  }

  lemma GroupInAlphabet(x: Byte, y: Byte, z: Byte)
    ensures InAlphabet(Group(x, y, z))
  {
    DigitRoundTrip(x / 4);
    DigitRoundTrip(x % 4 * 16 + y / 16);
    DigitRoundTrip(y % 16 * 4 + z / 64);
    DigitRoundTrip(z % 64);
  }

  /** Only letters, digits, `-` and `_`: no dot and no padding. */
  lemma {:induction false} UnpaddedInAlphabet(bs: seq<Byte>)
    ensures InAlphabet(Unpadded(bs))
  {
    if |bs| == 1 {
      DigitRoundTrip(bs[0] / 4);
      DigitRoundTrip(bs[0] % 4 * 16);
    } else if |bs| == 2 {
      DigitRoundTrip(bs[0] / 4);
      DigitRoundTrip(bs[0] % 4 * 16 + bs[1] / 16);
      DigitRoundTrip(bs[1] % 16 * 4);
    } else if |bs| >= 3 {
      GroupInAlphabet(bs[0], bs[1], bs[2]);
      UnpaddedInAlphabet(bs[3..]);
    }
  }

  /** Stripping removes the padding and nothing else. */
  lemma EncodeIsUnpadded(bs: seq<Byte>)
    ensures Encode(bs) == Unpadded(bs) && InAlphabet(Encode(bs))
  {
    var s := Unpadded(bs);
    PaddedIsUnpaddedPlus(bs);
    UnpaddedInAlphabet(bs);
    assert s == "" || s[|s| - 1] in s;
    StrippedKeeps(s);
    assert s + "" == s;
  }

  lemma DecodeGroup(x: Byte, y: Byte, z: Byte, rest: string)
    requires Decode(rest).Some?
    ensures Decode(Group(x, y, z) + rest) == Some([x, y, z] + Decode(rest).value)
  {
    DigitRoundTrip(x / 4);
    DigitRoundTrip(x % 4 * 16 + y / 16);
    DigitRoundTrip(y % 16 * 4 + z / 64);
    DigitRoundTrip(z % 64);
    GroupRoundTrip(x, y, z);
    assert (Group(x, y, z) + rest)[4..] == rest;
  }

  lemma {:induction false} DecodeUnpadded(bs: seq<Byte>)
    ensures Decode(Unpadded(bs)) == Some(bs)
  {
    if |bs| == 1 {
      DigitRoundTrip(bs[0] / 4);
      DigitRoundTrip(bs[0] % 4 * 16);
      GroupRoundTrip(bs[0], 0, 0);
      assert bs == [bs[0]];
    } else if |bs| == 2 {
      DigitRoundTrip(bs[0] / 4);
      DigitRoundTrip(bs[0] % 4 * 16 + bs[1] / 16);
      DigitRoundTrip(bs[1] % 16 * 4);
      GroupRoundTrip(bs[0], bs[1], 0);
      assert bs == [bs[0], bs[1]];
    } else if |bs| >= 3 {
      DecodeUnpadded(bs[3..]);
      DecodeGroup(bs[0], bs[1], bs[2], Unpadded(bs[3..]));
      assert bs == [bs[0], bs[1], bs[2]] + bs[3..];
    }
  }

  /** Unpadded URL-safe base64 round-trips on every byte string. */
  lemma RoundTrip(bs: seq<Byte>)
    ensures Decode(Encode(bs)) == Some(bs)
  {
    EncodeIsUnpadded(bs);
    DecodeUnpadded(bs);
  }
}
