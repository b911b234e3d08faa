/** UTF-8 (RFC 3629) as Python's `str.encode` produces it, with a decoder that undoes it. */
module Utf8 {
  import opened Text

  type Byte = b: int | 0 <= b < 256

  function EncodeChar(c: char): seq<Byte>
  {
    var u := c as int;
    if u < 0x80 then [u]
    else if u < 0x800 then [0xC0 + u / 64, 0x80 + u % 64]
    else if u < 0x10000 then [0xE0 + u / 4096, 0x80 + u / 64 % 64, 0x80 + u % 64]
    else [0xF0 + u / 262144, 0x80 + u / 4096 % 64, 0x80 + u / 64 % 64, 0x80 + u % 64]
  }

  function Encode(s: string): seq<Byte>
  {
    if s == "" then [] else EncodeChar(s[0]) + Encode(s[1..])
  }

  predicate IsScalar(u: int)
  {
    0 <= u < 0xD800 || 0xE000 <= u < 0x110000
  }

  /** How many bytes a sequence starting with `b` takes. */
  function Width(b: Byte): nat
  {
    if b < 0x80 then 1 else if b < 0xE0 then 2 else if b < 0xF0 then 3 else 4
  }

  function CodePoint(bs: seq<int>): int
    requires 1 <= |bs| <= 4
  {
    if |bs| == 1 then bs[0]
    else if |bs| == 2 then (bs[0] - 0xC0) * 64 + (bs[1] - 0x80)
    else if |bs| == 3 then (bs[0] - 0xE0) * 4096 + (bs[1] - 0x80) * 64 + (bs[2] - 0x80)
    else (bs[0] - 0xF0) * 262144 + (bs[1] - 0x80) * 4096 + (bs[2] - 0x80) * 64 + (bs[3] - 0x80)
  }

  /** Undo `Encode`; it need not reject every malformed input. */
  function Decode(bs: seq<Byte>): Option<string>
  {
    if bs == [] then Some("") else
    var w := Width(bs[0]);
    if w > |bs| then None else
    var u := CodePoint(bs[..w]);
    var rest := Decode(bs[w..]);
    if rest.None? || !IsScalar(u) then None else Some([u as char] + rest.value)
  }

  lemma CharRoundTrip(c: char)
    ensures 1 <= |EncodeChar(c)| <= 4 && Width(EncodeChar(c)[0]) == |EncodeChar(c)|
    ensures CodePoint(EncodeChar(c)) == c as int && IsScalar(c as int)
  {
    var u := c as int;
    assert u == u / 64 * 64 + u % 64;
    assert u / 64 == u / 4096 * 64 + u / 64 % 64;
    assert u / 4096 == u / 262144 * 64 + u / 4096 % 64;
  }

  predicate Continuation(b: int)
  {
    0x80 <= b < 0xC0
  }

  /** The ranges of section 3 of RFC 3629: the length by the code point, the lead byte by the length. */
  lemma EncodingShape(c: char)
    ensures var u, bs := c as int, EncodeChar(c);
            && (u < 0x80 <==> |bs| == 1) && (0x80 <= u < 0x800 <==> |bs| == 2)
            && (0x800 <= u < 0x10000 <==> |bs| == 3) && (0x10000 <= u <==> |bs| == 4)
            && (|bs| == 1 ==> bs[0] < 0x80) && (|bs| == 2 ==> 0xC2 <= bs[0] <= 0xDF)
            && (|bs| == 3 ==> 0xE0 <= bs[0] <= 0xEF) && (|bs| == 4 ==> 0xF0 <= bs[0] <= 0xF4)
            && forall i :: 0 < i < |bs| ==> Continuation(bs[i])
  {
  }

  lemma KnownEncodings()
    ensures EncodeChar('$') == [0x24] && EncodeChar('\U{00A2}') == [0xC2, 0xA2]
    ensures EncodeChar('\U{20AC}') == [0xE2, 0x82, 0xAC] && EncodeChar('\U{10348}') == [0xF0, 0x90, 0x8D, 0x88]
  {
  }

  lemma {:induction false} RoundTrip(s: string)
    ensures Decode(Encode(s)) == Some(s)
  {
    if s != "" {
      var head := EncodeChar(s[0]);
      CharRoundTrip(s[0]);
      RoundTrip(s[1..]);
      assert Encode(s)[..|head|] == head && Encode(s)[|head|..] == Encode(s[1..]);
      assert s == [s[0]] + s[1..];
    }
  }

  lemma EncodeInjective(s: string, t: string)
    requires Encode(s) == Encode(t)
    ensures s == t
  {
    RoundTrip(s);
    RoundTrip(t);
  }
}
