/** UTF-8 encoding of text, as `String.getBytes("UTF-8")` produces it, and a decoder
    that undoes it. A Dafny `char` is a Unicode scalar value, so every character of
    a model string has a well-defined encoding of one to four bytes. */
module Utf8 {
  import opened Wrappers
  import opened Protocol

  predicate IsAscii(c: char) {
    c as int < 0x80
  }

  predicate IsContinuation(b: byte) {
    0x80 <= b < 0xC0
  }

  /** The bytes of one scalar value, lead byte first. */
  function EncodeChar(c: char): (b: seq<byte>)
    ensures 1 <= |b| <= 4
    ensures |b| == 1 <==> IsAscii(c)
    ensures IsAscii(c) ==> b == [c as int]
  {
    var v := c as int;
    if v < 0x80 then
      [v]
    else if v < 0x800 then
      [0xC0 + v / 64, 0x80 + v % 64]
    else if v < 0x1_0000 then
      [0xE0 + (v / 64) / 64, 0x80 + (v / 64) % 64, 0x80 + v % 64]
    else
      [0xF0 + ((v / 64) / 64) / 64, 0x80 + ((v / 64) / 64) % 64, 0x80 + (v / 64) % 64, 0x80 + v % 64]
  }

  /** `String.getBytes("UTF-8")`: each character takes one to four bytes, an ASCII
      character exactly one. */
  function Encode(s: string): (b: seq<byte>)
    ensures |s| <= |b| <= 4 * |s|
    ensures |b| == |s| <==> forall i :: 0 <= i < |s| ==> IsAscii(s[i])
    decreases |s|
  {
    if s == [] then [] else EncodeChar(s[0]) + Encode(s[1..])
  }

  /** The character the leading bytes of `b` encode, with the number of bytes it takes;
      `None` for a malformed, overlong or surrogate encoding. */
  function DecodeChar(b: seq<byte>): (r: Option<(char, nat)>)
    ensures r.Some? ==> 1 <= r.value.1 <= |b|
  {
    if |b| == 0 then None
    else
      var b0: int := b[0];
      if b0 < 0x80 then
        Some((b0 as char, 1))
      else if 0xC0 <= b0 < 0xE0 && |b| >= 2 && IsContinuation(b[1]) then
        var v := (b0 - 0xC0) * 64 + (b[1] as int - 0x80);
        if v < 0x80 then None else Some((v as char, 2))
      else if 0xE0 <= b0 < 0xF0 && |b| >= 3 && IsContinuation(b[1]) && IsContinuation(b[2]) then
        var v := ((b0 - 0xE0) * 64 + (b[1] as int - 0x80)) * 64 + (b[2] as int - 0x80);
        if v < 0x800 || 0xD800 <= v < 0xE000 then None else Some((v as char, 3))
      else if 0xF0 <= b0 < 0xF5 && |b| >= 4 && IsContinuation(b[1]) && IsContinuation(b[2])
           && IsContinuation(b[3]) then
        var v := (((b0 - 0xF0) * 64 + (b[1] as int - 0x80)) * 64 + (b[2] as int - 0x80)) * 64
                 + (b[3] as int - 0x80);
        if 0x1_0000 <= v < 0x11_0000 then Some((v as char, 4)) else None
      else
        None
  }

  /** The text `b` encodes, or `None` when `b` is not well-formed UTF-8. */
  function Decode(b: seq<byte>): Option<string>
    decreases |b|
  {
    if b == [] then Some([])
    else
      match DecodeChar(b)
      case None => None
      case Some((c, n)) =>
        match Decode(b[n..])
        case None => None
        case Some(rest) => Some([c] + rest)
  }

  lemma DecodeEncodeChar(c: char, rest: seq<byte>)
    ensures DecodeChar(EncodeChar(c) + rest) == Some((c, |EncodeChar(c)|))
  {
    var v := c as int;
    var b := EncodeChar(c) + rest;
    if v < 0x80 {
    } else if v < 0x800 {
      assert (b[0] as int - 0xC0) * 64 + (b[1] as int - 0x80) == v;
    } else if v < 0x1_0000 {
      var q := v / 64;
      assert (b[0] as int - 0xE0) * 64 + (b[1] as int - 0x80) == q;
      assert q * 64 + (b[2] as int - 0x80) == v;
    } else {
      var q := v / 64;
      var q2 := q / 64;
      assert (b[0] as int - 0xF0) * 64 + (b[1] as int - 0x80) == q2;
      assert q2 * 64 + (b[2] as int - 0x80) == q;
      assert q * 64 + (b[3] as int - 0x80) == v;
    }
  }

  /** Decoding inverts encoding. */
  lemma {:induction false} DecodeEncode(s: string)
    ensures Decode(Encode(s)) == Some(s)
    decreases |s|
  {
    if s != [] {
      var e := EncodeChar(s[0]);
      DecodeEncodeChar(s[0], Encode(s[1..]));
      assert (e + Encode(s[1..]))[|e|..] == Encode(s[1..]);
      DecodeEncode(s[1..]);
      assert [s[0]] + s[1..] == s;
    }
  }

  /** Encoding is compositional: the bytes of a concatenation are the concatenation of the bytes. */
  lemma {:induction false} EncodeConcat(a: string, b: string)
    ensures Encode(a + b) == Encode(a) + Encode(b)
    decreases |a|
  {
    if a != [] {
      assert (a + b)[0] == a[0];
      assert (a + b)[1..] == a[1..] + b;
      EncodeConcat(a[1..], b);
      calc {
        Encode(a + b);
        EncodeChar(a[0]) + Encode(a[1..] + b);
        EncodeChar(a[0]) + (Encode(a[1..]) + Encode(b));
        (EncodeChar(a[0]) + Encode(a[1..])) + Encode(b);
      }
    } else {
      assert a + b == b;
    }
  }

  /** Text made only of ASCII characters takes one byte per character, each byte
      being the character's code. */
  lemma {:induction false} EncodeAscii(s: string)
    requires forall i :: 0 <= i < |s| ==> IsAscii(s[i])
    ensures |Encode(s)| == |s|
    ensures forall i :: 0 <= i < |s| ==> Encode(s)[i] == s[i] as int
    decreases |s|
  {
    if s != [] {
      EncodeAscii(s[1..]);
    }
  }
}
