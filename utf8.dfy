/**
  UTF-8 as the runtime uses it: `Buffer.from(s, "utf8")` and `TextEncoder` encode a
  string, and `buf.toString("utf8")` and `TextDecoder` decode bytes, replacing every
  maximal ill-formed subpart with U+FFFD (the WHATWG Encoding Standard's UTF-8 decoder).
  A Dafny `char` is a Unicode scalar value, so every string has an encoding.
*/
module Utf8 {

  type Byte = x: int | 0 <= x < 0x100

  const Replacement: char := 0xFFFD as char

  /** The one to four bytes of one scalar value. */
  function EncodeChar(c: char): (r: seq<Byte>)
    ensures 1 <= |r| <= 4
    ensures |r| == 1 <==> (c as int) < 0x80
  {
    var x := c as int;
    if x < 0x80 then
      [x]
    else if x < 0x800 then
      [0xC0 + x / 64, 0x80 + x % 64]
    else if x < 0x1_0000 then
      [0xE0 + x / 64 / 64, 0x80 + x / 64 % 64, 0x80 + x % 64]
    else
      [0xF0 + x / 64 / 64 / 64, 0x80 + x / 64 / 64 % 64, 0x80 + x / 64 % 64, 0x80 + x % 64]
  }

  function Encode(s: string): (r: seq<Byte>)
    ensures |r| >= |s|
  {
    if s == [] then [] else EncodeChar(s[0]) + Encode(s[1..])
  }

  predicate IsContinuation(b: Byte) {
    0x80 <= b < 0xC0
  }

  /** The range the byte after a three- or four-byte lead must fall in (it excludes
      overlong forms, surrogates and values above U+10FFFF). */
  function SecondLow(lead: Byte): Byte {
    if lead == 0xE0 then 0xA0 else if lead == 0xF0 then 0x90 else 0x80
  }

  function SecondHigh(lead: Byte): Byte {
    if lead == 0xED then 0x9F else if lead == 0xF4 then 0x8F else 0xBF
  }

  /** One step of the decoder: the next character (U+FFFD for an ill-formed subpart) and
      how many bytes it consumes. A byte that breaks a sequence is not consumed. */
  function DecodeStep(b: seq<Byte>): (r: (char, nat))
    requires |b| > 0
    ensures 1 <= r.1 <= |b|
  {
    var b0: int := b[0];
    if b0 < 0x80 then
      (b0 as char, 1)
    else if 0xC2 <= b0 <= 0xDF then
      if |b| >= 2 && IsContinuation(b[1]) then
        (((b0 - 0xC0) * 64 + (b[1] as int - 0x80)) as char, 2)
      else (Replacement, 1)
    else if 0xE0 <= b0 <= 0xEF then
      if |b| >= 2 && SecondLow(b0) <= b[1] <= SecondHigh(b0) then
        if |b| >= 3 && IsContinuation(b[2]) then
          (((b0 - 0xE0) * 4096 + (b[1] as int - 0x80) * 64 + (b[2] as int - 0x80)) as char, 3)
        else (Replacement, 2)
      else (Replacement, 1)
    else if 0xF0 <= b0 <= 0xF4 then
      if |b| >= 2 && SecondLow(b0) <= b[1] <= SecondHigh(b0) then
        if |b| >= 3 && IsContinuation(b[2]) then
          if |b| >= 4 && IsContinuation(b[3]) then
            (((b0 - 0xF0) * 262144 + (b[1] as int - 0x80) * 4096 + (b[2] as int - 0x80) * 64 + (b[3] as int - 0x80)) as char, 4)
          else (Replacement, 3)
        else (Replacement, 2)
      else (Replacement, 1)
    else
      (Replacement, 1)
  }

  function Decode(b: seq<Byte>): string
    decreases |b|
  {
    if b == [] then [] else
      var (c, n) := DecodeStep(b);
      [c] + Decode(b[n..])
  }

  /** The decoder reads one encoded character back, whatever follows it. */
  lemma DecodeStepEncodeChar(c: char, rest: seq<Byte>)
    ensures DecodeStep(EncodeChar(c) + rest) == (c, |EncodeChar(c)|)
  {
    var x := c as int;
    var b := EncodeChar(c) + rest;
    if x < 0x80 {
    } else if x < 0x800 {
      assert b[0] == 0xC0 + x / 64 && b[1] == 0x80 + x % 64;
    } else if x < 0x1_0000 {
      assert b[0] == 0xE0 + x / 64 / 64 && b[1] == 0x80 + x / 64 % 64 && b[2] == 0x80 + x % 64;
    } else {
      assert b[0] == 0xF0 + x / 64 / 64 / 64;
      assert b[1] == 0x80 + x / 64 / 64 % 64 && b[2] == 0x80 + x / 64 % 64 && b[3] == 0x80 + x % 64;
    }
  }

  /** Decoding an encoding gives the string back. */
  lemma {:induction false} DecodeEncode(s: string)
    ensures Decode(Encode(s)) == s
  {
    if s != [] {
      var e := EncodeChar(s[0]);
      DecodeStepEncodeChar(s[0], Encode(s[1..]));
      assert Encode(s) == e + Encode(s[1..]);
      assert Encode(s)[|e|..] == Encode(s[1..]);
      DecodeEncode(s[1..]);
    }
  }

  lemma {:induction false} EncodeAppend(s: string, t: string)
    ensures Encode(s + t) == Encode(s) + Encode(t)
  {
    if s == [] {
      assert s + t == t;
    } else {
      assert (s + t)[0] == s[0];
      assert (s + t)[1..] == s[1..] + t;
      EncodeAppend(s[1..], t);
    }
  }

  /** A string of ASCII characters encodes to their code points, one byte each. */
  lemma {:induction false} EncodeAscii(s: string)
    requires forall i :: 0 <= i < |s| ==> (s[i] as int) < 0x80
    ensures |Encode(s)| == |s|
    ensures forall i :: 0 <= i < |s| ==> Encode(s)[i] == s[i] as int
  {
    if s != [] {
      EncodeAscii(s[1..]);
    }
  }

  /** The byte order mark EF BB BF that `TextDecoder` drops from the front. */
  predicate StartsWithBom(b: seq<Byte>) {
    |b| >= 3 && b[0] == 0xEF && b[1] == 0xBB && b[2] == 0xBF
  }

  /** An encoding starts with the byte order mark exactly when the string starts with U+FEFF. */
  lemma EncodeBom(s: string)
    ensures StartsWithBom(Encode(s)) <==> (s != [] && s[0] == 0xFEFF as char)
  {
    if s != [] {
      var e := EncodeChar(s[0]);
      assert Encode(s) == e + Encode(s[1..]);
      var x := s[0] as int;
      if x < 0x80 {
        assert Encode(s)[0] == x;
      } else if x < 0x800 {
        assert Encode(s)[0] == e[0];
      } else if x < 0x1_0000 {
        assert Encode(s)[..3] == e;
      } else {
        assert Encode(s)[0] == e[0];
      }
    }
  }

  /** `new TextDecoder().decode(bytes)`: the WHATWG decoder, which also drops a leading byte order mark. */
  function TextDecode(b: seq<Byte>): string
  {
    if StartsWithBom(b) then Decode(b[3..]) else Decode(b)
  }
}
