/**
  Hexadecimal text as the runtime reads and writes it: `buf.toString("hex")`,
  `Buffer.from(s, "hex")` and `Number.parseInt(s, 16)`.
*/
module Hex {
  import opened Wrappers
  import Js
  import opened Utf8

  /** The lower-case digit for a nibble. */
  function Digit(d: nat): (c: char)
    requires d < 16
    ensures IsLowerDigit(c)
  {
    if d < 10 then ('0' as int + d) as char else ('a' as int + d - 10) as char
  }

  predicate IsLowerDigit(c: char) {
    '0' <= c <= '9' || 'a' <= c <= 'f'
  }

  /** The value of a hexadecimal digit of either case. */
  function DigitValue(c: char): (r: Option<nat>)
    ensures r.Some? ==> r.value < 16
    ensures r.Some? <==> ('0' <= c <= '9' || 'a' <= c <= 'f' || 'A' <= c <= 'F')
  {
    if '0' <= c <= '9' then Some(c as int - '0' as int)
    else if 'a' <= c <= 'f' then Some(c as int - 'a' as int + 10)
    else if 'A' <= c <= 'F' then Some(c as int - 'A' as int + 10)
    else None
  }

  /** `buf.toString("hex")`: two lower-case digits per byte, high nibble first. */
  function EncodeHex(b: seq<Byte>): (r: string)
    ensures |r| == 2 * |b|
    ensures forall i :: 0 <= i < |r| ==> IsLowerDigit(r[i])
  {
    if b == [] then "" else [Digit(b[0] / 16), Digit(b[0] % 16)] + EncodeHex(b[1..])
  }

  /** `Buffer.from(s, "hex")`: one byte per pair of digits, stopping at the first pair
      that is not two hexadecimal digits; a lone final digit is dropped. */
  function NodeHexDecode(s: string): (r: seq<Byte>)
    ensures |r| <= |s| / 2
  {
    if |s| < 2 then []
    else
      match (DigitValue(s[0]), DigitValue(s[1]))
      case (Some(hi), Some(lo)) => [hi * 16 + lo] + NodeHexDecode(s[2..])
      case _ => []
  }

  /** Node's hex decoder inverts its hex encoder. */
  lemma {:induction false} NodeHexDecodeEncode(b: seq<Byte>)
    ensures NodeHexDecode(EncodeHex(b)) == b
  {
    if b != [] {
      var s := EncodeHex(b);
      assert s[2..] == EncodeHex(b[1..]);
      NodeHexDecodeEncode(b[1..]);
    }
  }

  // ---------------------------------------------------------------- parseInt(text, 16)

  /** The value of a UTF-16 code unit as a hexadecimal digit. */
  function UnitDigit(u: int): (r: Option<nat>)
    ensures r.Some? ==> r.value < 16
  {
    if 0x30 <= u <= 0x39 then Some(u - 0x30)
    else if 0x61 <= u <= 0x66 then Some(u - 0x61 + 10)
    else if 0x41 <= u <= 0x46 then Some(u - 0x41 + 10)
    else None
  }

  function SkipWhitespace(u: seq<int>): (r: seq<int>)
    ensures |r| <= |u| && r == u[|u| - |r|..]
    ensures r == [] || !Js.IsWhitespaceCode(r[0])
  {
    if u != [] && Js.IsWhitespaceCode(u[0]) then SkipWhitespace(u[1..]) else u
  }

  /** The longest prefix of hexadecimal digits. */
  function DigitRun(u: seq<int>): (r: seq<int>)
    ensures |r| <= |u| && r == u[..|r|]
    ensures forall i :: 0 <= i < |r| ==> UnitDigit(r[i]).Some?
    ensures |r| < |u| ==> UnitDigit(u[|r|]).None?
  {
    if u != [] && UnitDigit(u[0]).Some? then [u[0]] + DigitRun(u[1..]) else []
  }

  function RunValue(u: seq<int>): nat
    requires forall i :: 0 <= i < |u| ==> UnitDigit(u[i]).Some?
  {
    if u == [] then 0 else 16 * RunValue(u[..|u| - 1]) + UnitDigit(u[|u| - 1]).value
  }

  /** `Number.parseInt(text, 16)` over the text's code units, None standing for NaN:
      leading whitespace is skipped, then an optional sign, then an optional `0x` or `0X`,
      then the longest run of hexadecimal digits, which must not be empty. */
  function ParseIntHex(u: seq<int>): Option<int>
  {
    var t := SkipWhitespace(u);
    var negative := t != [] && t[0] == 0x2D;
    var t1 := if t != [] && (t[0] == 0x2D || t[0] == 0x2B) then t[1..] else t;
    var t2 := if |t1| >= 2 && t1[0] == 0x30 && (t1[1] == 0x78 || t1[1] == 0x58) then t1[2..] else t1;
    var run := DigitRun(t2);
    if run == [] then None
    else
      var v: int := RunValue(run);
      Some(if negative then -v else v)
  }

  /** Storing a number into a `Uint8Array` element: NaN becomes 0, everything else is taken modulo 256. */
  function ToUint8(n: Option<int>): Byte
  {
    match n
    case None => 0
    case Some(v) => v % 256
  }

  /** Two lower-case digits written by the encoder parse back as the byte they encode. */
  lemma ParseIntHexOfPair(x: Byte)
    ensures ParseIntHex([Digit(x / 16) as int, Digit(x % 16) as int]) == Some(x)
  {
    var u := [Digit(x / 16) as int, Digit(x % 16) as int];
    assert UnitDigit(u[0]) == Some(x / 16);
    assert UnitDigit(u[1]) == Some(x % 16);
    assert SkipWhitespace(u) == u;
    assert DigitRun(u[1..]) == u[1..];
    assert DigitRun(u) == u;
    assert u[..1] == [u[0]];
    assert RunValue(u[..1]) == x / 16;
  }
}
