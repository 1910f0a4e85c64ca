/**
  What the ticket demo screen shows: conflict values as text, and attachment URLs under a
  short stable name (`hashUrl`).
*/
module DemoScreen {
  import opened Wrappers
  import opened Js
  import TicketConflicts

  predicate HasValue(v: Json) {
    v.JObj? && "value" in v.fields
  }

  /** `String(v ?? "")`. */
  function ValueText(v: Json): (r: string)
    ensures v == JNull ==> r == ""
    ensures v.JStr? ==> r == v.s
  {
    if v == JNull then "" else ToJsString(v)
  }

  /** The screen's `parseConflictValue`: null and undefined (both `JNull` here) show as "";
      an object with a `value` member shows that member; a string holding such an object is
      unwrapped, and any other string, JSON or not, shows as itself. `parse` is `JSON.parse`,
      `None` when it throws. */
  function ParseConflictValue(raw: Json, parse: string -> Option<Json>): (r: string)
    ensures raw == JNull ==> r == ""
    ensures HasValue(raw) ==> r == ValueText(raw.fields["value"])
    ensures raw.JStr? && parse(raw.s).Some? && HasValue(parse(raw.s).value) ==>
      r == ValueText(parse(raw.s).value.fields["value"])
    ensures raw.JStr? && (parse(raw.s).None? || !HasValue(parse(raw.s).value)) ==> r == raw.s
    ensures !raw.JNull? && !raw.JStr? && !HasValue(raw) ==> r == ToJsString(raw)
  {
    if raw == JNull then ""
    else if HasValue(raw) then ValueText(raw.fields["value"])
    else if raw.JStr? then
      var parsed := parse(raw.s);
      if parsed.Some? && HasValue(parsed.value) then ValueText(parsed.value.fields["value"]) else raw.s
    else ToJsString(raw)
  }

  /** The screen shows the text the server would write on resolving with that value, and ""
      where the server would write null. */
  lemma ShowsServerValue(raw: Json, parse: string -> Option<Json>)
    ensures ParseConflictValue(raw, parse) == TicketConflicts.ParseConflictValue(raw, parse).GetOr("")
  {
  }

  /** A value the engines stored (`{ value: x }`, as an object or as its JSON text) shows as
      the text it wraps. */
  lemma ShowsStoredValue(x: Option<string>, text: string, parse: string -> Option<Json>)
    requires parse(text) == Some(ValueObject(x))
    ensures ParseConflictValue(ValueObject(x), parse) == x.GetOr("")
    ensures ParseConflictValue(JStr(text), parse) == x.GetOr("")
  {
  }

  // ---------------------------------------------------------------- hashUrl

  const TwoTo31: int := 0x8000_0000
  const TwoTo32: int := 0x1_0000_0000

  /** `x | 0`: the signed 32-bit integer congruent to `x` modulo 2^32. */
  function ToInt32(x: int): (r: int)
    ensures -TwoTo31 <= r < TwoTo31
    ensures -TwoTo31 <= x < TwoTo31 ==> r == x
  {
    (x + TwoTo31) % TwoTo32 - TwoTo31
  }

  /** Adding a multiple of 2^32 does not change the 32-bit value. */
  lemma ToInt32Periodic(x: int, k: int)
    ensures ToInt32(x + k * TwoTo32) == ToInt32(x)
  {
    var a := x + TwoTo31;
    var q := a / TwoTo32;
    var m := a % TwoTo32;
    assert a == q * TwoTo32 + m && 0 <= m < TwoTo32;
    assert a + k * TwoTo32 == (q + k) * TwoTo32 + m;
    assert (a + k * TwoTo32) % TwoTo32 == m;
  }

  /** `h << 5` for a 32-bit `h`: the product by 32, wrapped to 32 bits. */
  function ShiftLeft5(h: int): int {
    ToInt32(h * 32)
  }

  /** The hash after each character code: `h * 31 + c`, wrapped to 32 bits. */
  function Hash(units: seq<int>): (h: int)
    ensures -TwoTo31 <= h < TwoTo31
  {
    if units == [] then 0 else ToInt32(31 * Hash(units[..|units| - 1]) + units[|units| - 1])
  }

  /** The polynomial hash without wrap-around, as a reference: the code units weighted by
      powers of 31, the last with weight 1. */
  function Polynomial(units: seq<int>): int {
    if units == [] then 0 else 31 * Polynomial(units[..|units| - 1]) + units[|units| - 1]
  }

  /** Wrapping after every step gives the wrapped polynomial: the hash is Java's
      `String.hashCode` of the code units. */
  lemma {:induction false} HashIsWrappedPolynomial(units: seq<int>)
    ensures Hash(units) == ToInt32(Polynomial(units))
  {
    if units != [] {
      var p := units[..|units| - 1];
      var c := units[|units| - 1];
      HashIsWrappedPolynomial(p);
      var x := Polynomial(p);
      var k := (x + TwoTo31) / TwoTo32;
      assert ToInt32(x) == x - k * TwoTo32;
      ToInt32Periodic(31 * x + c, -31 * k);
      assert 31 * ToInt32(x) + c == 31 * x + c + (-31 * k) * TwoTo32;
    }
  }

  /** One step of the loop, `(h << 5) - h + c` then `| 0`, is the step of `Hash`. */
  lemma ShiftStep(h: int, c: int)
    ensures ToInt32(ShiftLeft5(h) - h + c) == ToInt32(31 * h + c)
  {
    var k := (h * 32 + TwoTo31) / TwoTo32;
    assert ShiftLeft5(h) == h * 32 - k * TwoTo32;
    ToInt32Periodic(31 * h + c, -k);
  }

  function Abs(x: int): nat {
    if x < 0 then -x else x
  }

  /** The name `hashUrl` gives: "u" and the decimal magnitude of the hash of the URL's
      UTF-16 code units. */
  function HashName(url: string): string {
    "u" + NatToDecimal(Abs(Hash(CodeUnits(url))))
  }

  /** `hashUrl`: the loop over `charCodeAt`. */
  method HashUrl(value: string) returns (r: string)
    ensures r == HashName(value)
  {
    var units := CodeUnits(value);
    var hash := 0;
    var i := 0;
    while i < |units|
      invariant 0 <= i <= |units|
      invariant hash == Hash(units[..i])
    {
      assert units[..i + 1][..i] == units[..i];
      ShiftStep(hash, units[i]);
      hash := ShiftLeft5(hash) - hash + units[i];
      hash := ToInt32(hash);
      i := i + 1;
    }
    assert units[..i] == units;
    r := "u" + NatToDecimal(Abs(hash));
  }

  /** A number below 10^n, n at least 1, has at most n decimal digits. */
  lemma {:induction false} DecimalLength(x: nat, n: nat)
    requires 1 <= n && x < Power10(n)
    ensures |NatToDecimal(x)| <= n
  {
    if x >= 10 {
      DecimalLength(x / 10, n - 1);
    }
  }

  function Power10(n: nat): nat {
    if n == 0 then 1 else 10 * Power10(n - 1)
  }

  /** Every name is "u" and one to ten decimal digits, and the empty URL is "u0". */
  lemma HashNameShape(url: string)
    ensures var name := HashName(url);
      && 2 <= |name| <= 11 && name[0] == 'u' && AllDigits(name[1..])
    ensures HashName("") == "u0"
  {
    var h := Abs(Hash(CodeUnits(url)));
    assert Power10(10) == 10000000000;
    DecimalLength(h, 10);
    var name := HashName(url);
    assert name[1..] == NatToDecimal(h);
  }
}

/**
  The work-order conflict inbox's own `parseConflictValue`, which differs from the ticket
  screen's in treating every falsy value as empty.
*/
module ConflictInbox {
  import opened Wrappers
  import opened Js
  import DemoScreen

  /** `parseConflictValue` of the inbox: a falsy value (null, false, 0, "") shows as "";
      otherwise as on the ticket screen, except that a JSON text without `value` is kept. */
  function ParseConflictValue(raw: Json, parse: string -> Option<Json>): (r: string)
    ensures !Truthy(Some(raw)) ==> r == ""
    ensures DemoScreen.HasValue(raw) ==> r == DemoScreen.ValueText(raw.fields["value"])
    ensures raw.JStr? && raw.s != "" && (parse(raw.s).None? || !DemoScreen.HasValue(parse(raw.s).value)) ==> r == raw.s
  {
    if !Truthy(Some(raw)) then ""
    else if DemoScreen.HasValue(raw) then DemoScreen.ValueText(raw.fields["value"])
    else if raw.JStr? then
      var parsed := parse(raw.s);
      if parsed.Some? && DemoScreen.HasValue(parsed.value) then DemoScreen.ValueText(parsed.value.fields["value"])
      else raw.s
    else ToJsString(raw)
  }

  /** The two screens show the same text for every value but `false` and `0`, which the
      inbox shows as "" and the ticket screen as "false" and "0" (given that `JSON.parse("")`
      throws, as it does). */
  lemma AgreesWithTicketScreen(raw: Json, parse: string -> Option<Json>)
    requires parse("") == None
    ensures ParseConflictValue(raw, parse) != DemoScreen.ParseConflictValue(raw, parse) <==>
      raw == JBool(false) || raw == JNum(0)
  {
    if raw == JNum(0) {
      assert IntToDecimal(0) == "0";
    }
  }

  /** A phone value the work-order engine stored reads back as the phone, "" for none. */
  lemma ShowsStoredValue(x: Option<string>)
    ensures ParseConflictValue(ValueObject(x), (s: string) => None) == x.GetOr("")
  {
  }
}

/**
  The work-order detail view's `decodeByteaText`: a note payload as the client receives it,
  a `\x` hex literal, turned back into text.
*/
module WorkOrderDetail {
  import opened Wrappers
  import opened Js
  import opened Utf8
  import opened Hex
  import WorkOrderNote

  /** A pair of code units read by `Number.parseInt(pair, 16)` and stored into a
      `Uint8Array` element. */
  function PairValue(pair: seq<int>): Byte {
    ToUint8(ParseIntHex(pair))
  }

  /** One byte per whole pair of code units, each pair read by `read`; a lone final code
      unit is not read. */
  function Pairs(hex: seq<int>, read: seq<int> -> Byte): (b: seq<Byte>)
    ensures |b| == |hex| / 2
    ensures forall k :: 0 <= k < |b| ==> b[k] == read(hex[2 * k..2 * k + 2])
  {
    seq(|hex| / 2, k requires 0 <= k < |hex| / 2 => read(hex[2 * k..2 * k + 2]))
  }

  /** The array `decodeByteaText` fills. */
  function PairBytes(hex: seq<int>): seq<Byte> {
    Pairs(hex, PairValue)
  }

  /** What the view shows for a payload: "" for a missing or empty one, the UTF-8 text of the
      bytes of a `\x` literal, and any other text as it is. */
  function ByteaText(value: Option<string>): string {
    if value.None? || value.value == "" then ""
    else if WorkOrderNote.HasHexPrefix(value.value) then TextDecode(PairBytes(CodeUnits(value.value[2..])))
    else value.value
  }

  /** `decodeByteaText`: the loop over pairs of code units filling a `Uint8Array`. */
  method DecodeByteaText(value: Option<string>) returns (r: string)
    ensures r == ByteaText(value)
  {
    if value.None? || value.value == "" {
      return "";
    }
    var v := value.value;
    if !WorkOrderNote.HasHexPrefix(v) {
      return v;
    }
    var hex := CodeUnits(v[2..]);
    var bytes := FillPairs(hex, PairValue);
    r := TextDecode(bytes[..]);
  }

  /** The loop of `decodeByteaText`: a `Uint8Array` of `hex.length / 2` elements, element
      `i / 2` set from `hex.slice(i, i + 2)` for every even `i`; a write past the end, from a
      lone final code unit, is dropped. */
  method FillPairs(hex: seq<int>, read: seq<int> -> Byte) returns (bytes: array<Byte>)
    ensures fresh(bytes)
    ensures bytes[..] == Pairs(hex, read)
  {
    bytes := new Byte[|hex| / 2];
    var i := 0;
    ghost var pairs := 0;
    while i < |hex|
      invariant 0 <= pairs && i == 2 * pairs && i <= |hex| + 1
      invariant forall k :: 0 <= k < pairs && k < bytes.Length ==> bytes[k] == read(hex[2 * k..2 * k + 2])
    {
      assert i / 2 == pairs;
      if i / 2 < bytes.Length {
        bytes[i / 2] := read(hex[i..i + 2]);
      }
      i := i + 2;
      pairs := pairs + 1;
    }
  }

  /** Element `k` of a hex encoding: the two digits of byte `k`. */
  lemma {:induction false} EncodeHexAt(b: seq<Byte>, k: nat)
    requires k < |b|
    ensures EncodeHex(b)[2 * k] == Digit(b[k] / 16) && EncodeHex(b)[2 * k + 1] == Digit(b[k] % 16)
  {
    if k > 0 {
      EncodeHexAt(b[1..], k - 1);
      assert EncodeHex(b) == [Digit(b[0] / 16), Digit(b[0] % 16)] + EncodeHex(b[1..]);
    }
  }

  /** Reading the pairs of a hex encoding gives back the bytes. */
  lemma PairBytesOfEncodeHex(b: seq<Byte>)
    ensures PairBytes(CodeUnits(EncodeHex(b))) == b
  {
    var s := EncodeHex(b);
    CodeUnitsOfBmp(s);
    var hex := CodeUnits(s);
    assert |hex| == 2 * |b|;
    forall k | 0 <= k < |b|
      ensures PairValue(hex[2 * k..2 * k + 2]) == b[k]
    {
      PairOfEncodeHex(b, k);
    }
  }

  /** A value that fits a byte is stored unchanged. */
  lemma StoreByte(x: Byte)
    ensures ToUint8(Some(x as int)) == x
  {
  }

  lemma PairOfEncodeHex(b: seq<Byte>, k: nat)
    requires k < |b|
    ensures 2 * k + 2 <= |CodeUnits(EncodeHex(b))|
    ensures PairValue(CodeUnits(EncodeHex(b))[2 * k..2 * k + 2]) == b[k]
  {
    var s := EncodeHex(b);
    CodeUnitsOfBmp(s);
    var hex := CodeUnits(s);
    EncodeHexAt(b, k);
    var pair := hex[2 * k..2 * k + 2];
    assert pair[0] == s[2 * k] as int && pair[1] == s[2 * k + 1] as int;
    assert pair == [Digit(b[k] / 16) as int, Digit(b[k] % 16) as int];
    ParseIntHexOfPair(b[k]);
    assert ParseIntHex(pair) == Some(b[k] as int);
    StoreByte(b[k]);
  }

  /** The view shows the text a `\x` literal was made from, unless that text starts with
      U+FEFF, which the decoder takes for a byte order mark and drops. */
  lemma ByteaTextOfHexBytea(s: string)
    ensures s == [] || s[0] != 0xFEFF as char ==> ByteaText(Some(WorkOrderNote.ToHexBytea(s))) == s
    ensures s != [] && s[0] == 0xFEFF as char ==> ByteaText(Some(WorkOrderNote.ToHexBytea(s))) == s[1..]
  {
    var lit := WorkOrderNote.ToHexBytea(s);
    assert lit[2..] == EncodeHex(Encode(s));
    PairBytesOfEncodeHex(Encode(s));
    EncodeBom(s);
    DecodeEncode(s);
    if s != [] && s[0] == 0xFEFF as char {
      var e := EncodeChar(s[0]);
      assert Encode(s) == e + Encode(s[1..]);
      assert Encode(s)[3..] == Encode(s[1..]);
      DecodeEncode(s[1..]);
    }
  }

  /** A merged note never starts with U+FEFF, since its first line is trimmed; so the view
      shows exactly the text the server merged and stored. */
  lemma ShowsMergedNote(serverValue: string, clientValue: string)
    ensures ByteaText(Some(WorkOrderNote.ToHexBytea(WorkOrderNote.Merge(serverValue, clientValue))))
      == WorkOrderNote.Merge(serverValue, clientValue)
  {
    var lines := WorkOrderNote.MergedLines(serverValue, clientValue);
    WorkOrderNote.MergedLinesShape(serverValue, clientValue);
    var m := WorkOrderNote.Merge(serverValue, clientValue);
    if lines != [] {
      assert WorkOrderNote.IsLine(lines[0]);
      assert m[0] == lines[0][0];
      assert !IsWhitespace(m[0]);
    }
    ByteaTextOfHexBytea(m);
  }
}
