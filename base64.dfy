/**
  The base 64 encoding of section 4 of RFC 4648 (alphabet A-Z a-z 0-9 + /, padded with
  "=" to a multiple of four characters). The runtime's `Buffer`/`btoa` encoders produce
  exactly this text; the decoder here is the strict reading of the same section.
*/
module Base64 {
  import opened Wrappers
  import opened Utf8

  /** The character for a six-bit value. */
  function Char(i: nat): (c: char)
    requires i < 64
    ensures IsAlphabet(c)
  {
    if i < 26 then ('A' as int + i) as char
    else if i < 52 then ('a' as int + i - 26) as char
    else if i < 62 then ('0' as int + i - 52) as char
    else if i == 62 then '+'
    else '/'
  }

  predicate IsAlphabet(c: char) {
    'A' <= c <= 'Z' || 'a' <= c <= 'z' || '0' <= c <= '9' || c == '+' || c == '/'
  }

  /** The six-bit value of an alphabet character. */
  function Index(c: char): (r: Option<nat>)
    ensures r.Some? <==> IsAlphabet(c)
    ensures r.Some? ==> r.value < 64 && Char(r.value) == c
  {
    if 'A' <= c <= 'Z' then Some(c as int - 'A' as int)
    else if 'a' <= c <= 'z' then Some(c as int - 'a' as int + 26)
    else if '0' <= c <= '9' then Some(c as int - '0' as int + 52)
    else if c == '+' then Some(62)
    else if c == '/' then Some(63)
    else None
  }

  lemma IndexOfChar(i: nat)
    requires i < 64
    ensures Index(Char(i)) == Some(i)
  {
  }

  /** Four characters for three bytes; two or three for a final group of one or two bytes. */
  function EncodeGroup(g: seq<Byte>): (r: string)
    requires 1 <= |g| <= 3
    ensures |r| == |g| + 1
    ensures forall i :: 0 <= i < |r| ==> IsAlphabet(r[i])
  {
    var s := Sextets(Padded(g));
    [Char(s[0]), Char(s[1]), Char(s[2]), Char(s[3])][..|g| + 1]
  }

  /** A group of one to three bytes filled up with zero bytes to three. */
  function Padded(g: seq<Byte>): (p: seq<Byte>)
    requires 1 <= |g| <= 3
    ensures |p| == 3 && p[..|g|] == g
  {
    g + [0, 0][..3 - |g|]
  }

  /** Three bytes cut into four six-bit values. */
  function Sextets(p: seq<Byte>): (s: seq<nat>)
    requires |p| == 3
    ensures |s| == 4 && s[0] < 64 && s[1] < 64 && s[2] < 64 && s[3] < 64
  {
    [p[0] / 4, p[0] % 4 * 16 + p[1] / 16, p[1] % 16 * 4 + p[2] / 64, p[2] % 64]
  }

  /** Four six-bit values joined into three bytes. */
  function Octets(s: seq<nat>): (p: seq<Byte>)
    requires |s| == 4 && s[0] < 64 && s[1] < 64 && s[2] < 64 && s[3] < 64
    ensures |p| == 3
  {
    [s[0] * 4 + s[1] / 16, s[1] % 16 * 16 + s[2] / 4, s[2] % 4 * 64 + s[3]]
  }

  /** The characters of the encoding without its padding. */
  function EncodeUnpadded(b: seq<Byte>): (r: string)
    ensures |r| == 4 * (|b| / 3) + (if |b| % 3 == 0 then 0 else |b| % 3 + 1)
    ensures forall i :: 0 <= i < |r| ==> IsAlphabet(r[i])
  {
    if b == [] then ""
    else if |b| <= 3 then EncodeGroup(b)
    else EncodeGroup(b[..3]) + EncodeUnpadded(b[3..])
  }

  function Padding(n: nat): string {
    if n % 3 == 1 then "==" else if n % 3 == 2 then "=" else ""
  }

  /** Base 64 text of the bytes, padded to a multiple of four characters. */
  function Encode(b: seq<Byte>): (r: string)
    ensures |r| % 4 == 0
  {
    PaddedLength(|b|);
    EncodeUnpadded(b) + Padding(|b|)
  }

  /** The padding fills the last group of the unpadded text to four characters. */
  lemma PaddedLength(n: nat)
    ensures (4 * (n / 3) + (if n % 3 == 0 then 0 else n % 3 + 1) + |Padding(n)|) % 4 == 0
  {
  }

  /** Drops at most two trailing "=". */
  function StripPadding(s: string): (r: string)
    ensures |r| <= |s| <= |r| + 2 && r == s[..|r|]
  {
    if |s| >= 2 && s[|s| - 2..] == "==" then s[..|s| - 2]
    else if |s| >= 1 && s[|s| - 1] == '=' then s[..|s| - 1]
    else s
  }

  predicate AllAlphabet(s: string) {
    forall i :: 0 <= i < |s| ==> IsAlphabet(s[i])
  }

  /** The bytes of a group of two to four alphabet characters (the low bits a short group
      leaves over are ignored). */
  function DecodeGroup(q: string): (r: Option<seq<Byte>>)
    requires 2 <= |q| <= 4
    ensures r.Some? <==> AllAlphabet(q)
    ensures r.Some? ==> |r.value| == |q| - 1
  {
    if !AllAlphabet(q) then None
    else
      var c := if |q| >= 3 then Index(q[2]).value else 0;
      var d := if |q| == 4 then Index(q[3]).value else 0;
      Some(Octets([Index(q[0]).value, Index(q[1]).value, c, d])[..|q| - 1])
  }

  function DecodeUnpadded(s: string): Option<seq<Byte>>
  {
    if s == [] then Some([])
    else if |s| == 1 then None
    else if |s| <= 4 then DecodeGroup(s)
    else
      match (DecodeGroup(s[..4]), DecodeUnpadded(s[4..]))
      case (Some(g), Some(rest)) => Some(g + rest)
      case _ => None
  }

  /** Strict decoding: the length must be a multiple of four, "=" may appear only as the
      final one or two characters, and every other character must be in the alphabet. */
  function Decode(s: string): Option<seq<Byte>>
  {
    if |s| % 4 != 0 then None else DecodeUnpadded(StripPadding(s))
  }

  lemma {:induction false} DecodeEncodeGroup(g: seq<Byte>)
    requires 1 <= |g| <= 3
    ensures DecodeGroup(EncodeGroup(g)) == Some(g)
  {
    var p := Padded(g);
    var s := Sextets(p);
    var q := EncodeGroup(g);
    DecodeChars(s, |g| + 1);
    SixBitGroups(p);
    if |g| == 1 {
      OctetsFirst(s, [s[0], s[1], 0, 0]);
    } else if |g| == 2 {
      OctetsFirstTwo(s, [s[0], s[1], s[2], 0]);
    }
  }

  /** Decoding the characters of six-bit values gives their octets, the values a short
      group leaves out taken as zero. */
  lemma DecodeChars(s: seq<nat>, n: nat)
    requires |s| == 4 && s[0] < 64 && s[1] < 64 && s[2] < 64 && s[3] < 64 && 2 <= n <= 4
    ensures DecodeGroup([Char(s[0]), Char(s[1]), Char(s[2]), Char(s[3])][..n])
      == Some(Octets([s[0], s[1], if n >= 3 then s[2] else 0, if n == 4 then s[3] else 0])[..n - 1])
  {
    var q := [Char(s[0]), Char(s[1]), Char(s[2]), Char(s[3])][..n];
    IndexOfChar(s[0]);
    IndexOfChar(s[1]);
    IndexOfChar(s[2]);
    IndexOfChar(s[3]);
    assert AllAlphabet(q);
  }

  /** The first octet depends on the first two values only. */
  lemma OctetsFirst(s: seq<nat>, t: seq<nat>)
    requires |s| == 4 && s[0] < 64 && s[1] < 64 && s[2] < 64 && s[3] < 64
    requires |t| == 4 && t[0] < 64 && t[1] < 64 && t[2] < 64 && t[3] < 64
    requires s[..2] == t[..2]
    ensures Octets(s)[..1] == Octets(t)[..1]
  {
    assert s[0] == t[0] && s[1] == t[1];
  }

  /** The first two octets depend on the first three values only. */
  lemma OctetsFirstTwo(s: seq<nat>, t: seq<nat>)
    requires |s| == 4 && s[0] < 64 && s[1] < 64 && s[2] < 64 && s[3] < 64
    requires |t| == 4 && t[0] < 64 && t[1] < 64 && t[2] < 64 && t[3] < 64
    requires s[..3] == t[..3]
    ensures Octets(s)[..2] == Octets(t)[..2]
  {
    assert s[0] == t[0] && s[1] == t[1] && s[2] == t[2];
  }

  /** Cutting three bytes into four six-bit values and joining them again gives the bytes. */
  lemma SixBitGroups(p: seq<Byte>)
    requires |p| == 3
    ensures Octets(Sextets(p)) == p
  {
  }

  lemma {:induction false} DecodeUnpaddedEncode(b: seq<Byte>)
    ensures DecodeUnpadded(EncodeUnpadded(b)) == Some(b)
  {
    if 1 <= |b| <= 3 {
      DecodeEncodeGroup(b);
    } else if |b| > 3 {
      var s := EncodeUnpadded(b);
      DecodeEncodeGroup(b[..3]);
      assert s[..4] == EncodeGroup(b[..3]);
      assert s[4..] == EncodeUnpadded(b[3..]);
      DecodeUnpaddedEncode(b[3..]);
      assert b == b[..3] + b[3..];
    }
  }

  /** Decoding an encoding gives the bytes back. */
  lemma DecodeEncode(b: seq<Byte>)
    ensures Decode(Encode(b)) == Some(b)
  {
    var u := EncodeUnpadded(b);
    var e := Encode(b);
    if |b| % 3 == 1 {
      assert e == u + "==";
      assert e[|e| - 2..] == "==";
      assert e[..|e| - 2] == u;
    } else if |b| % 3 == 2 {
      assert e == u + "=";
      assert e[|e| - 2] == u[|u| - 1];
      assert e[..|e| - 1] == u;
    } else {
      assert e == u;
      assert u != [] ==> IsAlphabet(u[|u| - 1]);
    }
    assert StripPadding(e) == u;
    DecodeUnpaddedEncode(b);
  }
}
