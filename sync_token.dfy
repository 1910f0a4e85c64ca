/**
  The PowerSync token endpoint both apps expose (`getPowerSyncToken`): the three
  `POWERSYNC_JWT_*` settings are required, the secret is base64url text that is turned
  into the HS256 key, and the token carries the session user and expires in 15 minutes.
*/
module SyncToken {
  import opened Wrappers
  import opened Utf8
  import Base64
  import opened SyncCore

  // ---------------------------------------------------------------- base64url to base64

  /** `.replace(/-/g, "+").replace(/_/g, "/")` on one character: the two characters in
      which the alphabet of section 5 of RFC 4648 differs from that of section 4. */
  function FromUrlAlphabet(c: char): char {
    if c == '-' then '+' else if c == '_' then '/' else c
  }

  /** The opposite mapping, which a base64url encoder applies. */
  function ToUrlAlphabet(c: char): char {
    if c == '+' then '-' else if c == '/' then '_' else c
  }

  function MapChars(s: string, f: char -> char): (r: string)
    ensures |r| == |s|
    ensures forall i :: 0 <= i < |s| ==> r[i] == f(s[i])
  {
    seq(|s|, i requires 0 <= i < |s| => f(s[i]))
  }

  /** `s.padEnd(n, "=")`. */
  function PadEnd(s: string, n: nat): (r: string)
    ensures |r| == if |s| >= n then |s| else n
    ensures r[..|s|] == s
    ensures forall i :: |s| <= i < |r| ==> r[i] == '='
  {
    if |s| >= n then s else s + seq(n - |s|, _ => '=')
  }

  /** `Math.ceil(n / 4) * 4`. */
  function RoundUp4(n: nat): nat {
    (n + 3) / 4 * 4
  }

  /** The text `base64urlToBytes` hands to the base64 decoder: the URL-safe characters
      mapped back and "=" appended up to the next multiple of four characters. */
  function Base64UrlToBase64(s: string): (r: string)
    ensures |r| == RoundUp4(|s|)
    ensures |r| % 4 == 0 && |s| <= |r| < |s| + 4
    ensures forall i :: 0 <= i < |s| ==> r[i] == FromUrlAlphabet(s[i])
    ensures forall i :: |s| <= i < |r| ==> r[i] == '='
  {
    var mapped := MapChars(s, FromUrlAlphabet);
    var r := PadEnd(mapped, RoundUp4(|s|));
    assert forall i :: 0 <= i < |s| ==> r[i] == r[..|s|][i] == mapped[i];
    r
  }

  /** The key bytes: the strict base 64 decoding of the normalised text. */
  function Base64UrlToBytes(s: string): Option<seq<Byte>> {
    Base64.Decode(Base64UrlToBase64(s))
  }

  /** Unpadded base64url text (section 5 of RFC 4648, as JWT secrets are written). */
  function Base64UrlEncode(b: seq<Byte>): string {
    MapChars(Base64.EncodeUnpadded(b), ToUrlAlphabet)
  }

  /** Normalising the base64url text of some bytes gives their padded base 64 text. */
  lemma NormalizesToBase64(b: seq<Byte>)
    ensures Base64UrlToBase64(Base64UrlEncode(b)) == Base64.Encode(b)
  {
    var u := Base64.EncodeUnpadded(b);
    var r := Base64UrlToBase64(Base64UrlEncode(b));
    var e := Base64.Encode(b);
    assert e == u + Base64.Padding(|b|);
    PaddedLength(|b|);
    forall i | 0 <= i < |r|
      ensures r[i] == e[i]
    {
      if i < |u| {
        assert Base64.IsAlphabet(u[i]);
      }
    }
  }

  /** Rounding the unpadded length up to four characters adds exactly the padding. */
  lemma PaddedLength(n: nat)
    ensures RoundUp4(4 * (n / 3) + (if n % 3 == 0 then 0 else n % 3 + 1))
      == 4 * (n / 3) + (if n % 3 == 0 then 0 else n % 3 + 1) + |Base64.Padding(n)|
  {
    var q := n / 3;
    if n % 3 == 1 {
      assert (4 * q + 2 + 3) / 4 == q + 1;
    } else if n % 3 == 2 {
      assert (4 * q + 3 + 3) / 4 == q + 1;
    } else {
      assert (4 * q + 3) / 4 == q;
    }
  }

  /** The key decoded from a base64url secret is the bytes it encodes. */
  lemma Base64UrlRoundTrip(b: seq<Byte>)
    ensures Base64UrlToBytes(Base64UrlEncode(b)) == Some(b)
  {
    NormalizesToBase64(b);
    Base64.DecodeEncode(b);
  }

  /** Normalised text is left alone by a second normalisation. */
  lemma Base64UrlToBase64Idempotent(s: string)
    ensures Base64UrlToBase64(Base64UrlToBase64(s)) == Base64UrlToBase64(s)
  {
    var r := Base64UrlToBase64(s);
    var r2 := Base64UrlToBase64(r);
    assert RoundUp4(|r|) == |r|;
    forall i | 0 <= i < |r|
      ensures r2[i] == r[i]
    {
    }
  }

  // ---------------------------------------------------------------- the token

  /** The three settings; a missing or empty one is unset (`!kid`). */
  datatype Env = Env(kid: Option<string>, secretB64url: Option<string>, audience: Option<string>)

  predicate IsSet(v: Option<string>) {
    v.Some? && v.value != ""
  }

  const MissingSettings := "POWERSYNC_JWT_KID, POWERSYNC_JWT_SECRET_B64URL, and POWERSYNC_JWT_AUDIENCE must be set"

  /** 15 minutes in milliseconds. */
  const TokenLifetimeMs := 15 * 60 * 1000

  /** The claims the token carries; the ticket app adds no role. */
  datatype Claims = Claims(sub: string, aud: string, role: Option<Role>, userId: string)

  /** What is signed: header key id, claims and the normalised secret the key is decoded
      from. The HS256 signature itself is not modelled. */
  datatype Jwt = Jwt(kid: string, claims: Claims, keyText: string)

  datatype Grant = Grant(token: Jwt, expiresAt: int)

  /** `getPowerSyncToken` with the clock reading `now` (milliseconds). */
  function GetPowerSyncToken(env: Env, userId: string, role: Option<Role>, now: int): (r: Result<Grant>)
    ensures r.Ok? <==> IsSet(env.kid) && IsSet(env.secretB64url) && IsSet(env.audience)
    ensures r.Throws? ==> r.message == MissingSettings
    ensures r.Ok? ==> r.value.expiresAt == now + 900000
    ensures r.Ok? ==> r.value.token.claims.sub == userId && r.value.token.claims.userId == userId
    ensures r.Ok? ==> r.value.token.claims.aud == env.audience.value && r.value.token.claims.role == role
    ensures r.Ok? ==> r.value.token.kid == env.kid.value && r.value.token.keyText == Base64UrlToBase64(env.secretB64url.value)
  {
    if !IsSet(env.kid) || !IsSet(env.secretB64url) || !IsSet(env.audience) then Throws(MissingSettings)
    else
      var claims := Claims(userId, env.audience.value, role, userId);
      Ok(Grant(Jwt(env.kid.value, claims, Base64UrlToBase64(env.secretB64url.value)), now + TokenLifetimeMs))
  }

  /** The ticket app's token: no role claim. */
  function TicketAppToken(env: Env, userId: string, now: int): (r: Result<Grant>)
    ensures r.Ok? ==> r.value.token.claims.role == None && r.value.token.claims.sub == userId
  {
    GetPowerSyncToken(env, userId, None, now)
  }

  /** The work-order app's token: the session role is a claim. */
  function WorkOrderAppToken(env: Env, userId: string, role: Role, now: int): (r: Result<Grant>)
    ensures r.Ok? ==> r.value.token.claims.role == Some(role) && r.value.token.claims.sub == userId
  {
    GetPowerSyncToken(env, userId, Some(role), now)
  }
}
