/**
 * The Python security helpers: access- and refresh-token claim sets (with
 * the `exp` claim of section 4.1.4 of RFC 7519 and a `type` claim), the
 * masked display form of an API key, and the fallback "mock" transforms
 * used when no Fernet cipher could be built. Signing, verification,
 * password hashing and Fernet itself are abstract functions.
 */
module Security {
  import opened Common

  /** A token payload: claim name to JSON value. */
  type Payload = map<string, JsonValue>

  datatype TokenKind = Access | Refresh

  function KindName(kind: TokenKind): string {
    match kind
    case Access => "access"
    case Refresh => "refresh"
  }

  /** The configured lifetimes; the defaults are 30 minutes and 7 days. */
  datatype TokenSettings = TokenSettings(accessTokenExpireMinutes: int, refreshTokenExpireDays: int)

  const DefaultTokenSettings := TokenSettings(30, 7)

  const SecondsPerMinute := 60
  const SecondsPerDay := 86400

  /** The configured lifetime of a token of the given kind, in seconds. */
  function DefaultLifetime(settings: TokenSettings, kind: TokenKind): int {
    match kind
    case Access => settings.accessTokenExpireMinutes * SecondsPerMinute
    case Refresh => settings.refreshTokenExpireDays * SecondsPerDay
  }

  /**
   * The expiry instant: `now + delta` for a truthy delta; a missing delta or
   * a zero timedelta (which is falsy) falls back to the configured lifetime.
   * Instants and durations are whole seconds.
   */
  function Expiry(now: int, delta: Option<int>, lifetime: int): (exp: int)
    ensures delta.Some? && delta.value != 0 ==> exp == now + delta.value
    ensures delta.None? || delta.value == 0 ==> exp == now + lifetime
  {
    if delta.Some? && delta.value != 0 then now + delta.value else now + lifetime
  }

  /**
   * `to_encode = data.copy(); to_encode.update({"exp": ..., "type": ...})`:
   * the input claims, with "exp" and "type" added or overridden. The input
   * map is a value and so is left as it was.
   */
  function TokenPayload(data: Payload, kind: TokenKind, exp: int): (p: Payload)
    ensures p.Keys == data.Keys + {"exp", "type"}
    ensures p["exp"] == JInt(exp) && p["type"] == JStr(KindName(kind))
    ensures forall k :: k in data && k != "exp" && k != "type" ==> p[k] == data[k]
  {
    data["exp" := JInt(exp)]["type" := JStr(KindName(kind))]
  }

  /** The payload `create_access_token` signs. */
  function AccessTokenClaims(data: Payload, delta: Option<int>, now: int, settings: TokenSettings): (p: Payload)
    ensures "type" in p && "exp" in p && p["type"] == JStr("access")
    ensures delta.Some? && delta.value != 0 ==> p["exp"] == JInt(now + delta.value)
    ensures delta.None? || delta.value == 0 ==> p["exp"] == JInt(now + settings.accessTokenExpireMinutes * 60)
    ensures forall k :: k in data && k != "exp" && k != "type" ==> k in p && p[k] == data[k]
  {
    TokenPayload(data, Access, Expiry(now, delta, DefaultLifetime(settings, Access)))
  }

  /** The payload `create_refresh_token` signs. */
  function RefreshTokenClaims(data: Payload, delta: Option<int>, now: int, settings: TokenSettings): (p: Payload)
    ensures "type" in p && "exp" in p && p["type"] == JStr("refresh")
    ensures delta.Some? && delta.value != 0 ==> p["exp"] == JInt(now + delta.value)
    ensures delta.None? || delta.value == 0 ==> p["exp"] == JInt(now + settings.refreshTokenExpireDays * 86400)
    ensures forall k :: k in data && k != "exp" && k != "type" ==> k in p && p[k] == data[k]
  {
    TokenPayload(data, Refresh, Expiry(now, delta, DefaultLifetime(settings, Refresh)))
  }

  /** Given the same explicit lifetime, the two claim sets differ in the "type" claim alone. */
  lemma ClaimsDifferOnlyInType(data: Payload, delta: int, now: int, settings: TokenSettings)
    requires delta != 0
    ensures var a := AccessTokenClaims(data, Some(delta), now, settings);
      var r := RefreshTokenClaims(data, Some(delta), now, settings);
      && a.Keys == r.Keys
      && a["type"] != r["type"]
      && forall k :: k in a && k != "type" ==> a[k] == r[k]
  {
  }

  /** `create_access_token`: the signed access payload; `encode` is the abstract JWT signer. */
  function CreateAccessToken(data: Payload, delta: Option<int>, now: int, settings: TokenSettings,
                             encode: Payload -> string): string {
    encode(AccessTokenClaims(data, delta, now, settings))
  }

  /** `create_refresh_token`: the signed refresh payload. */
  function CreateRefreshToken(data: Payload, delta: Option<int>, now: int, settings: TokenSettings,
                              encode: Payload -> string): string {
    encode(RefreshTokenClaims(data, delta, now, settings))
  }

  // ---------------------------------------------------------------------
  // Key masking and the fallback cipher
  // ---------------------------------------------------------------------

  /** `create_masked_key`. */
  function CreateMaskedKey(apiKey: string): (m: string)
    ensures |apiKey| >= 8 ==> |m| == 10 && m[..3] == apiKey[..3] && m[3..6] == "..." && m[6..] == apiKey[|apiKey| - 4..]
    ensures 2 < |apiKey| < 8 ==> |m| == 5 && m[..3] == "***" && m[3..] == apiKey[|apiKey| - 2..]
    ensures |apiKey| <= 2 ==> m == "***"
  {
    if |apiKey| < 8 then
      (if |apiKey| > 2 then "***" + TakeLast(apiKey, 2) else "***")
    else
      apiKey[..3] + "..." + TakeLast(apiKey, 4)
  }

  /** A Fernet cipher; decryption yields None where the library raises. */
  datatype Fernet = Fernet(encrypt: string -> string, decrypt: string -> Option<string>)

  const MockPrefix := "mock_encrypted_"
  const DecryptedPrefix := "decrypted_key_ending_with_"

  /** `encrypt_api_key`: Fernet when one was built, else the mock prefix and the last 8 characters. */
  function EncryptApiKey(apiKey: string, fernet: Option<Fernet>): (e: string)
    ensures fernet.None? ==> e == MockPrefix + TakeLast(apiKey, 8)
    ensures fernet.None? && |apiKey| <= 8 ==> e == MockPrefix + apiKey
    ensures fernet.Some? ==> e == fernet.value.encrypt(apiKey)
  {
    if fernet.None? then MockPrefix + TakeLast(apiKey, 8) else fernet.value.encrypt(apiKey)
  }

  /**
   * `decrypt_api_key`: with Fernet, its result or None on failure; without,
   * "decrypted_key_ending_with_" and the last 8 characters of a mock value,
   * and None for anything else.
   */
  function DecryptApiKey(encrypted: string, fernet: Option<Fernet>): (r: Option<string>)
    ensures fernet.None? ==> (r.Some? <==> StartsWith(encrypted, MockPrefix))
    ensures fernet.None? && r.Some? ==> r.value == DecryptedPrefix + TakeLast(encrypted, 8)
    ensures fernet.Some? ==> r == fernet.value.decrypt(encrypted)
  {
    if fernet.None? then
      if StartsWith(encrypted, MockPrefix) then Some(DecryptedPrefix + TakeLast(encrypted, 8)) else None
    else fernet.value.decrypt(encrypted)
  }

  /** Without Fernet, decrypting an encrypted key of at least 8 characters names its last 8 characters. */
  lemma FallbackRoundTrip(apiKey: string)
    requires |apiKey| >= 8
    ensures DecryptApiKey(EncryptApiKey(apiKey, None), None) == Some(DecryptedPrefix + apiKey[|apiKey| - 8..])
  {
    var e := EncryptApiKey(apiKey, None);
    assert e[..|MockPrefix|] == MockPrefix;
    assert e[|e| - 8..] == apiKey[|apiKey| - 8..];
  }

  /** Without Fernet a shorter key's mock value keeps the tail of the prefix in what decrypts. */
  lemma FallbackShortKey(apiKey: string)
    requires |apiKey| < 8
    ensures var e := MockPrefix + apiKey;
      DecryptApiKey(EncryptApiKey(apiKey, None), None) == Some(DecryptedPrefix + e[|e| - 8..])
  {
    var e := EncryptApiKey(apiKey, None);
    assert e[..|MockPrefix|] == MockPrefix;
  }

  /** With a Fernet pair that inverts, the key survives encryption and decryption. */
  lemma FernetRoundTrip(apiKey: string, fernet: Fernet)
    requires fernet.decrypt(fernet.encrypt(apiKey)) == Some(apiKey)
    ensures DecryptApiKey(EncryptApiKey(apiKey, Some(fernet)), Some(fernet)) == Some(apiKey)
  {
  }
}
