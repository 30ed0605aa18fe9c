/**
 * The Express authentication middleware: token extraction (a loose form of
 * the Bearer scheme of section 2.1 of RFC 6750, with a cookie fallback), the
 * `protect` guard, the `restrictTo` role guard and the per-key sliding-window
 * rate limiter.
 */
module AuthMiddleware {
  import opened Common

  /** The fields of a stored JavaScript user that the guards consult. */
  datatype JsUser = JsUser(id: string, role: string, isActive: bool)

  /** A verified token's payload; `id` is absent when the claim is missing. */
  datatype Decoded = Decoded(id: Option<string>)

  const NotAuthorized := HttpError(401, "Not authorized to access this route")
  const UserGone := HttpError(401, "User no longer exists")
  const UserDeactivated := HttpError(401, "User account is deactivated")
  const TokenInvalid := HttpError(401, "Token is invalid or expired")
  const Forbidden := HttpError(403, "You do not have permission to perform this action")
  const TooManyRequests := HttpError(429, "Too many requests, please try again later")

  /** An Authorization header that starts with "Bearer" (any continuation). */
  predicate IsBearerHeader(authorization: Option<string>) {
    authorization.Some? && StartsWith(authorization.value, "Bearer")
  }

  /** `header.split(' ')[1]`: absent when the header has no space. */
  function SecondField(header: string): Option<string> {
    var fields := Split(header, ' ');
    if |fields| > 1 then Some(fields[1]) else None
  }

  /**
   * The token `protect` works with: the second space-separated field of a
   * Bearer header, otherwise a non-empty token cookie.
   */
  function ExtractToken(authorization: Option<string>, cookieToken: Option<string>): (t: Option<string>)
    ensures IsBearerHeader(authorization) ==> t == SecondField(authorization.value)
    ensures !IsBearerHeader(authorization) ==> t == (if cookieToken.Some? && cookieToken.value != "" then cookieToken else None)
    ensures t.Some? && IsBearerHeader(authorization) ==> ' ' !in t.value
    ensures t.Some? && !IsBearerHeader(authorization) ==> cookieToken == t && t.value != ""
  {
    if IsBearerHeader(authorization) then SecondField(authorization.value)
    else if cookieToken.Some? && cookieToken.value != "" then cookieToken
    else None
  }

  /** A Bearer header decides the token on its own; the cookie counts only without one. */
  lemma HeaderPrecedence(authorization: Option<string>, cookieToken: Option<string>)
    ensures IsBearerHeader(authorization) ==> ExtractToken(authorization, cookieToken) == ExtractToken(authorization, None)
    ensures !IsBearerHeader(authorization) ==> ExtractToken(authorization, cookieToken) == ExtractToken(None, cookieToken)
  {
  }

  /** A well-formed "Bearer <token>" header yields exactly the token, whatever the cookie says. */
  lemma BearerHeaderToken(token: string, cookieToken: Option<string>)
    requires ' ' !in token
    ensures ExtractToken(Some("Bearer " + token), cookieToken) == Some(token)
  {
    var h := "Bearer " + token;
    assert h[..6] == "Bearer";
    assert h == "Bearer" + [' '] + token;
    SplitAround("Bearer", token, ' ');
    SplitWithoutSeparator(token, ' ');
  }

  /** A header that is just "Bearer" yields no token, and the cookie is not consulted. */
  lemma BareBearerIgnoresCookie(cookieToken: Option<string>)
    ensures ExtractToken(Some("Bearer"), cookieToken) == None
  {
    SplitWithoutSeparator("Bearer", ' ');
  }

  /**
   * `protect`: no usable token is rejected before anything is verified or
   * looked up; then a failed verification, a missing user and an inactive
   * user are rejected, in that order, all with 401.
   */
  function Protect(authorization: Option<string>, cookieToken: Option<string>,
                   verify: string -> Option<Decoded>, users: map<string, JsUser>): (r: Result<JsUser, HttpError>)
    ensures r.Err? ==> r.error.status == 401
    ensures var t := ExtractToken(authorization, cookieToken);
      t.None? || t.value == "" ==> r == Err(NotAuthorized)
    ensures r.Ok? <==> var t := ExtractToken(authorization, cookieToken);
      && t.Some? && t.value != ""
      && verify(t.value).Some?
      && verify(t.value).value.id.Some?
      && verify(t.value).value.id.value in users
      && users[verify(t.value).value.id.value].isActive
    ensures r.Ok? ==> var t := ExtractToken(authorization, cookieToken);
      r.value == users[verify(t.value).value.id.value]
    ensures r.Ok? ==> r.value in users.Values && r.value.isActive
  {
    var t := ExtractToken(authorization, cookieToken);
    if t.None? || t.value == "" then Err(NotAuthorized)
    else match verify(t.value)
      case None => Err(TokenInvalid)
      case Some(decoded) =>
        if decoded.id.None? || decoded.id.value !in users then Err(UserGone)
        else if !users[decoded.id.value].isActive then Err(UserDeactivated)
        else Ok(users[decoded.id.value])
  }

  /** The order of the checks after the token is found. */
  lemma ProtectOrder(authorization: Option<string>, cookieToken: Option<string>,
                     verify: string -> Option<Decoded>, users: map<string, JsUser>)
    requires ExtractToken(authorization, cookieToken).Some?
    requires ExtractToken(authorization, cookieToken).value != ""
    ensures var t := ExtractToken(authorization, cookieToken).value;
      var r := Protect(authorization, cookieToken, verify, users);
      && (verify(t).None? ==> r == Err(TokenInvalid))
      && (verify(t).Some? && (verify(t).value.id.None? || verify(t).value.id.value !in users) ==> r == Err(UserGone))
      && ((verify(t).Some? && verify(t).value.id.Some? && verify(t).value.id.value in users
           && !users[verify(t).value.id.value].isActive) ==> r == Err(UserDeactivated))
  {
  }

  /** `restrictTo(...roles)`: passes exactly the users whose role is listed, otherwise 403. */
  function RestrictTo(roles: seq<string>, user: JsUser): (r: Result<JsUser, HttpError>)
    ensures r.Ok? <==> user.role in roles
    ensures r.Ok? ==> r.value == user
    ensures r.Err? ==> r.error == Forbidden
  {
    if user.role in roles then Ok(user) else Err(Forbidden)
  }

  // ---------------------------------------------------------------------
  // Rate limiting
  // ---------------------------------------------------------------------

  /** The limiter key: the authenticated user's id, or else the client address. */
  function LimitKey(userId: Option<string>, ip: string): string {
    if userId.Some? then userId.value else ip
  }

  /** The stored timestamps still inside the window ending at `now`. */
  function Recent(timestamps: seq<int>, now: int, windowMs: int): (r: seq<int>)
    ensures IsSubsequence(r, timestamps)
    ensures forall t :: t in r ==> now - t < windowMs
    ensures |r| == CountWhere(timestamps, (t: int) => now - t < windowMs)
  {
    Filter(timestamps, (t: int) => now - t < windowMs)
  }

  /**
   * The closure state of one `rateLimit(maxRequests, windowMs)` middleware:
   * a map from key to the timestamps of its accepted requests.
   */
  class RateLimiter {
    const maxRequests: int
    const windowMs: int
    var timestamps: map<string, seq<int>>

    /** No key ever holds more than maxRequests timestamps. */
    ghost predicate Valid()
      reads this
    {
      forall k :: k in timestamps ==> |timestamps[k]| <= maxRequests
    }

    constructor (maxRequests: int, windowMs: int)
      ensures Valid()
      ensures this.maxRequests == maxRequests && this.windowMs == windowMs
      ensures timestamps == map[]
    {
      this.maxRequests := maxRequests;
      this.windowMs := windowMs;
      timestamps := map[];
    }

    /** The stored timestamps of a key; none for a key never seen. */
    function Stored(key: string): seq<int>
      reads this
    {
      if key in timestamps then timestamps[key] else []
    }

    /**
     * One request: accepted iff fewer than maxRequests of the key's stored
     * timestamps lie inside the window; an accepted request stores the recent
     * ones plus `now`, a rejected one leaves every entry as it was, and no
     * other key's entry changes.
     */
    method Handle(userId: Option<string>, ip: string, now: int) returns (r: Result<(), HttpError>)
      requires Valid()
      modifies this
      ensures Valid()
      ensures var key := LimitKey(userId, ip);
        r.Ok? <==> CountWhere(old(Stored(key)), (t: int) => now - t < windowMs) < maxRequests
      ensures var key := LimitKey(userId, ip);
        r.Ok? ==> timestamps == old(timestamps)[key := Recent(old(Stored(key)), now, windowMs) + [now]]
      ensures r.Err? ==> r.error == TooManyRequests && timestamps == old(timestamps)
    {
      var key := LimitKey(userId, ip);
      var stamps := Stored(key);
      var recent := Recent(stamps, now, windowMs);
      if |recent| >= maxRequests {
        return Err(TooManyRequests);
      }
      timestamps := timestamps[key := recent + [now]];
      return Ok(());
    }
  }

  /** After an accepted request every timestamp still stored for the key lies inside the window. */
  lemma AcceptedListInWindow(stored: seq<int>, now: int, windowMs: int)
    requires windowMs > 0
    ensures forall t :: t in Recent(stored, now, windowMs) + [now] ==> now - t < windowMs
  {
  }
}
