/**
 * The request guards of the Python API (current, active and admin user)
 * and the choice of the Gemini API key for a request.
 */
module Deps {
  import opened Common
  import opened Security
  import opened UserStore

  const CredentialsError := HttpError(401, "Could not validate credentials")
  const InactiveUser := HttpError(400, "Inactive user")
  const NotEnoughPrivileges := HttpError(403, "The user doesn't have enough privileges")
  const NoGeminiKey := HttpError(400, "Gemini API key not configured. Please update your settings.")

  /**
   * `get_current_user` on the decoded token (None where verification
   * raised): every failure is the same 401, and the "type" claim is not
   * consulted.
   */
  function GetCurrentUser(users: Store, decoded: Option<Payload>): (r: Result<User, HttpError>)
    ensures r.Err? ==> r.error == CredentialsError
    ensures r.Ok? <==> decoded.Some? && FindById(users, Get(decoded.value, "sub")).Some?
    ensures r.Ok? ==> r.value == users[Get(decoded.value, "sub").s]
  {
    match decoded
    case None => Err(CredentialsError)
    case Some(payload) =>
      var sub := Get(payload, "sub");
      if sub == JNull then Err(CredentialsError)
      else match FindById(users, sub)
        case None => Err(CredentialsError)
        case Some(user) => Ok(user)
  }

  /** The guard accepts a refresh token's payload just as it accepts an access token's. */
  lemma RefreshTokenAuthenticates(users: Store, user: User, delta: Option<int>, now: int, settings: TokenSettings)
    requires user.id in users && users[user.id] == user
    ensures GetCurrentUser(users, Some(RefreshTokenClaims(map["sub" := JStr(user.id)], delta, now, settings))) == Ok(user)
    ensures GetCurrentUser(users, Some(AccessTokenClaims(map["sub" := JStr(user.id)], delta, now, settings))) == Ok(user)
  {
    var r := RefreshTokenClaims(map["sub" := JStr(user.id)], delta, now, settings);
    var a := AccessTokenClaims(map["sub" := JStr(user.id)], delta, now, settings);
    assert Get(r, "sub") == JStr(user.id);
    assert Get(a, "sub") == JStr(user.id);
  }

  /** `get_current_active_user`: the user iff active, otherwise 400. */
  function GetCurrentActiveUser(user: Result<User, HttpError>): (r: Result<User, HttpError>)
    ensures user.Err? ==> r == user
    ensures user.Ok? ==> (r.Ok? <==> user.value.isActive)
    ensures r.Ok? ==> r == user
    ensures user.Ok? && !user.value.isActive ==> r == Err(InactiveUser)
  {
    match user
    case Err(e) => Err(e)
    case Ok(u) => if !u.isActive then Err(InactiveUser) else Ok(u)
  }

  /** `get_current_admin_user`: the active check comes first, then 403 for a non-superuser. */
  function GetCurrentAdminUser(user: Result<User, HttpError>): (r: Result<User, HttpError>)
    ensures r.Ok? <==> user.Ok? && user.value.isActive && user.value.isSuperuser
    ensures r.Ok? ==> r == user
    ensures user.Ok? && !user.value.isActive ==> r == Err(InactiveUser)
    ensures user.Ok? && user.value.isActive && !user.value.isSuperuser ==> r == Err(NotEnoughPrivileges)
  {
    match GetCurrentActiveUser(user)
    case Err(e) => Err(e)
    case Ok(u) => if !u.isSuperuser then Err(NotEnoughPrivileges) else Ok(u)
  }

  /** Python truthiness of an optional string. */
  predicate Present(s: Option<string>) {
    s.Some? && s.value != ""
  }

  /** The user's own Gemini key, read from their settings if they have any. */
  function UserGeminiKey(user: User): Option<string> {
    if user.settings.Some? then user.settings.value.geminiApiKey else None
  }

  /**
   * The key of `get_user_gemini_service`: the user's own key if non-empty,
   * else the configured default if non-empty, else 400.
   */
  function SelectGeminiKey(user: User, defaultKey: Option<string>): (r: Result<string, HttpError>)
    ensures Present(UserGeminiKey(user)) ==> r == Ok(UserGeminiKey(user).value)
    ensures !Present(UserGeminiKey(user)) && Present(defaultKey) ==> r == Ok(defaultKey.value)
    ensures r.Err? <==> !Present(UserGeminiKey(user)) && !Present(defaultKey)
    ensures r.Err? ==> r.error == NoGeminiKey
    ensures r.Ok? ==> r.value != ""
  {
    var own := UserGeminiKey(user);
    var key := if Present(own) then own else defaultKey;
    if !Present(key) then Err(NoGeminiKey) else Ok(key.value)
  }

  /**
   * Under the intended field lookup, a newly registered user's default
   * settings hold no key, so the configured key is used.
   */
  lemma NewUserUsesDefaultKey(user: User, defaultKey: Option<string>)
    requires user.settings == Some(DefaultUserSettings)
    ensures SelectGeminiKey(user, defaultKey) == (if Present(defaultKey) then Ok(defaultKey.value) else Err(NoGeminiKey))
  {
  }

  /** FastAPI's answer to an exception the endpoint does not handle. */
  const InternalServerError := HttpError(500, "Internal Server Error")

  /**
   * The key selection as deps.py:110 is written: a settings object is a
   * pydantic model, which is always truthy and has no `get` method, so
   * every user with settings raises AttributeError (a 500). Only a user
   * without settings reaches the default key.
   */
  function SelectGeminiKeyAsWritten(user: User, defaultKey: Option<string>): (r: Result<string, HttpError>)
    ensures user.settings.Some? ==> r == Err(InternalServerError)
    ensures user.settings.None? ==> r == SelectGeminiKey(user, defaultKey)
  {
    if user.settings.Some? then Err(InternalServerError)
    else if !Present(defaultKey) then Err(NoGeminiKey)
    else Ok(defaultKey.value)
  }

  /** As written, a newly registered user never gets a Gemini service, whatever key is configured. */
  lemma NewUserKeyLookupFails(user: User, defaultKey: Option<string>)
    requires user.settings == Some(DefaultUserSettings)
    ensures SelectGeminiKeyAsWritten(user, defaultKey) == Err(InternalServerError)
    ensures Present(defaultKey) ==> SelectGeminiKey(user, defaultKey) != SelectGeminiKeyAsWritten(user, defaultKey)
  {
    NewUserUsesDefaultKey(user, defaultKey);
  }

  /** As written, a user's own key is never used: where it would be chosen, the request fails. */
  lemma OwnKeyNeverUsedAsWritten(user: User, defaultKey: Option<string>)
    requires Present(UserGeminiKey(user))
    ensures SelectGeminiKey(user, defaultKey) == Ok(UserGeminiKey(user).value)
    ensures SelectGeminiKeyAsWritten(user, defaultKey) == Err(InternalServerError)
  {
  }
}
