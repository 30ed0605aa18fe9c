/**
 * The Python authentication endpoints (register, login, refresh) as an
 * object holding the user collection. Request validation, password hashing
 * and verification, and token signing and decoding are parameters.
 */
module AuthEndpoints {
  import opened Common
  import opened Security
  import opened UserStore

  /** The registration request body. */
  datatype UserCreate = UserCreate(email: string, username: string, password: string, fullName: Option<string>)

  /** The registration response: the stored user without its password hash. */
  datatype UserResponse = UserResponse(id: string, email: string, username: string,
                                       fullName: Option<string>, isActive: bool, isSuperuser: bool)

  datatype TokenPair = TokenPair(accessToken: string, refreshToken: string, tokenType: string)

  const ValidationFailed := HttpError(422, "Unprocessable Entity")
  const EmailTaken := HttpError(400, "Email already registered")
  const UsernameTaken := HttpError(400, "Username already taken")
  const BadCredentials := HttpError(401, "Incorrect username or password")
  const InactiveUser := HttpError(400, "Inactive user")
  const InvalidToken := HttpError(401, "Invalid token")
  const InvalidTokenType := HttpError(401, "Invalid token type")
  const UserNotFound := HttpError(401, "User not found")

  /**
   * The request-model constraints: a valid email (the abstract `isEmail`),
   * a username of 3 to 20 characters and a password of at least 8.
   */
  predicate ValidUserCreate(u: UserCreate, isEmail: string -> bool) {
    isEmail(u.email) && 3 <= |u.username| <= 20 && |u.password| >= 8
  }

  /** The decision of `register_user`: validation, then a taken email, then a taken username. */
  function RegisterCheck(users: Store, u: UserCreate, isEmail: string -> bool): (r: Result<(), HttpError>)
    ensures r.Ok? <==> ValidUserCreate(u, isEmail) && !HasEmail(users, u.email) && !HasUsername(users, u.username)
    ensures ValidUserCreate(u, isEmail) && HasEmail(users, u.email) ==> r == Err(EmailTaken)
    ensures ValidUserCreate(u, isEmail) && !HasEmail(users, u.email) && HasUsername(users, u.username) ==> r == Err(UsernameTaken)
    ensures !ValidUserCreate(u, isEmail) ==> r == Err(ValidationFailed)
  {
    if !ValidUserCreate(u, isEmail) then Err(ValidationFailed)
    else if HasEmail(users, u.email) then Err(EmailTaken)
    else if HasUsername(users, u.username) then Err(UsernameTaken)
    else Ok(())
  }

  /** The user `register_user` stores: the request's fields, the hashed password and the defaults. */
  function NewUser(id: string, u: UserCreate, hash: string -> string): User {
    User(id, u.email, u.username, u.fullName, hash(u.password), true, false, None, Some(DefaultUserSettings))
  }

  function ResponseOf(user: User): UserResponse {
    UserResponse(user.id, user.email, user.username, user.fullName, user.isActive, user.isSuperuser)
  }

  /** The login identifier is looked up as a username first and as an email only if that fails. */
  function LookupLogin(users: Store, identifier: string): (r: Option<User>)
    requires Unique(users)
    ensures HasUsername(users, identifier) ==> r.Some? && r.value.username == identifier
    ensures !HasUsername(users, identifier) ==> r == FindByEmail(users, identifier)
    ensures r.Some? <==> HasUsername(users, identifier) || HasEmail(users, identifier)
    ensures r.Some? ==> r.value.id in users && users[r.value.id] == r.value
  {
    match FindByUsername(users, identifier)
    case Some(user) => Some(user)
    case None => FindByEmail(users, identifier)
  }

  /**
   * The decision of `login`: an unknown identifier and a wrong password give
   * the same 401; the inactive check (400) comes only after the password
   * verifies.
   */
  function LoginCheck(users: Store, identifier: string, password: string,
                      verifyPassword: (string, string) -> bool): (r: Result<User, HttpError>)
    requires Unique(users)
    ensures LookupLogin(users, identifier).None? ==> r == Err(BadCredentials)
    ensures var found := LookupLogin(users, identifier);
      found.Some? && !verifyPassword(password, found.value.hashedPassword) ==> r == Err(BadCredentials)
    ensures r == Err(InactiveUser) ==> var found := LookupLogin(users, identifier);
      found.Some? && verifyPassword(password, found.value.hashedPassword) && !found.value.isActive
    ensures r.Ok? <==> var found := LookupLogin(users, identifier);
      found.Some? && verifyPassword(password, found.value.hashedPassword) && found.value.isActive
    ensures r.Ok? ==> r.value == LookupLogin(users, identifier).value
  {
    match LookupLogin(users, identifier)
    case None => Err(BadCredentials)
    case Some(user) =>
      if !verifyPassword(password, user.hashedPassword) then Err(BadCredentials)
      else if !user.isActive then Err(InactiveUser)
      else Ok(user)
  }

  /** The claims given to both tokens of a user: just the subject. */
  function SubjectClaims(id: string): Payload {
    map["sub" := JStr(id)]
  }

  /** The token pair issued for a user, with explicit lifetimes from the settings. */
  function IssueTokens(id: string, now: int, settings: TokenSettings, encode: Payload -> string): TokenPair {
    TokenPair(
      CreateAccessToken(SubjectClaims(id), Some(settings.accessTokenExpireMinutes * SecondsPerMinute), now, settings, encode),
      CreateRefreshToken(SubjectClaims(id), Some(settings.refreshTokenExpireDays * SecondsPerDay), now, settings, encode),
      "bearer")
  }

  /** Both issued tokens carry sub = the user's id, and their types differ. */
  lemma IssuedClaimsCarrySubject(id: string, now: int, settings: TokenSettings)
    ensures var a := AccessTokenClaims(SubjectClaims(id), Some(settings.accessTokenExpireMinutes * SecondsPerMinute), now, settings);
      var r := RefreshTokenClaims(SubjectClaims(id), Some(settings.refreshTokenExpireDays * SecondsPerDay), now, settings);
      && "sub" in a && a["sub"] == JStr(id) && a["type"] == JStr("access")
      && "sub" in r && r["sub"] == JStr(id) && r["type"] == JStr("refresh")
  {
  }

  /**
   * The decision of `refresh_token` on the decoded payload (None where
   * verification raised), in the order of the source: verification, then
   * type == "refresh", then a "sub" claim, then a stored user, then an
   * active one.
   */
  function RefreshCheck(users: Store, decoded: Option<Payload>): (r: Result<User, HttpError>)
    ensures decoded.None? ==> r == Err(InvalidToken)
    ensures decoded.Some? && Get(decoded.value, "type") != JStr("refresh") ==> r == Err(InvalidTokenType)
    ensures r.Ok? <==> && decoded.Some?
                       && Get(decoded.value, "type") == JStr("refresh")
                       && FindById(users, Get(decoded.value, "sub")).Some?
                       && FindById(users, Get(decoded.value, "sub")).value.isActive
    ensures r.Ok? ==> r.value == FindById(users, Get(decoded.value, "sub")).value
    ensures r.Ok? ==> r.value in users.Values && r.value.isActive
    ensures r.Err? ==> r.error.status == 401 || r.error == InactiveUser
  {
    match decoded
    case None => Err(InvalidToken)
    case Some(payload) =>
      if Get(payload, "type") != JStr("refresh") then Err(InvalidTokenType)
      else
        var sub := Get(payload, "sub");
        if sub == JNull then Err(InvalidToken)
        else match FindById(users, sub)
          case None => Err(UserNotFound)
          case Some(user) => if !user.isActive then Err(InactiveUser) else Ok(user)
  }

  /** The order of the later refresh checks, once the payload has the refresh type. */
  lemma RefreshOrder(users: Store, payload: Payload)
    requires Get(payload, "type") == JStr("refresh")
    ensures Get(payload, "sub") == JNull ==> RefreshCheck(users, Some(payload)) == Err(InvalidToken)
    ensures Get(payload, "sub") != JNull && FindById(users, Get(payload, "sub")).None? ==>
      RefreshCheck(users, Some(payload)) == Err(UserNotFound)
    ensures FindById(users, Get(payload, "sub")).Some? && !FindById(users, Get(payload, "sub")).value.isActive ==>
      RefreshCheck(users, Some(payload)) == Err(InactiveUser)
  {
  }

  /** An access token's payload is never accepted for refreshing. */
  lemma AccessTokenCannotRefresh(users: Store, data: Payload, delta: Option<int>, now: int, settings: TokenSettings)
    ensures RefreshCheck(users, Some(AccessTokenClaims(data, delta, now, settings))) == Err(InvalidTokenType)
  {
  }

  /**
   * The refresh token a login issues is accepted for as long as its user
   * is stored and active, provided decoding inverts signing.
   */
  lemma IssuedRefreshTokenAccepted(users: Store, user: User, now: int, settings: TokenSettings,
                                   encode: Payload -> string, decode: string -> Option<Payload>)
    requires user.id in users && users[user.id] == user && user.isActive
    requires var p := RefreshTokenClaims(SubjectClaims(user.id), Some(settings.refreshTokenExpireDays * SecondsPerDay), now, settings);
      decode(encode(p)) == Some(p)
    ensures RefreshCheck(users, decode(IssueTokens(user.id, now, settings, encode).refreshToken)) == Ok(user)
  {
    var p := RefreshTokenClaims(SubjectClaims(user.id), Some(settings.refreshTokenExpireDays * SecondsPerDay), now, settings);
    assert Get(p, "sub") == JStr(user.id);
  }

  /** The authentication endpoints over one user collection. */
  class AuthService {
    var users: Store

    ghost predicate Valid()
      reads this
    {
      Unique(users)
    }

    constructor (users: Store)
      requires Unique(users)
      ensures Valid() && this.users == users
    {
      this.users := users;
    }

    /**
     * `register_user`: on success exactly the new user (hashed password,
     * active, not a superuser, default settings) is stored under the fresh
     * id and returned without its password; on failure nothing changes.
     */
    method Register(u: UserCreate, newId: string, isEmail: string -> bool, hash: string -> string)
      returns (r: Result<UserResponse, HttpError>)
      requires Valid()
      modifies this
      ensures Valid()
      ensures r.Err? <==> RegisterCheck(old(users), u, isEmail).Err?
      ensures r.Err? ==> r.error == RegisterCheck(old(users), u, isEmail).error && users == old(users)
      ensures r.Ok? ==> users == old(users)[newId := NewUser(newId, u, hash)]
      ensures r.Ok? ==> users[newId].hashedPassword == hash(u.password) && r.value == ResponseOf(users[newId])
      ensures r.Ok? && newId !in old(users) ==> |users| == |old(users)| + 1
    {
      var check := RegisterCheck(users, u, isEmail);
      if check.Err? {
        return Err(check.error);
      }
      var user := NewUser(newId, u, hash);
      InsertKeepsUnique(users, user);
      users := users[newId := user];
      return Ok(ResponseOf(user));
    }

    /**
     * `login`: on success both tokens are issued with sub = the user's id
     * and the user's last login becomes `now`; on failure nothing changes.
     */
    method Login(identifier: string, password: string, verifyPassword: (string, string) -> bool,
                 now: int, settings: TokenSettings, encode: Payload -> string)
      returns (r: Result<TokenPair, HttpError>)
      requires Valid()
      modifies this
      ensures Valid()
      ensures r.Ok? <==> LoginCheck(old(users), identifier, password, verifyPassword).Ok?
      ensures r.Err? ==> r.error == LoginCheck(old(users), identifier, password, verifyPassword).error && users == old(users)
      ensures r.Ok? ==> var user := LoginCheck(old(users), identifier, password, verifyPassword).value;
        && users == old(users)[user.id := user.(lastLogin := Some(now))]
        && r.value == IssueTokens(user.id, now, settings, encode)
    {
      var check := LoginCheck(users, identifier, password, verifyPassword);
      if check.Err? {
        return Err(check.error);
      }
      var user := check.value;
      var tokens := IssueTokens(user.id, now, settings, encode);
      UpdateKeepsUnique(users, user.id, user.(lastLogin := Some(now)));
      users := users[user.id := user.(lastLogin := Some(now))];
      return Ok(tokens);
    }

    /** `refresh_token`: issues a fresh pair exactly when the refresh checks pass; changes nothing. */
    method Refresh(token: string, decode: string -> Option<Payload>, now: int, settings: TokenSettings,
                   encode: Payload -> string)
      returns (r: Result<TokenPair, HttpError>)
      ensures r.Ok? <==> RefreshCheck(users, decode(token)).Ok?
      ensures r.Err? ==> r.error == RefreshCheck(users, decode(token)).error
      ensures r.Ok? ==> r.value == IssueTokens(RefreshCheck(users, decode(token)).value.id, now, settings, encode)
    {
      var check := RefreshCheck(users, decode(token));
      if check.Err? {
        return Err(check.error);
      }
      return Ok(IssueTokens(check.value.id, now, settings, encode));
    }
  }
}
