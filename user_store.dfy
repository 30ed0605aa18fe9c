/**
 * The stored user record of the Python backend and the lookups the
 * authentication endpoints and guards perform on the user collection. The
 * collection is a map from document id to user.
 */
module UserStore {
  import opened Common

  datatype UserSettings = UserSettings(geminiApiKey: Option<string>)

  /** A new user's settings: all defaults, so no Gemini key. */
  const DefaultUserSettings := UserSettings(None)

  datatype User = User(
    id: string,
    email: string,
    username: string,
    fullName: Option<string>,
    hashedPassword: string,
    isActive: bool,
    isSuperuser: bool,
    lastLogin: Option<int>,
    settings: Option<UserSettings>)

  type Store = map<string, User>

  /**
   * Each user is stored under its own id, and no two users share an email
   * or a username (the unique indexes on both fields).
   */
  predicate Unique(users: Store) {
    && (forall k :: k in users ==> users[k].id == k)
    && (forall a, b :: a in users && b in users && a != b ==> users[a].email != users[b].email)
    && (forall a, b :: a in users && b in users && a != b ==> users[a].username != users[b].username)
  }

  predicate HasEmail(users: Store, email: string) {
    exists k :: k in users && users[k].email == email
  }

  predicate HasUsername(users: Store, username: string) {
    exists k :: k in users && users[k].username == username
  }

  /** `User.find_one({"username": name})`. */
  function FindByUsername(users: Store, username: string): (r: Option<User>)
    requires Unique(users)
    ensures r.Some? <==> HasUsername(users, username)
    ensures r.Some? ==> r.value.id in users && users[r.value.id] == r.value && r.value.username == username
  {
    if HasUsername(users, username) then
      var k :| k in users && users[k].username == username;
      Some(users[k])
    else None
  }

  /** `User.find_one({"email": email})`. */
  function FindByEmail(users: Store, email: string): (r: Option<User>)
    requires Unique(users)
    ensures r.Some? <==> HasEmail(users, email)
    ensures r.Some? ==> r.value.id in users && users[r.value.id] == r.value && r.value.email == email
  {
    if HasEmail(users, email) then
      var k :| k in users && users[k].email == email;
      Some(users[k])
    else None
  }

  /**
   * `User.find_one({"_id": sub})` for a token's "sub" claim: only a string
   * can equal a stored id.
   */
  function FindById(users: Store, sub: JsonValue): (r: Option<User>)
    ensures r.Some? <==> sub.JStr? && sub.s in users
    ensures r.Some? ==> r.value == users[sub.s]
  {
    if sub.JStr? && sub.s in users then Some(users[sub.s]) else None
  }

  /**
   * Storing a user whose email and username no other user has keeps the
   * store unique, whether or not its id was taken.
   */
  lemma InsertKeepsUnique(users: Store, u: User)
    requires Unique(users)
    requires !HasEmail(users, u.email) && !HasUsername(users, u.username)
    ensures Unique(users[u.id := u])
  {
    var users' := users[u.id := u];
    forall a, b | a in users' && b in users' && a != b
      ensures users'[a].email != users'[b].email && users'[a].username != users'[b].username
    {
      if a == u.id {
        assert users'[b] == users[b];
      } else if b == u.id {
        assert users'[a] == users[a];
      }
    }
  }

  /** Changing a stored user's fields other than id, email and username keeps the store unique. */
  lemma UpdateKeepsUnique(users: Store, id: string, u: User)
    requires Unique(users) && id in users
    requires u.id == id && u.email == users[id].email && u.username == users[id].username
    ensures Unique(users[id := u])
  {
  }
}
