/**
 * Registration and login over the user table, which is keyed by the unique username.
 * Password hashing (`Bcrypt`) and token signing (`Auth.Jwt`) are parameters; the salt
 * bcrypt draws at random and the id the store assigns are inputs too.
 */
module AuthController {
  import opened Wrappers
  import opened Text
  import opened Http
  import opened Auth

  datatype Role = Admin | Agent

  function RoleName(r: Role): string {
    match r
    case Admin => "admin"
    case Agent => "agent"
  }

  /** The store's reading of a role string: only the two enum spellings are accepted. */
  function ParseRole(s: string): (r: Option<Role>)
    ensures r.Some? ==> RoleName(r.value) == s
    ensures r.None? ==> forall role: Role :: RoleName(role) != s
  {
    if s == "admin" then Some(Admin) else if s == "agent" then Some(Agent) else None
  }

  /** A stored user; `password` holds the hash, never the password itself. */
  datatype User = User(id: string, username: string, password: string, role: Role)

  /** The identity signed into a user's tokens: `{ id, username, role }`. */
  function ClaimsOf(u: User): Claims {
    Claims(u.id, u.username, RoleName(u.role))
  }

  /** The user table, keyed by username. */
  class UserTable {
    var users: map<string, User>

    ghost predicate Valid()
      reads this
    {
      forall name | name in users :: users[name].username == name
    }

    constructor ()
      ensures Valid() && users == map[]
    {
      users := map[];
    }
  }

  /** The random salt bcrypt draws for one hash. */
  type Salt = nat

  /** `bcrypt.hash` (with a salt) and `bcrypt.compare`. */
  datatype Bcrypt = Bcrypt(hash: (string, Salt) -> string, compare: (string, string) -> bool)

  /** What the model assumes of bcrypt: a password matches any hash of itself. */
  ghost predicate SoundBcrypt(b: Bcrypt) {
    forall p: string, s: Salt :: b.compare(p, b.hash(p, s))
  }

  /**
   * `role || 'agent'` as the store receives it: a falsy role becomes Agent; any other
   * string must be one of the enum spellings, or the insert throws (`None`).
   */
  function RequestedRole(role: Option<string>): (r: Option<Role>)
    ensures !Truthy(role) ==> r == Some(Agent)
    ensures Truthy(role) ==> r == ParseRole(role.value)
  {
    if !Truthy(role) then Some(Agent) else ParseRole(role.value)
  }

  const UsernameTaken: Response := Response(400, Error("Username already exists"))
  const RegistrationFailed: Response := Response(500, Error("Registration failed"))
  const InvalidCredentials: Response := Response(401, Error("Invalid credentials"))

  /**
   * `AuthController.register`: reject a taken username with 400 before anything else;
   * otherwise store the user with the hashed password and the requested role (Agent when
   * none is given) and answer 201 with a token for `{ id, username, role }`.
   */
  method Register(db: UserTable, username: string, password: string, role: Option<string>,
                  newId: string, salt: Salt, bcrypt: Bcrypt, jwt: Jwt)
    returns (resp: Response)
    requires db.Valid()
    modifies db
    ensures db.Valid()
    ensures username in old(db.users) ==> resp == UsernameTaken && db.users == old(db.users)
    ensures username !in old(db.users) && RequestedRole(role).None? ==>
      resp == RegistrationFailed && db.users == old(db.users)
    ensures username !in old(db.users) && RequestedRole(role).Some? ==>
      var u := User(newId, username, bcrypt.hash(password, salt), RequestedRole(role).value);
      && db.users == old(db.users)[username := u]
      && resp == Response(201, TokenMessage("User registered successfully", jwt.sign(ClaimsOf(u))))
  {
    if username in db.users {
      return UsernameTaken;
    }
    var hashedPassword := bcrypt.hash(password, salt);
    var stored := RequestedRole(role);
    if stored.None? {
      return RegistrationFailed;
    }
    var user := User(newId, username, hashedPassword, stored.value);
    db.users := db.users[username := user];
    var token := jwt.sign(ClaimsOf(user));
    resp := Response(201, TokenMessage("User registered successfully", token));
  }

  /**
   * `AuthController.login`: an unknown username and a wrong password get the same 401;
   * a match gets 200 with a token for the stored `{ id, username, role }`, whose username
   * is the one asked for, since the table is keyed by it. The table is only read.
   */
  method Login(db: UserTable, username: string, password: string, bcrypt: Bcrypt, jwt: Jwt)
    returns (resp: Response)
    requires db.Valid()
    ensures username !in db.users ==> resp == InvalidCredentials
    ensures username in db.users && !bcrypt.compare(password, db.users[username].password) ==>
      resp == InvalidCredentials
    ensures resp.status == 200 <==>
      username in db.users && bcrypt.compare(password, db.users[username].password)
    ensures resp.status == 200 ==>
      resp == Response(200, TokenMessage("Login successful", jwt.sign(ClaimsOf(db.users[username]))))
    ensures resp.status == 200 ==>
      resp.body.token == jwt.sign(Claims(db.users[username].id, username, RoleName(db.users[username].role)))
  {
    if username !in db.users {
      return InvalidCredentials;
    }
    var user := db.users[username];
    var isPasswordValid := bcrypt.compare(password, user.password);
    if !isPasswordValid {
      return InvalidCredentials;
    }
    var token := jwt.sign(ClaimsOf(user));
    resp := Response(200, TokenMessage("Login successful", token));
  }

  /**
   * Registering and then logging in with the same password succeeds, and both tokens
   * authenticate as the registered identity.
   */
  method RegisterThenLogin(db: UserTable, username: string, password: string, role: Option<string>,
                           newId: string, salt: Salt, bcrypt: Bcrypt, jwt: Jwt)
    returns (registered: Response, loggedIn: Response)
    requires db.Valid() && username !in db.users && RequestedRole(role).Some?
    requires SoundBcrypt(bcrypt) && SoundJwt(jwt)
    modifies db
    ensures registered.status == 201 && loggedIn.status == 200
    ensures registered.body.TokenMessage? && loggedIn.body.TokenMessage?
    ensures Authentication(Some(BearerPrefix + registered.body.token), jwt) ==
      Admit(Claims(newId, username, RoleName(RequestedRole(role).value)))
    ensures Authentication(Some(BearerPrefix + loggedIn.body.token), jwt) ==
      Admit(Claims(newId, username, RoleName(RequestedRole(role).value)))
  {
    registered := Register(db, username, password, role, newId, salt, bcrypt, jwt);
    loggedIn := Login(db, username, password, bcrypt, jwt);
    SignedTokenAdmits(jwt, ClaimsOf(db.users[username]));
  }
}
