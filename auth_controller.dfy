/** signup and login of rbac-backend/src/controllers/authController.js. Token
    signing and password hashing are parameters: `sign` stands for
    `jwt.sign` over the claim triple, `hash` for `bcrypt.hash` with this
    request's salt, `matches` for `bcrypt.compare`. */
module AuthController {
  import opened Common
  import opened UserService
  import opened Http
  import opened ActivityService

  /** The payload generateToken signs. */
  datatype Claims = Claims(userId: string, email: string, roles: Option<seq<string>>)

  function ClaimsOf(u: User): Claims {
    Claims(u.id, u.email, u.roles)
  }

  /** The `data` of a successful signup or login. */
  datatype Session = Session(user: PublicUser, token: string)

  datatype SignupBody = SignupBody(
    email: Option<string>,
    password: Option<string>,
    name: Option<string>,
    roles: Option<seq<string>>)

  datatype LoginBody = LoginBody(email: Option<string>, password: Option<string>)

  /** `roles || ['viewer']`: any supplied list, even an empty one, is kept. */
  function RolesOrViewer(roles: Option<seq<string>>): (r: seq<string>)
    ensures roles.Some? ==> r == roles.value
    ensures roles.None? ==> r == ["viewer"]
  {
    if roles.Some? then roles.value else ["viewer"]
  }

  /** The record createUser stores for a signup that passed the checks. */
  function SignedUp(body: SignupBody, hash: string -> string, newId: string, now: string): User
    requires Provided(body.email) && Provided(body.password) && Provided(body.name)
  {
    User(newId, body.name.value, body.email.value, hash(body.password.value),
         Some(RolesOrViewer(body.roles)), now, None)
  }

  function SignupDetails(u: User): Details {
    map["email" := Text(u.email), "roles" := Names(u.roles.GetOr([]))]
  }

  /** signup: 400 when email, password or name is missing (the store is not
      read); 400 when the email is taken; otherwise stores the user with the
      hashed password and default roles, records USER_SIGNUP and answers 201
      with the user (without password) and a token over its claims. A failed
      write of the user store is a 500. */
  method Signup(body: SignupBody, users: UserStore, log: ActivityLog, hash: string -> string,
                sign: Claims -> string, newId: string, now: string, stamp: Stamp)
    returns (res: Response<Session>)
    modifies users`file, log`file
    ensures !(Provided(body.email) && Provided(body.password) && Provided(body.name)) ==>
      res == Failure(400, "Please provide email, password, and name") &&
      users.file == old(users.file) && log.file == old(log.file)
    ensures Provided(body.email) && Provided(body.password) && Provided(body.name) &&
            FindByEmail(old(users.AllUsers()), body.email.value).Some? ==>
      res == Failure(400, "User already exists with this email") &&
      users.file == old(users.file) && log.file == old(log.file)
    ensures Provided(body.email) && Provided(body.password) && Provided(body.name) &&
            FindByEmail(old(users.AllUsers()), body.email.value).None? && !users.writable ==>
      res == Failure(500, "Server error during signup") &&
      users.file == old(users.file) && log.file == old(log.file)
    ensures Provided(body.email) && Provided(body.password) && Provided(body.name) &&
            FindByEmail(old(users.AllUsers()), body.email.value).None? && users.writable ==>
      var u := SignedUp(body, hash, newId, now);
      users.file == Some(old(users.AllUsers()) + [u]) &&
      log.file == Logged(old(log.file), log.writable,
                         LogEntry(stamp.id, u.id, u.name, "USER_SIGNUP", SignupDetails(u), stamp.timestamp)) &&
      res == Success(201, "User registered successfully", Session(WithoutPassword(u), sign(ClaimsOf(u))))
  {
    if !Provided(body.email) || !Provided(body.password) || !Provided(body.name) {
      return Failure(400, "Please provide email, password, and name");
    }
    var email, password, name := body.email.value, body.password.value, body.name.value;
    var existingUser := users.FindUserByEmail(email);
    if existingUser.Some? {
      return Failure(400, "User already exists with this email");
    }
    var hashedPassword := hash(password);
    var created := users.CreateUser(UserData(None, email, hashedPassword, name, Some(RolesOrViewer(body.roles))),
                                    newId, now);
    if created.None? {
      return Failure(500, "Server error during signup");
    }
    var newUser := created.value;
    var token := sign(ClaimsOf(newUser));
    var _ := log.AddLog(newUser.id, newUser.name, "USER_SIGNUP", Some(SignupDetails(newUser)), stamp);
    res := Success(201, "User registered successfully", Session(WithoutPassword(newUser), token));
  }

  /** The user a login succeeds for, if any: the first with that email, and
      only when the password matches its hash. */
  function LoginUser(users: seq<User>, email: string, password: string,
                     matches: (string, string) -> bool): (r: Option<User>)
    ensures r.Some? <==> FindByEmail(users, email).Some? && matches(password, FindByEmail(users, email).value.password)
    ensures r.Some? ==> r == FindByEmail(users, email)
  {
    var user := FindByEmail(users, email);
    if user.Some? && matches(password, user.value.password) then user else None
  }

  /** login: 400 when email or password is missing; 401 "Invalid credentials"
      alike for an unknown email and a wrong password; otherwise records
      USER_LOGIN and answers 200 with the user (without password) and a token.
      The user store is never written. */
  method Login(body: LoginBody, users: UserStore, log: ActivityLog, matches: (string, string) -> bool,
               sign: Claims -> string, stamp: Stamp)
    returns (res: Response<Session>)
    modifies log`file
    ensures !(Provided(body.email) && Provided(body.password)) ==>
      res == Failure(400, "Please provide email and password") && log.file == old(log.file)
    ensures Provided(body.email) && Provided(body.password) &&
            LoginUser(users.AllUsers(), body.email.value, body.password.value, matches).None? ==>
      res == Failure(401, "Invalid credentials") && log.file == old(log.file)
    ensures Provided(body.email) && Provided(body.password) &&
            LoginUser(users.AllUsers(), body.email.value, body.password.value, matches).Some? ==>
      var u := LoginUser(users.AllUsers(), body.email.value, body.password.value, matches).value;
      log.file == Logged(old(log.file), log.writable,
                         LogEntry(stamp.id, u.id, u.name, "USER_LOGIN", map["email" := Text(u.email)], stamp.timestamp)) &&
      res == Success(200, "Login successful", Session(WithoutPassword(u), sign(ClaimsOf(u))))
  {
    if !Provided(body.email) || !Provided(body.password) {
      return Failure(400, "Please provide email and password");
    }
    var email, password := body.email.value, body.password.value;
    var user := users.FindUserByEmail(email);
    if user.None? {
      return Failure(401, "Invalid credentials");
    }
    var isPasswordValid := matches(password, user.value.password);
    if !isPasswordValid {
      return Failure(401, "Invalid credentials");
    }
    var u := user.value;
    var token := sign(ClaimsOf(u));
    var _ := log.AddLog(u.id, u.name, "USER_LOGIN", Some(map["email" := Text(u.email)]), stamp);
    res := Success(200, "Login successful", Session(WithoutPassword(u), token));
  }

  /** A signed-up user is found by its email afterwards, and logging in with
      the password it signed up with succeeds when the hash matches it. */
  lemma {:induction false} SignupThenLogin(users: seq<User>, body: SignupBody, hash: string -> string,
                                           matches: (string, string) -> bool, newId: string, now: string)
    requires Provided(body.email) && Provided(body.password) && Provided(body.name)
    requires FindByEmail(users, body.email.value).None?
    requires matches(body.password.value, hash(body.password.value))
    ensures LoginUser(users + [SignedUp(body, hash, newId, now)], body.email.value, body.password.value, matches)
            == Some(SignedUp(body, hash, newId, now))
  {
    var u := SignedUp(body, hash, newId, now);
    var all := users + [u];
    var found := FindByEmail(all, body.email.value);
    assert all[|users|].email == body.email.value;
    var i :| 0 <= i < |all| && all[i] == found.value && forall j :: 0 <= j < i ==> all[j].email != body.email.value;
    assert i == |users|;
  }
}
