/** PUT /api/users/profile of rbac-backend/src/routes/userRoutes.js: the caller
    updates their own record in place (`users[userIndex].field = ...`) and the
    whole list is written back to users.json. */
module UserRoutes {
  import opened Common
  import opened UserService
  import opened Http
  import opened ActivityService
  import opened AuthMiddleware

  datatype ProfileBody = ProfileBody(
    name: Option<string>,
    email: Option<string>,
    currentPassword: Option<string>,
    newPassword: Option<string>)

  /** The record after a successful update: name and email replaced only when
      supplied, the password replaced only when a new hash is given, and
      `updatedAt` always refreshed; id, roles and createdAt untouched. */
  function UpdatedProfile(u: User, body: ProfileBody, newHash: Option<string>, now: string): (r: User)
    ensures r.id == u.id && r.roles == u.roles && r.createdAt == u.createdAt
    ensures r.name == (if Provided(body.name) then body.name.value else u.name)
    ensures r.email == (if Provided(body.email) then body.email.value else u.email)
    ensures r.password == (if newHash.Some? then newHash.value else u.password)
    ensures r.updatedAt == Some(now)
  {
    var withPassword := if newHash.Some? then u.(password := newHash.value) else u;
    withPassword.(name := if Provided(body.name) then body.name.value else u.name,
                  email := if Provided(body.email) then body.email.value else u.email,
                  updatedAt := Some(now))
  }

  /** A body that supplies nothing only refreshes `updatedAt`. */
  lemma EmptyBodyOnlyTouchesUpdatedAt(u: User, now: string)
    ensures UpdatedProfile(u, ProfileBody(None, None, None, None), None, now) == u.(updatedAt := Some(now))
  {
  }

  function IsCaller(id: string): User -> bool { (u: User) => u.id == id }

  /** The handler, for the user `authenticate` attached. 404 when the caller is
      not in the list; with a new password, 400 without the current one and
      401 when it does not match; otherwise the record is updated and saved.
      PASSWORD_CHANGE is recorded as soon as the new password is hashed, before
      the save; UPDATE_PROFILE after it. A failed save is a 500. */
  method UpdateProfile(me: PublicUser, users: UserStore, log: ActivityLog, body: ProfileBody,
                       matches: (string, string) -> bool, hash: string -> string, now: string,
                       passwordStamp: Stamp, profileStamp: Stamp)
    returns (res: Response<PublicUser>)
    modifies users`file, log`file
    ensures var all := old(users.AllUsers());
      var i := FindIndex(all, IsCaller(me.id));
      var changesPassword := Provided(body.newPassword);
      (i == -1 ==>
        res == Failure(404, "User not found") && users.file == old(users.file) && log.file == old(log.file)) &&
      (i != -1 && changesPassword && !Provided(body.currentPassword) ==>
        res == Failure(400, "Current password is required to change password") &&
        users.file == old(users.file) && log.file == old(log.file)) &&
      (i != -1 && changesPassword && Provided(body.currentPassword) &&
       !matches(body.currentPassword.value, all[i].password) ==>
        res == Failure(401, "Current password is incorrect") &&
        users.file == old(users.file) && log.file == old(log.file))
    ensures var all := old(users.AllUsers());
      var i := FindIndex(all, IsCaller(me.id));
      var changesPassword := Provided(body.newPassword);
      i != -1 && (changesPassword ==> Provided(body.currentPassword) &&
                                      matches(body.currentPassword.value, all[i].password)) ==>
        var u := UpdatedProfile(all[i], body, if changesPassword then Some(hash(body.newPassword.value)) else None, now);
        var passwordLogged :=
          if changesPassword
          then Logged(old(log.file), log.writable,
                      LogEntry(passwordStamp.id, me.id, me.name, "PASSWORD_CHANGE",
                               map["email" := Text(me.email)], passwordStamp.timestamp))
          else old(log.file);
        (!users.writable ==>
          res == Failure(500, "Failed to update profile") &&
          users.file == old(users.file) && log.file == passwordLogged) &&
        (users.writable ==>
          users.file == Some(all[i := u]) &&
          log.file == Logged(passwordLogged, log.writable,
                             LogEntry(profileStamp.id, me.id, me.name, "UPDATE_PROFILE",
                                      map["email" := Text(u.email)], profileStamp.timestamp)) &&
          res == Success(200, "Profile updated successfully", WithoutPassword(u)))
  {
    var all := users.AllUsers();
    var userIndex := FindIndex(all, IsCaller(me.id));
    if userIndex == -1 {
      return Failure(404, "User not found");
    }
    ghost var loaded := all;
    ghost var newHash: Option<string> := None;
    if Provided(body.newPassword) {
      if !Provided(body.currentPassword) {
        return Failure(400, "Current password is required to change password");
      }
      var isPasswordValid := matches(body.currentPassword.value, all[userIndex].password);
      if !isPasswordValid {
        return Failure(401, "Current password is incorrect");
      }
      newHash := Some(hash(body.newPassword.value));
      all := all[userIndex := all[userIndex].(password := hash(body.newPassword.value))];
      var _ := log.AddLog(me.id, me.name, "PASSWORD_CHANGE", Some(map["email" := Text(me.email)]), passwordStamp);
    }
    var current := all[userIndex];
    all := all[userIndex := current.(name := if Provided(body.name) then body.name.value else current.name)];
    current := all[userIndex];
    all := all[userIndex := current.(email := if Provided(body.email) then body.email.value else current.email)];
    current := all[userIndex];
    all := all[userIndex := current.(updatedAt := Some(now))];
    assert all == loaded[userIndex := UpdatedProfile(loaded[userIndex], body, newHash, now)];
    if !users.writable {
      return Failure(500, "Failed to update profile");
    }
    users.file := Some(all);
    var updated := all[userIndex];
    var _ := log.AddLog(me.id, me.name, "UPDATE_PROFILE", Some(map["email" := Text(updated.email)]), profileStamp);
    res := Success(200, "Profile updated successfully", WithoutPassword(updated));
  }

  /** The route: `authenticate`, then the handler. */
  method PutProfile(req: Request, users: UserStore, verify: string -> VerifyOutcome, log: ActivityLog,
                    body: ProfileBody, matches: (string, string) -> bool, hash: string -> string,
                    now: string, passwordStamp: Stamp, profileStamp: Stamp)
    returns (res: Response<PublicUser>)
    modifies req`user, users`file, log`file
    ensures Authentication(old(req.authorization), old(users.AllUsers()), verify).Rejected? ==>
      res == Refusal(Authentication(old(req.authorization), old(users.AllUsers()), verify).halt) &&
      users.file == old(users.file) && log.file == old(log.file)
    ensures Authentication(old(req.authorization), old(users.AllUsers()), verify).Authenticated? ==>
      req.user == Some(Authentication(old(req.authorization), old(users.AllUsers()), verify).user)
  {
    var d := Authenticate(req, users, verify);
    if d.Stop? {
      return Refusal(d.halt);
    }
    res := UpdateProfile(req.user.value, users, log, body, matches, hash, now, passwordStamp, profileStamp);
  }
}
