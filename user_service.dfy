/** The credential store of rbac-backend/src/services/userService.js: an array
    of user records kept in users.json, read whole and written back whole. */
module UserService {
  import opened Common

  /** A stored user record. `roles` is optional because nothing in the store
      format forces it; `updatedAt` appears after the first profile update. */
  datatype User = User(
    id: string,
    name: string,
    email: string,
    password: string,        // the bcrypt hash
    roles: Option<seq<string>>,
    createdAt: string,
    updatedAt: Option<string>)

  /** A user record with its `password` field removed (`const { password, ...rest } = user`). */
  datatype PublicUser = PublicUser(
    id: string,
    name: string,
    email: string,
    roles: Option<seq<string>>,
    createdAt: string,
    updatedAt: Option<string>)

  function WithoutPassword(u: User): PublicUser {
    PublicUser(u.id, u.name, u.email, u.roles, u.createdAt, u.updatedAt)
  }

  /** The fields a caller hands to createUser; `id` is present only when the
      caller supplies one, in which case it overrides the generated id. */
  datatype UserData = UserData(
    id: Option<string>,
    email: string,
    password: string,
    name: string,
    roles: Option<seq<string>>)

  function HasEmail(email: string): User -> bool { (u: User) => u.email == email }
  function HasId(id: string): User -> bool { (u: User) => u.id == id }

  /** findUserByEmail: the first record whose email equals `email` exactly. */
  function FindByEmail(users: seq<User>, email: string): (r: Option<User>)
    ensures r.None? <==> forall j :: 0 <= j < |users| ==> users[j].email != email
    ensures r.Some? ==> r.value.email == email
    ensures r.Some? ==>
      exists i :: 0 <= i < |users| && users[i] == r.value &&
                  forall j :: 0 <= j < i ==> users[j].email != email
  {
    Find(users, HasEmail(email))
  }

  /** findUserById: the first record whose id equals `id`. */
  function FindById(users: seq<User>, id: string): (r: Option<User>)
    ensures r.None? <==> forall j :: 0 <= j < |users| ==> users[j].id != id
    ensures r.Some? ==> r.value.id == id
    ensures r.Some? ==>
      exists i :: 0 <= i < |users| && users[i] == r.value &&
                  forall j :: 0 <= j < i ==> users[j].id != id
  {
    Find(users, HasId(id))
  }

  /** Appending a record never hides an earlier match: lookups that succeeded
      before a createUser return the same record afterwards. */
  lemma {:induction false} FindByEmailAfterAppend(users: seq<User>, u: User, email: string)
    requires FindByEmail(users, email).Some?
    ensures FindByEmail(users + [u], email) == FindByEmail(users, email)
  {
    var i := FindIndex(users, HasEmail(email));
    var k := FindIndex(users + [u], HasEmail(email));
    assert (users + [u])[i] == users[i];
  }

  /** users.json as the service sees it. */
  class UserStore {
    /** The parsed file, or None when it is missing or cannot be parsed. */
    var file: Option<seq<User>>
    /** Whether writing the file succeeds. */
    var writable: bool

    constructor (file: Option<seq<User>>, writable: bool)
      ensures this.file == file && this.writable == writable
    {
      this.file := file;
      this.writable := writable;
    }

    /** getAllUsers: an unreadable file reads as the empty list. */
    function AllUsers(): (users: seq<User>)
      reads this
      ensures file.None? ==> users == []
      ensures file.Some? ==> users == file.value
    {
      file.GetOr([])
    }

    function FindUserByEmail(email: string): Option<User>
      reads this
    {
      FindByEmail(AllUsers(), email)
    }

    function FindUserById(id: string): Option<User>
      reads this
    {
      FindById(AllUsers(), id)
    }

    /** createUser: builds `{ id: generatedId, ...data, createdAt: now }`, pushes it
        onto the loaded list and writes the list back. A failed write throws in
        the source; here it returns None and leaves the file as it was. */
    method CreateUser(data: UserData, generatedId: string, now: string) returns (r: Option<User>)
      modifies this`file
      ensures r.Some? <==> writable
      ensures r.Some? ==>
        r.value == User(data.id.GetOr(generatedId), data.name, data.email, data.password,
                        data.roles, now, None) &&
        file == Some(old(AllUsers()) + [r.value])
      ensures r.None? ==> file == old(file)
    {
      var users := AllUsers();
      var newUser := User(if data.id.Some? then data.id.value else generatedId,
                          data.name, data.email, data.password, data.roles, now, None);
      users := users + [newUser];
      if !writable {
        return None;
      }
      file := Some(users);
      r := Some(newUser);
    }
  }
}
