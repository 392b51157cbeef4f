/** The list logic of rbac-frontend/src/pages/Users.jsx: the role toggles of
    the edit form and the add-user form, and the search/role filter. Case
    folding (`toLowerCase`) is a parameter `lower`. */
module UsersPage {
  import opened Common

  /** A user row as the page receives it from the API. */
  datatype UserRow = UserRow(id: string, name: string, email: string, roles: seq<string>)

  /** The edit form (`formData`). */
  datatype EditForm = EditForm(name: string, email: string, roles: seq<string>)

  /** The add-user form (`newUserData`). */
  datatype NewUserForm = NewUserForm(name: string, email: string, password: string, roles: seq<string>)

  function NotRole(role: string): string -> bool { (r: string) => r != role }

  /** The toggle both forms use: remove every occurrence of a held role, or
      append a role not held. */
  function ToggleRole(roles: seq<string>, role: string): (r: seq<string>)
    ensures role in roles ==>
      role !in r && IsSubsequence(r, roles) &&
      forall x :: x != role ==> multiset(r)[x] == multiset(roles)[x]
    ensures role !in roles ==> r == roles + [role]
  {
    if role in roles then Filter(roles, NotRole(role)) else roles + [role]
  }

  /** Toggling a role that is not held, twice, gives the list back. */
  lemma {:induction false} ToggleTwiceRestores(roles: seq<string>, role: string)
    requires role !in roles
    ensures ToggleRole(ToggleRole(roles, role), role) == roles
  {
    assert role in roles + [role];
    FilterAppend(roles, [role], NotRole(role));
    FilterKeepsAll(roles, NotRole(role));
    assert Filter([role], NotRole(role)) == [];
  }

  /** Toggling a held role, twice, leaves it held exactly once, at the end. */
  lemma ToggleTwiceHeld(roles: seq<string>, role: string)
    requires role in roles
    ensures ToggleRole(ToggleRole(roles, role), role) == Filter(roles, NotRole(role)) + [role]
  {
  }

  /** handleRoleToggle: only the roles of the edit form change. */
  function ToggleEditRole(form: EditForm, role: string): (f: EditForm)
    ensures f.name == form.name && f.email == form.email
    ensures f.roles == ToggleRole(form.roles, role)
    ensures role in f.roles <==> role !in form.roles
  {
    form.(roles := ToggleRole(form.roles, role))
  }

  /** handleNewUserRoleToggle: only the roles of the add-user form change. */
  function ToggleNewUserRole(form: NewUserForm, role: string): (f: NewUserForm)
    ensures f.name == form.name && f.email == form.email && f.password == form.password
    ensures f.roles == ToggleRole(form.roles, role)
    ensures role in f.roles <==> role !in form.roles
  {
    form.(roles := ToggleRole(form.roles, role))
  }

  /** The add-user form when the page opens and after a user was added: only
      the viewer role is ticked, so unticking it leaves no role at all. */
  function BlankNewUserForm(): (f: NewUserForm)
    ensures f.roles == ["viewer"] && f.name == "" && f.email == "" && f.password == ""
    ensures ToggleNewUserRole(f, "viewer").roles == []
    ensures forall role :: role != "viewer" ==> ToggleNewUserRole(f, role).roles == ["viewer", role]
  {
    var f := NewUserForm("", "", "", ["viewer"]);
    assert Filter(f.roles[1..], NotRole("viewer")) == [];
    f
  }

  /** The predicate of `filteredUsers`. */
  function Shown(searchTerm: string, roleFilter: string, lower: string -> string): UserRow -> bool {
    (u: UserRow) =>
      (Contains(lower(u.name), lower(searchTerm)) || Contains(lower(u.email), lower(searchTerm))) &&
      (roleFilter == "all" || roleFilter in u.roles)
  }

  /** `filteredUsers`: the rows whose name or email contains the search term,
      ignoring case, and that hold the selected role unless it is 'all'. */
  function FilteredUsers(users: seq<UserRow>, searchTerm: string, roleFilter: string,
                         lower: string -> string): (r: seq<UserRow>)
    ensures forall u :: u in r <==>
      u in users &&
      (Contains(lower(u.name), lower(searchTerm)) || Contains(lower(u.email), lower(searchTerm))) &&
      (roleFilter == "all" || roleFilter in u.roles)
    ensures forall u :: Shown(searchTerm, roleFilter, lower)(u) ==> multiset(r)[u] == multiset(users)[u]
    ensures IsSubsequence(r, users)
  {
    Filter(users, Shown(searchTerm, roleFilter, lower))
  }

  /** With no search term and the filter on 'all', every user is shown, in order. */
  lemma ShowAllUnfiltered(users: seq<UserRow>, lower: string -> string)
    requires lower("") == ""
    ensures FilteredUsers(users, "", "all", lower) == users
  {
    forall u | u in users ensures Shown("", "all", lower)(u) {
      ContainsEmpty(lower(u.name));
    }
    FilterKeepsAll(users, Shown("", "all", lower));
  }
}
