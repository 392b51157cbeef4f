/** The authorization gate of rbac-backend/src/middleware/rbacMiddleware.js:
    checkPermission resolves the user's roles through the role->permission
    mapping of roles.json; checkRole tests the roles directly. */
module RbacMiddleware {
  import opened Common
  import opened UserService
  import opened Http

  type Role = string
  type Permission = string

  /** The parsed roles.json: role name -> permission list. */
  type RoleMapping = map<Role, seq<Permission>>

  /** loadRoles: the parsed file, or `{}` when it cannot be read or parsed. */
  function LoadRoles(file: Option<RoleMapping>): (m: RoleMapping)
    ensures file.None? ==> m == map[]
    ensures file.Some? ==> m == file.value
  {
    file.GetOr(map[])
  }

  /** `req.user.roles || []`. */
  function RolesOf(user: PublicUser): seq<Role> {
    user.roles.GetOr([])
  }

  /** Role `r` is a key of the mapping and lists `p`. */
  predicate Grants(m: RoleMapping, r: Role, p: Permission) {
    r in m && p in m[r]
  }

  /** The permission lists of the mapped roles, concatenated in role order
      (duplicates kept); unmapped roles contribute nothing. */
  function EffectivePermissions(roles: seq<Role>, m: RoleMapping): seq<Permission> {
    if roles == [] then []
    else
      var last := roles[|roles| - 1];
      EffectivePermissions(roles[..|roles| - 1], m) + (if last in m then m[last] else [])
  }

  /** A permission is effective exactly when some role of the user grants it. */
  lemma {:induction false} EffectiveIffGranted(roles: seq<Role>, m: RoleMapping, p: Permission)
    ensures p in EffectivePermissions(roles, m) <==> exists r :: r in roles && Grants(m, r, p)
  {
    if roles != [] {
      var init := roles[..|roles| - 1];
      var last := roles[|roles| - 1];
      var extra := if last in m then m[last] else [];
      EffectiveIffGranted(init, m, p);
      assert roles == init + [last];
      assert EffectivePermissions(roles, m) == EffectivePermissions(init, m) + extra;
      if p in EffectivePermissions(init, m) {
        var r :| r in init && Grants(m, r, p);
        assert r in roles;
      } else if p in extra {
        assert last in roles && Grants(m, last, p);
      }
      if exists r :: r in roles && Grants(m, r, p) {
        var r :| r in roles && Grants(m, r, p);
        if r != last {
          assert r in init;
        }
      }
    }
  }

  /** Without a readable mapping no role resolves to any permission. */
  lemma {:induction false} NoMappingNoPermissions(roles: seq<Role>)
    ensures EffectivePermissions(roles, LoadRoles(None)) == []
  {
    if roles != [] {
      NoMappingNoPermissions(roles[..|roles| - 1]);
    }
  }

  /** Monotonicity: a user who holds at least the roles of another holds at
      least that user's permissions. */
  lemma MoreRolesMorePermissions(roles: seq<Role>, more: seq<Role>, m: RoleMapping, p: Permission)
    requires forall r :: r in roles ==> r in more
    requires p in EffectivePermissions(roles, m)
    ensures p in EffectivePermissions(more, m)
  {
    EffectiveIffGranted(roles, m, p);
    EffectiveIffGranted(more, m, p);
  }

  /** The decision of checkPermission(required) for `req.user`. */
  function PermissionDecision(user: Option<PublicUser>, m: RoleMapping, required: Permission): Decision {
    if user.None? then Stop(Halt(401, "Authentication required", None, None))
    else
      var roles := RolesOf(user.value);
      var perms := EffectivePermissions(roles, m);
      if required in perms then Next
      else Stop(Halt(403, "Access denied. Required permission: " + required, Some(roles), Some(perms)))
  }

  /** checkPermission(required): 401 without a user; otherwise collects the
      permissions of the user's roles with a loop and lets the request through
      exactly when `required` is among them. */
  method CheckPermission(user: Option<PublicUser>, rolesFile: Option<RoleMapping>, required: Permission)
    returns (d: Decision)
    ensures d == PermissionDecision(user, LoadRoles(rolesFile), required)
    ensures d.Next? <==>
      user.Some? && exists r :: r in RolesOf(user.value) && Grants(LoadRoles(rolesFile), r, required)
    ensures user.None? || user.value.roles.None? || rolesFile.None? ==> d.Stop?
  {
    if user.None? {
      return Stop(Halt(401, "Authentication required", None, None));
    }
    var userRoles := RolesOf(user.value);
    var rolePermissions := LoadRoles(rolesFile);
    var userPermissions: seq<Permission> := [];
    for i := 0 to |userRoles|
      invariant userPermissions == EffectivePermissions(userRoles[..i], rolePermissions)
    {
      var role := userRoles[i];
      if role in rolePermissions {
        userPermissions := userPermissions + rolePermissions[role];
      }
      assert userRoles[..i + 1][..i] == userRoles[..i];
    }
    assert userRoles[..|userRoles|] == userRoles;
    EffectiveIffGranted(userRoles, rolePermissions, required);
    if rolesFile.None? {
      NoMappingNoPermissions(userRoles);
    }
    if required !in userPermissions {
      return Stop(Halt(403, "Access denied. Required permission: " + required,
                       Some(userRoles), Some(userPermissions)));
    }
    d := Next;
  }

  /** The argument of checkRole: one role or a list of them. */
  datatype RequiredRoles = OneRole(role: Role) | AnyRole(roles: seq<Role>)

  /** `Array.isArray(requiredRoles) ? requiredRoles : [requiredRoles]`. */
  function RolesArray(required: RequiredRoles): seq<Role> {
    match required
    case OneRole(r) => [r]
    case AnyRole(rs) => rs
  }

  /** `wanted.some(role => held.includes(role))`. */
  function HoldsAny(wanted: seq<Role>, held: seq<Role>): (b: bool)
    ensures b <==> exists r :: r in wanted && r in held
  {
    if wanted == [] then false
    else if wanted[0] in held then true
    else
      assert forall r :: r in wanted <==> r == wanted[0] || r in wanted[1..];
      HoldsAny(wanted[1..], held)
  }

  /** checkRole(required): 401 without a user; lets the request through when
      the user holds at least one of the required roles; otherwise 403 naming
      the required roles joined by " or ". */
  function CheckRole(user: Option<PublicUser>, required: RequiredRoles): (d: Decision)
    ensures user.None? ==> d == Stop(Halt(401, "Authentication required", None, None))
    ensures d.Next? <==> user.Some? && exists r :: r in RolesArray(required) && r in RolesOf(user.value)
    ensures user.Some? && d.Stop? ==>
      d.halt == Halt(403, "Access denied. Required role: " + Join(RolesArray(required), " or "),
                     Some(RolesOf(user.value)), None)
  {
    if user.None? then Stop(Halt(401, "Authentication required", None, None))
    else
      var userRoles := RolesOf(user.value);
      var rolesArray := RolesArray(required);
      if HoldsAny(rolesArray, userRoles) then Next
      else Stop(Halt(403, "Access denied. Required role: " + Join(rolesArray, " or "),
                     Some(userRoles), None))
  }

  /** The mapping of the repository's tests: admin, editor and viewer. */
  function SampleMapping(): RoleMapping {
    map["admin" := ["read:articles", "write:articles", "delete:articles"],
        "editor" := ["read:articles", "write:articles"],
        "viewer" := ["read:articles"]]
  }

  /** With the sample mapping a viewer may read but not write articles, and the
      refusal names the missing permission and the viewer's own permissions. */
  lemma ViewerCannotWrite(u: PublicUser)
    requires u.roles == Some(["viewer"])
    ensures PermissionDecision(Some(u), SampleMapping(), "read:articles") == Next
    ensures PermissionDecision(Some(u), SampleMapping(), "write:articles") ==
      Stop(Halt(403, "Access denied. Required permission: write:articles",
                Some(["viewer"]), Some(["read:articles"])))
  {
    var roles: seq<Role> := ["viewer"];
    assert roles[..0] == [];
    assert EffectivePermissions(roles, SampleMapping()) == ["read:articles"];
  }

  /** A single required role is reported by name alone. */
  lemma SingleRoleMessage(u: PublicUser, role: Role)
    requires CheckRole(Some(u), OneRole(role)).Stop?
    ensures CheckRole(Some(u), OneRole(role)).halt.message == "Access denied. Required role: " + role
  {
  }
}
