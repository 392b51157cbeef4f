# RBAC demo backend and pages, modelled in Dafny

This project models the authorization pipeline of a small role-based access control demo: an Express backend with a JSON-file user store, JSON Web Token (RFC 7519) sessions and role→permission gates, plus two React pages that list users and activity logs.

What is modelled, one Dafny module per source file:

- `RbacMiddleware`: the permission gate (`checkPermission`) and the role gate (`checkRole`). The role→permission mapping read from roles.json is a `map<string, seq<string>>`, and an unreadable file is the empty map. `checkPermission` keeps the source's `for` loop, which pushes each mapped role's permissions into a list. It is proved against `EffectivePermissions`, the concatenation of the mapped lists in role order.
- `AuthMiddleware`: `authenticate`. It takes the bearer token from the `Authorization` header (the form of section 2.1 of RFC 6750, with a case-sensitive prefix). `jwt.verify` is a function parameter that returns an outcome. The user is re-read from the store by id, and that record without its password becomes `req.user`.
- `ActivityService`: the activity log, newest first and cut to 100 entries. `addLog` swallows a failed write and answers `null`.
- `UserService`: the user store, with first-match lookup by email or id and append-only `createUser`.
- `AuthController`: `signup` and `login`. `bcrypt.hash`, `bcrypt.compare` and `jwt.sign` are function parameters.
- `ArticleRoutes`: the module-level `articles` list and the GET, POST and DELETE routes. Each route passes through `authenticate` and then `checkPermission` first.
- `UserRoutes`: `PUT /profile`, which updates the caller's own record in place.
- `UsersPage` and `ActivityLogsPage`: the list helpers of `Users.jsx` and `ActivityLogs.jsx`.
- `Common` holds the JavaScript builtins the code relies on (`filter`, `find`, `findIndex`, `startsWith`, `includes`, `split`, `join`). `Http` holds the request and response shapes.

Two stores are backed by files: users.json and activity_logs.json. Each is a class with two fields. `file: Option<seq<T>>` is `None` when the file cannot be read or parsed, and reading it then gives `[]`. `writable: bool` says whether `fs.writeFile` succeeds. Each request is one atomic method call. Ids, timestamps and random suffixes are parameters.

Where the description of the system and the code disagree, the model follows the code:
- Effective permissions are a concatenated list with duplicates kept, not a set.
- The 403 body of `checkRole` carries `userRoles` only, with no permissions.
- A missing header and a header that does not start with `Bearer ` get the same 401 message.
- A verification error other than "expired" or "invalid" is a 500, not a 401. In the source this includes a token that is not valid yet.
- `PUT /profile` records `PASSWORD_CHANGE` before it saves the users file. So a failed save still leaves that entry in the log, although the password did not change. The model keeps this order.

## Model

| member | source | states |
|---|---|---|
| RbacMiddleware.CheckPermission | rbac-backend/src/middleware/rbacMiddleware.js:18-61 | 401 "Authentication required" without a user. Otherwise the loop-built permission list equals the concatenation of the mapped roles' lists. The request passes iff some held role is in the mapping and lists the permission. Otherwise 403 with the message naming the permission, plus the user's roles and permissions. An absent `roles` field or an unreadable mapping always refuses. |
| RbacMiddleware.LoadRoles | rbac-backend/src/middleware/rbacMiddleware.js:7-15 | The parsed roles.json, or the empty mapping `{}` when it cannot be read or parsed. |
| RbacMiddleware.EffectiveIffGranted | rbac-backend/src/middleware/rbacMiddleware.js:33-41 | A permission is in the flattened list iff some role of the user is a key of the mapping whose list contains it. Unmapped roles contribute nothing. |
| RbacMiddleware.NoMappingNoPermissions | rbac-backend/src/middleware/rbacMiddleware.js:7-15 | With the `{}` returned when roles.json cannot be loaded, every user has no permissions, so every check is denied rather than failing. |
| RbacMiddleware.MoreRolesMorePermissions | rbac-backend/src/middleware/rbacMiddleware.js:34-41 | Monotonicity: holding at least the roles of another user gives at least that user's permissions. |
| RbacMiddleware.HoldsAny | rbac-backend/src/middleware/rbacMiddleware.js:80 | `some`/`includes` is true iff some required role is held. |
| RbacMiddleware.CheckRole | rbac-backend/src/middleware/rbacMiddleware.js:64-92 | 401 without a user. A single role is normalised to a one-element list. The request passes iff the user holds at least one required role (OR, not AND). Otherwise 403 with the required roles joined by " or ", plus the user's roles. |
| RbacMiddleware.SingleRoleMessage | rbac-backend/tests/rbacMiddleware.test.js:103-116 | A single required role is named alone in the 403 message ("Access denied. Required role: admin"). |
| RbacMiddleware.ViewerCannotWrite | rbac-backend/tests/rbacMiddleware.test.js:44-57 | With the test mapping, a viewer may read but is refused `write:articles` with 403. The refusal carries roles ["viewer"] and permissions ["read:articles"]. |
| AuthMiddleware.BearerToken | rbac-backend/src/middleware/authMiddleware.js:10-18 | A token exists iff the header is present and starts with "Bearer " (case-sensitive). The token is the text after the prefix up to the first space or the end, which is what `split(' ')[1]` gives. |
| Common.Split | rbac-backend/src/middleware/authMiddleware.js:18 | `split(' ')` yields at least one field and no field contains the separator. The first field is the prefix of the string up to the first separator. |
| Common.JoinSplit | rbac-backend/src/middleware/authMiddleware.js:18 | Joining the fields of `split` with the separator gives back the original string. |
| AuthMiddleware.Authentication | rbac-backend/src/middleware/authMiddleware.js:4-60 | Without a bearer token the answer is 401 "No token provided. Please login first.". A verified token whose user id is stored is admitted, and the identity is the first stored record with that id (`users.find`) without its password. Success needs a verified token and a stored user with that id. Every refusal is 401 or 500, and 500 happens exactly for an unrecognised verification error. |
| AuthMiddleware.VerifyFailuresDistinct | rbac-backend/src/middleware/authMiddleware.js:39-58 | Expired token → 401 "Token expired. Please login again.". Malformed token or bad signature → 401 "Invalid token". Any other error → 500 "Authentication failed". |
| AuthMiddleware.DeletedUserRejected | rbac-backend/src/middleware/authMiddleware.js:24-31 | A valid token whose user id is no longer stored gets 401 "User no longer exists". |
| AuthMiddleware.RolesComeFromStore | rbac-backend/src/middleware/authMiddleware.js:24-35 | The identity's roles are the stored roles, not the token's snapshot. Changing a user's stored roles changes the identity the same token yields. |
| AuthMiddleware.Authenticate | rbac-backend/src/middleware/authMiddleware.js:4-60 | On success `req.user` is set to the fresh record without its password and `next` runs. On every failure the response is given and `req.user` is left as it was. |
| ActivityService.Pushed | rbac-backend/src/services/activityService.js:40-45 | After unshift and splice the new entry is at index 0. The length is min(old length + 1, 100). The rest is the old log's prefix, in order. |
| ActivityService.PushAllKeepsNewest | rbac-backend/src/services/activityService.js:40-45 | Any run of insertions leaves the newest 100 of (inserted entries newest first, then the old log). |
| ActivityService.HundredAndOneEntries | rbac-backend/src/services/activityService.js:40-45 | Recording 101 entries into an empty log keeps exactly the last 100, newest first. |
| ActivityService.Logged | rbac-backend/src/services/activityService.js:37-52 | A failed write leaves the file unchanged. A successful one stores the capped log headed by the new entry, built on [] when the file was unreadable. |
| ActivityService.ActivityLog.AddLog | rbac-backend/src/services/activityService.js:27-53 | The returned entry carries exactly the given user id, user name, action and details, with details defaulting to `{}`. It is None exactly when the write fails. The file becomes `Logged` of the old file. |
| ActivityService.ActivityLog.AllLogs | rbac-backend/src/services/activityService.js:16-24 | An unreadable log file reads as `[]`. |
| ActivityService.ActivityLog.LogsByUser | rbac-backend/src/services/activityService.js:56-59 | The stored entries of the user, each as often as stored, and nothing from anyone else. An unreadable file gives none. |
| ActivityService.LogsOfUser | rbac-backend/src/services/activityService.js:56-59 | Exactly the entries with that user id, each as often as in the log, as an order-preserving subsequence. |
| UserService.FindByEmail | rbac-backend/src/services/userService.js:18-21 | The first record whose email equals the given one exactly, or none iff no record has it. |
| UserService.FindById | rbac-backend/src/services/userService.js:24-27 | The first record with the given id, or none iff no record has it. |
| UserService.FindByEmailAfterAppend | rbac-backend/src/services/userService.js:40 | Appending a record never changes a lookup that already succeeded. |
| UserService.UserStore.AllUsers | rbac-backend/src/services/userService.js:7-15 | An unreadable users file reads as `[]`. |
| UserService.UserStore.CreateUser | rbac-backend/src/services/userService.js:30-46 | Appends exactly one record at the end and keeps earlier records as they were. The record has the given fields and `createdAt`. A supplied id overrides the generated one. A failed write changes nothing. |
| AuthController.RolesOrViewer | rbac-backend/src/controllers/authController.js:42 | Roles default to ["viewer"] only when absent. A supplied list, even an empty one, is kept. |
| AuthController.Signup | rbac-backend/src/controllers/authController.js:16-72 | Missing email, password or name → 400 with nothing read or written. Taken email → 400 "User already exists with this email" with nothing written. Otherwise the user is appended with the hashed password and default roles, USER_SIGNUP is logged after the checks, and the answer is 201 with the user without password and a token over (id, email, roles). A failed store write → 500. |
| AuthController.LoginUser | rbac-backend/src/controllers/authController.js:86-100 | Login succeeds for the first user with that email iff the password matches its hash. |
| AuthController.Login | rbac-backend/src/controllers/authController.js:75-129 | Missing email or password → 400. Unknown email and wrong password both → 401 "Invalid credentials", and the log is untouched. Success logs USER_LOGIN and answers 200 with the user without password and a token over its claims. The user store is never written. |
| AuthController.SignupThenLogin | rbac-backend/src/controllers/authController.js:38-43 | After a signup with a fresh email, a login with the same password succeeds for exactly the record created, when the hash matches the password. |
| ArticleRoutes.Admission | rbac-backend/src/routes/articleRoutes.js:37 | The chain `authenticate, checkPermission(p)` admits iff authentication succeeds and a role of the fresh identity grants `p`. The admitted identity is the authenticated one. A refused request gets authenticate's answer (the 401s and the 500) when authentication fails, and otherwise checkPermission's 403 naming `p` with the caller's roles and permissions. |
| ArticleRoutes.Admit | rbac-backend/src/routes/articleRoutes.js:14 | Running the two middlewares in order yields the admission decision and leaves the admitted user in `req.user`. |
| ArticleRoutes.WithoutArticle | rbac-backend/src/routes/articleRoutes.js:86 | Removes every article with the id and keeps all others, with their multiplicity, in order. |
| ArticleRoutes.WithoutArticleShrinks | rbac-backend/src/routes/articleRoutes.js:76-86 | Deleting a present id strictly shortens the list, and deleting it again changes nothing. |
| ArticleRoutes.ArticleRouter.constructor | rbac-backend/src/routes/articleRoutes.js:8-11 | The list starts with the two sample articles. |
| ArticleRoutes.ArticleRouter.List | rbac-backend/src/routes/articleRoutes.js:14-34 | Gated by `read:articles` after authentication. A refusal logs nothing. An admitted request logs VIEW_ARTICLES and returns the caller's email and roles with every article. |
| ArticleRoutes.ArticleRouter.Create | rbac-backend/src/routes/articleRoutes.js:37-70 | Gated by `write:articles`. Missing title or content → 400 with the list unchanged. Otherwise exactly one article is appended at the end, with author = the caller's email, then CREATE_ARTICLE is logged and the answer is 201. |
| ArticleRoutes.ArticleRouter.Delete | rbac-backend/src/routes/articleRoutes.js:73-101 | Gated by `delete:articles`. An unknown id → 404 with the list unchanged. Otherwise every article with the id is removed, the others stay in order, DELETE_ARTICLE is logged and the first match is returned. |
| UserRoutes.UpdatedProfile | rbac-backend/src/routes/userRoutes.js:56-58 | Name and email are replaced only when supplied. The password is replaced only with a new hash. `updatedAt` is always refreshed. Id, roles and createdAt are untouched. |
| UserRoutes.EmptyBodyOnlyTouchesUpdatedAt | rbac-backend/src/routes/userRoutes.js:56-58 | A body that supplies nothing changes only `updatedAt`. |
| UserRoutes.UpdateProfile | rbac-backend/src/routes/userRoutes.js:12-87 | Caller not found → 404. A new password without the current one → 400. A wrong current password → 401. In all three cases nothing is written. Otherwise only the caller's record changes (`all[i := u]`), PASSWORD_CHANGE is logged before UPDATE_PROFILE, and the answer excludes the password. A failed save → 500 after PASSWORD_CHANGE was already logged. |
| UserRoutes.PutProfile | rbac-backend/src/routes/userRoutes.js:12 | The route runs `authenticate` first. A refused request writes nothing. An admitted one passes the fresh identity to the handler. |
| UsersPage.ToggleRole | rbac-frontend/src/pages/Users.jsx:75-82 | A held role is removed everywhere, and the other roles keep their order and multiplicity. A role not held is appended at the end. |
| UsersPage.ToggleTwiceRestores | rbac-frontend/src/pages/Users.jsx:78-80 | Toggling a role that is not held twice gives back the original list. |
| UsersPage.ToggleTwiceHeld | rbac-frontend/src/pages/Users.jsx:78-80 | Toggling a held role twice leaves the other roles followed by the role once, at the end. |
| UsersPage.ToggleEditRole | rbac-frontend/src/pages/Users.jsx:75-82 | Only the edit form's roles change, they change by the `ToggleRole` rule, and the role's membership flips. |
| UsersPage.ToggleNewUserRole | rbac-frontend/src/pages/Users.jsx:84-91 | The add-user form's roles change by the same `ToggleRole` rule, the role's membership flips, and its other fields are kept. |
| UsersPage.BlankNewUserForm | rbac-frontend/src/pages/Users.jsx:16 | The add-user form starts, and is reset at line 68, with roles ["viewer"] and empty fields. Unticking viewer on it leaves no role. Ticking any other role gives ["viewer", role]. |
| UsersPage.FilteredUsers | rbac-frontend/src/pages/Users.jsx:94-99 | A user is shown iff (name or email contains the search term under the lowering function) and (the filter is 'all' or the user holds that role). Each shown row appears as often as in the input, and the result is an order-preserving subsequence. |
| UsersPage.ShowAllUnfiltered | rbac-frontend/src/pages/Users.jsx:95-97 | An empty search term with filter 'all' shows every user, in order. |
| ActivityLogsPage.FilteredLogs | rbac-frontend/src/pages/ActivityLogs.jsx:51-57 | Keeps exactly the entries of the category: 'login' = LOGIN or SIGNUP, 'articles' = ARTICLE, 'users' = USER without LOGIN or SIGNUP. Each kept entry appears as often as in the input, and the result is an order-preserving subsequence. |
| ActivityLogsPage.UnknownFilterKeepsAll | rbac-frontend/src/pages/ActivityLogs.jsx:52-56 | 'all' and every unknown filter value keep every entry. |
| ActivityLogsPage.LoginAndUsersDisjoint | rbac-frontend/src/pages/ActivityLogs.jsx:53-55 | No entry is in both the 'login' and the 'users' category. |
| ActivityLogsPage.ActionColor | rbac-frontend/src/pages/ActivityLogs.jsx:43-49 | The colour is that of the first keyword of DELETE > CREATE > UPDATE > LOGIN the action contains, and grey when it contains none. |
| ActivityLogsPage.ActionIcon | rbac-frontend/src/pages/ActivityLogs.jsx:30-41 | The seven known actions get their mapped icon. The default pin appears iff the action has no icon. |

## Left out

- Token signing and verification (`jsonwebtoken`): `verify` returns an abstract outcome and `sign` is an abstract function of the claims. Signatures, expiry arithmetic and the issue/verify round trip are not modelled.
- Password hashing (`bcryptjs`): `hash` and `matches` are parameters, and salting is folded into `hash`. A failing bcrypt call, which the source answers with 500, is not modelled.
- File I/O and JSON: `fs.readFile`, `fs.writeFile`, `fs.access`, `initializeLogsFile` and serialisation become the `file` and `writable` fields of the two stores. Parse failures are read as "unreadable".
- Ids and timestamps (`Date.now()`, `Math.random()`, ISO time) are parameters. Ids are not proved unique, and the code does not make them unique: two `createUser` calls in the same millisecond collide.
- Concurrency: interleaved requests on the shared files (last writer wins) are not modelled. Each request is atomic.
- The 500 branch of `checkPermission` ("Authorization check failed"): mapping values are lists here, so it cannot happen. In the source a role named after an `Object.prototype` member (such as `constructor`) would take it.
- JavaScript value coercions: request fields are optional strings, roles are optional string lists, and truthiness is modelled for strings only. Non-string bodies and throwing property accesses (a user row without `roles` on the Users page) are not modelled.
- `toLowerCase` is an abstract `lower` parameter. Unicode case mapping is not modelled.
- Server wiring (`server.js`, `authRoutes.js`, `activityRoutes.js`), the other routes of `userRoutes.js` (not part of this model), `api.js`, and the rendering, state and other handlers of `Users.jsx`, `ActivityLogs.jsx`, `Dashboard.jsx` and `Profile.jsx`. This includes Profile's client-side password checks, which the server does not enforce.
- The seed script and the test setup.
- ActivityLogsPage.ActionIcon: models `icons` as a plain map. In the source, `icons[action]` also finds inherited `Object.prototype` members, so an action named `toString`, `constructor` or `__proto__` gets that truthy value instead of the pin. The model gives the pin for every action outside the seven keys.
- UserRoutes.PutProfile: states only the authentication step and hands over to `UpdateProfile`. Its success-path outcome is the one `UpdateProfile` states for the fresh identity.
