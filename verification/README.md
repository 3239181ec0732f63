# Task Manager: authorization pipeline and owner-scoped task table

A Dafny model of the security core of a small multi-user task manager, a REST
backend with a browser client. The model covers five parts:

- **Server request pipeline.** The `auth` middleware turns the `Authorization`
  header into a 401 or a principal. `adminAuth` turns a non-admin principal
  into a 403. The `/api/tasks` router fixes the middleware chain of every route.
- **Task access layer.** The six handlers `getTasks`, `createTask`,
  `updateTask`, `deleteTask`, `getAllUsers` and `getAllTasks` act on a
  sequence-backed `users`/`tasks` store. Each SQL statement has its relational
  meaning: the owner filter, the optional status filter, the
  `WHERE id AND user_id` ownership predicate, the full-field overwrite, and the
  admin joins. Any error raised is a 500.
- **Schema.** Column constraints and defaults, AUTOINCREMENT ids, and the
  idempotent seeding of the administrator account at start-up.
- **Client route guards.** `ProtectedRoute`, `AdminRoute`, and the client
  route table with its redirects.
- **Client session state machine.** `useAuth`, the start-up effect, `login`,
  `register` and `logout`. They act on `localStorage`, the default
  `Authorization` header, `user` and `loading`.

Everything is pure functions over immutable datatypes. Each request and each
client transition is one atomic step. The pieces outside the model are
parameters:

- **Token verification** (the JWT signature and expiry check) is
  `verify: string -> Option<int>`. It yields the id claim of a token it accepts.
- **A failing store** is a flag. `authFault` stands for `auth`'s user lookup
  raising. `handlerFault` (the handlers' `fault`) stands for the handler's own
  statement raising.
- **`CURRENT_TIMESTAMP`** is `now`.
- **bcrypt** is `hash`.
- **Network replies and `JSON.parse` results** are inputs of the client
  transitions.

Modules, one per component: `Wrappers`, `Js` (truthiness and `||`), `Text`
(first-occurrence `replace`, reading a route id), `Rows` (selection, count,
newest-first order), `Schema`, `Http`, `TaskController`, `AuthMiddleware`,
`TaskRoutes`, `AuthContext`, `AppRoutes`, `EndToEnd` (the client's start-up
token check answered by the server pipeline).

Behaviour worth noting:

- `createTask` stores any title, the empty string included. A missing title
  fails the NOT NULL constraint, and the answer is 500.
- `updateTask` stores whatever `status` text it is given.
- `updateTask` overwrites all four fields. An update carrying only `status`
  sets the title to NULL, which fails NOT NULL. The row is left unchanged, and
  the answer is 500.

## Model

| member | source | states |
|---|---|---|
| `Text.ReplaceFirst` | server/middleware/auth.js:6 | a string without the pattern comes back unchanged; otherwise exactly the first occurrence is cut out and replaced |
| `Text.FirstOccurrence` | server/middleware/auth.js:6 | the result is an index where the pattern occurs with no earlier occurrence, or none when it occurs nowhere |
| `Text.ReplaceLeadingOccurrence` | server/middleware/auth.js:6 | removing a pattern that starts the string leaves exactly the rest, even if the rest repeats the pattern |
| `Text.ParseId` | server/controllers/taskController.js:42-47 | the `:id` segment is a number exactly when it is a non-empty string of decimal digits |
| `Text.ParseShowNat` | server/controllers/taskController.js:42-47 | the decimal rendering of an id reads back as that id, so a URL built from a row's id addresses that row |
| `Js.OrNull` | server/controllers/taskController.js:30 | `due_date \|\| null`: a truthy value is kept and a falsy one becomes NULL |
| `Js.FirstTruthy` | client/src/context/AuthContext.jsx:98 | `a \|\| b \|\| fallback` picks the first truthy message, else the fallback |
| `Rows.Select` | server/controllers/taskController.js:6-12 | `WHERE`: a row is in the result iff it is in the table and satisfies the condition; all rows kept iff all satisfy it |
| `Rows.SelectMultiplicity` | server/controllers/taskController.js:6-12 | `WHERE` keeps every copy of a row that satisfies the condition and no copy of any other row, so it neither duplicates nor drops rows |
| `Rows.SelectConcat` | server/controllers/taskController.js:6-12 | selecting from two tables placed one after the other gives the two selections in the same order: `WHERE` keeps table order |
| `Rows.Count` | server/controllers/taskController.js:85 | `COUNT`, counted row by row, equals the number of rows the matching `WHERE` keeps; it is zero exactly when no row satisfies the condition |
| `Rows.CountConcat` | server/controllers/taskController.js:85 | the count over two tables placed one after the other is the sum of their counts |
| `Rows.SelectUniqueBy` | server/config/database.js:61 | deleting rows keeps the primary key unique |
| `Rows.SortNewestFirst` | server/controllers/taskController.js:14 | `ORDER BY created_at DESC`: the result is a permutation of the input ordered by non-increasing key |
| `Schema.FindUser` | server/middleware/auth.js:13 | `WHERE id = $1` finds a row with that id, or none exactly when no row has it |
| `Schema.InsertUser` | server/config/database.js:47-56 | NOT NULL name/email/password and UNIQUE email reject the insert; otherwise one row is appended with the next id and `is_admin` defaulting to 0; the table invariant is kept |
| `Schema.InsertTask` | server/config/database.js:59-71 | the insert succeeds exactly when a title is given, and a NULL title is rejected with a NOT NULL error; otherwise one row is appended with status `'pending'`, both timestamps `now`, and the next id; the invariant is kept |
| `Schema.AdminEmail` | server/config/database.js:74 | an unset or empty configured admin email means `admin@example.com` |
| `Schema.AdminPassword` | server/config/database.js:77 | an unset or empty configured admin password means `admin123` |
| `Schema.Seed` | server/config/database.js:73-87 | an `'Admin'` user with `is_admin = 1` is appended only when no user has the admin email; a store failure is swallowed and changes nothing; after a successful run the admin email exists |
| `Schema.SeedIdempotent` | server/config/database.js:74-82 | seeding a second time, with any hash, clock or failure, changes nothing |
| `Schema.CreateTables` | server/config/database.js:44-88 | existing tables are kept (`IF NOT EXISTS`); a fresh database holds exactly the seeded admin with id 1 |
| `TaskController.GetTasks` | server/controllers/taskController.js:3-22 | only the caller's rows, all of them, each of the requested status when the filter is active (non-empty and not `'all'`), newest first; a store failure is 500 |
| `TaskController.CreateTask` | server/controllers/taskController.js:24-38 | 201 exactly when the store works and a title is given; then one row owned by the caller is appended with a fresh id, status `'pending'` and a falsy due date stored as NULL; otherwise 500 and no change |
| `TaskController.Overwrite` | server/controllers/taskController.js:45-47 | title, description, status and due date (falsy becomes NULL) are overwritten and `updated_at` refreshed; id, owner and `created_at` are kept |
| `TaskController.OverwriteTargets` | server/controllers/taskController.js:45-47 | rows matching id and owner are overwritten, every other row is unchanged, ids are kept |
| `TaskController.ApplyUpdate` | server/controllers/taskController.js:45-54 | a successful update answers 200 with a row that is in the new table, is the caller's addressed row, and carries the new title, status and timestamp; only the targeted rows change; the table invariant is kept |
| `TaskController.UpdateTask` | server/controllers/taskController.js:40-59 | 200 iff the store works, a row matches both id and owner, and a title is given; a store failure gives 500; no such row gives 404 "Task not found", for missing and foreign ids alike; a matching row without a title gives 500; every non-200 answer leaves the store unchanged; on 200 other rows are unchanged; the invariant is kept |
| `TaskController.DeleteTask` | server/controllers/taskController.js:61-79 | 200 iff a row matches both id and owner; then exactly the matching rows are gone and every other row stays; otherwise 404 (or 500 on failure) with no change |
| `TaskController.DeleteTwiceNotFound` | server/controllers/taskController.js:65-72 | deleting the same id again answers 404 "Task not found" |
| `TaskController.ForeignTaskNotFound` | server/controllers/taskController.js:6-72 | another user's task is not listed, and updating or deleting it answers 404 with the store unchanged |
| `TaskController.MemberSummaries` | server/controllers/taskController.js:84-85 | exactly one summary per non-admin user: every row summarises some non-admin user, every non-admin user is summarised, and there are as many rows as non-admin users |
| `TaskController.GetAllUsers` | server/controllers/taskController.js:82-92 | one summary per non-admin user with that user's task count, no password, newest first |
| `TaskController.JoinOwners` | server/controllers/taskController.js:96-98 | each task whose owner exists appears with that owner's name and email; tasks without an owner drop out |
| `TaskController.JoinOwnersCount` | server/controllers/taskController.js:96-98 | the join has exactly as many rows as there are tasks whose owner exists |
| `TaskController.GetAllTasks` | server/controllers/taskController.js:94-104 | every task whose owner exists, annotated with the owner's name and email, newest first, with exactly as many rows as tasks with an owner; a store failure is 500 |
| `AuthMiddleware.ExtractToken` | server/middleware/auth.js:6 | a missing header stays missing; a header without `"Bearer "` is passed on unchanged |
| `AuthMiddleware.BearerHeaderYieldsToken` | server/middleware/auth.js:6 | `"Bearer " + token` yields exactly `token` |
| `AuthMiddleware.RepeatedBearerKeptOnce` | server/middleware/auth.js:6 | only the first `"Bearer "` is removed |
| `AuthMiddleware.InnerBearerRemoved` | server/middleware/auth.js:6 | the first `"Bearer "` is removed even when it is not at the start |
| `AuthMiddleware.Project` | server/middleware/auth.js:13-19 | the principal is the row's id, name, email and admin flag |
| `AuthMiddleware.Auth` | server/middleware/auth.js:4-24 | no token or an empty one gives 401 "Access denied. No token provided."; a rejected token, an unknown id or a failing lookup gives the same 401 "Invalid token."; when a token is present, every refusal is that "Invalid token." answer; `next` is called exactly when the token verifies to an existing user, with that user's columns |
| `AuthMiddleware.BearerOfUserAuthenticates` | server/middleware/auth.js:6-20 | with unique user ids, `"Bearer " + token` whose token verifies to a user's id makes `auth` call `next` with exactly that user's id, name, email and admin flag |
| `AuthMiddleware.AdminAuth` | server/middleware/auth.js:26-31 | `next` iff the admin flag is truthy, with the principal unchanged; otherwise 403 "Access denied. Admin only." |
| `TaskRoutes.MatchPattern` | server/routes/tasks.js:15-22 | a literal path matches only itself; `/:id` binds one non-empty segment without `/` |
| `TaskRoutes.FindRoute` | server/routes/tasks.js:15-22 | a found route is in the table, has the request's method and its pattern matches the path with the returned parameter; none exactly when no route matches |
| `TaskRoutes.FindRouteFirst` | server/routes/tasks.js:15-22 | no route registered before the one found matches the request: the first registered match wins |
| `TaskRoutes.RunChain` | server/routes/tasks.js:15-22 | running any chain keeps the table invariant (its behaviour per route is stated by the lemmas below) |
| `TaskRoutes.RunHandler` | server/routes/tasks.js:15-22 | the read-only handlers leave the store unchanged; every handler keeps the table invariant |
| `TaskRoutes.Handle` | server/routes/tasks.js:15-22 | an unmatched request gets the framework's 404; the table invariant is kept |
| `TaskRoutes.RouteTableShape` | server/routes/tasks.js:15-22 | every route starts with `auth`; the admin routes run `auth`, `adminAuth`, handler; the user routes run `auth`, handler |
| `TaskRoutes.AuthGuardsEveryRoute` | server/routes/tasks.js:15-22 | when `auth` answers, its 401 is the response on every route and the store is unchanged |
| `TaskRoutes.UnauthenticatedAdminRequestGets401` | server/routes/tasks.js:21-22 | an unauthenticated request to an admin route gets 401, never 403 |
| `TaskRoutes.SignedInAuthenticates` | server/middleware/auth.js:4-20 | a request signed in as a user of a store that keeps its constraints authenticates as exactly that user |
| `TaskRoutes.AuthenticateFirst` | server/routes/tasks.js:15-22 | `auth` runs first: its 401 is the response, or its principal is handed to the rest of the chain |
| `TaskRoutes.AdminGate` | server/middleware/auth.js:26-31 | after `auth`, the admin handler runs iff the principal's admin flag is truthy; otherwise 403 and the store is untouched |
| `TaskRoutes.AdminRouteRuns` | server/routes/tasks.js:21-22 | for a signed-in user on an admin path, the response is the admin view when that user's own admin flag is truthy and 403 otherwise |
| `TaskRoutes.NonAdminForbidden` | server/routes/tasks.js:21-22 | a signed-in non-admin on either admin route gets 403 "Access denied. Admin only." and the store is unchanged |
| `TaskRoutes.AdminPathDispatch` | server/routes/tasks.js:21-22 | `GET /admin/users` and `GET /admin/all-tasks` reach the two admin routes with no parameter |
| `TaskRoutes.AdminListsUsers` | server/routes/tasks.js:21 | a signed-in admin on `GET /admin/users` gets 200 with the `getAllUsers` listing and the store is unchanged |
| `TaskRoutes.AdminListsAllTasks` | server/routes/tasks.js:22 | a signed-in admin on `GET /admin/all-tasks` gets 200 with the `getAllTasks` listing and the store is unchanged |
| `TaskRoutes.UserRoutesIgnoreAdminFlag` | server/routes/tasks.js:15-16 | once authenticated, `GET /` and `POST /` run the owner-scoped handler with that principal, admin or not |
| `TaskRoutes.IdRoutesPassSegment` | server/routes/tasks.js:17-18 | `PUT /:id` and `DELETE /:id` hand the segment to the handler as the id |
| `TaskRoutes.HandleAsWired` | server/middleware/auth.js:13 | as wired, every routed request answers 401 and changes nothing |
| `TaskRoutes.AsWiredRefusesValidToken` | server/middleware/auth.js:13-22 | as wired, even a valid token of an existing user gets 401 "Invalid token." |
| `TaskRoutes.HandlerFaultAnswers500` | server/controllers/taskController.js:18-21 | a signed-in request that gets past `auth` but whose `getTasks` statement raises gets 500 "Server error" with the store unchanged |
| `TaskRoutes.SignedInOwnerListsTasks` | server/routes/tasks.js:15 | with a working store, a token verifying to an existing user reaches `getTasks`: 200 with only that user's tasks |
| `AuthContext.UseAuth` | client/src/context/AuthContext.jsx:6-12 | outside a provider it fails with "useAuth must be used within an AuthProvider"; inside it returns the context |
| `AuthContext.Mount` | client/src/context/AuthContext.jsx:15-16 | the provider starts with no user and `loading` true |
| `AuthContext.ForgetSession` | client/src/context/AuthContext.jsx:69-70 | removes the `token` and `user` keys and keeps every other key |
| `AuthContext.Startup` | client/src/context/AuthContext.jsx:46-78 | no token: only `loading` ends; with a token the header becomes `"Bearer " + token`; a parseable user is restored; an unparseable one removes both keys; a failed check removes both keys, the header and the user; `loading` always ends false |
| `AuthContext.SignIn` | client/src/context/AuthContext.jsx:84-100 | success stores token and serialised user, sets the header and the user, reports success; failure changes nothing and reports the first truthy message |
| `AuthContext.Login` | client/src/context/AuthContext.jsx:81-101 | success iff the server accepted; a failure without messages reads "Login failed" and leaves the session as it was |
| `AuthContext.Register` | client/src/context/AuthContext.jsx:103-123 | the same session update as login; a failure without messages reads "Registration failed" |
| `AuthContext.Logout` | client/src/context/AuthContext.jsx:125-131 | both keys removed, header and user cleared, `loading` kept |
| `AuthContext.LogoutIdempotent` | client/src/context/AuthContext.jsx:125-131 | logging out twice equals logging out once |
| `AuthContext.ReloadAfterLogoutSignedOut` | client/src/context/AuthContext.jsx:46-47 | a reload after logout finds no token and stays signed out |
| `AuthContext.ReloadAfterSignInRestores` | client/src/context/AuthContext.jsx:87-90 | a reload after login, with the token still valid, restores the same user, header and storage |
| `AppRoutes.ProtectedRoute` | client/src/App.jsx:66-74 | spinner while loading, whatever the user; then the page iff a user is present, else a redirect to `/login` |
| `AppRoutes.AdminRoute` | client/src/App.jsx:77-85 | spinner while loading; then the page iff the user is present and an admin, else a redirect to `/dashboard` |
| `AppRoutes.Render` | client/src/App.jsx:50-57 | redirects go only to `/dashboard` or `/login` and always toward fewer redirects; a signed-out `/dashboard` redirects to `/login` and `/admin` without a loaded admin redirects to `/dashboard`; the dashboard shows iff the path is `/dashboard` and a signed-in session has loaded; the admin panel iff the path is `/admin` and the loaded user is an admin; the spinner iff a guarded path is opened while loading; nothing iff the path is none of the six routes |
| `AppRoutes.Visit` | client/src/App.jsx:50-57 | at most two redirects; the dashboard is shown only to a signed-in user, the admin panel only to a signed-in admin, the spinner only while loading |
| `AppRoutes.UnguardedPagesAlwaysShown` | client/src/App.jsx:51-53 | `/login`, `/register` and `/debug` show their page whatever the session |
| `AppRoutes.LoadingShowsSpinner` | client/src/App.jsx:69-71 | while loading, `/dashboard`, `/admin` and `/` all end on the spinner |
| `AppRoutes.SignedOutAdminVisitEndsAtLogin` | client/src/App.jsx:54-55 | a visitor without a session at `/admin` is sent to `/dashboard` and then to `/login` |
| `AppRoutes.NonAdminAdminVisitEndsAtDashboard` | client/src/App.jsx:84 | a signed-in non-admin at `/admin` lands on the dashboard |
| `AppRoutes.RootRedirectsToDashboard` | client/src/App.jsx:56 | `/` always redirects to `/dashboard` first |
| `EndToEnd.Reload` | client/src/context/AuthContext.jsx:62-74 | a page load always ends with `loading` false |
| `EndToEnd.ReloadKeepsValidSession` | client/src/context/AuthContext.jsx:62-74 | with a working store, a stored token that verifies to an existing user survives a reload with its user restored |
| `EndToEnd.ReloadAsWiredSignsOut` | client/src/context/AuthContext.jsx:62-74 | as wired, every reload with a stored token signs the user out and removes both keys |

## Left out

- Token issuance and the JWT library: `verify` is a parameter. The login and register endpoints (`server/routes/auth.js`) are not part of this model. The client's `Reply` stands for their answers.
- bcrypt hashing is the parameter `hash`. Random salts are the caller's choice of `hash`.
- The SQLite adapter (`dbRun`/`dbGet`/`dbAll`), directory creation and connection handling. The tables are sequences. The missing `pool.query` appears only as the finding below.
- `ON DELETE CASCADE` and the `tasks.user_id` foreign key. SQLite does not enforce them without a pragma, and no endpoint deletes users. `InsertTask` does not check the owner.
- A NULL `is_admin`. The flag is an integer with JavaScript truthiness, and SQL `is_admin = FALSE` is `= 0`.
- Request-body values that are not strings (numbers, arrays, objects). A field is a string or absent. A repeated `status` query parameter (an array) is not modelled.
- Express path details: case-insensitive matching, trailing slashes and percent-decoding of `:id`.
- AppRoutes.Render: the path is taken as already normalised, in lower case and without a trailing slash. The client router matches case-insensitively and ignores a trailing slash, so `/Dashboard` or `/dashboard/` reach the guarded dashboard in the app, while the model shows no page for them.
- Text.ParseId: only plain digit strings count as numeric ids. SQLite also converts text with a sign or surrounding spaces, and decimal or exponent text such as `5.0` or `5e0`. A Postgres store would answer a non-numeric id with 500 instead of 404.
- The tie order of `ORDER BY created_at DESC`: SQL leaves it open. The contracts state only order and permutation.
- TaskController.GetAllUsers: `GROUP BY u.id` merges rows with equal ids, and the model emits one summary per user row. The two agree whenever ids are unique, which `Schema.Valid` guarantees.
- TaskController.JoinOwners: a SQL join repeats a task once per matching user, and the model uses the first match. The two agree under unique user ids.
- Exceptions thrown by `localStorage` (such as a full quota) part-way through `login`. A successful reply without a `token` field, which would store the text "undefined".
- `JSON.parse` results other than `null` or a user object.
- AuthContext.ReloadAfterSignInRestores: takes `JSON.parse(JSON.stringify(u))` to be `u`. The serialised user is not modelled as text, so a user field that does not survive JSON (such as `undefined`) is not covered.
- Asynchrony. The start-up effect, `login` and `register` are each one atomic step, so a `login` overlapping the start-up check is not modelled. Concurrent server requests and the seeding race are not modelled either.
- TaskRoutes.RunChain: its contract states only that the table invariant is kept. Its behaviour per route is stated by the `TaskRoutes` lemmas.
- EndToEnd.Reload: its contract states only that loading ends. What it does to the session is stated by the two `EndToEnd` lemmas.
- Console logging, the client's request/response interceptors and base URL, the health check in `App`, and the presentation components. This includes the overdue check and date formatting in the task list. The e-mail reminder job, server bootstrap and build configuration are also out.

## Findings

| source | as written | input that shows it | evidently intended | confidence | as-written member | corrected member |
|---|---|---|---|---|---|---|
| server/middleware/auth.js:13 | `auth` and every handler call `pool.query(...)`, but the required module exports `{ db, dbRun, dbGet, dbAll }` (server/config/database.js:92). There is no `query` function, so every call raises a TypeError, and `auth` turns it into 401. | `GET /api/tasks` with `Authorization: Bearer <token>`, where `<token>` verifies to an existing user's id. The answer is 401 "Invalid token.", and on the client every reload signs the user out. | The lookup reads the users table, and the request reaches `getTasks` with 200. | high; not executed | `TaskRoutes.HandleAsWired` (shown by `TaskRoutes.AsWiredRefusesValidToken` and `EndToEnd.ReloadAsWiredSignsOut`) | `TaskRoutes.Handle` with a working store (proved by `TaskRoutes.SignedInOwnerListsTasks` and `EndToEnd.ReloadKeepsValidSession`) |
