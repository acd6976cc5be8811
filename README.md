# Ex Libris: sessions, auth routes, gates, profile form and genre table

A Dafny model of the authentication core of the Ex Libris book-club web app. It covers:

- **The session record** (`Session`): iron-session keeps this record in the `ex-libris` cookie. The module holds its defaults, the cookie policy and the per-request session object (`SessionHandle`). The object's claims change in place and reach the cookie only through `save`. `destroy` clears both the claims and the cookie.
- **The four auth routes**: register, login, me and logout (`RegisterRoute`, `LoginRoute`, `MeRoute`, `LogoutRoute`). They run over a user store (`Users.UserStore`) that holds rows in insertion order. Register and login each have two forms:
  - a specification function, which maps the store rows, the request and the session claims to the reply and the new state;
  - an imperative `Post` method, which follows the handler's early returns and field assignments. Its contract is that function.

  Logout has only its `Post` method, whose contract states the reply and the cleared session outright. `me` changes nothing and is a function.
- **The three authorization gates**:
  - the edge middleware and its matcher (`Middleware`);
  - the server helpers `getSession`, `requireAuth` and `requireAdmin` (`Auth`);
  - the client component `ProtectedRoute` (`ProtectedRoute`).

  `Gates` puts the three side by side. They agree on anonymous callers and on admins. They do not agree on a signed-in non-admin:
  - the edge gate sends that caller to `/login`;
  - `requireAdmin` sends them to `/unauthorized`;
  - the genre admin page's own `ProtectedRoute` keeps the default `requireAdmin = false`, so it would show them the page.
- **The profile page handlers** (`Profile`): favourite-genre toggle, image size limit, password-change validation and reset, and the two Cancel buttons. The page state is a class with one method per handler. The auth hook's `user` is a separate component state. It is `null` on the first render, so the form mounts with an empty username and email, and only Cancel copies in the loaded user (`Profile.ProfilePage.CancelEdit`).
- **The genre admin table** (`Genres`): the create, update and delete server actions over a map from id to name, with trimmed-name validation and the database's P2002/P2025 refusals. The class `Genres.GenreTable` holds the table. It starts empty, and each action keeps the table's names unique, non-empty and trimmed. There is also the name-ordered listing.
- **Multi-request flows** (`AuthFlows`), where the browser sends back on each request the cookie the last response left it:
  - login then me echoes the claims login wrote;
  - logout then me answers 401;
  - logging out twice gives the same answer twice;
  - register then login signs in the new user;
  - a complete sign-up and sign-in scenario.

JavaScript semantics are written out in `JsSemantics`:
- a boolean claim is truthy only when it is present and `true`;
- a string is truthy when it is present and non-empty;
- `startsWith` is a plain prefix test;
- `trim` strips ECMAScript's whitespace and line-terminator characters.

The model takes the environment as parameters:
- `SESSION_PASSWORD` and `NODE_ENV` are arguments of `Session.Options`;
- bcrypt's hash is the function `hash`, and `compare(p, h)` holds when `h == hash(p)`;
- the ids and timestamps the database generates are arguments `newId` and `now`.

Points where the code behaves other than such a service usually would; the model follows the code:
- Login does not write `createdAt` into the session. A session made by login alone makes `me` report no `createdAt` (`AuthFlows.SignInAndOut`).
- A request without a cookie gets an empty session object, not the defaults. `getSession` fills in only `isLoggedIn := false`.
- Logout deletes every claim rather than resetting it to the defaults. Both are anonymous to every gate.
- The edge gate and the page gates do not enforce the same decision (`Gates.NonAdminGatesDisagree`).
- The login route reads `identifier`, and it matches that value against both the email and the username column. The register route checks only the email for duplicates. So a user whose username is another user's email captures that user's email logins when their row is the older one, since the lookup returns the first match in insertion order (`AuthFlows.EmailLoginReachesAnotherUser`; `AuthFlows.RegisterThenLogin` needs the opposite as its hypothesis). The database's unique index on usernames is modelled as a refused insert, which the register route answers with 500.

## Model

| member | source | states |
|---|---|---|
| Session.DefaultSessionIsAnonymous | src/lib/session.ts:11-18 | the default session is logged out and non-admin (both flags `false`), and every string claim is `""` and so falsy |
| Session.Options | src/lib/session.ts:20-30 | cookie name "ex-libris", the given password, `secure` exactly when `NODE_ENV` is "production", max age 604800 s (one week), httpOnly, sameSite lax, path "/" |
| Session.Open | src/lib/auth.ts:8-11 | a request without a cookie yields the empty record; otherwise the cookie's record |
| Session.SessionHandle.Load | src/lib/auth.ts:8-11 | a fresh handle holds the claims of the request's cookie and leaves that cookie as it was |
| Session.SessionHandle.Save | src/app/api/auth/login/route.ts:50 | the claims are unchanged and the cookie now holds exactly them |
| Session.SessionHandle.Destroy | src/app/api/auth/logout/route.ts:14 | every claim is deleted and the cookie is cleared |
| JsSemantics.Trim | src/app/admin/genres/page.tsx:9 | the result is a slice of the input with no whitespace at either end; everything cut off is whitespace; it is empty exactly when the input is all whitespace |
| Auth.Normalize | src/lib/auth.ts:13-15 | truthiness of `isLoggedIn` is kept; a falsy (absent or false) `isLoggedIn` becomes `false`; a truthy session is returned as it is; no other claim changes |
| Auth.GetSession | src/lib/auth.ts:6-17 | the returned handle is fresh, holds the normalized claims of the cookie, and its cookie is not rewritten (the assignment is never saved) |
| Auth.RequireAuth | src/lib/auth.ts:19-25 | redirects exactly when the session is not logged in, always to "/login"; otherwise returns the session unchanged |
| Auth.RequireAdmin | src/lib/auth.ts:27-33 | "/login" exactly when not logged in, never "/unauthorized" then; "/unauthorized" exactly when logged in but not admin; returns the session exactly when logged in and admin, and then `RequireAuth` succeeds too |
| Middleware.Gate | middleware.ts:14-19 | a path not starting with "/admin" passes; an "/admin…" path passes with both flags true; it redirects to "/login" exactly for an "/admin…" path without both flags; no other outcome |
| Middleware.GateDependsOnlyOnFlags | middleware.ts:8-19 | two sessions that agree on the truthiness of `isLoggedIn` and `isAdmin` get the same decision on every path |
| Middleware.CoveredIsAdminSection | middleware.ts:22-24 | the matcher `/admin/:path*` covers exactly "/admin" and the paths below "/admin/" |
| Middleware.CoveredPathsAreGated | middleware.ts:14-24 | every covered path passes the prefix test, so on covered paths the gate passes exactly logged-in admins |
| Middleware.AdministratorPrefixQuirk | middleware.ts:14 | the prefix test by itself redirects "/administrator" for a non-admin, but the matcher does not cover that path |
| ProtectedRoute.Outcome | src/components/ProtectedRoute.tsx:13-38 | while loading it shows the indicator and pushes nothing; with no user it pushes "/login" and shows nothing; with `requireAdmin` and a non-admin user it pushes "/unauthorized" and shows nothing; children are shown exactly when not loading, a user is present and (`!requireAdmin` or the user is admin); a push happens exactly when nothing is shown, and it is "/login" exactly when there is no user |
| ProtectedRoute.DefaultNeedsOnlyALogin | src/components/ProtectedRoute.tsx:15 | with the default `requireAdmin` any signed-in user sees the children, with no redirect |
| Gates.NonAdminGatesDisagree | middleware.ts:15-16 | for a logged-in non-admin on an "/admin" path: the edge gate redirects to "/login", `requireAdmin` to "/unauthorized", the genre page's default `ProtectedRoute` shows the children, and only `requireAdmin = true` would push "/unauthorized" |
| Gates.AnonymousGatesAgree | src/lib/auth.ts:19-33 | an anonymous caller on an "/admin" path is sent to "/login" by the edge gate, by `requireAdmin` and by `ProtectedRoute` |
| Gates.AdminGatesAgree | src/components/ProtectedRoute.tsx:30-38 | a logged-in admin passes the edge gate, `requireAdmin` and `ProtectedRoute` with any `requireAdmin` |
| Gates.GenresPageIsEdgeGated | src/app/admin/genres/page.tsx:57 | "/admin/genres" is covered by the matcher, so at the edge only logged-in admins pass, although the page's own gate needs only a login |
| Users.FindFirst | src/app/api/auth/login/route.ts:19-23 | no result exactly when no row satisfies the condition; otherwise a row that satisfies it with no earlier row that does |
| Users.FindFirstAppended | src/app/api/auth/login/route.ts:19-23 | a row appended behind rows none of which matches is the one the lookup finds (the step from a registration to the login lookup) |
| LoginRoute.Handle | src/app/api/auth/login/route.ts:8-68 | unparsable body: 500 "Internal server error"; a missing identifier or password: 400 "Enter missing field(s)"; 401 "Invalid credentials" exactly when no row has the identifier as email or username; 401 "Password incorrect" exactly when the first such row's hash does not match; success exactly when it matches, and then the session holds that row's id, username, email and admin flag, `isLoggedIn` true and the old `createdAt`, and the reply is 200 with exactly those four public fields; saved exactly on 200, and on every other status the session is unchanged |
| LoginRoute.Post | src/app/api/auth/login/route.ts:8-68 | the handler as written (early returns, the five field assignments, `save`) gives `Handle`'s reply and claims, and the cookie changes only when the login succeeds |
| RegisterRoute.Handle | src/app/api/auth/register/route.ts:5-43 | 400 "Missing fields" exactly when a field is missing or empty; 409 "User already exisits" exactly when a row has the email; 201 exactly when all fields are given, the email is unused and the insert breaks no unique index, and then the rows are the old rows plus exactly one row (given username and email, `hash(password)`, not admin) and the reply names only its id and email; 500 "Something went wrong" otherwise; every status but 201 leaves the rows unchanged; unique ids, emails and usernames stay unique |
| RegisterRoute.Post | src/app/api/auth/register/route.ts:5-43 | the handler as written leaves the store and gives the reply that `Handle` states |
| MeRoute.Get | src/app/api/auth/me/route.ts:17-30 | 401 `{isLoggedIn: false}` exactly when the session is not logged in; otherwise 200 with id, username, email, isAdmin and createdAt copied from the session's claims, without a store read |
| LogoutRoute.Post | src/app/api/auth/logout/route.ts:6-18 | whatever the session held, the reply is 200 "Logged out", the claims are all gone and the cookie is cleared |
| AuthFlows.LoginThenMe | src/app/api/auth/me/route.ts:22-30 | after a successful login, `me` on the saved cookie returns 200 with the id, username, email and admin flag of the login reply and the `createdAt` the session already had |
| AuthFlows.SignInThenFetchMe | src/app/api/auth/login/route.ts:45-50 | with the methods composed through the cookie: a 200 login makes the next `me` echo the login's user; a failed login leaves `me`'s answer as on the old cookie |
| AuthFlows.SignOutThenFetchMe | src/app/api/auth/logout/route.ts:14 | after logout, on any prior cookie, `me` answers 401 `{isLoggedIn: false}` |
| AuthFlows.SignOutTwice | src/app/api/auth/logout/route.ts:6-18 | a second logout on the cookie the first left gives the same reply, the same empty claims and the same cleared cookie |
| AuthFlows.RegisterThenLogin | src/app/api/auth/register/route.ts:20-35 | a complete registration with an unused email, id and username answers 201, and a login with that email and password then succeeds and signs in exactly the new row, provided no older row has that email as its username |
| AuthFlows.AdaRegisters | src/app/api/auth/register/route.ts:20-35 | on an empty store, a user whose username is "b@x.com" registers |
| AuthFlows.BobRegisters | src/app/api/auth/register/route.ts:12-18 | a second user with email "b@x.com" registers too, since only the email column is checked |
| AuthFlows.EmailLoginReachesAnotherUser | src/app/api/auth/login/route.ts:19-39 | after those two accepted registrations (whose rows satisfy every unique index), the second user's login by email finds the first user and answers 401 "Password incorrect" |
| AuthFlows.AliceSignsUp | src/app/api/auth/register/route.ts:29-35 | a registration on an empty store yields exactly one row and the 201 reply with its id and email |
| AuthFlows.SecondSignUpRefused | src/app/api/auth/register/route.ts:12-18 | a second registration with the same email answers 409 |
| AuthFlows.AliceSignsIn | src/app/api/auth/login/route.ts:45-60 | that user's login by email from a cookieless browser replies 200 with her public fields and saves her claims |
| AuthFlows.SignUp | src/app/api/auth/register/route.ts:5-43 | the two registrations answer 201 then 409, and the store ends with exactly the first user's row |
| AuthFlows.SignInAndOut | src/app/api/auth/me/route.ts:17-30 | login, me, logout, me answer 200, 200, 200, 401, and the first `me` reports no `createdAt` |
| AuthFlows.Scenario | src/app/api/auth/login/route.ts:45-50 | the whole sequence on an empty store answers 201, 409, 200, 200, 200, 401 and leaves one row holding the hashed password |
| Profile.Without | src/app/profile/page.tsx:98 | the filtered list holds exactly the other genres and is no longer than the input |
| Profile.WithoutAppend | src/app/profile/page.tsx:98 | filtering works piecewise on a concatenation, so it keeps the order of what remains |
| Profile.WithoutAbsent | src/app/profile/page.tsx:98 | filtering out an absent genre changes nothing |
| Profile.WithoutKeepsNoDuplicates | src/app/profile/page.tsx:98 | filtering keeps a duplicate-free list duplicate-free |
| Profile.Toggle | src/app/profile/page.tsx:94-101 | the genre's membership flips, no other genre's membership changes, an absent genre is appended at the end of the unchanged list, and a present one is filtered out (`Without`, whose order is kept by `WithoutAppend`) |
| Profile.RemovalKeepsOrder | src/app/profile/page.tsx:98 | toggling a present genre removes it and keeps the genres before and after it in order |
| Profile.ToggleTwiceRestores | src/app/profile/page.tsx:97-99 | toggling an absent genre twice gives the original list back |
| Profile.ToggleKeepsNoDuplicates | src/app/profile/page.tsx:97-99 | toggling keeps a duplicate-free list duplicate-free |
| Profile.PasswordChangeError | src/app/profile/page.tsx:125-132 | accepted exactly when the new and confirmed passwords agree and have at least 6 characters; a mismatch is reported before the length, as "New passwords don't match"; a short password as "Password must be at least 6 characters" |
| Profile.ImageError | src/app/profile/page.tsx:106-109 | accepted exactly when the size is at most 5242880 bytes (exactly 5 MiB passes); otherwise "Image must be less than 5MB" |
| Profile.ProfilePage.constructor | src/app/profile/page.tsx:42-68 | not editing, not changing the password, cleared password fields, and the profile built while the auth hook's user is still `null`: empty username and email with the default bio, location, genres and goal |
| Profile.ProfilePage.HandleGenreToggle | src/app/profile/page.tsx:94-101 | only the favourite genres change, to their toggle |
| Profile.ProfilePage.HandleImageUpload | src/app/profile/page.tsx:103-112 | no file: nothing changes; an oversized file: the size toast and no change; otherwise the file becomes the profile image; nothing else changes |
| Profile.ProfilePage.HandleChangePassword | src/app/profile/page.tsx:124-146 | a rejected change shows its error and moves nothing; an accepted one shows the success toast, clears the three password fields and closes the form; the profile is never touched |
| Profile.ProfilePage.CancelPasswordChange | src/app/profile/page.tsx:657-664 | the password form closes and its fields are cleared; the profile is untouched |
| Profile.ProfilePage.CancelEdit | src/app/profile/page.tsx:680-697 | editing ends and every edit, toggle and upload is dropped: the profile is rebuilt with the defaults and the name and email of the auth hook's user at the time of the click |
| Genres.TrimmedField | src/app/admin/genres/page.tsx:9 | an absent field stays absent, a present one is trimmed, and the result is truthy exactly when the field holds a non-whitespace character |
| Genres.Create | src/app/admin/genres/page.tsx:7-27 | throws "Name is required" exactly when the trimmed name is falsy, and otherwise returns; a throw leaves the table unchanged; the only possible change is adding the trimmed name under the new id; an unused name under a new id is added; a name already in the table leaves the table unchanged without a throw |
| Genres.Update | src/app/admin/genres/page.tsx:29-40 | throws "Invalid data" exactly when the id or the trimmed name is falsy; P2025 exactly for an unknown id; P2002 exactly when another genre has the trimmed name; returns exactly otherwise, and then that genre is renamed to the trimmed name; on any failure the table is unchanged; the ids stay the same and no other genre changes |
| Genres.Delete | src/app/admin/genres/page.tsx:42-49 | throws "Invalid id" exactly when the id is falsy; P2025 exactly for an unknown id; returns exactly when the id is held, and then that genre is removed; on any failure the table is unchanged; remaining genres keep their names |
| Genres.AddKeepsUnique | src/app/admin/genres/page.tsx:13 | adding an unused name under a new id keeps names unique |
| Genres.RenameKeepsUnique | src/app/admin/genres/page.tsx:35-38 | renaming to a name no other genre has keeps names unique |
| Genres.CreateKeepsNames | src/app/admin/genres/page.tsx:7-27 | `createGenre` keeps the table's names unique, non-empty and trimmed |
| Genres.UpdateKeepsNames | src/app/admin/genres/page.tsx:29-40 | `updateGenre` keeps the table's names unique, non-empty and trimmed |
| Genres.DeleteKeepsNames | src/app/admin/genres/page.tsx:42-49 | `deleteGenre` keeps the table's names unique, non-empty and trimmed |
| Genres.GenreTable.CreateGenre | src/app/admin/genres/page.tsx:7-27 | the action as written leaves the table and result `Create` states, and keeps the invariant |
| Genres.GenreTable.UpdateGenre | src/app/admin/genres/page.tsx:29-40 | the action as written leaves the table and result `Update` states, and keeps the invariant |
| Genres.GenreTable.DeleteGenre | src/app/admin/genres/page.tsx:42-49 | the action as written leaves the table and result `Delete` states, and keeps the invariant |
| Genres.NameLessEqTotal | src/app/admin/genres/page.tsx:53 | any two names are ordered one way or the other |
| Genres.NameLessEqTransitive | src/app/admin/genres/page.tsx:53 | the name order is transitive |
| Genres.SortedCons | src/app/admin/genres/page.tsx:53 | a genre no later than every genre of a sorted listing can lead it |
| Genres.InsertByName | src/app/admin/genres/page.tsx:52-54 | inserting adds exactly one entry to the listing |
| Genres.SortedTail | src/app/admin/genres/page.tsx:53 | the tail of a sorted listing is sorted |
| Genres.InsertByNameSorted | src/app/admin/genres/page.tsx:52-54 | inserting into a sorted listing keeps it sorted and adds exactly the one genre |
| Genres.Listing | src/app/admin/genres/page.tsx:52-54 | the listing is sorted ascending by name and holds every genre of the table exactly once |

## Left out

- Sealing and unsealing the cookie (iron-session's encryption and integrity check) are not modelled: the cookie carries the record as it is. Expiry after the cookie's max age is not modelled either, and no invalid-cookie case exists.
- bcrypt's salt, cost factor and timing are not modelled: hashing is the deterministic function `hash`.
- The database is a sequence of user rows and a map of genres. SQL, transactions and concurrent registrations racing on the same email are not modelled. The first-match order of `findFirst` is taken to be insertion order. Name order is taken to be code-point order, whatever the database's collation is.
- Failures of the store or of `getIronSession` inside login and `me`, which the routes answer with 500, are not modelled. The only 500 causes modelled are an unparsable body (login, register) and a refused insert (register).
- Auth.GetSession: reading the request's cookies through `cookies()` is not modelled; the request's cookie is a parameter.
- Middleware.Gate: the redirect is the path "/login", without the origin `new URL` takes from the request.
- Next.js mechanics are not modelled: `redirect()` throwing is the `Redirected` result, and `router.push` is the `push` target. `revalidatePath`, `NextResponse` construction and the debug log are not modelled either.
- Genres.Create: the two toasts that follow a swallowed store error are not returned. The action returns in both cases, with the table unchanged.
- Genres.Listing: ties between names in the listing are not ordered beyond "sorted by name". The function is ghost because it picks the table's entries in an unspecified order, as the database does.
- Profile.PasswordChangeError: the length check counts characters, not the UTF-16 code units JavaScript's `length` counts. The two differ for characters outside the Basic Multilingual Plane.
- Profile page parts not modelled:
  - `handleInputChange`, including its `parseInt` of the reading goal;
  - `handlePasswordChange`, which assigns one field;
  - the three show-password toggles;
  - `handleSaveProfile`, a stub that only shows a toast and ends editing;
  - `URL.createObjectURL` for the image preview;
  - `toLocaleDateString` for the join date.
- All JSX, styling and the presentation-only components (the loading animation, the unauthorized page, the navigation bar and the home page) are not modelled.
- The client auth hook src/hooks/useAuth.ts is not part of this model. Its login posts `{email, password}`, while the login route reads `identifier`, so that login always gets 400. The model follows the route. `ProtectedRoute` takes the hook's `user` and `loading` as inputs.
- The same session cookie replayed after logout is still accepted, since sessions are stateless. The model has no notion of revocation.
