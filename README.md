# TC2000 Fantasy — session, access and endpoint logic in Dafny

TC2000 Fantasy is a small racing-team site. It has a browser front end (a main page, an admin page and shared card components) and a Flask/MongoDB backend. This project models the logic in it that decides things:

- **Front-end session handling** (`frontend/main.js`):
  - the module-level `token` and `userInfo` and the two localStorage keys that keep them;
  - JWT payload decoding;
  - login, start-up hydration from token claims, and logout;
  - the `isAdmin` test and the `#admin` hash guard;
  - the registration form's checks;
  - HTML escaping.
- **The admin page's access decision** (`frontend/admin.js`). It asks `/me`, falls back to the stored identity, and only when the server gave nothing, to the token's own claims.
- **Card text** (`frontend/components.js`):
  - avatar initials and default labels;
  - the components copy of `escapeHtml`;
  - `showSpinner`'s class toggle.
- **Backend decisions** (`backend/main.py`):
  - the `auth_required` guard (401, 403 or pass);
  - the claims `create_jwt` signs;
  - `register` and `login` over an in-memory users collection;
  - the pilot-to-team-name join of `GET /pilots`.

## Modelling choices

- **JavaScript values.** A datatype of undefined, null, booleans, integers, strings, arrays and objects. On it are defined ToBoolean truthiness, `||`, property reads, `String()`, `includes` and `trim`. A property read of null or undefined is a TypeError; the model either rules it out or turns it into the path the source's `catch` takes.
- **`atob` and `JSON.parse`.** These are parameters; a `None` result means the call threw. Everything the source does around them is modelled exactly:
  - splitting on `.`;
  - the base64url-to-base64 rewrite;
  - padding to a multiple of four UTF-16 code units with `=` (base64url and padding as in sections 3.2, 4 and 5 of RFC 4648, used by section 2 of RFC 7515).
- **Page state.** Imperative page state is a class:
  - `MainPage.Session` holds `token` and `userInfo`;
  - `AdminPage.AdminGate` holds the load handler's `token`, `userInfo` and `isAdmin`;
  - `Storage.Store` maps the two keys to values;
  - `Components.Element` has a class set.

  The stored identity is kept as the record itself, because a `JSON.stringify`/`JSON.parse` round trip of `{username, role}` gives the same record back.
- **Python values.** The backend sees a Python value datatype: JSON values plus ObjectId (by its hex text) and datetime (in seconds). Python truthiness, `dict.get`, `str()` and whitespace `str.split()` are defined on it.
- **Backend libraries.**
  - PyJWT `decode` is a parameter that returns the claims or the text of the exception.
  - `encode` is a parameter over the claims.
  - bcrypt is ideal: a hash accepts exactly the password it was made from.
  - A server error (an uncaught exception) is its own response.
- **Backend state.** The users collection is a class with a sequence of documents and an ObjectId counter. `list_pilots` rewrites an array of pilot dicts in place, as the source's loop does.

### Behaviour of the code worth noting

- A rejection by `/me` clears nothing. `fetchMe` turns a non-ok answer into null, exactly as it does a network error (`AdminPage.RejectionLooksLikeNetworkError`), and the page keeps whatever is stored.
- The admin page only takes the server's answer when its role is `"admin"`:
  - a non-admin answer leaves a cached admin identity in force (`AdminPage.CachedAdminKept`);
  - a non-admin answer also keeps the token's claims from being consulted (`AdminPage.ServerAnswerSkipsClaims`).
- The main page never calls `/me`: its roles come from the login answer, the decoded token or storage. The backend in `backend/main.py` serves no `/me` route, so against it the admin page's `fetchMe` always yields null, and access is decided by the cached identity or the token's claims.
- The backend's login answer carries only `token`, so the `data.role` fallback of the main page's login never applies against it.
- The token carries `user_id` but no `username`, so start-up hydration names the user by the id text (`MainPage.ClaimsIdentity`).

## Model

| member | source | states |
|---|---|---|
| Jwt.ParseJwt | frontend/main.js:17-27 | A falsy token, or a truthy non-string one (whose `split` throws and is caught), decodes to null. |
| Jwt.NoSecondSegmentGivesNull | frontend/main.js:20-21 | A token with no `.` has fewer than two segments and decodes to null in both copies, whatever `atob` and `JSON.parse` do. |
| Jwt.NoDotExample | frontend/main.js:21 | The token "abc" decodes to null. |
| Jwt.SecondSegmentIsDecoded | frontend/main.js:20-25 | With a `.` present there are at least two segments, and exactly the rewritten and padded second one goes to `atob` and then `JSON.parse`. |
| Jwt.RewriteAlphabet | frontend/main.js:22 | The rewrite keeps the length, maps `-` to `+` and `_` to `/` position by position and keeps every other character. No `-` or `_` remains, and base64url text becomes base64 text. |
| Jwt.RewriteRoundTrip | frontend/main.js:22 | On text free of `+` and `/`, the inverse rewrite restores the original segment. |
| Jwt.PaddedLengthBounds | frontend/main.js:23 | `Math.ceil(n/4)*4` is a multiple of four, at least `n` and below `n+4`. |
| Jwt.PaddedLengthIsLeast | frontend/main.js:23 | No multiple of four that is at least `n` is smaller than the padded length. |
| Jwt.PaddingBounds | frontend/main.js:23 | `padEnd` keeps the segment as a prefix and appends only `=`, between zero and three of them, so that the length in UTF-16 code units becomes the least multiple of four that is at least it; without astral characters that is the character count. |
| Jwt.AstralCharacterPadding | frontend/main.js:23 | One astral character counts as two code units and is padded with two `=`, not three. |
| Jwt.PaddingRoundTrip | frontend/main.js:23 | Removing trailing `=` from the padded text gives back a segment that did not end in `=`. |
| Jwt.DecodeJwtPayload | frontend/admin.js:8-19 | The admin copy has no falsy guard; a non-string token still decodes to null. |
| Jwt.CopiesAgree | frontend/admin.js:8-19 | The admin copy and `parseJwt` give the same result on every token. |
| Text.SplitHasTwoPiecesIff | frontend/main.js:20-21 | `split('.')` gives at least two pieces exactly when the token contains a `.`. |
| Text.JoinSplit | frontend/main.js:20 | Joining the pieces of a split with the separator gives back the string, so no text is lost. |
| Html.EscapeChainIsEscapeEach | frontend/main.js:29 | The five `replaceAll` passes, `&` first, equal escaping each character on its own in one pass. |
| Html.EscapeEachWellFormed | frontend/main.js:29 | Escaped text has no `<`, `>`, `"` or `'`, and every `&` in it opens one of the five entities. |
| Html.UnescapeEscape | frontend/main.js:29 | Decoding the five entities restores the text that was escaped: escaping loses nothing. |
| Html.EscapeHtml | frontend/main.js:29 | A falsy argument gives "". Otherwise the result is the per-character escape of `String(v)`: free of markup characters, with well-formed ampersands, and decoding back to `String(v \|\| "")`. |
| Html.EscapeHtmlStringified | frontend/components.js:76-83 | The components copy escapes `String(v)` for every argument, with the same guarantees. |
| Html.StringifiedNull | frontend/components.js:77 | The components copy prints null as "null". |
| Html.StringifiedUndefined | frontend/components.js:77 | The components copy prints undefined as "undefined". |
| Html.CopiesAgreeOnTruthy | frontend/admin.js:211 | The main/admin copy and the components copy agree on every truthy argument. |
| Html.CopiesDifferOnNull | frontend/components.js:77 | On null the main copy gives "" and the components copy gives "null". |
| Html.CopiesDifferOnUndefined | frontend/components.js:77 | On undefined the main copy gives "" and the components copy gives "undefined". |
| Html.CopiesDifferOnZero | frontend/components.js:77 | On 0 the main copy gives "" and the components copy gives "0". |
| Js.Trim | frontend/main.js:187 | `trim()` returns a slice of its input with only whitespace before and after it, and no whitespace at either end of the slice. |
| Js.TrimKeepsCore | frontend/main.js:187 | The trimmed text is the input minus a whitespace prefix and a whitespace suffix. |
| Js.Utf16LengthAppend | frontend/main.js:23 | Code-unit lengths add up over concatenation. |
| Js.Utf16LengthOfBmp | frontend/main.js:23 | Text without astral characters has one code unit per character. |
| Js.ToJsString | frontend/main.js:29 | `String(v)` of a string is the string itself; the text is empty only for the empty string or an array. |
| Js.Utf16Length | frontend/main.js:192 | `pass.length` counts UTF-16 code units: at least the number of characters and at most twice it. |
| Js.Includes | frontend/admin.js:49 | `includes` throws on anything but an array or a string, and tests membership on arrays. |
| MainPage.HashChange | frontend/main.js:499-510 | "#admin" is rewritten to "#inicio" exactly when the user is not an admin, and shown exactly when they are. Any other hash, an empty one included, is ignored. |
| MainPage.ValidateRegistration | frontend/main.js:187-199 | Checks run in order: empty trimmed username or empty password, then fewer than six UTF-16 units, then a mismatch. A request is built exactly when all pass; it carries the trimmed username and email and role "user". |
| MainPage.LoginRole | frontend/main.js:234-235 | The role is the payload's role if truthy, else the answer's `role`, else "user". It is never falsy. |
| MainPage.ClaimsIdentity | frontend/main.js:276-279 | The username is `user_id`, else `username`, else "Usuario"; the role is `role`, else "user". The result never needs hydrating again. |
| MainPage.IsAdminIdentity | frontend/main.js:31 | The admin test passes exactly for an object whose `role` is the string "admin". |
| MainPage.Session.IsAdmin | frontend/main.js:31 | `isAdmin()` holds exactly when the session's `userInfo` is an object whose `role` is the string "admin". |
| MainPage.Session.constructor | frontend/main.js:13-14 | `token` is the stored token or null, and `userInfo` is the stored identity or null. |
| MainPage.Session.Login | frontend/main.js:218-238 | Incomplete input sends nothing. Success happens exactly when the answer is ok with a truthy token; then `token`, `userInfo` (trimmed username, `LoginRole`) and both keys are set, and the user is an admin exactly when that role is "admin". Any other outcome leaves state and storage unchanged. |
| MainPage.Session.Hydrate | frontend/main.js:274-282 | Values are re-read from storage. When there is a token but no identity with a role, and the payload decodes, the identity is rebuilt from the claims and stored. The token key is never written, and afterwards hydration is needed only if decoding failed. |
| MainPage.Session.Logout | frontend/main.js:266-268 | Both variables become null, both keys are removed, nothing else in storage changes, and the user is no longer an admin. |
| Storage.Store.SetItem | frontend/main.js:237-238 | `setItem` makes the key read back the value and leaves every other key as it was. |
| Storage.Store.RemoveItem | frontend/main.js:268 | `removeItem` makes the key read back null and leaves every other key as it was. |
| AdminPage.FetchMe | frontend/admin.js:21-32 | The result is null without a token and on every non-ok or failed request, and the parsed body otherwise. |
| AdminPage.RejectionLooksLikeNetworkError | frontend/admin.js:27-30 | A non-ok status and a network error give the same null. |
| AdminPage.ClaimsGrantIff | frontend/admin.js:49 | The claims grant access exactly when the role is "admin", or `roles` is an array holding "admin", or `roles` is a string containing "admin". They throw exactly when a needed truthy `roles` is neither. |
| AdminPage.SubstringRoleGrants | frontend/admin.js:49 | A string `roles` of "superadmin" grants access: `includes` on a string finds "admin" as a substring. |
| AdminPage.GrantedMeansAdminIdentity | frontend/admin.js:41-56 | Access is granted only with an identity whose role is "admin", and storage is written only on a grant. |
| AdminPage.ServerAdminWins | frontend/admin.js:41-45 | An admin answer from `/me` grants access, and its username and role replace the stored identity. |
| AdminPage.CachedAdminKept | frontend/admin.js:41-47 | A stored admin identity grants access even when `/me` answered with a non-admin, and is not rewritten. |
| AdminPage.ServerAnswerSkipsClaims | frontend/admin.js:41-50 | A truthy non-admin answer with no cached admin denies access without consulting the token. |
| AdminPage.ClaimsDecideWithoutServer | frontend/admin.js:48-54 | With no server answer, a token and no cached admin, access is granted exactly when the claims grant it and the handler crashes exactly when the claims test throws. A grant stores the claimed username, else the stored one, else "admin", with the role "admin". |
| AdminPage.ClaimsGrant | frontend/admin.js:49 | A falsy payload never grants, a role of "admin" always does, and the test throws only for a truthy `roles` that is neither an array nor a string. |
| AdminPage.Decide | frontend/admin.js:41-57 | Anything but a grant keeps the stored identity and writes nothing; a grant without a write keeps a stored admin identity; a write stores an object whose role is "admin"; a crash needs a token and no server answer. |
| AdminPage.NoTokenOnlyCache | frontend/admin.js:35-56 | Without a token, only a stored admin identity opens the page, and the handler never crashes. |
| AdminPage.AdminGate.Load | frontend/admin.js:35-62 | It reads both keys and follows the decision: same gate, same final identity. Storage is rewritten only when the decision writes. `isAdmin` holds exactly on a grant, and then the identity's role is "admin". |
| AdminPage.AdminGate.Logout | frontend/admin.js:84-89 | Both keys are removed and nothing else changes. |
| Components.InitialsSpec | frontend/components.js:55-60 | A falsy name gives "?" and a truthy non-string name throws. A string name gives the upper-cased first characters of its first two space-separated words, at most two characters. |
| Components.DoubleSpaceTakesASlot | frontend/components.js:56-58 | For any two space-free words joined by two spaces (as in "Ana  Paz"), the initials are the first word's initial alone: the empty word between the spaces takes the second slot. |
| Components.Label | frontend/components.js:66-69 | A falsy field shows its escaped fallback. A truthy one shows its escaped text, which decodes back to `String(v)` and has no markup. |
| Components.NumberLabel | frontend/components.js:67 | A falsy car number shows the escaped "?". A truthy one shows escaped text that decodes back to `String(n)` and has no markup. |
| Components.CardInitialsDefined | frontend/components.js:51-60 | A non-null pilot whose name is falsy or a string always gets a card. |
| Components.PilotCardThrows | frontend/components.js:51-60 | Building the card throws exactly for a null pilot or for a name that is truthy and not a string. |
| Components.Initials | frontend/components.js:55-60 | Computing the initials throws exactly for a truthy name that is not a string. |
| Components.PilotCard | frontend/components.js:51-72 | Every text the card puts into its markup is escaped: none holds `<`, `>`, `"` or `'`. |
| Components.PilotCardNoNameInitials | frontend/components.js:55 | A falsy name gives the initials "?". |
| Components.PilotCardName | frontend/components.js:66 | A falsy name shows "Sin nombre"; otherwise the escaped name shows. |
| Components.PilotCardNumber | frontend/components.js:67 | A falsy car number, 0 included, shows "?"; otherwise its escaped string shows. |
| Components.PilotCardTeam | frontend/components.js:69 | A falsy team shows "Sin equipo"; otherwise the escaped team shows. |
| Components.ShowSpinner | frontend/components.js:41-48 | Nothing happens for a missing element. `show` removes "hidden", `!show` adds it, and no other class changes. |
| Auth.CreateJwtClaims | backend/main.py:40-46 | The claims carry `str(user_id)`, the given role, and an expiry exactly eight hours (28800 s) after issue. |
| Auth.CheckClaims | backend/main.py:56-62 | A decode failure gives 401 with its message; a missing `user_id` gives 401 with `'user_id'`, else a missing `role` gives 401 with `'role'`. A demanded role that differs gives 403. The request passes exactly when both claims exist and the role matches or none is demanded, and then carries the token's id and role. |
| Auth.AuthRequired | backend/main.py:52-54 | An absent header, or one not starting with "Bearer ", gives 401 "Missing token". Every refusal is 401 or 403. |
| Auth.BearerField | backend/main.py:53-56 | After "Bearer ", the token is the first whitespace-separated field. Without one, the index error gives 401. |
| Auth.BearerWithoutToken | backend/main.py:56 | "Bearer " followed only by whitespace is refused with 401. |
| Auth.IssuedTokenPasses | backend/main.py:40-63 | A server-issued token that still decodes passes with its own id and role, unless a different role is demanded (403). |
| Auth.Guarded | backend/main.py:48-65 | The wrapped handler's response is returned exactly on the success path; otherwise the guard's error is. |
| Py.WsSplit | backend/main.py:56 | Every field of `str.split()` is non-empty and free of whitespace. |
| Py.WsSplitBearer | backend/main.py:56 | A header starting with "Bearer " splits into "Bearer" followed by the fields of the rest. |
| Py.WsSplitOfWord | backend/main.py:56 | A whitespace-free token splits into itself. |
| Py.PyStr | backend/main.py:42 | `str()` of a string is the string, and `str()` of an ObjectId is its hex text. |
| Users.FindUser | backend/main.py:98 | `find_one` by username returns the first document with that username, or nothing exactly when none has it. |
| Users.OidInjective | backend/main.py:101-109 | Documents inserted under different counters get different ObjectIds, as `insert_one` gives each its own `_id`. |
| Users.ClassifyRegister | backend/main.py:95-100 | Checks run in order: a non-dict body, then a falsy username, password or role (400), then a taken username (400), then a non-string password (server error). A created user carries exactly the requested username, role, email and password, and the username is new. |
| Users.UserCollection.Register | backend/main.py:93-111 | Refusals leave the collection unchanged. Creation appends exactly one document with the next id, and 201 returns that id. Usernames stay unique and ids stay increasing (`Valid`). |
| Users.ClassifyLogin | backend/main.py:115-117 | A non-dict body is a server error. An unknown user is refused before the password is looked at. A non-string password is a server error. Authentication succeeds exactly when the found user's hash accepts the password. |
| Users.UserCollection.Login | backend/main.py:113-123 | An unknown user or a wrong password gives 401, no token and no change. Success returns a token over that user's id and stored role, and sets only that user's `last_login`. `Valid` is preserved. |
| Users.RegisteredUserCanLogIn | backend/main.py:98-117 | A user just registered can log in with the same username and password and is the document found. |
| Users.LoginTokenPasses | backend/main.py:120 | The token issued at login passes the guard with the user's id, and passes a demanded role exactly when it is the user's stored role. |
| Pilots.TeamNames | backend/main.py:131 | A team without a name aborts the request; otherwise the keys are exactly the teams' id texts. |
| Pilots.TeamNamesLastWins | backend/main.py:131 | A team's id maps to its name when no later team repeats the id: later teams win. |
| Pilots.TeamOf | backend/main.py:135-138 | The team is "Sin equipo", a known team's name or the pilot's own `team`; with a truthy `team_id` it is never the pilot's own value; without `team_id` or `team` it is "Sin equipo". |
| Pilots.JoinPilot | backend/main.py:133-138 | `_id` becomes its text and `team` is set. No other key is added, and every other key keeps its value. |
| Pilots.JoinKnownTeam | backend/main.py:135-136 | A truthy `team_id` (an ObjectId or its text) naming a team gives that team's name. |
| Pilots.JoinUnknownTeam | backend/main.py:135-136 | A truthy `team_id` naming no team gives "Sin equipo", whatever `team` held. |
| Pilots.JoinWithoutTeamId | backend/main.py:137-138 | Without a truthy `team_id`, `team` keeps its value (even a falsy one) and is "Sin equipo" only when absent. |
| Pilots.ListPilots | backend/main.py:128-139 | A nameless team gives a server error before any pilot changes. Otherwise every pilot, in order, is replaced by its join, and the answer lists them all. |

## Left out

- DOM and UI work is not modelled: query selectors (`showSpinner` given a selector string), card HTML beyond its text fields, toasts, modals, the drawer, the theme, nav geometry, alerts and redirects.
- Network I/O is not modelled. `fetch` results are inputs (`LoginReply`, `MeAnswer`), and the CRUD calls, the register request's answer, Server-Sent Events and socket.io are left out entirely. They are transport and concurrency, not decisions.
- `atob`, `JSON.parse` and JWT signing and verification are parameters, not implementations.
- JSON values are modelled with integers only; floating-point numbers are not modelled.
- `JSON.stringify` of a stored identity is taken as a round trip. The one difference, an `undefined` field that is dropped and reads back as absent, is not modelled.
- Components.Initials: `toUpperCase` is modelled on ASCII letters only; other letters are kept as they are.
- Components.FirstChar: indexing a string is modelled per character, not per UTF-16 code unit, so an astral first character counts as one character.
- The Python whitespace set follows `str.isspace()` for the characters it lists. `Trim` follows the JavaScript whitespace set.
- MongoDB is a list of documents. Queries are exact equality on the username, not Mongo's matching rules for arrays or operator dicts. Every document is assumed to carry an ObjectId `_id`.
- Users.Oid: an ObjectId is a counter written in decimal, not a 12-byte hex value. bcrypt is an ideal hash, without its salt or its 72-byte truncation.
- Py.PyStr: `str()` of a datetime is given as the decimal text of its seconds rather than Python's `YYYY-MM-DD HH:MM:SS` form. This reaches `Pilots.TeamOf`: a datetime `team_id` of `t` seconds can spuriously match a team whose id text is the digits of `t`, which the source's date text never does.
- Pilots.TeamOf: a `team_id` that is a list or dict is treated as matching no team. Its `str()` is a repr starting with `[` or `{`, which never equals an ObjectId's hex text.
- Datetimes are integer seconds; `utcnow` is the `now` parameter.
- `audit_log`, `init_db_mongo.py`, `/teams`, the pilot and team create/update/delete endpoints and `/sse` are not part of this model.
- Not modelled: the register form's handling of the server's answer (main.js 201-211), which only shows messages.
- Not modelled: the admin page's list loading after the gate (admin.js 91 onwards).
