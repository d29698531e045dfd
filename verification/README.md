# Account and authorization core of the Boring Squirrel backend, in Dafny

This project models the account and authorization logic of a small Express
backend for a gaming-community site, and proves properties of that model.
The database is an in-memory store: a sequence of User rows in insertion
order, a sequence of OAuth link rows keyed by `(provider, providerId)`, and
an auto-increment counter. bcrypt is an abstract `Hasher` parameter. HTTP,
sessions and passport are left out; what reaches the model from them is a
plain value (a request body, a session key, a profile).

Modules, following the source's files:

- `Globals` (globals.dfy): the constants of helpers/globals.js, that is, time
  spans, length limits, bcrypt cost and the three profile field lists.
- `Store` (store.dfy): the User and OAuth tables. It covers `findOne` by
  username, email or id (first row in insertion order), `User.create` with
  the schema's not-null and unique constraints, and the store invariant
  `Valid`. `Valid` says that ids, usernames, emails and link keys are unique,
  that ids come from the counter, and that every link belongs to a user.
- `Hashing` (hashing.dfy): `Hasher(hash, compare)`. The only assumption made
  about it is `Sound`: a password matches its own hash.
- `Profile` (profile.dfy): `privateProfile()` and the public and summary
  projections.
- `Login` (login.dfy): `passportVerify` and the redirect of POST /login.
- `Registration` (registration.dfy): `registerUser`.
- `Federated` (federated.dfy): `getUserByOauth` and the `serializeUser`
  find-or-create.
- `Auth` (auth.dfy): `grabLoggedInUser` and the gates `adminAuth`,
  `userAuth` and `userAuthNoRedirect`. A binding also reports how many
  store reads it made, so "at most one read per request" can be stated.
- `Routes` (routes.dfy): which gate each route is mounted behind.
- `Newsletter` (newsletter.dfy): the newsletter signup handler.

Behaviour of the code worth noting:

- The User schema declares no `bio` attribute. So `privateProfile()` has a
  `bio` key whose value is `undefined`.
- The federated create is not atomic. Sequelize inserts the included user
  first and the link second. If the link's key were already present, the
  user row would stay behind without a link. The model keeps that path.
  `SerializePreservesValid` shows it cannot be reached from a valid store.
- The password check hands a missing hash straight to bcrypt. Its result
  there is whatever the `Hasher` parameter says, not a guaranteed `false`.
- Federated users get their username from the provider's display name. The
  20-character limit is not checked on that path.

## Model

| member | source | states |
|---|---|---|
| Globals.TimeConstants | helpers/globals.js:7-27 | a week is 604800000 ms and is the login expiry; a password reset lasts 15 minutes (900000 ms); a month is 30 days and a year 365 days |
| Globals.LengthLimits | helpers/globals.js:28-30 | minimum password length 6, maximum username length 20, bcrypt cost 10, rendered in decimal as "6" and "20" in messages |
| Globals.DecimalString | controllers/user.js:13 | the number spliced into a message is rendered as decimal digits without a leading zero that denote exactly that number |
| Globals.ProfileFieldLists | helpers/globals.js:31-46 | the public field list is the private list without "email", so public is contained in private; the summary list equals the public list |
| Store.FirstIndex | models/user.js:36-40 | a lookup finds the first row in insertion order that matches the key, and finds none only when no row matches |
| Store.FindOne | models/user.js:35-51 | getUserByUsername / getUserByEmail return a stored row holding the value, and nothing exactly when no stored row holds it |
| Store.CreateUser | models/user.js:64-81 | an insert is refused, writing nothing, exactly when username or email is null or already present; otherwise one row is added with the next auto-increment id and the given optional password hash |
| Store.FindOneUnique | models/user.js:69-78 | because username, email and id are unique, a lookup by any of them returns the one row that holds the value |
| Store.AppendUserPreservesValid | models/user.js:64-78 | adding a row whose username and email are free keeps ids, usernames and emails unique and every link attached to a user |
| Store.CreateUserPreservesValid | models/user.js:64-81 | every insert the database accepts keeps the store invariant |
| Profile.Project | models/user.js:53-59 | the projected object has exactly the listed keys, each holding the user's property of that name (declared attributes, `admin`, and undefined for undeclared names such as `bio`) |
| Profile.PrivateProfile | models/user.js:53-59 | the private profile has keys id, username, email and bio, with the user's id, username and email, bio undefined (not a schema attribute), and never the password hash |
| Profile.ProjectWithout | helpers/globals.js:31-41 | removing a name from a field list removes exactly that key from every projection |
| Profile.PublicIsPrivateWithoutEmail | helpers/globals.js:31-46 | for every user the public profile is the private profile without email, and the summary profile equals the public profile |
| Login.LookupIdentifier | models/user.js:13 | the identifier resolves to a user with that username, or, only when no username matches, to a user with that email; nothing exactly when neither matches |
| Login.PassportVerify | models/user.js:10-24 | every rejection carries "Incorrect username or password."; an identifier matching no username or email is rejected; a success returns the user the identifier names, whose stored hash matches the password |
| Login.NamesUnique | models/user.js:13 | in a valid store an identifier names at most one user |
| Login.LoginSucceedsIff | models/user.js:17-23 | login returns user u if and only if the identifier names u and the password matches u's stored hash |
| Login.UsernameTakesPrecedence | models/user.js:13 | when the identifier is some user's username, that user is the one tried, even if another user has it as email |
| Login.RejectionsIndistinguishable | models/user.js:17-22 | an unknown identifier and a wrong password for a known one produce the identical rejection |
| Login.PostLogin | routes/routes.js:68-71 | POST /login redirects to "/" exactly on success and to "/login" exactly on failure |
| Registration.RegisterUser | controllers/user.js:8-36 | a missing password gives 400 "Missing password." before any other check; a short password gives 400 next; the answer is 200 "User registered" exactly when every field is present, lengths are within the limits and neither username nor email is stored; every other answer is a 400 or 409 error that leaves the store unchanged; a success appends exactly one user holding the hash of the password |
| Registration.FieldChecksInOrder | controllers/user.js:18-23 | once the password passes: missing username, then an over-long username, then missing email are reported with their 400 messages in that order |
| Registration.ConflictsInOrder | controllers/user.js:24-27 | a taken username gives 409 "Username already in use." even when the email is also taken; a taken email alone gives 409 "Email already in use." |
| Registration.BoundaryLengthsAccepted | controllers/user.js:12-21 | a password of exactly 6 characters and a username of exactly 20 are accepted |
| Registration.RegisterPreservesValid | controllers/user.js:24-30 | every registration, accepted or refused, keeps usernames, emails and ids unique |
| Registration.DuplicateUsernameRefused | controllers/user.js:24-25 | after a registration succeeds, a second one with the same username and any email is refused with 409 and the first record is unchanged |
| Registration.RegisterThenLogin | controllers/user.js:17-30 | with a sound hasher, a user just registered logs in with its username and password and gets its own new record |
| Registration.AliceScenario | controllers/user.js:24-34 | on a fresh database "alice" registers with 200, and registering "alice" again with another email answers 409 "Username already in use." |
| Registration.MessagesSpelledOut | controllers/user.js:12-21 | the length messages read "Password must be at least 6 characters long." and "Username may not be longer than 20 characters." |
| Federated.FindLink | models/oauth.js:12-20 | a link lookup returns a stored link with the given (provider, providerId), and none exactly when no link has that key |
| Federated.GetUserByOauth | models/user.js:30-33 | the user returned is a stored user belonging to a link with key (provider, id); nothing is returned when no such link exists |
| Federated.GetUserByOauthLinked | models/combined.js:8-9 | in a valid store every link resolves to exactly the user it belongs to |
| Federated.CreateLinkedUser | routes/routes.js:37-49 | a refused user insert writes nothing; a completed create adds one user (no password) and one link to it and yields the new id; a link collision leaves the new user without a link |
| Federated.SerializeUser | routes/routes.js:31-58 | a profile without a provider serializes to its own id with nothing written; a linked (provider, id) serializes to the linked user's id with nothing written; the only change ever made is the new user seeded from display name and first email |
| Federated.FirstLoginCreatesUserAndLink | routes/routes.js:35-50 | an unlinked profile whose display name and first email are free creates exactly one user (username = display name, email = first email, no password) and one link, and serializes to the new id |
| Federated.SerializePreservesValid | routes/routes.js:35-50 | serializing keeps the store invariant, and in a valid store a failed create writes nothing |
| Federated.RepeatLoginIdempotent | routes/routes.js:33-53 | repeating a successful serialization with the same profile returns the same user id and adds no rows |
| Auth.GrabLoggedInUser | helpers/auth.js:5-16 | at most one store read; a request that already has a principal is returned unchanged with no read; otherwise the store is read exactly when the session key is truthy, the principal becomes a stored user whose id the session holds, and stays absent only when no stored user has that id |
| Auth.AdminAuth | helpers/auth.js:18-24 | proceeds if and only if the bound principal exists and its admin flag is true; otherwise redirects to /login |
| Auth.UserAuth | helpers/auth.js:26-32 | proceeds if and only if a principal is bound; otherwise redirects to /login |
| Auth.UserAuthNoRedirect | helpers/auth.js:34-37 | always proceeds, with the principal bound if one resolves |
| Auth.PrincipalFromSession | helpers/auth.js:9-14 | in a valid store, a session holding a stored user's id binds exactly that user with one read |
| Auth.BindingIdempotent | helpers/auth.js:6-8 | binding a second time changes nothing, and makes no store read once a principal is bound |
| Auth.AbsenceNotCached | helpers/auth.js:9-16 | a truthy session key that finds no user is looked up again on the next call |
| Auth.AdminImpliesUser | helpers/auth.js:18-32 | any request admitted by adminAuth is admitted by userAuth, with the same bound request |
| Routes.Admit | routes/routes.js:67-87 | an ungated route proceeds with the request untouched; the no-redirect gate always proceeds; the user gate proceeds exactly when a principal is bound and the admin gate exactly when it is an admin; every redirect goes to /login |
| Routes.ProfileRoutesGated | routes/routes.js:81-82 | GET /profile always reaches its handler; PUT /profile does so exactly when a principal is bound and otherwise redirects to /login |
| Newsletter.FindAddress | controllers/misc.js:10 | the duplicate check is true exactly when some stored row has the address |
| Newsletter.Subscribe | controllers/misc.js:6-22 | a missing or non-string address gives 400 "Address must be a string." and writes nothing; a stored address gives 409 "Address is already in database." and writes nothing; otherwise 200, exactly one row is added, and the returned record's address is the input |
| Newsletter.SubscribePreservesValid | models/newsletter.js:21-25 | stored addresses stay unique |
| Newsletter.SubmitTwice | controllers/misc.js:10-15 | submitting a new address twice answers 200 and then 409, and the second submission writes nothing |

## Left out

- HTTP and session plumbing is not modelled: routing and dispatch, CORS, the session middleware and its cookie, morgan logging, the database connection and `sync`. The same goes for the configuration values read from the environment (helpers/globals.js:49-60). The cookie lifetime is the constant `LoginExpirationTime`.
- bcrypt's salt and cost factor are not modelled. `hash` and `compare` are parameters, and only `compare(p, hash(p))` is assumed. What bcrypt does with a missing hash (a federated-only account at models/user.js:20) is left to the parameter.
- passport internals are not modelled: the Google strategy, passport-local's own rejection of missing fields, `queueMicrotask` scheduling, `deserializeUser`, `req.logout` (used by `logoutUser`), `getRoot`, and the Google callback handler.
- Error and race paths are not modelled. An insert failure inside `registerUser` answers 500 and then 200 (controllers/user.js:29-34). Accepted registrations are modelled as successful writes. The check-then-insert race between concurrent requests is left out: the model is sequential. A failed nested create in `serializeUser` is `CreateFailed`, and the callback is never invoked.
- `getProfile`, `putProfile`, `getUsers` and `getLeaderboard` are routed but not defined in controllers/user.js, so they are not part of this model. The same goes for a profile-update engine and `/users/:userId` validation. No route in the source is gated by `adminAuth`, so `AdminGate` is never selected by `Routes.GateOf`.
- Where tests disagree with the source, the model follows the source. test/user.mjs:146 expects a failed login to redirect to `/loginError`, but the source redirects to `/login`. test/user.mjs:243 expects GET /profile to redirect, but the route uses the no-redirect gate.
- The `admin` flag is not a schema attribute. It is an optional boolean, and only `true` counts. How it gets set and stored is not modelled.
- The game list, the IndependentGame schema, the admin `findAll` pass-through and `DB.save`/`DB.load` are not modelled: they have no logic.
- Registration.RegisterUser: body fields are optional strings. A JSON number, boolean, array or object sent as username, email or password is not modelled, because bcrypt and Sequelize decide what happens with it. String lengths count characters, while JavaScript counts UTF-16 code units.
- Auth.GrabLoggedInUser: a session that holds the raw id of a provider-less profile is treated as naming no user. What the database does when it compares that text with the integer key is not modelled. The Google strategy always sets a provider, so this case does not arise there.
- Newsletter.Subscribe: the `createdAt`/`updatedAt` timestamps of the returned row are not modelled.
- Profile.Project: Sequelize's automatic `createdAt` and `updatedAt` attributes are not modelled. Projecting those names gives undefined, while the code would give the row's timestamps. None of the three field lists names them.
- Store.CreateUser: the auto-increment counter advances only when an insert succeeds. A unique-constraint refusal leaves `nextId` as it was. On PostgreSQL or MySQL the refused INSERT has already consumed a sequence value, so the real id given to the next user can be higher than `nextId`. This can happen after a refused federated create. Any statement in this model about a new user's id (`s.nextId`) holds only on engines that do not consume a value on a refused insert.
- Store.FirstIndex: `findOne` without ORDER BY is modelled as returning the first row in insertion order. In a valid store at most one row matches, so the choice never matters there.
