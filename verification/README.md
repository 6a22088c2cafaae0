# rocket_auth_nosql authentication engine in Dafny

This project models the authentication core of the `rocket_auth_nosql` crate. It leaves out the web framework, the cookies and the database drivers. What remains is a set of pure functions over two maps:

- the in-memory session store, a map from user id to `AuthKey {expires, secret}`;
- the user collection, a map from id to `User` with a unique index on `email`.

The model covers:

- the password policy and the signup-form validation;
- the user-record mutators;
- the `Users` operations (login, logout, signup, create, delete, modify, the lookups);
- the `Auth` guard's operations;
- the decision logic of the `User`, `UnverifiedUser` and `AdminUser` guards;
- the error taxonomy and the message sent to the client.

Some behaviour comes from outside the crate. It enters as a parameter, so every proof holds whatever that behaviour is:

- Argon2 hashing and verification, email syntax and the Unicode character classes are fields of `Externals.Env`;
- the clock reading is an argument `now`;
- the random character stream is an argument `draws`.

Each mutating operation returns a `Step`, which pairs the outcome with the state that follows. Some operations change the state and then fail: `Users::delete` revokes the session and then the record deletion can fail. Others drop an inner failure and still answer `Ok`: `Auth::signup`, `Auth::delete`, and `change_password`/`verify_account`/`change_email` when the final write fails.

The modules follow the source files:

- `Errors`: src/error.rs
- `Keys`: `rand_string`
- `Forms`: src/forms/mod.rs
- `SessionDefault`: src/session/default/mod.rs
- `UserRecord`: the record and src/user/user.rs mutators
- `MongoModel`: src/db/mongomodel/mod.rs
- `UsersApi`: src/user/mod.rs and src/user/users.rs
- `AuthApi`: src/user/auth.rs
- `Guards`: the guard decisions in src/user/user.rs
- `Scenarios`: properties that span several operations

A few behaviours of the code are easy to miss, and the model keeps them as written:

- `is_secure` (src/forms/mod.rs:71-77) stops at the first failing rule. The derived validation of `Signup` (src/forms/mod.rs:17-22) runs every rule. So the password "short1" gets two codes from form validation, length and uppercase, and one from `is_secure`.
- The doc comment at src/error.rs:24 says `EmailAlreadyExists` is raised for a signup with a taken email. No code path constructs that variant. The unique email index rejects the insert (src/db/mongomodel/mod.rs:14-20), and the caller sees the driver's `MongoDBError`.
- An unauthenticated `verify_account` answers `VerificationTokenMismatch` (src/user/auth.rs:293), not `UnauthenticatedError`.
- `Auth::delete`, `change_password`, `verify_account` and `change_email` ignore the outcome of their final write (src/user/auth.rs:246, 269, 290, 312). They answer `Ok` even when that write fails.
- `login_for` stores its key through `insert_for`, whose expiry is the raw duration (src/session/default/mod.rs:31). The model keeps that expiry at the `Users` and `Auth` layers; see Findings.

## Model

| member | source | states |
|---|---|---|
| Errors.DisplayText | src/error.rs:5-62 | A single validation error displays as its code alone. The multi-field validation, Argon2 and serde variants display a fixed tag followed by the wrapped value's own rendering, so their text ends with it. |
| Errors.DisplayHidesDriverCause | src/error.rs:60-61 | Every driver error displays the same text: the cause is not revealed. |
| Errors.Message | src/error.rs:66-93 | The driver error's own text for `MongoDBError`. The display text for the six always-shown variants. The concatenated field codes for `FormValidationErrors`. For every other variant, the display text in debug builds and "undefined" otherwise. |
| Errors.ReleaseHidesUnknownEmail | src/error.rs:88-91 | A release build answers "undefined" for `EmailDoesNotExist`, `UnauthenticatedError` and `UnverifiedError`. |
| Errors.DisplayQuotesEmail | src/error.rs:22-23 | The display text of `EmailDoesNotExist(e)` contains `e` verbatim, between the quotes. |
| Errors.DebugMessageIsDisplay | src/error.rs:88-91 | In debug builds, every variant's message is its display text, except the two built from the wrapped value. |
| Errors.CodeInMessage | src/error.rs:75-87 | Every code of every field appears contiguously in the `FormValidationErrors` message. |
| Keys.RandString | src/user/mod.rs:9-16 | The result has exactly `size` chars, all of them ASCII. |
| Keys.RandStringIsAsciiPrefix | src/user/mod.rs:9-16 | The result is the first `size` ASCII chars of the random stream: non-ASCII draws are filtered out, then `size` are taken. |
| Forms.LoginFromSignup | src/forms/mod.rs:44-51 | The login carries the signup form's email and password unchanged. The generic conversion from any reference to a `Signup` (src/forms/mod.rs:62-69) gives the same result. |
| Forms.SignupFromLogin | src/forms/mod.rs:53-60 | Inverse of `LoginFromSignup`: converting a login to a signup form and back gives the same login. |
| Forms.SignupRoundTrip | src/forms/mod.rs:44-60 | Converting a signup form to a login and back gives the same form. |
| Forms.Utf8Len | src/forms/mod.rs:80 | The length `len()` measures is the UTF-8 byte count. It is at least the char count, and equal to it exactly when every char is ASCII. |
| Forms.AnyChar | src/forms/mod.rs:90-94 | The scan finds a char of the class exactly when some position holds one. |
| Forms.IsLong | src/forms/mod.rs:79-86 | Passes exactly when the UTF-8 length is at least 8. Otherwise reports the too-short text. |
| Forms.HasUppercase | src/forms/mod.rs:89-98 | Passes exactly when some char is uppercase. Otherwise reports its text. |
| Forms.HasLowercase | src/forms/mod.rs:100-109 | Passes exactly when some char is lowercase. Otherwise reports its text, which verbatim says "uppercase". |
| Forms.HasNumber | src/forms/mod.rs:111-120 | Passes exactly when some char is numeric. Otherwise reports its text. |
| Forms.IsSecure | src/forms/mod.rs:71-77 | Ok exactly when the password satisfies all four rules. Otherwise it reports the first failing rule in the order length, uppercase, lowercase, digit. |
| Forms.ValidateSignup | src/forms/mod.rs:12-24 | The form validates exactly when the email is valid and the password meets the whole policy. An invalid email yields an `email` entry with the email code. An insecure password yields a `password` entry holding every failing rule, in the attribute order: length, digit, lowercase, uppercase. No other entries appear, and every entry has at least one error. |
| Forms.ValidationAgreesWithIsSecure | src/forms/mod.rs:17-22 | Form validation accepts exactly the forms whose email is valid and whose password `is_secure` accepts. |
| Forms.ValidationReportsPolicyCodes | src/forms/mod.rs:17-22 | Every code form validation reports is the email code or one of the four policy texts. |
| Forms.LengthCountsBytes | src/forms/mod.rs:80 | Four two-byte chars pass the length rule. Seven ASCII chars fail it. |
| Forms.ShortPasswordReports | src/forms/mod.rs:17-22 | For "short1", validation reports the length and uppercase rules, in that order. `is_secure` reports only the length rule. |
| SessionDefault.AsI64 | src/session/default/mod.rs:31 | The `as i64` cast keeps durations below 2^63 unchanged and wraps larger ones to negative values. |
| SessionDefault.Insert | src/session/default/mod.rs:9-12 | Always Ok. The id's entry becomes exactly the new key with the given expiry. Every other entry is kept whole, and no entry is added besides the id's. |
| SessionDefault.InsertFor | src/session/default/mod.rs:29-36 | Always Ok. The id's entry becomes the new secret with the raw duration, cast to `i64`, as its expiry. Every other entry is kept whole. |
| SessionDefault.InsertForFixed | src/session/default/mod.rs:29-36 | The corrected `insert_for`. The id's entry holds the new secret and expires `time` seconds after `now`. Every other entry is kept whole. |
| SessionDefault.Get | src/session/default/mod.rs:19-22 | Some exactly when a key is stored for the id, and then its secret. |
| SessionDefault.Remove | src/session/default/mod.rs:14-17 | Always Ok. The id's entry is gone and every other entry is kept whole. Removing an absent id changes nothing. |
| SessionDefault.ClearAll | src/session/default/mod.rs:24-27 | Always Ok, and `get` yields None for every id. |
| SessionDefault.ClearExpired | src/session/default/mod.rs:38-42 | Always Ok. Keeps exactly the entries whose expiry is after `now`, with their values unchanged. |
| SessionDefault.RemoveIdempotent | src/session/default/mod.rs:14-17 | Removing twice equals removing once. |
| SessionDefault.InsertOverwrites | src/session/default/mod.rs:9-12 | A second insert for the same id leaves only the second key. |
| SessionDefault.ClearExpiredIdempotent | src/session/default/mod.rs:38-42 | Sweeping twice at the same instant equals sweeping once. |
| SessionDefault.InsertForSweptAtOnce | src/session/default/mod.rs:31 | As written, a key from `insert_for` is swept by any `clear_expired` whose clock has passed the raw duration. |
| SessionDefault.InsertForFixedSurvives | src/session/default/mod.rs:29-36 | With the corrected expiry, a key survives every sweep before its lifetime ends. |
| UserRecord.SetPassword | src/user/user.rs:28-36 | Ok exactly when the new password meets the policy. Otherwise it returns the policy's error. On success only `password` changes, to the digest of the new password with a 10-char salt. |
| UserRecord.SetVerified | src/user/user.rs:50-57 | Ok exactly when the token equals the stored one. Then only `is_verified` changes, and it becomes true. Otherwise the result is `VerificationTokenMismatch`. |
| UserRecord.SetEmail | src/user/user.rs:120-126 | Ok exactly when the email is valid. Then only `email` changes. Otherwise the result is `InvalidEmailAddressError`. |
| UserRecord.SetVerifiedIdempotent | src/user/user.rs:50-57 | Verifying again with the same token gives the same result. |
| UserRecord.HistoryUntouched | src/user/user.rs:28-36 | No mutator changes the three previous-password fields. |
| MongoModel.FindByEmail | src/db/mongomodel/mod.rs:80-86 | Finds a record exactly when some record holds the email, and the record found holds it. |
| MongoModel.CreateUser | src/db/mongomodel/mod.rs:13-39 | An unreachable server gives `MongoDBError`. A taken email gives the unique-index `MongoDBError`. Otherwise the built record is stored under a fresh id, and the collection invariants still hold. |
| MongoModel.UpdateUser | src/db/mongomodel/mod.rs:40-49 | Replaces the record with the user's id and keeps every other record. Answers Ok with no change when no record matches. An unreachable server gives `MongoDBError`. Otherwise it fails exactly when another record holds the new email, with the unique-index error. A write-back that keeps the record's own email always succeeds. |
| MongoModel.DeleteUserById | src/db/mongomodel/mod.rs:50-58 | Ok whenever the server answers, and the id is then gone. Deleting an absent id is Ok. |
| MongoModel.DeleteUserByEmail | src/db/mongomodel/mod.rs:59-67 | Ok whenever the server answers. No record then holds the email, and records with other emails are kept. |
| MongoModel.GetUserById | src/db/mongomodel/mod.rs:68-79 | The stored record, `UserNotFoundError` when there is none, or `MongoDBError` when the server is unreachable. |
| MongoModel.GetUserByEmail | src/db/mongomodel/mod.rs:80-91 | The stored record holding the email, `UserNotFoundError` when there is none, or `MongoDBError` when the server is unreachable. |
| MongoModel.GetAllUsers | src/db/mongomodel/mod.rs:92-101 | Exactly the stored records, each once, in id order. An empty sequence when the server fails. |
| MongoModel.CreatedRecordShape | src/db/mongomodel/mod.rs:21-31 | A created record is found by its email with a fresh id, unverified, with the given token, digest and admin flag, and no password history. |
| MongoModel.SecondCreateFails | src/db/mongomodel/mod.rs:14-20 | A second create with the same email fails with the unique-index driver error. |
| MongoModel.UpdateWithCurrentIsNoOp | src/db/mongomodel/mod.rs:40-49 | Writing back a record unchanged leaves the collection as it was. |
| UsersApi.IsAuth | src/user/mod.rs:19-26 | True exactly when a key is stored for the session's id and its secret equals the session's key. False when no key is stored. |
| UsersApi.FreshUsersAuthenticateNobody | src/user/users.rs:151-158 | A `Users` built from a connection alone has an empty session store and authenticates no session. |
| UsersApi.SetAuthKey | src/user/mod.rs:56-60 | Issues a 15-char key stored for one year. It replaces any earlier key of the user, and sessions carrying the new key authenticate. |
| UsersApi.SetAuthKeyFor | src/user/mod.rs:50-54 | Issues a 10-char key through `insert_for`, so its expiry is the raw duration cast to `i64`. It replaces any earlier key of the user, and sessions carrying the new key authenticate. |
| UsersApi.Login | src/user/mod.rs:28-41 | An unknown email, or any lookup failure, gives `EmailDoesNotExist(email)`. A rejected password gives `UnauthorizedError` and a digest-parsing failure gives `Argon2ParsingError`. Every failure leaves the state unchanged. On success a 15-char key is stored under the user's id, replacing any earlier one. |
| UsersApi.LoginFor | src/user/mod.rs:82-91 | Like `login`, except that a lookup failure propagates as `UserNotFoundError` or `MongoDBError`. On success a 10-char key is stored under the user's id with the raw-duration expiry of `insert_for`. |
| UsersApi.Logout | src/user/mod.rs:43-48 | Always Ok, and the session no longer authenticates. The stored key is removed only when the session presented it, so a stale session changes nothing. |
| UsersApi.CreateUser | src/user/users.rs:99-106 | Succeeds exactly when the server answers and the email is free. Neither the policy nor the email check is consulted. The stored record holds the digest with a 30-char salt and the admin flag as given. |
| UsersApi.Signup | src/user/mod.rs:62-80 | An invalid form fails with its validation errors and leaves the state unchanged. A valid form goes to `create_user` as a non-admin account. |
| UsersApi.GetByEmail | src/user/users.rs:62-65 | Ok exactly when the server answers and a record holds the email, and then it is that stored record. Otherwise `MongoDBError` when unreachable, or `UserNotFoundError`. |
| UsersApi.LookupsAgree | src/user/users.rs:62-82 | The record found by email is exactly the one the lookup by its id returns. |
| UsersApi.GetById | src/user/users.rs:79-82 | Ok exactly when the server answers and the id is stored, and then it is that record. Otherwise `MongoDBError` when unreachable, or `UserNotFoundError`. |
| UsersApi.GetAllUsers | src/user/users.rs:84-87 | Never an error. Lists every stored record, or none when the server fails. |
| UsersApi.Delete | src/user/users.rs:117-121 | Always revokes the id's session. Then the record is deleted when the server answers. Otherwise the result is `MongoDBError` and the collection is unchanged. |
| UsersApi.Modify | src/user/users.rs:133-136 | Forwards to `update_user`, propagating its error, and leaves sessions alone. |
| UsersApi.UnknownEmailErrorsDiffer | src/user/mod.rs:84 | For an unregistered email, `login` reports `EmailDoesNotExist` while `login_for` reports `UserNotFoundError`. |
| AuthApi.IsAuth | src/user/auth.rs:189-195 | False without a session. Otherwise `Users::is_auth` of the session. |
| AuthApi.GetSession | src/user/auth.rs:328-331 | The session, or `UnauthenticatedError` when there is none. |
| AuthApi.GetUser | src/user/auth.rs:206-216 | The stored record exactly when the client authenticates and the lookup by its id succeeds. Otherwise None. |
| AuthApi.SessionFor | src/user/auth.rs:95-101 | The cookie session carries the account's id, the form's email, the issued key and the current time. |
| AuthApi.Login | src/user/auth.rs:93-105 | Fails exactly when `Users::login` fails, with its error and no state change. The state afterwards is the one `Users::login` leaves. On success the returned session carries the id of the account holding the form's email, and that email. It authenticates and holds a 15-char key. |
| AuthApi.LoginFor | src/user/auth.rs:119-133 | Like `login`, with the errors and state of `Users::login_for` and a 10-char key. The session carries the id of the account holding the form's email. |
| AuthApi.Signup | src/user/auth.rs:149-152 | Always Ok, whatever `Users::signup` did. Its state change is kept. |
| AuthApi.SignupFor | src/user/auth.rs:167-171 | Signs up, dropping that outcome, then runs `login_for` with the same credentials and `time`. A success yields an authenticated session for the form's email. |
| AuthApi.Logout | src/user/auth.rs:227-232 | `UnauthenticatedError` without a session. Ok with any session, even a stale one, and the session then fails to authenticate. |
| AuthApi.Delete | src/user/auth.rs:243-252 | Ok exactly when authenticated, and otherwise `UnauthenticatedError`. The session is revoked, and the record is deleted when the server answers. A failed deletion still answers Ok. |
| AuthApi.ChangePassword | src/user/auth.rs:264-274 | `UnauthorizedError` when unauthenticated. A failed lookup passes on its error: `MongoDBError` when the server is unreachable, `UserNotFoundError` when the record is gone. Otherwise Ok exactly when the record is found and the new password meets the policy; the old password is never asked for. An insecure password returns the policy error and persists nothing. |
| AuthApi.VerifyAccount | src/user/auth.rs:285-295 | `VerificationTokenMismatch` when unauthenticated. A failed lookup passes on its error: `MongoDBError` when the server is unreachable, `UserNotFoundError` when the record is gone. Otherwise Ok exactly when the record is found and the token matches, and then only `is_verified` changes. A wrong token persists nothing. |
| AuthApi.ChangeEmail | src/user/auth.rs:304-317 | `UnauthorizedError` when unauthenticated. An invalid email is rejected before any lookup. For a valid email, a failed lookup passes on its error: `MongoDBError` when the server is unreachable, `UserNotFoundError` when the record is gone. Otherwise Ok whenever the record is found, and only the email changes. If another account holds the email, the answer is still Ok and nothing is stored. |
| Guards.UserGuard | src/user/user.rs:152-160 | Admits exactly the verified users. An unverified user gets `UnverifiedError` and no user gets `UnauthorizedError`. |
| Guards.UnverifiedUserGuard | src/user/user.rs:175-179 | Admits every resolved user whatever its flags. Otherwise `UnauthorizedError`. |
| Guards.AdminUserGuard | src/user/user.rs:194-199 | Admits exactly the resolved users with both `is_admin` and `is_verified`. Otherwise `UnauthorizedError`. |
| Guards.AdminFromUser | src/user/user.rs:217-223 | Ok exactly when `is_admin`, without looking at `is_verified`. |
| Guards.GuardsNest | src/user/user.rs:152-199 | Whoever the admin guard admits, the user guard admits. Whoever the user guard admits, the unverified guard admits. |
| Guards.AdminNeedsVerification | src/user/user.rs:194-199 | A verified admin is in the admin class. The same record unverified falls to the unverified class. |
| Guards.ConversionSkipsVerification | src/user/user.rs:217-223 | An unverified admin passes the `TryFrom` conversion but is refused by the admin guard. |
| Scenarios.SecondLoginRevokesFirst | src/user/mod.rs:56-60 | After a second login of the same account with a different key, the first session no longer authenticates and the second one does. |
| Scenarios.LogoutRevokes | src/user/mod.rs:43-48 | After logging out an authenticated session, it fails `is_auth` and resolves to no user. |
| Scenarios.StaleLogoutKeepsNewerKey | src/user/mod.rs:43-48 | Logging out a stale session leaves the user's newer key authenticating. |
| Scenarios.SignupThenLogin | src/user/auth.rs:142-146 | With a hasher whose digests verify their own password only: signup followed by login with the same credentials yields a session for the email, and any other password gets `UnauthorizedError`. |
| Scenarios.DuplicateSignup | src/db/mongomodel/mod.rs:14-20 | A second signup with a taken email fails with the unique-index driver error, while `Auth::signup` answers Ok both times. |
| Scenarios.VerifiedClientPassesUserGuard | src/user/auth.rs:285-295 | Verifying with the stored token succeeds, and afterwards the client passes the `User` guard. |
| Scenarios.TimedLoginSweptAtOnce | src/user/mod.rs:50-54 | As written, once the clock has passed the requested duration, the next `clear_expired` revokes a key issued by `login_for`, and the session stops authenticating. |
| Scenarios.DeleteLeavesNothing | src/user/users.rs:117-121 | After a successful delete, no session key and no record remain for the id, and the client resolves to no user. |

## Left out

- Argon2 hashing and verification are the `Env.hash` and `Env.verify` parameters. The verify-own-password property is a hypothesis, used only by `Scenarios.SignupThenLogin`. The `unwrap()` on hashing is not modelled.
- Randomness: `rand_string` draws until it has enough ASCII chars. The model takes the drawn chars as input, and its callers must supply enough of them (`Keys.Enough`).
- `now()` is an argument.
- Email syntax (`validator::validate_email`) and the Unicode `is_uppercase`/`is_lowercase`/`is_numeric` classes are `Env` parameters.
- Cookie handling and the JSON serialisation of `Session` (src/user/auth.rs:102-103, 129-131, 230, 247) are not modelled. A successful login returns the `Session` that would be written.
- The JSON body of the error responder (src/error.rs:102-114) and the HTTP status of guard failures are left out: they are framework plumbing.
- The `FromRequest` wiring of `Auth`, with its `UnmanagedStateError` when `Users` is not managed, and the async plumbing of every guard are left out. Only the decisions are modelled.
- The conversion of a secret into an `AuthKey` used by `insert` lives in src/session/mod.rs, which is not part of this model. `SessionDefault.Insert` therefore takes the expiry as an input, and `UsersApi.SetAuthKey` passes `now` plus one year.
- The Redis session backend, the `RedisError` variant and `From<(T0, T1)> for Users` are left out: they wrap an external client with native expiry.
- `open_mongodb` and `open_redis` are connection I/O. The MongoDB driver calls and the index creation are reduced to their map semantics. The unique email index is taken as present from the start.
- `Errors.DriverText`: the driver's exact error wording is not modelled. The text is a stand-in.
- `Errors.DisplayText`: the validator crate's own rendering of `ValidationError` and `ValidationErrors` is not modelled. The codes stand in for it.
- `Forms.ValidateSignup`: the order of fields in `ValidationErrors` is a hash-map order the source leaves unspecified. The model puts `email` before `password`.
- The `Arc` and `tokio::sync::Mutex` forwarding impls of `DBConnection` (src/db/mod.rs:17-65) are trivial delegation for concurrency. The model is sequential.
- `AuthApi.Login` and `AuthApi.LoginFor` read the account a second time without an error branch. In a sequential model that lookup cannot fail after a successful login; only a concurrent deletion between the two reads could fail it.
- `create_user` token: the collection's `create_user` takes a `token` the `DBConnection` trait does not declare. `UsersApi.CreateUser` takes it as an input.
- The empty mailer branch of `Users::signup` (src/user/mod.rs:70-72) reads a field that `Users` does not have. It has no effect and is ignored, as are the SMTP mailer, config loading and the example application.
- `update_user` unwraps the record's id, so the model requires the id to be present rather than modelling the panic.
- Instants and durations are unbounded integers. Overflow of `now + time` is not modelled.
- The `id()` and `email()` accessors and the `Debug` impls are left out. They have no behaviour to state.

## Findings

| source | as written | input that shows it | evidently intended | confidence | as-written member | corrected member |
|---|---|---|---|---|---|---|
| src/session/default/mod.rs:31 | `insert_for` stores `time.as_secs()` as the expiry, and `clear_expired` compares it with the current epoch time | `insert_for(id, k, 3600 s)`, then `clear_expired` at now = 1700000000: the key is removed at once (`SessionDefault.InsertForSweptAtOnce`) | expiry = now + duration, so the key lives `time` seconds (`SessionDefault.InsertForFixedSurvives`) | high; not executed | SessionDefault.InsertFor | SessionDefault.InsertForFixed |
