/**
  The `Auth` request guard (src/user/auth.rs): the `Users` state plus the
  session read from the client's cookie, if any. A successful login carries the
  `Session` the source serialises into its private cookie; the cookie itself is
  not modelled.
*/
module AuthApi {
  import opened Results
  import opened Errors
  import opened Externals
  import opened UserRecord
  import Keys
  import Forms
  import MongoModel
  import UsersApi

  type Users = UsersApi.Users
  type Session = UsersApi.Session
  type Step<T> = UsersApi.Step<T>

  datatype Auth = Auth(users: Users, session: Option<Session>)

  /** `is_auth`: no session, no authentication. */
  function IsAuth(a: Auth): (r: bool)
    ensures r <==> a.session.Some? && UsersApi.IsAuth(a.users, a.session.value)
    ensures a.session.None? ==> !r
  {
    match a.session
    case Some(s) => UsersApi.IsAuth(a.users, s)
    case None => false
  }

  /** `get_session`. */
  function GetSession(a: Auth): (r: Result<Session, Error>)
    ensures r.Ok? <==> a.session.Some?
    ensures r.Ok? ==> r.value == a.session.value
    ensures r.Err? ==> r.error == UnauthenticatedError
  {
    match a.session
    case Some(s) => Ok(s)
    case None => Err(UnauthenticatedError)
  }

  /** `get_user`: the record of the authenticated user; a failed lookup reads as no user. */
  function GetUser(a: Auth): (r: Option<User>)
    ensures r.Some? <==> IsAuth(a) && a.users.conn.reachable && a.session.value.id in a.users.conn.records
    ensures r.Some? ==> r.value == a.users.conn.records[a.session.value.id]
  {
    if !IsAuth(a) then None
    else
      match UsersApi.GetById(a.users, a.session.value.id)
      case Ok(user) => Some(user)
      case Err(_) => None
  }

  /** The session `Auth::login` writes after a successful key issue. */
  function SessionFor(u: Users, form: Forms.Login, key: string, now: int): (s: Session)
    requires MongoModel.Valid(u.conn) && u.conn.reachable && MongoModel.EmailTaken(u.conn, form.email)
    ensures s.email == form.email && s.authKey == key && s.timeStamp == now
    ensures s.id in u.conn.records && u.conn.records[s.id].email == form.email
  {
    var user := UsersApi.GetByEmail(u, form.email).value;
    UsersApi.Session(user.id.value, user.email, key, now)
  }

  /** `login`: a default-lifetime login; the returned session authenticates. */
  function Login(env: Env, a: Auth, form: Forms.Login, draws: seq<char>, now: int): (r: Step<Session>)
    requires UsersApi.Valid(a.users) && Keys.Enough(Keys.DefaultKeyLength, draws)
    ensures r.users.conn == a.users.conn
    ensures r.result.Err? <==> UsersApi.Login(env, a.users, form, draws, now).result.Err?
    ensures r.result.Err? ==> r.users == a.users && r.result.error == UsersApi.Login(env, a.users, form, draws, now).result.error
    ensures r.result.Ok? ==> UsersApi.IsAuth(r.users, r.result.value)
    ensures r.result.Ok? ==> r.result.value.email == form.email && r.result.value.timeStamp == now
    ensures r.result.Ok? ==> |r.result.value.authKey| == Keys.DefaultKeyLength
    ensures r.users == UsersApi.Login(env, a.users, form, draws, now).users
    ensures r.result.Ok? ==>
              r.result.value.id in r.users.conn.records && r.users.conn.records[r.result.value.id].email == form.email
  {
    var s := UsersApi.Login(env, a.users, form, draws, now);
    match s.result
    case Err(e) => UsersApi.Step(Err(e), s.users)
    case Ok(key) => UsersApi.Step(Ok(SessionFor(s.users, form, key, now)), s.users)
  }

  /** `login_for`: as `login`, with a ten-char key living `time` seconds. */
  function LoginFor(env: Env, a: Auth, form: Forms.Login, time: u64, draws: seq<char>, now: int): (r: Step<Session>)
    requires UsersApi.Valid(a.users) && Keys.Enough(Keys.TimedKeyLength, draws)
    ensures r.users.conn == a.users.conn
    ensures r.result.Err? <==> UsersApi.LoginFor(env, a.users, form, time, draws).result.Err?
    ensures r.result.Err? ==>
              r.users == a.users && r.result.error == UsersApi.LoginFor(env, a.users, form, time, draws).result.error
    ensures r.result.Ok? ==> UsersApi.IsAuth(r.users, r.result.value)
    ensures r.result.Ok? ==> r.result.value.email == form.email && r.result.value.timeStamp == now
    ensures r.result.Ok? ==> |r.result.value.authKey| == Keys.TimedKeyLength
    ensures r.users == UsersApi.LoginFor(env, a.users, form, time, draws).users
    ensures r.result.Ok? ==>
              r.result.value.id in r.users.conn.records && r.users.conn.records[r.result.value.id].email == form.email
  {
    var s := UsersApi.LoginFor(env, a.users, form, time, draws);
    match s.result
    case Err(e) => UsersApi.Step(Err(e), s.users)
    case Ok(key) => UsersApi.Step(Ok(SessionFor(s.users, form, key, now)), s.users)
  }

  /** `signup`: the outcome of `Users::signup` is dropped, so it always answers Ok. */
  function Signup(env: Env, a: Auth, form: Forms.Signup, saltDraws: seq<char>, token: string): (r: Step<()>)
    requires UsersApi.Valid(a.users) && Keys.Enough(Keys.CreateSaltLength, saltDraws)
    ensures r.result.Ok?
    ensures r.users == UsersApi.Signup(env, a.users, form, saltDraws, token).users
    ensures UsersApi.Valid(r.users)
  {
    var s := UsersApi.Signup(env, a.users, form, saltDraws, token);
    UsersApi.Step(Ok(()), s.users)
  }

  /** `signup_for`: sign up (outcome dropped), then log in for `time` seconds
      with the same email and password. */
  function SignupFor(env: Env, a: Auth, form: Forms.Signup, time: u64, saltDraws: seq<char>, token: string,
                     draws: seq<char>, now: int): (r: Step<Session>)
    requires UsersApi.Valid(a.users) && Keys.Enough(Keys.CreateSaltLength, saltDraws)
    requires Keys.Enough(Keys.TimedKeyLength, draws)
    ensures r.users.conn == UsersApi.Signup(env, a.users, form, saltDraws, token).users.conn
    ensures r.result.Ok? ==> UsersApi.IsAuth(r.users, r.result.value) && r.result.value.email == form.email
    ensures r == LoginFor(env, Auth(UsersApi.Signup(env, a.users, form, saltDraws, token).users, a.session),
                          Forms.LoginFromSignup(form), time, draws, now)
  {
    var s := UsersApi.Signup(env, a.users, form, saltDraws, token);
    LoginFor(env, a.(users := s.users), Forms.LoginFromSignup(form), time, draws, now)
  }

  /** `logout`: needs a session, but not a live one; a stale session changes nothing. */
  function Logout(a: Auth): (r: Step<()>)
    ensures r.result.Ok? <==> a.session.Some?
    ensures r.result.Err? ==> r.result.error == UnauthenticatedError && r.users == a.users
    ensures r.users.conn == a.users.conn
    ensures a.session.Some? ==> !UsersApi.IsAuth(r.users, a.session.value)
    ensures !IsAuth(a) ==> r.users == a.users
    ensures IsAuth(a) ==> r.users.sess == a.users.sess - {a.session.value.id}
  {
    match GetSession(a)
    case Err(e) => UsersApi.Step(Err(e), a.users)
    case Ok(s) => UsersApi.Step(Ok(()), UsersApi.Logout(a.users, s).users)
  }

  /** `delete`: for an authenticated client, revoke its session and delete its
      record; the outcome of the deletion is dropped. */
  function Delete(a: Auth): (r: Step<()>)
    requires UsersApi.Valid(a.users)
    ensures UsersApi.Valid(r.users)
    ensures r.result.Ok? <==> IsAuth(a)
    ensures r.result.Err? ==> r.result.error == UnauthenticatedError && r.users == a.users
    ensures r.result.Ok? ==> a.session.value.id !in r.users.sess
    ensures r.result.Ok? ==> r.users.sess == a.users.sess - {a.session.value.id}
    ensures r.result.Ok? && a.users.conn.reachable ==>
              r.users.conn.records == a.users.conn.records - {a.session.value.id}
    ensures r.result.Ok? && !a.users.conn.reachable ==> r.users.conn == a.users.conn
  {
    if IsAuth(a) then UsersApi.Step(Ok(()), UsersApi.Delete(a.users, a.session.value.id).users)
    else UsersApi.Step(Err(UnauthenticatedError), a.users)
  }

  /** `change_password`: for an authenticated client only, under the password
      policy; the current password is not asked for, and the outcome of the
      write is dropped. */
  function ChangePassword(env: Env, a: Auth, password: string, saltDraws: seq<char>): (r: Step<()>)
    requires UsersApi.Valid(a.users) && Keys.Enough(Keys.ResetSaltLength, saltDraws)
    ensures UsersApi.Valid(r.users) && r.users.sess == a.users.sess
    ensures !IsAuth(a) ==> r.result == Err(UnauthorizedError) && r.users == a.users
    ensures IsAuth(a) && !a.users.conn.reachable ==> r.result == Err(MongoDBError(ServerUnavailable))
    ensures IsAuth(a) && a.users.conn.reachable && a.session.value.id !in a.users.conn.records ==>
              r.result == Err(UserNotFoundError)
    ensures r.result.Ok? <==>
              IsAuth(a) && a.users.conn.reachable && a.session.value.id in a.users.conn.records
              && Forms.SecurePassword(env, password)
    ensures r.result.Err? ==> r.users == a.users
    ensures IsAuth(a) && GetUser(a).Some? && !Forms.SecurePassword(env, password) ==>
              r.result == Err(FormValidationError(Forms.IsSecure(env, password).error))
    ensures r.result.Ok? ==>
              var id := a.session.value.id;
              r.users.conn.records == a.users.conn.records[id := a.users.conn.records[id].(
                password := env.hash(password, Keys.RandString(Keys.ResetSaltLength, saltDraws)))]
  {
    if !IsAuth(a) then UsersApi.Step(Err(UnauthorizedError), a.users)
    else
      match UsersApi.GetById(a.users, a.session.value.id)
      case Err(e) => UsersApi.Step(Err(e), a.users)
      case Ok(user) =>
        match SetPassword(env, user, password, saltDraws)
        case Err(e) => UsersApi.Step(Err(e), a.users)
        case Ok(changed) => UsersApi.Step(Ok(()), UsersApi.Modify(a.users, changed).users)
  }

  /** `verify_account`: for an authenticated client only (otherwise the answer
      is a token mismatch); the token must match the stored one. */
  function VerifyAccount(a: Auth, token: string): (r: Step<()>)
    requires UsersApi.Valid(a.users)
    ensures UsersApi.Valid(r.users) && r.users.sess == a.users.sess
    ensures !IsAuth(a) ==> r.result == Err(VerificationTokenMismatch) && r.users == a.users
    ensures IsAuth(a) && !a.users.conn.reachable ==> r.result == Err(MongoDBError(ServerUnavailable))
    ensures IsAuth(a) && a.users.conn.reachable && a.session.value.id !in a.users.conn.records ==>
              r.result == Err(UserNotFoundError)
    ensures r.result.Ok? <==>
              IsAuth(a) && a.users.conn.reachable && a.session.value.id in a.users.conn.records
              && a.users.conn.records[a.session.value.id].verificationToken == token
    ensures r.result.Err? ==> r.users == a.users
    ensures IsAuth(a) && GetUser(a).Some? && GetUser(a).value.verificationToken != token ==>
              r.result == Err(VerificationTokenMismatch)
    ensures r.result.Ok? ==>
              var id := a.session.value.id;
              r.users.conn.records == a.users.conn.records[id := a.users.conn.records[id].(isVerified := true)]
  {
    if !IsAuth(a) then UsersApi.Step(Err(VerificationTokenMismatch), a.users)
    else
      match UsersApi.GetById(a.users, a.session.value.id)
      case Err(e) => UsersApi.Step(Err(e), a.users)
      case Ok(user) =>
        match SetVerified(user, token)
        case Err(e) => UsersApi.Step(Err(e), a.users)
        case Ok(verified) => UsersApi.Step(Ok(()), UsersApi.Modify(a.users, verified).users)
  }

  /** `change_email`: for an authenticated client only; the address is checked
      before the record is read, and the outcome of the write is dropped, so an
      address another account holds is answered Ok and not stored. */
  function ChangeEmail(env: Env, a: Auth, email: string): (r: Step<()>)
    requires UsersApi.Valid(a.users)
    ensures UsersApi.Valid(r.users) && r.users.sess == a.users.sess
    ensures !IsAuth(a) ==> r.result == Err(UnauthorizedError) && r.users == a.users
    ensures IsAuth(a) && !env.validEmail(email) ==> r.result == Err(InvalidEmailAddressError) && r.users == a.users
    ensures IsAuth(a) && env.validEmail(email) && !a.users.conn.reachable ==>
              r.result == Err(MongoDBError(ServerUnavailable))
    ensures IsAuth(a) && env.validEmail(email) && a.users.conn.reachable && a.session.value.id !in a.users.conn.records ==>
              r.result == Err(UserNotFoundError)
    ensures r.result.Ok? <==>
              IsAuth(a) && env.validEmail(email) && a.users.conn.reachable
              && a.session.value.id in a.users.conn.records
    ensures r.result.Err? ==> r.users == a.users
    ensures r.result.Ok? ==>
              var id := a.session.value.id;
              var records := a.users.conn.records;
              if MongoModel.FindByEmail(a.users.conn, email) in {None, Some(id)}
              then r.users.conn.records == records[id := records[id].(email := email)]
              else r.users == a.users
  {
    if !IsAuth(a) then UsersApi.Step(Err(UnauthorizedError), a.users)
    else if !env.validEmail(email) then UsersApi.Step(Err(InvalidEmailAddressError), a.users)
    else
      match UsersApi.GetById(a.users, a.session.value.id)
      case Err(e) => UsersApi.Step(Err(e), a.users)
      case Ok(user) => UsersApi.Step(Ok(()), UsersApi.Modify(a.users, user.(email := email)).users)
  }
}
