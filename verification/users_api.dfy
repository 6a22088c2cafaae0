/**
  `Users` (src/user/mod.rs, src/user/users.rs): the pair of a user collection
  and a session store, and the operations that touch one or both.
  Operations return a `Step`: the outcome together with the state after it,
  because some of them change the state and then fail.
*/
module UsersApi {
  import opened Results
  import opened Errors
  import opened Externals
  import opened UserRecord
  import Keys
  import Forms
  import MongoModel
  import SessionDefault

  /** The lifetime of a default login: one year, in seconds. */
  const YearInSecs: int := 365 * 24 * 60 * 60

  /** The client-held proof of a login, as it travels in the private cookie. */
  datatype Session = Session(id: ObjectId, email: string, authKey: string, timeStamp: int)

  datatype Users = Users(conn: MongoModel.Db, sess: SessionDefault.Store)

  datatype Step<T> = Step(result: Result<T, Error>, users: Users)

  ghost predicate Valid(u: Users)
  {
    MongoModel.Valid(u.conn)
  }

  /** `form` names a stored account whose digest accepts the form's password. */
  ghost predicate Credentials(env: Env, u: Users, form: Forms.Login, id: ObjectId)
  {
    && u.conn.reachable
    && id in u.conn.records
    && u.conn.records[id].email == form.email
    && env.verify(u.conn.records[id].password, form.password) == Ok(true)
  }

  /** `From<Conn> for Users`: a collection and a fresh in-memory session store. */
  function FromConn(db: MongoModel.Db): Users
  {
    Users(db, map[])
  }

  /** `is_auth`: the session's key is the one stored for its user. */
  function IsAuth(u: Users, session: Session): (r: bool)
    ensures r <==> session.id in u.sess && u.sess[session.id].secret == session.authKey
  {
    match SessionDefault.Get(u.sess, session.id)
    case Some(key) => key == session.authKey
    case None => false
  }

  /** A `Users` built from a connection alone authenticates no session. */
  lemma FreshUsersAuthenticateNobody(db: MongoModel.Db, session: Session)
    ensures FromConn(db).sess == map[]
    ensures !IsAuth(FromConn(db), session)
  {
  }

  /** `set_auth_key`: a fresh 15-char key, stored for a year, replacing any earlier one. */
  function SetAuthKey(u: Users, id: ObjectId, draws: seq<char>, now: int): (r: Step<string>)
    requires Keys.Enough(Keys.DefaultKeyLength, draws)
    ensures r.result.Ok? && |r.result.value| == Keys.DefaultKeyLength
    ensures r.users.conn == u.conn
    ensures r.users.sess == u.sess[id := SessionDefault.AuthKey(now + YearInSecs, r.result.value)]
    ensures forall email, t :: IsAuth(r.users, Session(id, email, r.result.value, t))
  {
    var key := Keys.RandString(Keys.DefaultKeyLength, draws);
    Step(Ok(key), u.(sess := SessionDefault.Insert(u.sess, id, key, now + YearInSecs).value))
  }

  /** `set_auth_key_for`: a fresh 10-char key stored through `insert_for`, whose
      expiry is the raw duration (see `SessionDefault.InsertFor`). */
  function SetAuthKeyFor(u: Users, id: ObjectId, time: u64, draws: seq<char>): (r: Step<string>)
    requires Keys.Enough(Keys.TimedKeyLength, draws)
    ensures r.result.Ok? && |r.result.value| == Keys.TimedKeyLength
    ensures r.users.conn == u.conn
    ensures r.users.sess == u.sess[id := SessionDefault.AuthKey(SessionDefault.AsI64(time), r.result.value)]
    ensures forall email, t :: IsAuth(r.users, Session(id, email, r.result.value, t))
  {
    var key := Keys.RandString(Keys.TimedKeyLength, draws);
    Step(Ok(key), u.(sess := SessionDefault.InsertFor(u.sess, id, key, time).value))
  }

  /** `login`: look the account up by email (any failure reads as an unknown
      email), check the password, and issue a default-lifetime key. */
  function Login(env: Env, u: Users, form: Forms.Login, draws: seq<char>, now: int): (r: Step<string>)
    requires Valid(u) && Keys.Enough(Keys.DefaultKeyLength, draws)
    ensures r.users.conn == u.conn
    ensures r.result.Err? ==> r.users == u
    ensures !(u.conn.reachable && MongoModel.EmailTaken(u.conn, form.email)) ==>
              r.result == Err(EmailDoesNotExist(form.email))
    ensures forall id :: id in u.conn.records && u.conn.records[id].email == form.email && u.conn.reachable ==>
              match env.verify(u.conn.records[id].password, form.password)
              case Ok(accepted) => (r.result.Ok? <==> accepted) && (!accepted ==> r.result == Err(UnauthorizedError))
              case Err(t) => r.result == Err(Argon2ParsingError(t))
    ensures r.result.Ok? ==> |r.result.value| == Keys.DefaultKeyLength
    ensures r.result.Ok? ==>
              exists id :: Credentials(env, u, form, id) &&
                r.users.sess == u.sess[id := SessionDefault.AuthKey(now + YearInSecs, r.result.value)]
  {
    match MongoModel.GetUserByEmail(u.conn, form.email)
    case Err(_) => Step(Err(EmailDoesNotExist(form.email)), u)
    case Ok(user) =>
      match env.verify(user.password, form.password)
      case Err(t) => Step(Err(Argon2ParsingError(t)), u)
      case Ok(accepted) =>
        if accepted then
          var r := SetAuthKey(u, user.id.value, draws, now);
          assert Credentials(env, u, form, user.id.value);
          r
        else Step(Err(UnauthorizedError), u)
  }

  /** `login_for`: as `login`, but a lookup failure propagates as it is, and the
      key has ten chars and is stored through `insert_for`. */
  function LoginFor(env: Env, u: Users, form: Forms.Login, time: u64, draws: seq<char>): (r: Step<string>)
    requires Valid(u) && Keys.Enough(Keys.TimedKeyLength, draws)
    ensures r.users.conn == u.conn
    ensures r.result.Err? ==> r.users == u
    ensures !u.conn.reachable ==> r.result == Err(MongoDBError(ServerUnavailable))
    ensures u.conn.reachable && !MongoModel.EmailTaken(u.conn, form.email) ==> r.result == Err(UserNotFoundError)
    ensures forall id :: id in u.conn.records && u.conn.records[id].email == form.email && u.conn.reachable ==>
              match env.verify(u.conn.records[id].password, form.password)
              case Ok(accepted) => (r.result.Ok? <==> accepted) && (!accepted ==> r.result == Err(UnauthorizedError))
              case Err(t) => r.result == Err(Argon2ParsingError(t))
    ensures r.result.Ok? ==> |r.result.value| == Keys.TimedKeyLength
    ensures r.result.Ok? ==>
              exists id :: Credentials(env, u, form, id) &&
                r.users.sess == u.sess[id := SessionDefault.AuthKey(SessionDefault.AsI64(time), r.result.value)]
  {
    match MongoModel.GetUserByEmail(u.conn, form.email)
    case Err(e) => Step(Err(e), u)
    case Ok(user) =>
      match env.verify(user.password, form.password)
      case Err(t) => Step(Err(Argon2ParsingError(t)), u)
      case Ok(accepted) =>
        if accepted then
          var r := SetAuthKeyFor(u, user.id.value, time, draws);
          assert Credentials(env, u, form, user.id.value);
          r
        else Step(Err(UnauthorizedError), u)
  }

  /** `logout`: drop the stored key, but only when the session presents it. */
  function Logout(u: Users, session: Session): (r: Step<()>)
    ensures r.result.Ok?
    ensures !IsAuth(r.users, session)
    ensures r.users.conn == u.conn
    ensures IsAuth(u, session) ==> r.users.sess == u.sess - {session.id}
    ensures !IsAuth(u, session) ==> r.users == u
  {
    if IsAuth(u, session) then Step(Ok(()), u.(sess := SessionDefault.Remove(u.sess, session.id).value))
    else Step(Ok(()), u)
  }

  /** `create_user`: hash the password with a 30-char salt and insert the record.
      Neither the password policy nor the email check runs here. */
  function CreateUser(env: Env, u: Users, email: string, password: string, isAdmin: bool,
                      saltDraws: seq<char>, token: string): (r: Step<()>)
    requires Valid(u) && Keys.Enough(Keys.CreateSaltLength, saltDraws)
    ensures Valid(r.users) && r.users.sess == u.sess
    ensures r.result.Ok? <==> u.conn.reachable && !MongoModel.EmailTaken(u.conn, email)
    ensures r.result.Err? ==> r.users == u && r.result.error.MongoDBError?
    ensures r.result.Ok? ==>
              var stored := MongoModel.NewRecord(email, env.hash(password, Keys.RandString(Keys.CreateSaltLength, saltDraws)),
                                                 token, isAdmin);
              r.users.conn.records == u.conn.records[u.conn.nextId := stored.(id := Some(u.conn.nextId))]
  {
    var salt := Keys.RandString(Keys.CreateSaltLength, saltDraws);
    match MongoModel.CreateUser(u.conn, email, env.hash(password, salt), token, isAdmin)
    case Ok(db) => Step(Ok(()), u.(conn := db))
    case Err(e) => Step(Err(e), u)
  }

  /** `signup`: validate the whole form first; only a valid form reaches the
      collection, as a non-admin account. */
  function Signup(env: Env, u: Users, form: Forms.Signup, saltDraws: seq<char>, token: string): (r: Step<()>)
    requires Valid(u) && Keys.Enough(Keys.CreateSaltLength, saltDraws)
    ensures Valid(r.users) && r.users.sess == u.sess
    ensures !(env.validEmail(form.email) && Forms.SecurePassword(env, form.password)) ==>
              r.users == u && r.result == Err(FormValidationErrors(Forms.ValidateSignup(env, form).error))
    ensures env.validEmail(form.email) && Forms.SecurePassword(env, form.password) ==>
              r == CreateUser(env, u, form.email, form.password, false, saltDraws, token)
  {
    match Forms.ValidateSignup(env, form)
    case Err(errors) => Step(Err(FormValidationErrors(errors)), u)
    case Ok(_) => CreateUser(env, u, form.email, form.password, false, saltDraws, token)
  }

  /** `get_by_email`. */
  function GetByEmail(u: Users, email: string): (r: Result<User, Error>)
    requires Valid(u)
    ensures r.Ok? <==> u.conn.reachable && MongoModel.EmailTaken(u.conn, email)
    ensures r.Ok? ==> r.value.email == email && r.value.id.Some? && r.value.id.value in u.conn.records
                      && u.conn.records[r.value.id.value] == r.value
    ensures !u.conn.reachable ==> r == Err(MongoDBError(ServerUnavailable))
    ensures u.conn.reachable && !MongoModel.EmailTaken(u.conn, email) ==> r == Err(UserNotFoundError)
  {
    MongoModel.GetUserByEmail(u.conn, email)
  }

  /** The two lookups agree: the record found by email is the one stored under its id. */
  lemma {:induction false} LookupsAgree(u: Users, email: string)
    requires Valid(u) && GetByEmail(u, email).Ok?
    ensures GetById(u, GetByEmail(u, email).value.id.value) == GetByEmail(u, email)
  {
    var user := GetByEmail(u, email).value;
    assert user.id.value in u.conn.records && u.conn.records[user.id.value] == user;
  }

  /** `get_by_id`. */
  function GetById(u: Users, id: ObjectId): (r: Result<User, Error>)
    ensures r.Ok? <==> u.conn.reachable && id in u.conn.records
    ensures r.Ok? ==> r.value == u.conn.records[id]
    ensures !u.conn.reachable ==> r == Err(MongoDBError(ServerUnavailable))
    ensures u.conn.reachable && id !in u.conn.records ==> r == Err(UserNotFoundError)
  {
    MongoModel.GetUserById(u.conn, id)
  }

  /** `get_all_users`: never an error, even when the collection fails. */
  function GetAllUsers(u: Users): (r: Result<seq<User>, Error>)
    requires Valid(u)
    ensures r.Ok?
    ensures !u.conn.reachable ==> r.value == []
    ensures u.conn.reachable ==> MongoModel.Lists(u.conn, r.value)
  {
    Ok(MongoModel.GetAllUsers(u.conn))
  }

  /** `delete`: revoke the session first, then delete the record. The in-memory
      store cannot fail, so the revocation always happens. */
  function Delete(u: Users, id: ObjectId): (r: Step<()>)
    requires Valid(u)
    ensures Valid(r.users)
    ensures r.users.sess == u.sess - {id}
    ensures r.result.Ok? <==> u.conn.reachable
    ensures r.result.Ok? ==> r.users.conn.records == u.conn.records - {id}
    ensures r.result.Err? ==> r.users.conn == u.conn && r.result.error == MongoDBError(ServerUnavailable)
  {
    var sess := SessionDefault.Remove(u.sess, id).value;
    match MongoModel.DeleteUserById(u.conn, id)
    case Ok(db) => Step(Ok(()), Users(db, sess))
    case Err(e) => Step(Err(e), u.(sess := sess))
  }

  /** `modify`: write the record back through `update_user`, passing its error on. */
  function Modify(u: Users, user: User): (r: Step<()>)
    requires Valid(u) && user.id.Some?
    ensures Valid(r.users) && r.users.sess == u.sess
    ensures r.result.Ok? <==> MongoModel.UpdateUser(u.conn, user).Ok?
    ensures r.result.Ok? ==> r.users.conn == MongoModel.UpdateUser(u.conn, user).value
    ensures r.result.Err? ==> r.users == u && r.result.error == MongoModel.UpdateUser(u.conn, user).error
  {
    match MongoModel.UpdateUser(u.conn, user)
    case Ok(db) => Step(Ok(()), u.(conn := db))
    case Err(e) => Step(Err(e), u)
  }

  /** For an email nobody registered, `login` and `login_for` fail differently. */
  lemma UnknownEmailErrorsDiffer(env: Env, u: Users, form: Forms.Login, time: u64, d15: seq<char>, d10: seq<char>, now: int)
    requires Valid(u) && Keys.Enough(Keys.DefaultKeyLength, d15) && Keys.Enough(Keys.TimedKeyLength, d10)
    requires u.conn.reachable && !MongoModel.EmailTaken(u.conn, form.email)
    ensures Login(env, u, form, d15, now).result == Err(EmailDoesNotExist(form.email))
    ensures LoginFor(env, u, form, time, d10).result == Err(UserNotFoundError)
  {
  }
}
