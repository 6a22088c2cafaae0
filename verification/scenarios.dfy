/**
  Properties that span several operations of the engine: one live session per
  user, logout and deletion revoke access, signup composes with login, and
  the unique email index decides duplicate signups.
*/
module Scenarios {
  import opened Results
  import opened Errors
  import opened Externals
  import Keys
  import Forms
  import MongoModel
  import SessionDefault
  import UsersApi
  import AuthApi
  import Guards

  /** Two sessions that both authenticate against the same email name the same id. */
  lemma SameEmailSameId(u: UsersApi.Users, a: UsersApi.Session, b: UsersApi.Session)
    requires MongoModel.Valid(u.conn)
    requires a.id in u.conn.records && b.id in u.conn.records
    requires u.conn.records[a.id].email == u.conn.records[b.id].email
    ensures a.id == b.id
  {
  }

  /** A second login of the same account overwrites the first key: the first
      session stops authenticating, the second one does. */
  lemma SecondLoginRevokesFirst(env: Env, a: AuthApi.Auth, form: Forms.Login,
                                d1: seq<char>, d2: seq<char>, t1: int, t2: int)
    requires UsersApi.Valid(a.users)
    requires Keys.Enough(Keys.DefaultKeyLength, d1) && Keys.Enough(Keys.DefaultKeyLength, d2)
    requires AuthApi.Login(env, a, form, d1, t1).result.Ok?
    requires Keys.RandString(Keys.DefaultKeyLength, d2) != AuthApi.Login(env, a, form, d1, t1).result.value.authKey
    ensures var first := AuthApi.Login(env, a, form, d1, t1);
            var second := AuthApi.Login(env, AuthApi.Auth(first.users, a.session), form, d2, t2);
            && second.result.Ok?
            && UsersApi.IsAuth(second.users, second.result.value)
            && !UsersApi.IsAuth(second.users, first.result.value)
  {
    var first := AuthApi.Login(env, a, form, d1, t1);
    var u1 := first.users;
    var s1 := first.result.value;
    assert u1.conn == a.users.conn;
    var id :| UsersApi.Credentials(env, a.users, form, id) &&
              u1.sess == a.users.sess[id := SessionDefault.AuthKey(t1 + UsersApi.YearInSecs, s1.authKey)];
    assert UsersApi.Credentials(env, u1, form, id);
    var second := AuthApi.Login(env, AuthApi.Auth(u1, a.session), form, d2, t2);
    assert second.result.Ok?;
    var s2 := second.result.value;
    SameEmailSameId(u1, s1, s2);
    assert s2.id == id;
    assert second.users.sess[id].secret == s2.authKey;
  }

  /** After logging out an authenticated session, it no longer authenticates
      and resolves to no user. */
  lemma LogoutRevokes(a: AuthApi.Auth)
    requires AuthApi.IsAuth(a)
    ensures var after := AuthApi.Auth(AuthApi.Logout(a).users, a.session);
            !AuthApi.IsAuth(after) && AuthApi.GetUser(after).None?
  {
  }

  /** Logging out a stale session leaves the newer key of its user in place. */
  lemma StaleLogoutKeepsNewerKey(a: AuthApi.Auth, current: UsersApi.Session)
    requires a.session.Some? && current.id == a.session.value.id
    requires UsersApi.IsAuth(a.users, current) && current.authKey != a.session.value.authKey
    ensures AuthApi.Logout(a).result.Ok?
    ensures UsersApi.IsAuth(AuthApi.Logout(a).users, current)
  {
  }

  /** A signup with a valid form and a free email, followed by a login with the
      same credentials, yields a session for that email; any other password is
      refused as unauthorized. */
  lemma SignupThenLogin(env: Env, a: AuthApi.Auth, form: Forms.Signup, wrong: string,
                        saltDraws: seq<char>, token: string, draws: seq<char>, now: int)
    requires HashVerifies(env) && HashRejectsOthers(env)
    requires UsersApi.Valid(a.users) && a.users.conn.reachable && !MongoModel.EmailTaken(a.users.conn, form.email)
    requires env.validEmail(form.email) && Forms.SecurePassword(env, form.password)
    requires Keys.Enough(Keys.CreateSaltLength, saltDraws) && Keys.Enough(Keys.DefaultKeyLength, draws)
    requires wrong != form.password
    ensures var signed := AuthApi.Signup(env, a, form, saltDraws, token);
            var login := AuthApi.Login(env, AuthApi.Auth(signed.users, None), Forms.LoginFromSignup(form), draws, now);
            login.result.Ok? && login.result.value.email == form.email
    ensures var signed := AuthApi.Signup(env, a, form, saltDraws, token);
            AuthApi.Login(env, AuthApi.Auth(signed.users, None), Forms.Login(form.email, wrong), draws, now).result
            == Err(UnauthorizedError)
  {
    var signed := AuthApi.Signup(env, a, form, saltDraws, token);
    var u := signed.users;
    var id := a.users.conn.nextId;
    assert u.conn.records[id].email == form.email;
    var salt := Keys.RandString(Keys.CreateSaltLength, saltDraws);
    assert u.conn.records[id].password == env.hash(form.password, salt);
    assert env.verify(env.hash(form.password, salt), form.password) == Ok(true);
    assert env.verify(env.hash(form.password, salt), wrong) == Ok(false);
  }

  /** Two signups with one email: the second is refused by the unique index as
      a driver error (not `EmailAlreadyExists`), while `Auth::signup` answers Ok
      both times. */
  lemma DuplicateSignup(env: Env, a: AuthApi.Auth, f1: Forms.Signup, f2: Forms.Signup,
                        s1: seq<char>, s2: seq<char>, t1: string, t2: string)
    requires UsersApi.Valid(a.users) && f1.email == f2.email
    requires Keys.Enough(Keys.CreateSaltLength, s1) && Keys.Enough(Keys.CreateSaltLength, s2)
    requires env.validEmail(f2.email) && Forms.SecurePassword(env, f2.password)
    requires UsersApi.Signup(env, a.users, f1, s1, t1).result.Ok?
    ensures var first := UsersApi.Signup(env, a.users, f1, s1, t1);
            UsersApi.Signup(env, first.users, f2, s2, t2).result == Err(MongoDBError(DuplicateKey(MongoModel.EmailIndex)))
    ensures var first := AuthApi.Signup(env, a, f1, s1, t1);
            AuthApi.Signup(env, AuthApi.Auth(first.users, a.session), f2, s2, t2).result.Ok?
  {
    var first := UsersApi.Signup(env, a.users, f1, s1, t1);
    assert first.users.conn.records[a.users.conn.nextId].email == f1.email;
  }

  /** Verifying the account with its token lets the client through the `User` guard. */
  lemma VerifiedClientPassesUserGuard(a: AuthApi.Auth, token: string)
    requires UsersApi.Valid(a.users)
    requires AuthApi.GetUser(a).Some? && AuthApi.GetUser(a).value.verificationToken == token
    ensures AuthApi.VerifyAccount(a, token).result.Ok?
    ensures Guards.UserGuard(AuthApi.Auth(AuthApi.VerifyAccount(a, token).users, a.session)).Success?
  {
    var after := AuthApi.Auth(AuthApi.VerifyAccount(a, token).users, a.session);
    assert AuthApi.IsAuth(after);
    assert AuthApi.GetUser(after).value.isVerified;
  }

  /** After a successful deletion with a reachable collection, neither a session
      key nor a record remains for the id, and the client resolves to no user. */
  lemma DeleteLeavesNothing(a: AuthApi.Auth)
    requires UsersApi.Valid(a.users) && AuthApi.IsAuth(a) && a.users.conn.reachable
    ensures var after := AuthApi.Delete(a).users;
            && a.session.value.id !in after.sess
            && a.session.value.id !in after.conn.records
            && AuthApi.GetUser(AuthApi.Auth(after, a.session)).None?
            && UsersApi.GetById(after, a.session.value.id) == Err(UserNotFoundError)
  {
  }

  /** As written, a timed login's key expires at the raw duration: at any clock
      reading past it, the next sweep revokes the key issued by `login_for`. */
  lemma TimedLoginSweptAtOnce(env: Env, a: AuthApi.Auth, form: Forms.Login, time: u64,
                              draws: seq<char>, issued: int, now: int)
    requires UsersApi.Valid(a.users) && Keys.Enough(Keys.TimedKeyLength, draws)
    requires AuthApi.LoginFor(env, a, form, time, draws, issued).result.Ok?
    requires now >= time as int
    ensures var login := AuthApi.LoginFor(env, a, form, time, draws, issued);
            var swept := login.users.(sess := SessionDefault.ClearExpired(login.users.sess, now).value);
            !UsersApi.IsAuth(swept, login.result.value)
  {
    var login := AuthApi.LoginFor(env, a, form, time, draws, issued);
    var s := login.result.value;
    var id :| UsersApi.Credentials(env, a.users, form, id) &&
              login.users.sess == a.users.sess[id := SessionDefault.AuthKey(SessionDefault.AsI64(time), s.authKey)];
    SameEmailSameId(login.users, s, UsersApi.Session(id, form.email, s.authKey, issued));
    assert login.users.sess[s.id].expires <= now;
  }
}
