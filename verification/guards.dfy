/**
  The decision logic of the three user guards (src/user/user.rs) and of
  `TryFrom<User> for AdminUser`. Every guard failure carries HTTP status 401;
  the status is not modelled.
*/
module Guards {
  import opened Results
  import opened Errors
  import opened UserRecord
  import AuthApi

  datatype Outcome<T> = Success(value: T) | Failure(error: Error)

  datatype UnverifiedUser = UnverifiedUser(user: User)

  datatype AdminUser = AdminUser(user: User)

  /** Access classes, from the resolved user's two flags. */
  datatype Role = Anonymous | Unverified | Verified | Admin

  /** Reference classification: admin needs verification too. */
  function RoleOf(resolved: Option<User>): Role
  {
    match resolved
    case None => Anonymous
    case Some(u) =>
      if u.isVerified && u.isAdmin then Admin
      else if u.isVerified then Verified
      else Unverified
  }

  /** `FromRequest for User`: a verified user. */
  function UserGuard(a: AuthApi.Auth): (r: Outcome<User>)
    ensures r.Success? <==> RoleOf(AuthApi.GetUser(a)) in {Verified, Admin}
    ensures r.Success? ==> r.value == AuthApi.GetUser(a).value
    ensures RoleOf(AuthApi.GetUser(a)) == Unverified ==> r == Failure(UnverifiedError)
    ensures RoleOf(AuthApi.GetUser(a)) == Anonymous ==> r == Failure(UnauthorizedError)
  {
    match AuthApi.GetUser(a)
    case Some(user) => if user.isVerified then Success(user) else Failure(UnverifiedError)
    case None => Failure(UnauthorizedError)
  }

  /** `FromRequest for UnverifiedUser`: any resolved user, whatever its flags. */
  function UnverifiedUserGuard(a: AuthApi.Auth): (r: Outcome<UnverifiedUser>)
    ensures r.Success? <==> RoleOf(AuthApi.GetUser(a)) != Anonymous
    ensures r.Success? ==> r.value.user == AuthApi.GetUser(a).value
    ensures r.Failure? ==> r.error == UnauthorizedError
  {
    match AuthApi.GetUser(a)
    case Some(user) => Success(UnverifiedUser(user))
    case None => Failure(UnauthorizedError)
  }

  /** `FromRequest for AdminUser`: an admin whose account is verified. */
  function AdminUserGuard(a: AuthApi.Auth): (r: Outcome<AdminUser>)
    ensures r.Success? <==> RoleOf(AuthApi.GetUser(a)) == Admin
    ensures r.Success? ==> r.value.user == AuthApi.GetUser(a).value
    ensures r.Failure? ==> r.error == UnauthorizedError
  {
    match AuthApi.GetUser(a)
    case Some(user) => if user.isAdmin && user.isVerified then Success(AdminUser(user)) else Failure(UnauthorizedError)
    case None => Failure(UnauthorizedError)
  }

  /** `TryFrom<User> for AdminUser`: checks the admin flag only. */
  function AdminFromUser(user: User): (r: Result<AdminUser, Error>)
    ensures r.Ok? <==> user.isAdmin
    ensures r.Ok? ==> r.value.user == user
    ensures r.Err? ==> r.error == UnauthorizedError
  {
    if user.isAdmin then Ok(AdminUser(user)) else Err(UnauthorizedError)
  }

  /** Each guard admits whoever the stricter one admits. */
  lemma GuardsNest(a: AuthApi.Auth)
    ensures AdminUserGuard(a).Success? ==> UserGuard(a).Success?
    ensures UserGuard(a).Success? ==> UnverifiedUserGuard(a).Success?
    ensures UnverifiedUserGuard(a).Success? <==> AuthApi.IsAuth(a) && AuthApi.GetUser(a).Some?
  {
  }

  /** Admin access needs verification: clearing the verified flag of an admin
      drops it to the unverified class. */
  lemma AdminNeedsVerification(u: User)
    requires u.isAdmin && u.isVerified
    ensures RoleOf(Some(u)) == Admin
    ensures RoleOf(Some(u.(isVerified := false))) == Unverified
  {
  }

  /** The conversion admits an unverified admin that the guard turns away. */
  lemma ConversionSkipsVerification(a: AuthApi.Auth)
    requires AuthApi.GetUser(a).Some?
    requires AuthApi.GetUser(a).value.isAdmin && !AuthApi.GetUser(a).value.isVerified
    ensures AdminFromUser(AuthApi.GetUser(a).value).Ok?
    ensures AdminUserGuard(a) == Failure(UnauthorizedError)
  {
  }
}
