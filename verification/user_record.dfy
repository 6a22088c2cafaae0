/**
  The user record (src/lib.rs) and its guarded mutators (src/user/user.rs).
  Each mutator returns the updated record, or the error with the record untouched.
*/
module UserRecord {
  import opened Results
  import opened Errors
  import opened Externals
  import Forms
  import Keys

  datatype User = User(
    id: Option<ObjectId>,          // absent until the collection assigns one
    email: string,
    isAdmin: bool,
    isVerified: bool,
    verificationToken: string,
    password: string,              // an encoded argon2 digest
    prevPassword: Option<string>,
    prevPassword1: Option<string>,
    prevPassword2: Option<string>
  )

  /** `set_password`: the policy first; on success the digest of the new password,
      salted with ten random ASCII chars, replaces the stored one. */
  function SetPassword(env: Env, user: User, newPassword: string, saltDraws: seq<char>): (r: Result<User, Error>)
    requires Keys.Enough(Keys.ResetSaltLength, saltDraws)
    ensures r.Ok? <==> Forms.SecurePassword(env, newPassword)
    ensures r.Err? ==> r.error == FormValidationError(Forms.IsSecure(env, newPassword).error)
    ensures r.Ok? ==> r.value.password == env.hash(newPassword, Keys.RandString(Keys.ResetSaltLength, saltDraws))
    ensures r.Ok? ==> r.value.(password := user.password) == user
  {
    match Forms.IsSecure(env, newPassword)
    case Err(e) => Err(FormValidationError(e))
    case Ok(_) =>
      var salt := Keys.RandString(Keys.ResetSaltLength, saltDraws);
      Ok(user.(password := env.hash(newPassword, salt)))
  }

  /** `set_verified`: the token must match the stored one exactly. */
  function SetVerified(user: User, token: string): (r: Result<User, Error>)
    ensures r.Ok? <==> token == user.verificationToken
    ensures r.Err? ==> r.error == VerificationTokenMismatch
    ensures r.Ok? ==> r.value.isVerified && r.value.(isVerified := user.isVerified) == user
  {
    if user.verificationToken == token then Ok(user.(isVerified := true))
    else Err(VerificationTokenMismatch)
  }

  /** `set_email`: the address must pass the email check. */
  function SetEmail(env: Env, user: User, email: string): (r: Result<User, Error>)
    ensures r.Ok? <==> env.validEmail(email)
    ensures r.Err? ==> r.error == InvalidEmailAddressError
    ensures r.Ok? ==> r.value.email == email && r.value.(email := user.email) == user
  {
    if env.validEmail(email) then Ok(user.(email := email)) else Err(InvalidEmailAddressError)
  }

  /** Verifying with the right token twice is the same as verifying once. */
  lemma SetVerifiedIdempotent(user: User, token: string)
    requires SetVerified(user, token).Ok?
    ensures SetVerified(SetVerified(user, token).value, token) == SetVerified(user, token)
  {
  }

  /** No mutator reads or writes the password history. */
  lemma HistoryUntouched(env: Env, user: User, s: string, saltDraws: seq<char>)
    requires Keys.Enough(Keys.ResetSaltLength, saltDraws)
    ensures SetPassword(env, user, s, saltDraws).Ok? ==> SamePasswordHistory(SetPassword(env, user, s, saltDraws).value, user)
    ensures SetVerified(user, s).Ok? ==> SamePasswordHistory(SetVerified(user, s).value, user)
    ensures SetEmail(env, user, s).Ok? ==> SamePasswordHistory(SetEmail(env, user, s).value, user)
  {
  }

  predicate SamePasswordHistory(a: User, b: User)
  {
    a.prevPassword == b.prevPassword && a.prevPassword1 == b.prevPassword1 && a.prevPassword2 == b.prevPassword2
  }
}
