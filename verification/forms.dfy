/**
  The login and signup forms and the password policy (src/forms/mod.rs).
  A policy check answers `Ok(())` or the `ValidationError` of the rule that failed.
*/
module Forms {
  import opened Results
  import opened Errors
  import opened Externals

  datatype Login = Login(email: string, password: string)

  datatype Signup = Signup(email: string, password: string)

  type Check = Result<(), ValidationError>

  const MinPasswordBytes: nat := 8

  // The failure codes, verbatim: the lowercase rule's text names the wrong case.
  const TooShort := "The password must be at least 8 characters long.\n"
  const NoUppercase := "The password must include at least one uppercase character.\n"
  const NoLowercase := "The password must include least one uppercase caracter.\n"
  const NoDigit := "The password has to contain at least one digit.\n"

  /** The code the `email` validator reports for a malformed address. */
  const EmailCode := "email"

  /** `Login::from(Signup)`, also the conversion from any reference to a `Signup`. */
  function LoginFromSignup(form: Signup): (r: Login)
    ensures r.email == form.email && r.password == form.password
  {
    Login(form.email, form.password)
  }

  /** `Signup::from(Login)`. */
  function SignupFromLogin(form: Login): (r: Signup)
    ensures LoginFromSignup(r) == form
  {
    Signup(form.email, form.password)
  }

  /** Converting a signup form to a login and back gives the same form. */
  lemma SignupRoundTrip(form: Signup)
    ensures SignupFromLogin(LoginFromSignup(form)) == form
  {
  }

  /** Bytes the UTF-8 encoding of `c` takes. */
  function Utf8Width(c: char): (n: nat)
    ensures 1 <= n <= 4
    ensures n == 1 <==> (c as int) < 0x80
  {
    if (c as int) < 0x80 then 1
    else if (c as int) < 0x800 then 2
    else if (c as int) < 0x1_0000 then 3
    else 4
  }

  /** `str::len`: the length of the UTF-8 encoding, in bytes. */
  function Utf8Len(s: string): (n: nat)
    ensures |s| <= n <= 4 * |s|
    ensures n == |s| <==> forall i :: 0 <= i < |s| ==> (s[i] as int) < 0x80
  {
    if |s| == 0 then 0 else Utf8Width(s[0]) + Utf8Len(s[1..])
  }

  /** Whether some char of `s` is in class `cls` (the loop of the three `has_*` rules). */
  function AnyChar(s: string, cls: char -> bool): (r: bool)
    ensures r <==> exists i :: 0 <= i < |s| && cls(s[i])
  {
    if |s| == 0 then false
    else if cls(s[0]) then true
    else
      var rest := AnyChar(s[1..], cls);
      assert forall i :: 1 <= i < |s| ==> s[i] == s[1..][i - 1];
      rest
  }

  function IsLong(password: string): (r: Check)
    ensures r.Ok? <==> Utf8Len(password) >= MinPasswordBytes
    ensures r.Err? ==> r.error.code == TooShort
  {
    if Utf8Len(password) < 8 then Err(ValidationError(TooShort)) else Ok(())
  }

  function HasUppercase(env: Env, password: string): (r: Check)
    ensures r.Ok? <==> exists i :: 0 <= i < |password| && env.isUppercase(password[i])
    ensures r.Err? ==> r.error.code == NoUppercase
  {
    if AnyChar(password, env.isUppercase) then Ok(()) else Err(ValidationError(NoUppercase))
  }

  function HasLowercase(env: Env, password: string): (r: Check)
    ensures r.Ok? <==> exists i :: 0 <= i < |password| && env.isLowercase(password[i])
    ensures r.Err? ==> r.error.code == NoLowercase
  {
    if AnyChar(password, env.isLowercase) then Ok(()) else Err(ValidationError(NoLowercase))
  }

  function HasNumber(env: Env, password: string): (r: Check)
    ensures r.Ok? <==> exists i :: 0 <= i < |password| && env.isNumeric(password[i])
    ensures r.Err? ==> r.error.code == NoDigit
  {
    if AnyChar(password, env.isNumeric) then Ok(()) else Err(ValidationError(NoDigit))
  }

  /** The password policy, stated over the password alone. */
  ghost predicate SecurePassword(env: Env, p: string)
  {
    && Utf8Len(p) >= MinPasswordBytes
    && (exists i :: 0 <= i < |p| && env.isUppercase(p[i]))
    && (exists i :: 0 <= i < |p| && env.isLowercase(p[i]))
    && (exists i :: 0 <= i < |p| && env.isNumeric(p[i]))
  }

  /** `is_secure`: the rules run in the order length, uppercase, lowercase,
      digit, and the first one that fails is the one reported. */
  function IsSecure(env: Env, password: string): (r: Check)
    ensures r.Ok? <==> SecurePassword(env, password)
    ensures IsLong(password).Err? ==> r == IsLong(password)
    ensures IsLong(password).Ok? && HasUppercase(env, password).Err? ==> r == HasUppercase(env, password)
    ensures IsLong(password).Ok? && HasUppercase(env, password).Ok? && HasLowercase(env, password).Err? ==>
              r == HasLowercase(env, password)
    ensures IsLong(password).Ok? && HasUppercase(env, password).Ok? && HasLowercase(env, password).Ok? ==>
              r == HasNumber(env, password)
  {
    if IsLong(password).Err? then IsLong(password)
    else if HasUppercase(env, password).Err? then HasUppercase(env, password)
    else if HasLowercase(env, password).Err? then HasLowercase(env, password)
    else HasNumber(env, password)
  }

  /** The errors of one field, keeping the failing checks in the order they ran. */
  function Failures(checks: seq<Check>): (r: seq<ValidationError>)
    ensures |r| <= |checks|
    ensures |r| == 0 <==> forall i :: 0 <= i < |checks| ==> checks[i].Ok?
    ensures forall e :: e in r <==> Err(e) in checks
  {
    if |checks| == 0 then []
    else
      var rest := Failures(checks[1..]);
      assert forall i :: 1 <= i < |checks| ==> checks[i] == checks[1..][i - 1];
      if checks[0].Err? then [checks[0].error] + rest else rest
  }

  /** The password field's checks, in the order the `Signup` attribute lists them. */
  function PasswordChecks(env: Env, password: string): seq<Check>
  {
    [IsLong(password), HasNumber(env, password), HasLowercase(env, password), HasUppercase(env, password)]
  }

  const EmailField := "email"
  const PasswordField := "password"

  /** The entry a field contributes to `ValidationErrors`: none when it has no error. */
  function FieldEntry(field: string, errors: seq<ValidationError>): (r: seq<FieldErrors>)
    ensures |r| == 0 <==> |errors| == 0
  {
    if |errors| == 0 then [] else [FieldErrors(field, errors)]
  }

  /** The error a single check contributes: its error when it fails, nothing otherwise. */
  function Reported(c: Check): seq<ValidationError>
  {
    if c.Err? then [c.error] else []
  }

  /** `Signup::validate()`: every rule of every field runs, none short-circuits.
      The email entry precedes the password entry; the source's order is unspecified. */
  function ValidateSignup(env: Env, form: Signup): (r: Result<(), ValidationErrors>)
    ensures r.Ok? <==> env.validEmail(form.email) && SecurePassword(env, form.password)
    ensures r.Err? ==> forall f :: f in r.error.fields ==> |f.errors| > 0 && f.field in {EmailField, PasswordField}
    ensures r.Err? ==> |r.error.fields| <= 2
    ensures !env.validEmail(form.email) ==>
              r.Err? && FieldErrors(EmailField, [ValidationError(EmailCode)]) in r.error.fields
    ensures env.validEmail(form.email) && r.Err? ==> forall f :: f in r.error.fields ==> f.field == PasswordField
    ensures !SecurePassword(env, form.password) ==>
              var p := form.password;
              r.Err? && FieldErrors(PasswordField, Reported(IsLong(p)) + Reported(HasNumber(env, p))
                                                  + Reported(HasLowercase(env, p)) + Reported(HasUppercase(env, p)))
                        in r.error.fields
    ensures SecurePassword(env, form.password) && r.Err? ==> forall f :: f in r.error.fields ==> f.field == EmailField
  {
    var emailErrors := if env.validEmail(form.email) then [] else [ValidationError(EmailCode)];
    var passwordErrors := Failures(PasswordChecks(env, form.password));
    var fields := FieldEntry(EmailField, emailErrors) + FieldEntry(PasswordField, passwordErrors);
    assert passwordErrors == [] <==> SecurePassword(env, form.password) by {
      assert forall i :: 0 <= i < 4 ==> PasswordChecks(env, form.password)[i] in PasswordChecks(env, form.password);
    }
    FailuresOfFour(PasswordChecks(env, form.password));
    if |fields| == 0 then Ok(()) else Err(ValidationErrors(fields))
  }

  /** Over four checks, the failures are the failing checks' errors, in order. */
  lemma {:induction false} FailuresOfFour(checks: seq<Check>)
    requires |checks| == 4
    ensures Failures(checks) == Reported(checks[0]) + Reported(checks[1]) + Reported(checks[2]) + Reported(checks[3])
  {
    var rest := checks[1..];
    FailuresOfThree(rest);
    FailuresStep(checks);
    assert rest[0] == checks[1] && rest[1] == checks[2] && rest[2] == checks[3];
  }

  lemma {:induction false} FailuresOfThree(checks: seq<Check>)
    requires |checks| == 3
    ensures Failures(checks) == Reported(checks[0]) + Reported(checks[1]) + Reported(checks[2])
  {
    var rest := checks[1..];
    FailuresOfTwo(rest);
    FailuresStep(checks);
    assert rest[0] == checks[1] && rest[1] == checks[2];
  }

  lemma {:induction false} FailuresOfTwo(checks: seq<Check>)
    requires |checks| == 2
    ensures Failures(checks) == Reported(checks[0]) + Reported(checks[1])
  {
    var rest := checks[1..];
    FailuresStep(rest);
    FailuresStep(checks);
    assert rest[1..] == [];
    assert rest[0] == checks[1];
  }

  /** Failures of a non-empty list: the head's error, then the rest's. */
  lemma FailuresStep(checks: seq<Check>)
    requires |checks| > 0
    ensures Failures(checks) == Reported(checks[0]) + Failures(checks[1..])
  {
  }

  /** The signup form passes validation exactly when its email is valid and
      `is_secure` accepts its password: the two policy entry points agree. */
  lemma ValidationAgreesWithIsSecure(env: Env, form: Signup)
    ensures ValidateSignup(env, form).Ok? <==> env.validEmail(form.email) && IsSecure(env, form.password).Ok?
  {
  }

  /** A rule reported by the signup validation is one `is_secure` could report. */
  lemma ValidationReportsPolicyCodes(env: Env, form: Signup, e: ValidationError)
    requires ValidateSignup(env, form).Err?
    requires exists f :: f in ValidateSignup(env, form).error.fields && e in f.errors
    ensures e.code in {EmailCode, TooShort, NoUppercase, NoLowercase, NoDigit}
  {
  }

  /** `len()` counts bytes: four two-byte chars make a long enough password. */
  lemma LengthCountsBytes()
    ensures IsLong("éééé").Ok?
    ensures IsLong("abcdefg").Err?
  {
    assert Utf8Len("éééé") == 8;
  }

  /** "short1" fails twice under validation (length, and no uppercase letter)
      but `is_secure` reports the length rule alone. */
  lemma ShortPasswordReports(env: Env)
    requires AsciiClasses(env) && env.validEmail("a@x.com")
    ensures ValidateSignup(env, Signup("a@x.com", "short1"))
            == Err(ValidationErrors([FieldErrors(PasswordField, [ValidationError(TooShort), ValidationError(NoUppercase)])]))
    ensures IsSecure(env, "short1") == Err(ValidationError(TooShort))
  {
    var checks := ShortPasswordChecks(env);
    ShortFailures();
    var errors := [ValidationError(TooShort), ValidationError(NoUppercase)];
    assert Failures(PasswordChecks(env, "short1")) == errors;
    assert FieldEntry(EmailField, []) + FieldEntry(PasswordField, errors) == [FieldErrors(PasswordField, errors)];
  }

  lemma ShortFailures()
    ensures Failures([Err(ValidationError(TooShort)), Ok(()), Ok(()), Err(ValidationError(NoUppercase))])
            == [ValidationError(TooShort), ValidationError(NoUppercase)]
  {
    var checks: seq<Check> := [Err(ValidationError(TooShort)), Ok(()), Ok(()), Err(ValidationError(NoUppercase))];
    assert checks[1..][1..][1..][1..] == [];
    assert checks[1..][1..][1..] == [Err(ValidationError(NoUppercase))];
    assert Failures(checks[1..][1..][1..]) == [ValidationError(NoUppercase)];
    assert Failures(checks[1..][1..]) == [ValidationError(NoUppercase)];
    assert Failures(checks[1..]) == [ValidationError(NoUppercase)];
  }

  lemma ShortPasswordChecks(env: Env) returns (checks: seq<Check>)
    requires AsciiClasses(env)
    ensures checks == PasswordChecks(env, "short1")
    ensures checks == [Err(ValidationError(TooShort)), Ok(()), Ok(()), Err(ValidationError(NoUppercase))]
    ensures IsSecure(env, "short1") == Err(ValidationError(TooShort))
  {
    var p := "short1";
    assert HasNumber(env, p).Ok? by { assert env.isNumeric(p[5]); }
    assert HasLowercase(env, p).Ok? by { assert env.isLowercase(p[0]); }
    assert HasUppercase(env, p).Err? by {
      forall i | 0 <= i < |p| ensures !env.isUppercase(p[i]) {
        assert (p[i] as int) < 128;
      }
    }
    assert IsLong(p) == Err(ValidationError(TooShort)) by { assert Utf8Len(p) == 6; }
    checks := PasswordChecks(env, p);
  }
}
