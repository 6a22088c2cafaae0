/**
  The crate's error taxonomy (src/error.rs): one variant per kind of failure,
  the text each variant displays, and the message sent back to the client.
  Errors wrapped from other crates carry their own rendering.
*/
module Errors {

  /** A validator `ValidationError`, identified by its code. */
  datatype ValidationError = ValidationError(code: string)

  /** The errors reported for one form field, in the order its validators ran. */
  datatype FieldErrors = FieldErrors(field: string, errors: seq<ValidationError>)

  /** A validator `ValidationErrors`: one entry per failing field, in the
      iteration order of the crate's hash map, which the source leaves unspecified. */
  datatype ValidationErrors = ValidationErrors(fields: seq<FieldErrors>)

  /** The failures of the document-store driver that the model distinguishes. */
  datatype DriverError =
    | DuplicateKey(index: string)   // a write broke a unique index
    | ServerUnavailable             // the server could not be reached

  datatype Error =
    | InvalidEmailAddressError
    | UserNotFoundError
    | UnmanagedStateError
    | UnauthenticatedError
    | EmailDoesNotExist(email: string)
    | EmailAlreadyExists
    | UnauthorizedError
    | VerificationTokenMismatch
    | UnverifiedError
    | SmtpRequestError
    | FormValidationError(validation: ValidationError)
    | FormValidationErrors(validations: ValidationErrors)
    | Argon2ParsingError(argonText: string)
    | SerdeError(serdeText: string)
    | MongoDBError(cause: DriverError)

  /** Rendering of a driver error; the driver's exact wording is not modelled. */
  function DriverText(d: DriverError): string
  {
    match d
    case DuplicateKey(index) => "E11000 duplicate key error index: " + index
    case ServerUnavailable => "Server selection timeout: no available servers"
  }

  /** The codes of every error of every field, concatenated field by field. */
  function Codes(v: ValidationErrors): string
  {
    FieldsCodes(v.fields)
  }

  function FieldsCodes(fields: seq<FieldErrors>): string
  {
    if |fields| == 0 then "" else ErrorCodes(fields[0].errors) + FieldsCodes(fields[1..])
  }

  function ErrorCodes(errors: seq<ValidationError>): string
  {
    if |errors| == 0 then "" else errors[0].code + ErrorCodes(errors[1..])
  }

  /** `s` ends with `suffix`. */
  predicate EndsWith(s: string, suffix: string)
  {
    |suffix| <= |s| && s[|s| - |suffix|..] == suffix
  }

  /** A wrapped error's text ends with the wrapped value's own rendering; a
      single validation error displays as its code alone. */
  predicate CarriesPayload(e: Error, t: string)
  {
    match e
    case FormValidationError(v) => t == v.code
    case FormValidationErrors(vs) => EndsWith(t, Codes(vs))
    case Argon2ParsingError(a) => EndsWith(t, a)
    case SerdeError(x) => EndsWith(t, x)
    case _ => true
  }

  /** A wrapped error's text: a fixed tag, then the wrapped rendering. */
  function Prefixed(tag: string, wrapped: string): (t: string)
    requires |tag| > 0
    ensures |t| > 0 && EndsWith(t, wrapped)
  {
    var t := tag + wrapped;
    assert t[|tag|..] == wrapped;
    t
  }

  /** The `Display` text of each variant, as its `#[error]` attribute writes it.
      A wrapped error's own rendering closes the text. */
  function DisplayText(e: Error): (t: string)
    ensures CarriesPayload(e, t)
  {
    match e
    case InvalidEmailAddressError => "That is not a valid email address."
    case UserNotFoundError => "Could not find any user that fits the specified requirements."
    case UnmanagedStateError =>
      "UnmanagedStateError: failed retrieving `Users`. You may be missing `.manage(users)` in your app."
    case UnauthenticatedError =>
      "UnauthenticatedError: The operation failed because the client is not authenticated."
    case EmailDoesNotExist(email) => "The email \"" + email + "\" is not registered. Try signing up first."
    case EmailAlreadyExists => "That email address already exists. Try logging in."
    case UnauthorizedError => "Incorrect email or password"
    case VerificationTokenMismatch => "Invalid account verification token"
    case UnverifiedError => "Unverified email address"
    case SmtpRequestError => "SMTP Transport Error"
    case FormValidationError(v) => v.code
    case FormValidationErrors(vs) => Prefixed("FormValidationErrors: ", Codes(vs))
    case Argon2ParsingError(t) => Prefixed("Argon2ParsingError: ", t)
    case SerdeError(t) => Prefixed("SerdeError: ", t)
    case MongoDBError(_) => "MongoDBError"
  }

  /** The display text of a driver error does not reveal its cause. */
  lemma DisplayHidesDriverCause(d1: DriverError, d2: DriverError)
    ensures DisplayText(MongoDBError(d1)) == DisplayText(MongoDBError(d2))
  {
  }

  /** Variants whose message is their display text in every build. */
  predicate AlwaysDisplayed(e: Error)
  {
    || e.InvalidEmailAddressError? || e.VerificationTokenMismatch? || e.EmailAlreadyExists?
    || e.UnauthorizedError? || e.SmtpRequestError? || e.UserNotFoundError?
  }

  /** The message put in the JSON error body; `debugBuild` stands for `cfg(debug_assertions)`. */
  function Message(e: Error, debugBuild: bool): (m: string)
    ensures e.MongoDBError? ==> m == DriverText(e.cause)
    ensures AlwaysDisplayed(e) ==> m == DisplayText(e)
    ensures e.FormValidationErrors? ==> m == Codes(e.validations)
    ensures !e.MongoDBError? && !AlwaysDisplayed(e) && !e.FormValidationErrors? ==>
              m == (if debugBuild then DisplayText(e) else "undefined")
  {
    match e
    case MongoDBError(d) => DriverText(d)
    case FormValidationErrors(vs) => Codes(vs)
    case _ =>
      if AlwaysDisplayed(e) then DisplayText(e)
      else if debugBuild then DisplayText(e)
      else "undefined"
  }

  /** Outside debug builds, a login probe for an unknown email gets no echo of the email. */
  lemma ReleaseHidesUnknownEmail(email: string)
    ensures Message(EmailDoesNotExist(email), false) == "undefined"
    ensures Message(UnauthenticatedError, false) == "undefined"
    ensures Message(UnverifiedError, false) == "undefined"
  {
  }

  /** The display text of `EmailDoesNotExist` quotes the email it carries. */
  lemma DisplayQuotesEmail(email: string)
    ensures var t := DisplayText(EmailDoesNotExist(email));
            |t| >= 11 + |email| && t[11..11 + |email|] == email
  {
  }

  /** In a debug build every variant's message is its display text, except the two
      wrapped errors whose message is built from the wrapped value. */
  lemma DebugMessageIsDisplay(e: Error)
    requires !e.MongoDBError? && !e.FormValidationErrors?
    ensures Message(e, true) == DisplayText(e)
  {
  }

  /** Every code of every field shows up, contiguously, in the form-errors message. */
  lemma {:induction false} CodeInMessage(v: ValidationErrors, i: nat, j: nat)
    requires i < |v.fields| && j < |v.fields[i].errors|
    ensures exists k :: OccursAt(v.fields[i].errors[j].code, Message(FormValidationErrors(v), false), k)
  {
    var k := CodeInFields(v.fields, i, j);
    assert OccursAt(v.fields[i].errors[j].code, Message(FormValidationErrors(v), false), k);
  }

  /** `sub` is the slice of `s` that starts at `k`. */
  predicate OccursAt(sub: string, s: string, k: int)
  {
    0 <= k && k + |sub| <= |s| && s[k..k + |sub|] == sub
  }

  lemma {:induction false} CodeInFields(fields: seq<FieldErrors>, i: nat, j: nat) returns (k: nat)
    requires i < |fields| && j < |fields[i].errors|
    ensures k + |fields[i].errors[j].code| <= |FieldsCodes(fields)|
    ensures FieldsCodes(fields)[k..k + |fields[i].errors[j].code|] == fields[i].errors[j].code
    decreases |fields|
  {
    var head := ErrorCodes(fields[0].errors);
    if i == 0 {
      k := CodeInErrors(fields[0].errors, j);
      assert FieldsCodes(fields) == head + FieldsCodes(fields[1..]);
    } else {
      var k' := CodeInFields(fields[1..], i - 1, j);
      k := |head| + k';
      assert FieldsCodes(fields) == head + FieldsCodes(fields[1..]);
    }
  }

  lemma {:induction false} CodeInErrors(errors: seq<ValidationError>, j: nat) returns (k: nat)
    requires j < |errors|
    ensures k + |errors[j].code| <= |ErrorCodes(errors)|
    ensures ErrorCodes(errors)[k..k + |errors[j].code|] == errors[j].code
    decreases |errors|
  {
    if j == 0 {
      k := 0;
      assert ErrorCodes(errors) == errors[0].code + ErrorCodes(errors[1..]);
    } else {
      var k' := CodeInErrors(errors[1..], j - 1);
      k := |errors[0].code| + k';
      assert ErrorCodes(errors) == errors[0].code + ErrorCodes(errors[1..]);
    }
  }
}
