/**
  What the engine takes from outside: identifiers, the password hasher, the
  email syntax check and the Unicode character classes. Each is a parameter,
  so every property proved below holds for any behaviour they have.
*/
module Externals {
  import opened Results

  /** A document-store `ObjectId`. */
  type ObjectId = nat

  /** Rust's `u64`, the seconds of a `Duration`. */
  newtype u64 = x: int | 0 <= x < 0x1_0000_0000_0000_0000

  datatype Env = Env(
    // argon2::hash_encoded(password, salt) with the default configuration
    hash: (string, string) -> string,
    // argon2::verify_encoded(encoded, password): a verdict, or the text of a parsing failure
    verify: (string, string) -> Result<bool, string>,
    // validator::validate_email
    validEmail: string -> bool,
    // char::is_uppercase, char::is_lowercase, char::is_numeric
    isUppercase: char -> bool,
    isLowercase: char -> bool,
    isNumeric: char -> bool
  )

  /** A hasher whose digests verify against the password they were made from. */
  ghost predicate HashVerifies(env: Env)
  {
    forall p: string, salt: string ::
      env.verify(env.hash(p, salt), p) == Ok(true)
  }

  /** A hasher whose digests reject every other password. */
  ghost predicate HashRejectsOthers(env: Env)
  {
    forall p: string, q: string, salt: string ::
      p != q ==> env.verify(env.hash(p, salt), q) == Ok(false)
  }

  /** Character classes that agree with the ASCII letters and digits on ASCII input. */
  ghost predicate AsciiClasses(env: Env)
  {
    forall c: char ::
      (c as int) < 128 ==>
        && (env.isUppercase(c) <==> 'A' <= c <= 'Z')
        && (env.isLowercase(c) <==> 'a' <= c <= 'z')
        && (env.isNumeric(c) <==> '0' <= c <= '9')
  }
}
