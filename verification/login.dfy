/**
 * The login route (app/api/auth/login/route.ts): the posted `code` is compared, ignoring
 * case, with the SECRET_CODE setting; on a match the session is marked authenticated.
 * The session cookie itself (sealing, saving) is not part of this model.
 */
module Login {
  import opened Wrappers
  import opened Strings
  import opened GameTypes

  /** The `code` field of the posted JSON object. */
  datatype CodeField = Missing | NotText | Text(s: string)

  /** The JSON answer: a status and, when the login fails, a message. */
  datatype Reply = Reply(status: nat, message: string)

  const ErrorMessage := "An error occurred"
  const ConfigMessage := "Server configuration error"
  const IncorrectMessage := "Incorrect code. Try again!"

  /**
   * The checks of POST in order. `body` is None when the body is not valid JSON, or is null;
   * any other JSON value without a `code` field is `Some(Missing)`. `secret` is SECRET_CODE.
   * A missing or non-string code makes `code.toLowerCase()` throw, which the catch block turns
   * into a 500.
   */
  function Decide(body: Option<CodeField>, secret: Option<string>): (r: Reply)
    ensures r.status == 200 <==> body.Some? && body.value.Text? && Truthy(secret)
                                  && EqualIgnoringCase(body.value.s, secret.value)
    ensures r.status == 200 ==> r.message == ""
    ensures body.None? ==> r == Reply(500, ErrorMessage)
    ensures body.Some? && !Truthy(secret) ==> r == Reply(500, ConfigMessage)
    ensures body.Some? && Truthy(secret) && !body.value.Text? ==> r == Reply(500, ErrorMessage)
    ensures body.Some? && body.value.Text? && Truthy(secret) && !EqualIgnoringCase(body.value.s, secret.value)
            ==> r == Reply(401, IncorrectMessage)
  {
    match body
    case None => Reply(500, ErrorMessage)
    case Some(field) =>
      if !Truthy(secret) then Reply(500, ConfigMessage)
      else
        match field
        case Text(code) =>
          if ToLower(code) != ToLower(secret.value) then Reply(401, IncorrectMessage)
          else Reply(200, "")
        case _ => Reply(500, ErrorMessage)
  }

  /** A code accepted once is accepted in any mix of upper and lower case. */
  lemma AcceptsAnyCase(code: string, other: string, secret: Option<string>)
    requires Decide(Some(Text(code)), secret).status == 200
    requires EqualIgnoringCase(code, other)
    ensures Decide(Some(Text(other)), secret).status == 200
  {
  }

  /**
   * The sign-in page posts `{ password }`, so `code` is missing: with SECRET_CODE set the
   * answer is always the catch block's 500, whatever the password.
   */
  lemma PasswordOnlyBodyFails(secret: Option<string>)
    requires Truthy(secret)
    ensures Decide(Some(Missing), secret) == Reply(500, ErrorMessage)
  {
  }

  /** The iron-session data of one browser. */
  class Session {
    var isAuthenticated: Option<bool>
    var authenticatedAt: Option<int>

    constructor ()
      ensures isAuthenticated.None? && authenticatedAt.None?
    {
      isAuthenticated := None;
      authenticatedAt := None;
    }

    /** POST: on success the session records the login time `now`; otherwise it is untouched. */
    method Post(body: Option<CodeField>, secret: Option<string>, now: int) returns (r: Reply)
      modifies this
      ensures r == Decide(body, secret)
      ensures r.status == 200 ==> isAuthenticated == Some(true) && authenticatedAt == Some(now)
      ensures r.status != 200 ==> isAuthenticated == old(isAuthenticated) && authenticatedAt == old(authenticatedAt)
    {
      r := Decide(body, secret);
      if r.status == 200 {
        isAuthenticated := Some(true);
        authenticatedAt := Some(now);
      }
    }
  }
}
