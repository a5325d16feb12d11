/**
 * The login form of `src/pages/Login.js`: email and password are both required, and a
 * complete form is acknowledged with an alert naming the email. The page does not touch the
 * session of `src/context/AuthContext.js`.
 */
module Login {
  import opened Strings

  const FillAllFieldsError: string := "Please fill in all fields"
  const SuccessPrefix: string := "Logged in with Email: "

  /** The error `handleSubmit` leaves: the fill-in message when either field is empty. */
  function SubmitError(email: string, password: string): (error: string)
    ensures error == "" || error == FillAllFieldsError
    ensures error == "" <==> email != "" && password != ""
  {
    if email == "" || password == "" then FillAllFieldsError else ""
  }

  class LoginPage {
    var email: string
    var password: string
    var error: string
    /** The messages shown with `alert`, in order. */
    var alerts: seq<string>

    constructor ()
      ensures email == "" && password == "" && error == "" && alerts == []
    {
      email := "";
      password := "";
      error := "";
      alerts := [];
    }

    method HandleEmailChange(value: string)
      modifies this
      ensures email == value
      ensures password == old(password) && error == old(error) && alerts == old(alerts)
    {
      email := value;
    }

    method HandlePasswordChange(value: string)
      modifies this
      ensures password == value
      ensures email == old(email) && error == old(error) && alerts == old(alerts)
    {
      password := value;
    }

    /** `handleSubmit`: reads only the email and password and changes only the error (and, on
        success, shows an alert). */
    method HandleSubmit()
      modifies this
      ensures error == SubmitError(email, password)
      ensures alerts == old(alerts) + (if error == "" then [Prefixed(SuccessPrefix, email)] else [])
      ensures email == old(email) && password == old(password)
    {
      if email == "" || password == "" {
        error := FillAllFieldsError;
        return;
      }
      error := "";
      alerts := alerts + [Prefixed(SuccessPrefix, email)];
    }
  }
}
