/**
 * The session of `src/context/AuthContext.js`: a single user id, absent until someone logs
 * in, replaced by every login and cleared by logout.
 */
module Auth {
  import opened Wrappers

  class AuthProvider {
    /** `userID`; None is JavaScript's null. */
    var userID: Option<string>

    /** The session starts with nobody logged in. */
    constructor ()
      ensures userID == None
    {
      userID := None;
    }

    /** `login(id)`: the id replaces whatever id was there. */
    method Login(id: string)
      modifies this
      ensures userID == Some(id)
    {
      userID := Some(id);
    }

    /** `logout()`: the session is cleared whatever it held, so a second logout changes
        nothing and logging in then out returns to the initial state. */
    method Logout()
      modifies this
      ensures userID == None
    {
      userID := None;
    }
  }
}
