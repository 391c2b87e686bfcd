/** Signing in: the guard in front of the auth call and the error-code messages. */
module Login {
  import opened Common
  import SignUp

  const EnterBoth: string := "Please enter both email and password."

  const UserNotFound: string := "No user found with this email. Please sign up."
  const WrongPassword: string := "Incorrect password. Please try again."
  const InvalidEmail: string := "That email address is invalid!"
  const NetworkError: string := "Network error. Please check your connection."
  const UnknownError: string := "An unknown error occurred."

  /** The error codes the screen explains. */
  const KnownCodes: seq<string> :=
    ["auth/user-not-found", "auth/wrong-password", "auth/invalid-email", "auth/network-request-failed"]

  /** The alert text for a failed sign-in. */
  function ErrorMessage(code: string): (m: string)
    ensures m == UnknownError <==> code !in KnownCodes
  {
    if code == "auth/user-not-found" then UserNotFound
    else if code == "auth/wrong-password" then WrongPassword
    else if code == "auth/invalid-email" then InvalidEmail
    else if code == "auth/network-request-failed" then NetworkError
    else UnknownError
  }

  /** Different known codes are explained differently. */
  lemma ErrorMessagesDistinct(c1: string, c2: string)
    requires c1 in KnownCodes && c2 in KnownCodes && c1 != c2
    ensures ErrorMessage(c1) != ErrorMessage(c2)
  {
  }

  /** The two codes both screens explain get the same text on both, and the
      fallback text is the same; the codes only one screen knows fall back to
      the unknown-error text on the other. */
  lemma SharedCodesAgreeWithSignUp(code: string)
    ensures code in KnownCodes && code in SignUp.KnownCodes ==>
              ErrorMessage(code) == SignUp.ErrorMessage(code)
    ensures code !in KnownCodes && code !in SignUp.KnownCodes ==>
              ErrorMessage(code) == SignUp.ErrorMessage(code)
    ensures code in SignUp.KnownCodes && code !in KnownCodes ==> ErrorMessage(code) == UnknownError
    ensures code in KnownCodes && code !in SignUp.KnownCodes ==> SignUp.ErrorMessage(code) == SignUp.UnknownError
  {
  }

  /** What a press of "Login" showed; a successful sign-in shows nothing and
      navigates nowhere itself. */
  datatype Outcome = Refused(message: string) | SignedIn | Failed(message: string)

  datatype LoginResult = LoginResult(outcome: Outcome, loading: bool)

  /** `handleLogin`, with the auth service's answer as a parameter. */
  function HandleLogin(email: string, password: string, loading: bool, attempt: AuthAttempt): (r: LoginResult)
    ensures r.outcome.Refused? <==> email == "" || password == ""
    ensures r.outcome.Refused? ==> r.outcome.message == EnterBoth && r.loading == loading
    ensures !r.outcome.Refused? ==> !r.loading
    ensures r.outcome.SignedIn? <==> !r.outcome.Refused? && attempt.Authenticated?
    ensures r.outcome.Failed? ==> r.outcome.message == ErrorMessage(attempt.code)
  {
    if email == "" || password == "" then LoginResult(Refused(EnterBoth), loading)
    else match attempt
      case Authenticated(_) => LoginResult(SignedIn, false)
      case AuthError(code) => LoginResult(Failed(ErrorMessage(code)), false)
  }
}
