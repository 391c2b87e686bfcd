/** Account creation: the guard chain in front of the auth call, the
    error-code messages, and the terms checkbox. */
module SignUp {
  import opened Common

  const FillAllFields: string := "Please fill in all fields."
  const PasswordsDiffer: string := "Passwords do not match."
  const MustAgreeToTerms: string := "You must agree to the Terms of Service and Privacy Policy."

  const EmailInUse: string := "That email address is already in use!"
  const InvalidEmail: string := "That email address is invalid!"
  const WeakPassword: string := "Password is too weak. Please choose a stronger password."
  const NetworkError: string := "Network error. Please check your connection."
  const UnknownError: string := "An unknown error occurred."

  /** The error codes the screen explains. */
  const KnownCodes: seq<string> :=
    ["auth/email-already-in-use", "auth/invalid-email", "auth/weak-password", "auth/network-request-failed"]

  /** The first guard that fails, in the order the screen checks them, or
      None when the auth call may be made. */
  function Guard(email: string, password: string, confirmPassword: string, agreedToTerms: bool): (r: Option<string>)
    ensures r == Some(FillAllFields) <==> email == "" || password == "" || confirmPassword == ""
    ensures r == Some(PasswordsDiffer) <==>
              email != "" && password != "" && confirmPassword != "" && password != confirmPassword
    ensures r == Some(MustAgreeToTerms) <==>
              email != "" && password != "" && password == confirmPassword && !agreedToTerms
    ensures r.None? <==> email != "" && password != "" && password == confirmPassword && agreedToTerms
  {
    if email == "" || password == "" || confirmPassword == "" then Some(FillAllFields)
    else if password != confirmPassword then Some(PasswordsDiffer)
    else if !agreedToTerms then Some(MustAgreeToTerms)
    else None
  }

  /** The alert text for a failed account creation. */
  function ErrorMessage(code: string): (m: string)
    ensures m == UnknownError <==> code !in KnownCodes
  {
    if code == "auth/email-already-in-use" then EmailInUse
    else if code == "auth/invalid-email" then InvalidEmail
    else if code == "auth/weak-password" then WeakPassword
    else if code == "auth/network-request-failed" then NetworkError
    else UnknownError
  }

  /** Different known codes are explained differently. */
  lemma ErrorMessagesDistinct(c1: string, c2: string)
    requires c1 in KnownCodes && c2 in KnownCodes && c1 != c2
    ensures ErrorMessage(c1) != ErrorMessage(c2)
  {
  }

  /** Pressing the checkbox. */
  function ToggleTerms(agreedToTerms: bool): (r: bool)
    ensures r != agreedToTerms
  {
    !agreedToTerms
  }

  /** What a press of "Sign Up" showed and where it went. */
  datatype Outcome =
    | Refused(message: string)
    | Created(toUserInfo: bool)
    | Failed(message: string)

  /** The screen after the press: the outcome and the loading flag. */
  datatype SignUpResult = SignUpResult(outcome: Outcome, loading: bool)

  /** `handleSignUp`, with the auth service's answer as a parameter: a
      refused press leaves the loading flag alone and makes no call; after a
      call, successful or not, the flag is off again. A credential without a
      user leads nowhere. */
  function HandleSignUp(email: string, password: string, confirmPassword: string, agreedToTerms: bool,
                        loading: bool, attempt: AuthAttempt): (r: SignUpResult)
    ensures r.outcome.Refused? <==> Guard(email, password, confirmPassword, agreedToTerms).Some?
    ensures r.outcome.Refused? ==>
              r.outcome.message == Guard(email, password, confirmPassword, agreedToTerms).value && r.loading == loading
    ensures !r.outcome.Refused? ==> !r.loading
    ensures r.outcome.Created? <==> !r.outcome.Refused? && attempt.Authenticated?
    ensures r.outcome.Created? ==> r.outcome.toUserInfo == attempt.hasUser
    ensures r.outcome.Failed? ==> r.outcome.message == ErrorMessage(attempt.code)
  {
    match Guard(email, password, confirmPassword, agreedToTerms)
    case Some(message) => SignUpResult(Refused(message), loading)
    case None =>
      match attempt
      case Authenticated(hasUser) => SignUpResult(Created(hasUser), false)
      case AuthError(code) => SignUpResult(Failed(ErrorMessage(code)), false)
  }
}
