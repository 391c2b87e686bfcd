/** Values shared by every screen: JavaScript's optional and nullable fields,
    the signed-in user, and the outcomes of the backend calls the screens await. */
module Common {

  /** A field declared `f?: T`: either absent (undefined) or present. */
  datatype Option<+T> = None | Some(value: T) {
    function GetOr(default: T): T {
      match this
      case Some(v) => v
      case None => default
    }
  }

  /** A field declared `f?: T | null`: undefined, null, or a value. */
  datatype Nullable<+T> = Undefined | Null | Value(value: T)

  /** JavaScript truthiness of an optional string: present and not empty. */
  predicate Truthy(s: Option<string>) {
    s.Some? && s.value != ""
  }

  /** The signed-in user as the auth service reports it (`email` may be null). */
  datatype AuthUser = AuthUser(uid: string, email: Option<string>)

  /** Outcome of uploading a blob and resolving its download URL. */
  datatype Upload = Uploaded(downloadUrl: string) | UploadFailed

  /** Outcome of a single document write (add, update or set). */
  datatype Write = WriteOk | WriteFailed

  /** Outcome of an email/password call to the auth service: success, with
      or without a user on the credential, or an error carrying its code. */
  datatype AuthAttempt = Authenticated(hasUser: bool) | AuthError(code: string)

  /** A "Continue" press: an error alert and no navigation, or navigation
      to the next screen with its route parameters. */
  datatype Continue<+P> = Alerted(message: string) | Navigated(params: P)
}
