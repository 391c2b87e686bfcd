/** The second onboarding screen: a username and an optional profile
    picture, forwarded together with the first screen's values. */
module Username {
  import opened Common
  import UserInfo

  const EnterUsername: string := "Please enter a username."

  /** Route parameters of the interests screen; the picture is the
      download URL of the uploaded photo, or null. */
  datatype InterestsParams = InterestsParams(
    firstName: string,
    lastName: string,
    birthdate: string,
    username: string,
    profilePictureUri: Option<string>)

  /** The picture held before any photo was chosen. */
  const InitialPicture: Option<string> := None

  /** One press of the photo button, as the picker, the auth service and the
      storage service answered it. `picked` is the image path, or None when
      the picker was cancelled or failed (both end in the catch block). */
  datatype PhotoAttempt = PhotoAttempt(picked: Option<string>, user: Option<AuthUser>, upload: Upload)

  /** The attempt reached `setProfilePictureUri(downloadURL)`. */
  predicate Uploads(a: PhotoAttempt) {
    Truthy(a.picked) && a.user.Some? && a.upload.Uploaded?
  }

  /** `handleChoosePhoto`'s effect on the held picture. */
  function ChoosePhoto(current: Option<string>, a: PhotoAttempt): (r: Option<string>)
    ensures Uploads(a) ==> r == Some(a.upload.downloadUrl)
    ensures !Uploads(a) ==> r == current
  {
    if !Truthy(a.picked) then current
    else if a.user.None? then current
    else match a.upload
      case UploadFailed => current
      case Uploaded(url) => Some(url)
  }

  /** The held picture after a series of presses, starting from none: any
      picture held is the download URL of one of the uploads. */
  function PictureAfter(attempts: seq<PhotoAttempt>): (r: Option<string>)
    ensures r.Some? ==>
              exists i :: 0 <= i < |attempts| && Uploads(attempts[i]) && r.value == attempts[i].upload.downloadUrl
    decreases |attempts|
  {
    if attempts == [] then InitialPicture
    else
      var n := |attempts| - 1;
      var before := PictureAfter(attempts[..n]);
      assert before.Some? ==>
               exists i :: 0 <= i < |attempts| && Uploads(attempts[i]) && before.value == attempts[i].upload.downloadUrl by {
        if before.Some? {
          var i :| 0 <= i < n && Uploads(attempts[..n][i]) && before.value == attempts[..n][i].upload.downloadUrl;
          assert attempts[..n][i] == attempts[i];
        }
      }
      ChoosePhoto(before, attempts[n])
  }

  /** Attempt i uploaded and no later attempt did. */
  predicate LastUpload(attempts: seq<PhotoAttempt>, i: int) {
    0 <= i < |attempts| && Uploads(attempts[i]) &&
    forall j :: i < j < |attempts| ==> !Uploads(attempts[j])
  }

  /** The picture is null until an upload succeeds, and afterwards it is the
      download URL of the most recent successful upload. */
  lemma {:induction false} PictureComesFromLastUpload(attempts: seq<PhotoAttempt>)
    ensures PictureAfter(attempts).None? <==> forall i :: 0 <= i < |attempts| ==> !Uploads(attempts[i])
    ensures forall i :: LastUpload(attempts, i) ==>
              PictureAfter(attempts) == Some(attempts[i].upload.downloadUrl)
    decreases |attempts|
  {
    if attempts != [] {
      var n := |attempts| - 1;
      var init := attempts[..n];
      PictureComesFromLastUpload(init);
      assert forall i :: 0 <= i < n ==> attempts[i] == init[i];
      forall i | LastUpload(attempts, i)
        ensures PictureAfter(attempts) == Some(attempts[i].upload.downloadUrl)
      {
        if i < n {
          assert LastUpload(init, i);
        }
      }
      if PictureAfter(attempts).None? {
        forall i | 0 <= i < |attempts|
          ensures !Uploads(attempts[i])
        {
          if i < n {
            assert init[i] == attempts[i];
          }
        }
      }
    }
  }

  /** `handleContinue`: refused only for an empty username; the earlier
      values and the held picture are forwarded as they are. */
  function HandleContinue(p: UserInfo.UsernameParams, username: string, picture: Option<string>): (r: Continue<InterestsParams>)
    ensures r.Alerted? <==> username == ""
    ensures r.Alerted? ==> r.message == EnterUsername
    ensures r.Navigated? ==>
              && r.params.firstName == p.firstName
              && r.params.lastName == p.lastName
              && r.params.birthdate == p.birthdate
              && r.params.username == username
              && r.params.profilePictureUri == picture
  {
    if username == "" then Alerted(EnterUsername)
    else Navigated(InterestsParams(p.firstName, p.lastName, p.birthdate, username, picture))
  }
}
