/** The last onboarding screen: interest chips, the notifications switch,
    and the profile record written for the signed-in user. */
module Interests {
  import opened Common
  import opened Sequences
  import UserInfo
  import Username

  /** The chips offered, in display order. */
  const InterestOptions: seq<string> := [
    "Sustainable Fashion", "Minimalism", "Vintage Finds", "Streetwear", "Luxury Brands",
    "Capsule Wardrobe", "DIY Fashion", "Second-hand Shopping", "Ethical Fashion",
    "Seasonal Trends", "Comfort Core", "Accessorizing"]

  /** The screen opens with nothing selected and notifications on. */
  const InitialSelection: seq<string> := []
  const InitialNotifications: bool := true

  // ----- toggling a chip -----

  /** `prev.filter(item => item !== interest)`. */
  function RemoveAll(s: seq<string>, v: string): (r: seq<string>)
    ensures v !in r
    ensures forall x :: x != v ==> (x in r <==> x in s)
    ensures |r| <= |s|
    decreases |s|
  {
    if s == [] then []
    else if s[0] == v then RemoveAll(s[1..], v)
    else [s[0]] + RemoveAll(s[1..], v)
  }

  /** `toggleInterest`: a selected interest is removed (every occurrence),
      any other is appended at the end. */
  function Toggle(s: seq<string>, interest: string): (r: seq<string>)
    ensures interest in r <==> interest !in s
    ensures forall x :: x != interest ==> (x in r <==> x in s)
  {
    if interest in s then RemoveAll(s, interest) else s + [interest]
  }

  /** No interest appears twice. */
  predicate NoDuplicates(s: seq<string>) {
    forall i, j :: 0 <= i < j < |s| ==> s[i] != s[j]
  }

  /** Removing an absent interest changes nothing. */
  lemma {:induction false} RemoveAbsent(s: seq<string>, v: string)
    requires v !in s
    ensures RemoveAll(s, v) == s
    decreases |s|
  {
    if s != [] {
      RemoveAbsent(s[1..], v);
      assert [s[0]] + s[1..] == s;
    }
  }

  /** Removing after appending the same interest to a list without it gives the list back. */
  lemma {:induction false} RemoveAppended(s: seq<string>, v: string)
    requires v !in s
    ensures RemoveAll(s + [v], v) == s
    decreases |s|
  {
    if s == [] {
      assert RemoveAll([v], v) == RemoveAll([], v);
    } else {
      assert (s + [v])[0] == s[0] && (s + [v])[1..] == s[1..] + [v];
      RemoveAppended(s[1..], v);
      assert [s[0]] + s[1..] == s;
    }
  }

  /** Removal keeps the other interests in their order. */
  lemma {:induction false} RemoveKeepsOrder(s: seq<string>, v: string)
    ensures IsSubsequence(RemoveAll(s, v), s)
    decreases |s|
  {
    if s != [] {
      RemoveKeepsOrder(s[1..], v);
    }
  }

  /** Removal keeps every copy of every other interest. */
  lemma {:induction false} RemoveCount(s: seq<string>, v: string, x: string)
    ensures multiset(RemoveAll(s, v))[x] == if x == v then 0 else multiset(s)[x]
    decreases |s|
  {
    if s != [] {
      RemoveCount(s[1..], v, x);
      assert s == [s[0]] + s[1..];
    }
  }

  /** Toggling an unselected interest appends it, keeping the earlier
      selection as it was. */
  lemma ToggleAbsentAppends(s: seq<string>, interest: string)
    requires interest !in s
    ensures Toggle(s, interest) == s + [interest]
  {
  }

  /** Toggling an unselected interest twice gives back exactly the same list. */
  lemma ToggleTwiceAbsent(s: seq<string>, interest: string)
    requires interest !in s
    ensures Toggle(Toggle(s, interest), interest) == s
  {
    RemoveAppended(s, interest);
  }

  /** Toggling a selected interest twice gives back the same set, the
      interest now last. */
  lemma ToggleTwicePresent(s: seq<string>, interest: string)
    requires interest in s
    ensures var t := Toggle(Toggle(s, interest), interest);
            && (forall x :: x in t <==> x in s)
            && t[|t| - 1] == interest
  {
  }

  /** Removal keeps a list duplicate-free. */
  lemma {:induction false} RemoveKeepsNoDuplicates(s: seq<string>, v: string)
    requires NoDuplicates(s)
    ensures NoDuplicates(RemoveAll(s, v))
    decreases |s|
  {
    if s != [] {
      assert NoDuplicates(s[1..]) by {
        forall i, j | 0 <= i < j < |s[1..]|
          ensures s[1..][i] != s[1..][j]
        {
          assert s[1..][i] == s[i + 1] && s[1..][j] == s[j + 1];
        }
      }
      RemoveKeepsNoDuplicates(s[1..], v);
      if s[0] != v {
        var r := RemoveAll(s[1..], v);
        assert s[0] !in s[1..];
        assert s[0] !in r;
        forall i, j | 0 <= i < j < |[s[0]] + r|
          ensures ([s[0]] + r)[i] != ([s[0]] + r)[j]
        {
          if i == 0 {
            assert ([s[0]] + r)[j] == r[j - 1];
          } else {
            assert ([s[0]] + r)[i] == r[i - 1] && ([s[0]] + r)[j] == r[j - 1];
          }
        }
      }
    }
  }

  /** A selection without duplicates stays without duplicates after a toggle. */
  lemma ToggleKeepsNoDuplicates(s: seq<string>, interest: string)
    requires NoDuplicates(s)
    ensures NoDuplicates(Toggle(s, interest))
  {
    if interest in s {
      RemoveKeepsNoDuplicates(s, interest);
    }
  }

  /** A selection the screen can reach: chosen chips only, none twice. */
  predicate OfferedSelection(s: seq<string>) {
    NoDuplicates(s) && forall x :: x in s ==> x in InterestOptions
  }

  /** The screen opens with notifications on and a selection it can reach,
      and the first chip pressed becomes the whole selection. */
  lemma InitialScreen(interest: string)
    ensures InitialNotifications
    ensures OfferedSelection(InitialSelection)
    ensures Toggle(InitialSelection, interest) == [interest]
  {
  }

  /** Pressing offered chips keeps the selection made of offered chips, each once. */
  lemma ToggleKeepsOffered(s: seq<string>, interest: string)
    requires OfferedSelection(s)
    requires interest in InterestOptions
    ensures OfferedSelection(Toggle(s, interest))
  {
    ToggleKeepsNoDuplicates(s, interest);
  }

  // ----- completing the profile -----

  /** The user document; the two server timestamps are not modelled. */
  datatype Profile = Profile(
    uid: string,
    email: Option<string>,
    firstName: string,
    lastName: string,
    birthdate: string,
    username: string,
    profilePictureUrl: Option<string>,
    interests: seq<string>,
    notificationsEnabled: bool)

  /** What pressing "Complete" led to. */
  datatype Completion =
    | ResetToWelcome
    | ProfileSaved(profile: Profile)
    | ProfileSaveFailed(profile: Profile)

  /** `handleCompleteProfile`: with nobody signed in, nothing is written and
      the navigation resets to the welcome screen; otherwise the profile is
      written under the user's id. */
  function CompleteProfile(p: Username.InterestsParams, selection: seq<string>, notifications: bool,
                           user: Option<AuthUser>, write: Write): (r: Completion)
    ensures r.ResetToWelcome? <==> user.None?
    ensures r.ProfileSaved? <==> user.Some? && write.WriteOk?
    ensures !r.ResetToWelcome? ==>
              && r.profile.uid == user.value.uid
              && r.profile.email == user.value.email
              && r.profile.firstName == p.firstName
              && r.profile.lastName == p.lastName
              && r.profile.birthdate == p.birthdate
              && r.profile.username == p.username
              && r.profile.profilePictureUrl == p.profilePictureUri
              && r.profile.interests == selection
              && r.profile.notificationsEnabled == notifications
  {
    match user
    case None => ResetToWelcome
    case Some(u) =>
      var profile := Profile(u.uid, u.email, p.firstName, p.lastName, p.birthdate, p.username,
                             p.profilePictureUri, selection, notifications);
      if write.WriteOk? then ProfileSaved(profile) else ProfileSaveFailed(profile)
  }

  /** The three onboarding screens one after the other: the values typed on
      the first two reach the stored profile unchanged. */
  function Onboard(firstName: string, lastName: string, birthdate: string,
                   username: string, picture: Option<string>,
                   selection: seq<string>, notifications: bool,
                   user: Option<AuthUser>, write: Write): Option<Completion>
  {
    match UserInfo.HandleContinue(firstName, lastName, birthdate)
    case Alerted(_) => None
    case Navigated(up) =>
      match Username.HandleContinue(up, username, picture)
      case Alerted(_) => None
      case Navigated(ip) => Some(CompleteProfile(ip, selection, notifications, user, write))
  }

  /** End to end: once the two guards pass and the write succeeds, the
      profile holds exactly what was entered; the guards are the only way
      to stop before the last screen. */
  lemma OnboardingIsLossless(firstName: string, lastName: string, birthdate: string,
                             username: string, picture: Option<string>,
                             selection: seq<string>, notifications: bool,
                             uid: string, email: Option<string>)
    ensures var r := Onboard(firstName, lastName, birthdate, username, picture, selection,
                             notifications, Some(AuthUser(uid, email)), WriteOk);
            && (r.None? <==> firstName == "" || lastName == "" || birthdate == "" || username == "")
            && (r.Some? ==> r.value == ProfileSaved(Profile(uid, email, firstName, lastName, birthdate,
                                                            username, picture, selection, notifications)))
  {
  }
}
