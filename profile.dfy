/**
 * The profile page (`app/profile/page.tsx`): the signed-in check, the
 * profile lookup, and the name, e-mail line and avatar initial shown, each
 * with its fallback.
 */
module Profile {
  import opened Options
  import opened Text

  /** The signed-in user as the auth service reports it. */
  datatype User = User(id: string, email: Option<string>)

  /** A row of `profiles`. */
  datatype UserProfile = UserProfile(id: string, nickname: Option<string>, profileImage: Option<string>)

  const DefaultName: string := "사용자"
  const DefaultEmailLine: string := "환영합니다"

  function NicknameOf(profile: Option<UserProfile>): Option<string> {
    match profile case Some(p) => p.nickname case None => None
  }

  /** `profile?.nickname || '사용자'`: never empty. */
  function DisplayName(profile: Option<UserProfile>): (s: string)
    ensures s != []
    ensures profile.Some? && profile.value.nickname.Some? && profile.value.nickname.value != []
      ==> s == profile.value.nickname.value
    ensures (profile.None? || profile.value.nickname.None? || profile.value.nickname.value == [])
      ==> s == DefaultName
  {
    OrElse(NicknameOf(profile), DefaultName)
  }

  /** `user?.email || '환영합니다'`. */
  function EmailLine(user: Option<User>): (s: string)
    ensures user.Some? && user.value.email.Some? && user.value.email.value != [] ==> s == user.value.email.value
    ensures (user.None? || user.value.email.None? || user.value.email.value == []) ==> s == DefaultEmailLine
  {
    OrElse(match user case Some(u) => u.email case None => None, DefaultEmailLine)
  }

  /** `displayName.charAt(0)`: the avatar's initial, exactly one character. */
  function AvatarInitial(profile: Option<UserProfile>): (s: string)
    ensures |s| == 1 && s[0] == DisplayName(profile)[0]
  {
    FirstChar(DisplayName(profile))
  }

  /** With no profile (or no nickname) the initial is the first letter of "사용자". */
  lemma DefaultInitial(profile: Option<UserProfile>)
    requires profile.None? || profile.value.nickname.None? || profile.value.nickname.value == []
    ensures AvatarInitial(profile) == "사"
  {
  }

  /** `profile?.profile_image`. */
  function AvatarUrl(profile: Option<UserProfile>): (url: Option<string>)
    ensures profile.None? ==> url.None?
    ensures profile.Some? ==> url == profile.value.profileImage
  {
    match profile case Some(p) => p.profileImage case None => None
  }

  /** What the page renders. */
  datatype View = LoadingScreen | ProfileView(name: string, email: string, avatar: Option<string>, initial: string)

  function ViewOf(loading: bool, user: Option<User>, profile: Option<UserProfile>): (v: View)
    ensures v == LoadingScreen <==> loading
    ensures v.ProfileView? ==> (v.name == DisplayName(profile) && v.email == EmailLine(user)
      && v.avatar == AvatarUrl(profile) && v.initial == AvatarInitial(profile))
  {
    if loading then LoadingScreen
    else ProfileView(DisplayName(profile), EmailLine(user), AvatarUrl(profile), AvatarInitial(profile))
  }

  class ProfilePage {
    var user: Option<User>
    var profile: Option<UserProfile>
    var loading: bool

    constructor ()
      ensures user.None? && profile.None? && loading
    {
      user := None;
      profile := None;
      loading := true;
    }

    /**
     * `checkUser` with the auth lookup's user, the profile row and whether
     * its query fails. With no user the page redirects to /login and stays
     * loading. Otherwise the user is kept; the profile is kept only when
     * its query succeeds; loading ends either way.
     */
    method CheckUser(authUser: Option<User>, profileData: UserProfile, profileFails: bool)
      returns (redirect: Option<string>)
      modifies this
      ensures authUser.None? ==> (redirect == Some("/login")
        && user == old(user) && profile == old(profile) && loading == old(loading))
      ensures authUser.Some? ==> (redirect.None? && user == authUser && !loading
        && profile == if profileFails then old(profile) else Some(profileData))
    {
      if authUser.None? {
        return Some("/login");
      }
      redirect := None;
      user := authUser;
      if !profileFails {
        profile := Some(profileData);
      }
      loading := false;
    }

    /** `handleLogout`: to /login when signing out succeeds, nowhere otherwise. */
    method Logout(fails: bool) returns (redirect: Option<string>)
      ensures redirect == if fails then None else Some("/login")
    {
      redirect := if fails then None else Some("/login");
    }
  }
}
