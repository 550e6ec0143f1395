/** The authentication store (`AuthProvider`): the backend actor and principal
    of the signed-in user, the cached profile, the profile form, and the
    username-availability check. */
module AuthContext {
  import opened Wrappers
  import opened BackendTypes
  import Js
  import Browser
  import UseLogin

  datatype ToastKind = Success | Failure

  /** A `window.showToast` request. */
  datatype Toast = Toast(message: string, kind: ToastKind, duration: nat)

  /** `usernameAvailability`: `null`, `'current'`, or the backend's answer. */
  datatype Availability = Unchecked | Current | Answered(available: bool)

  datatype ProfileForm = ProfileForm(username: string, bio: string)

  const EmptyForm: ProfileForm := ProfileForm("", "")

  function WelcomeBackText(name: string): string {
    "Welcome back, " + name + "!"
  }

  function NeedsProfileText(principal: string): string {
    "Logged in successfully!\nPrincipal: " + principal + "\nPlease set up your profile."
  }

  const LoggedOutText: string := "Logged out successfully!"
  const ProfileSavedText: string := "Profile saved successfully!"

  /** The `❌` cross mark the failure toasts begin with. */
  function SaveFailedText(err: string): string {
    "\U{274C} Failed to save profile: " + err
  }

  function SetProfileErrorText(message: string): string {
    "\U{274C} Error setting profile: " + message
  }

  /** The toast shown after an actor is set: a welcome-back when the profile
      lookup answered `ok`, otherwise the set-up-your-profile notice. */
  function LoginToast(principal: string, profileReply: Reply<Profile>): (t: Toast)
    ensures t.kind == Success && t.duration == 4000
    ensures profileReply.Ok? ==> t.message == WelcomeBackText(profileReply.value.name)
    ensures !profileReply.Ok? ==> t.message == NeedsProfileText(principal)
  {
    if profileReply.Ok? then Toast(WelcomeBackText(profileReply.value.name), Success, 4000)
    else Toast(NeedsProfileText(principal), Success, 4000)
  }

  /** Whether `checkUsernameAvailability` asks the backend: there is an actor,
      the name is not blank, and it is not the cached profile's own name. */
  predicate AsksBackend(hasActor: bool, profile: Option<Profile>, username: string) {
    hasActor && Js.Trim(username) != "" && !(profile.Some? && profile.value.name == username)
  }

  /** The availability `checkUsernameAvailability` settles on; `answer` is
      what `isUsernameAvailable` would answer. */
  function AvailabilityFor(hasActor: bool, profile: Option<Profile>, username: string,
                           answer: Call<bool>): (a: Availability)
    ensures a == Current <==>
      hasActor && !Js.IsBlank(username) && profile.Some? && profile.value.name == username
    ensures a.Answered? <==> AsksBackend(hasActor, profile, username) && answer.Returned?
    ensures a.Answered? ==> a.available == answer.value
    ensures !hasActor || Js.IsBlank(username) ==> a == Unchecked
  {
    if !hasActor || Js.Trim(username) == "" then Unchecked
    else if profile.Some? && profile.value.name == username then Current
    else match answer
      case Returned(b) => Answered(b)
      case Raised(_) => Unchecked
  }

  /** The value the provider exports, as far as the messaging store reads it. */
  datatype ExportedValue = ExportedValue(isLoggedIn: bool, identity: Option<string>)

  class AuthStore {
    var backendActor: Option<BackendActor>
    var isLoggedIn: bool
    var userPrincipal: Option<string>
    var userProfile: Option<Profile>
    var profileForm: ProfileForm
    var usernameAvailability: Availability
    var isCheckingUsername: bool
    var isSettingProfile: bool

    constructor ()
      ensures backendActor == None && !isLoggedIn && userPrincipal == None && userProfile == None
      ensures profileForm == EmptyForm && usernameAvailability == Unchecked
      ensures !isCheckingUsername && !isSettingProfile
    {
      backendActor := None;
      isLoggedIn := false;
      userPrincipal := None;
      userProfile := None;
      profileForm := EmptyForm;
      usernameAvailability := Unchecked;
      isCheckingUsername := false;
      isSettingProfile := false;
    }

    /** `handleBackendActorSet(actor, principal)`: `profileReply` is the answer
        of `getCurrentUserProfile`. */
    method HandleBackendActorSet(actor: BackendActor, principal: string, profileReply: Reply<Profile>)
      returns (toast: Toast)
      modifies this`backendActor, this`userPrincipal, this`isLoggedIn, this`userProfile
      ensures backendActor == Some(actor) && userPrincipal == Some(principal) && isLoggedIn
      ensures userProfile == if profileReply.Ok? then Some(profileReply.value) else old(userProfile)
      ensures toast == LoginToast(principal, profileReply)
    {
      backendActor := Some(actor);
      userPrincipal := Some(principal);
      isLoggedIn := true;
      match profileReply {
        case Ok(p) =>
          userProfile := Some(p);
          toast := Toast(WelcomeBackText(p.name), Success, 4000);
        case Err(_) =>
          toast := Toast(NeedsProfileText(principal), Success, 4000);
        case Threw(_) =>
          toast := Toast(NeedsProfileText(principal), Success, 4000);
      }
    }

    /** `handleLogout()`: every piece of user state is reset and the stored
        session key is removed. `isCheckingUsername` and `isSettingProfile` are kept. */
    method HandleLogout(storage: Browser.LocalStorage) returns (toast: Toast)
      modifies this`backendActor, this`userPrincipal, this`isLoggedIn, this`userProfile
      modifies this`profileForm, this`usernameAvailability, storage
      ensures backendActor == None && userPrincipal == None && !isLoggedIn && userProfile == None
      ensures profileForm == EmptyForm && usernameAvailability == Unchecked
      ensures storage.items == old(storage.items) - {Browser.SessionKeyItem}
      ensures Browser.SessionKeyItem !in storage.items
      ensures toast == Toast(LoggedOutText, Success, 3000)
    {
      backendActor := None;
      userPrincipal := None;
      isLoggedIn := false;
      userProfile := None;
      profileForm := EmptyForm;
      usernameAvailability := Unchecked;
      storage.RemoveItem(Browser.SessionKeyItem);
      toast := Toast(LoggedOutText, Success, 3000);
    }

    /** The login-error effect: a truthy error is shown as a toast and cleared. */
    method ShowLoginError(hook: UseLogin.LoginHook) returns (toast: Option<Toast>)
      modifies hook`loginError
      ensures Truthy(old(hook.loginError)) ==>
        toast == Some(Toast(old(hook.loginError).value, Failure, 5000)) && hook.loginError == None
      ensures !Truthy(old(hook.loginError)) ==> toast == None && hook.loginError == old(hook.loginError)
    {
      if Truthy(hook.loginError) {
        toast := Some(Toast(hook.loginError.value, Failure, 5000));
        hook.SetLoginError(None);
      } else {
        toast := None;
      }
    }

    /** `checkUsernameAvailability(username)`; `isUsernameAvailable` is the
        backend's answer to each name. */
    method CheckUsernameAvailability(username: string, isUsernameAvailable: string -> Call<bool>)
      modifies this`usernameAvailability, this`isCheckingUsername
      ensures usernameAvailability ==
        AvailabilityFor(backendActor.Some?, userProfile, username, isUsernameAvailable(username))
      ensures isCheckingUsername == if AsksBackend(backendActor.Some?, userProfile, username) then false
                                    else old(isCheckingUsername)
    {
      if backendActor.None? || Js.Trim(username) == "" {
        usernameAvailability := Unchecked;
        return;
      }
      if userProfile.Some? && userProfile.value.name == username {
        usernameAvailability := Current;
        return;
      }
      isCheckingUsername := true;
      match isUsernameAvailable(username) {
        case Returned(b) => usernameAvailability := Answered(b);
        case Raised(_) => usernameAvailability := Unchecked;
      }
      isCheckingUsername := false;
    }

    /** The exported `setProfileForm`. */
    method SetProfileForm(form: ProfileForm)
      modifies this`profileForm
      ensures profileForm == form
    {
      profileForm := form;
    }

    /** `handleSetProfile(e)`; `setUserProfile` is the backend's answer to each
        (username, bio) pair. */
    method HandleSetProfile(setUserProfile: (string, string) -> Reply<Profile>)
      returns (toast: Option<Toast>)
      modifies this`userProfile, this`profileForm, this`isSettingProfile
      ensures backendActor.None? || Js.IsBlank(old(profileForm.username)) ==>
        toast == None && userProfile == old(userProfile) && profileForm == old(profileForm)
        && isSettingProfile == old(isSettingProfile)
      ensures backendActor.Some? && !Js.IsBlank(old(profileForm.username)) ==>
        var reply := setUserProfile(old(profileForm.username), old(profileForm.bio));
        !isSettingProfile
        && userProfile == (if reply.Ok? then Some(reply.value) else old(userProfile))
        && profileForm == (if reply.Ok? then EmptyForm else old(profileForm))
        && toast == Some(match reply
                         case Ok(_) => Toast(ProfileSavedText, Success, 3000)
                         case Err(e) => Toast(SaveFailedText(e), Failure, 5000)
                         case Threw(m) => Toast(SetProfileErrorText(m), Failure, 5000))
    {
      if backendActor.None? || Js.Trim(profileForm.username) == "" {
        return None;
      }
      isSettingProfile := true;
      var reply := setUserProfile(profileForm.username, profileForm.bio);
      match reply {
        case Ok(p) =>
          userProfile := Some(p);
          profileForm := EmptyForm;
          toast := Some(Toast(ProfileSavedText, Success, 3000));
        case Err(e) =>
          toast := Some(Toast(SaveFailedText(e), Failure, 5000));
        case Threw(m) =>
          toast := Some(Toast(SetProfileErrorText(m), Failure, 5000));
      }
      isSettingProfile := false;
    }

    /** What the provider exports to its consumers: there is no `identity` key,
        so a consumer reading it gets `undefined`. */
    function Exported(): (v: ExportedValue)
      reads this
      ensures v.isLoggedIn == isLoggedIn && v.identity == None
    {
      ExportedValue(isLoggedIn, None)
    }

    /** The export with the signed-in principal as `identity`, as the
        consumers expect. */
    function IntendedExport(): (v: ExportedValue)
      reads this
      ensures v.isLoggedIn == isLoggedIn && v.identity == userPrincipal
    {
      ExportedValue(isLoggedIn, userPrincipal)
    }
  }
}
