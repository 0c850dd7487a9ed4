/** The profile form of p-1/frontend/src/pages/admin/AdminSettings.jsx: its
    seeding from the signed-in administrator, the password checks made
    before the request, and the field resets after it. */
module AdminSettings {
  import opened Wrappers
  import opened Models
  import opened JsValues
  import opened Notices
  import opened AdminController

  datatype ProfileForm = ProfileForm(
    name: string,
    email: string,
    currentPassword: string,
    newPassword: string,
    confirmPassword: string)

  /** The administrator as the admin context holds it; a missing field is
      None. */
  datatype AdminInfo = AdminInfo(name: Option<string>, email: Option<string>)

  /** `admin.name || ""`, `admin.email || ""` and empty password fields. */
  function Seed(admin: AdminInfo): (form: ProfileForm)
    ensures form.currentPassword == "" && form.newPassword == "" && form.confirmPassword == ""
    ensures admin.name.Some? ==> form.name == admin.name.value
    ensures admin.email.Some? ==> form.email == admin.email.value
    ensures admin.name.None? ==> form.name == ""
    ensures admin.email.None? ==> form.email == ""
  {
    ProfileForm(admin.name.GetOr(""), admin.email.GetOr(""), "", "", "")
  }

  /** The checks made when a new password is typed; None lets the request
      go. */
  function ProfileError(form: ProfileForm): (r: Option<string>)
    ensures form.newPassword == "" ==> r.None?
    ensures r == Some("New passwords do not match") <==> form.newPassword != "" && form.newPassword != form.confirmPassword
    ensures r == Some("Password must be at least 6 characters") <==>
      form.newPassword != "" && form.newPassword == form.confirmPassword && Utf16Length(form.newPassword) < 6
    ensures r.None? <==> form.newPassword == "" || (form.newPassword == form.confirmPassword && Utf16Length(form.newPassword) >= 6)
  {
    if form.newPassword == "" then None
    else if form.newPassword != form.confirmPassword then Some("New passwords do not match")
    else if Utf16Length(form.newPassword) < 6 then Some("Password must be at least 6 characters")
    else None
  }

  /** The length check counts UTF-16 code units: three emoji pass it. */
  lemma EmojiPasswordAccepted(form: ProfileForm)
    requires form.newPassword == "\U{1F600}\U{1F600}\U{1F600}" && form.confirmPassword == form.newPassword
    ensures ProfileError(form).None?
  {
    Utf16LengthEmoji();
  }

  /** The body of `adminAPI.updateProfile`: the confirmation is not sent. */
  function ProfileRequest(form: ProfileForm): ProfileInput {
    ProfileInput(Some(form.name), Some(form.email), Some(form.currentPassword), Some(form.newPassword))
  }

  /** The answer to the profile request: accepted, or refused with the
      server's message ("" when there is none). */
  datatype ProfileOutcome = Updated | NotUpdated(message: string)

  class ProfileSettings {
    var form: ProfileForm
    var loading: bool

    constructor (admin: AdminInfo)
      ensures form == Seed(admin) && !loading
    {
      form := Seed(admin);
      loading := false;
    }

    /** handleProfileUpdate: returns the request it sends (None when a check
        fails) and the toast; `loading` is false afterwards on every path. */
    method HandleProfileUpdate(outcome: ProfileOutcome) returns (request: Option<ProfileInput>, notice: Notice)
      modifies this
      ensures !loading
      ensures request.None? <==> ProfileError(old(form)).Some?
      ensures request.None? ==> notice == Failure(ProfileError(old(form)).value) && form == old(form)
      ensures request.Some? ==> request.value == ProfileRequest(old(form))
      ensures request.Some? && outcome.Updated? ==>
        && notice == Success("Profile updated successfully")
        && form == old(form).(currentPassword := "", newPassword := "", confirmPassword := "")
      ensures request.Some? && outcome.NotUpdated? ==>
        notice == Failure(MessageOr(outcome.message, "Failed to update profile")) && form == old(form)
    {
      loading := true;
      var error := ProfileError(form);
      if error.Some? {
        notice := Failure(error.value);
        request := None;
      } else {
        request := Some(ProfileRequest(form));
        match outcome {
          case Updated =>
            notice := Success("Profile updated successfully");
            form := form.(currentPassword := "", newPassword := "", confirmPassword := "");
          case NotUpdated(message) =>
            notice := Failure(MessageOr(message, "Failed to update profile"));
        }
      }
      loading := false;
    }
  }

  /** What the server does with a request the form lets through: with no new
      password typed, the stored password stays, whatever the current
      password field holds; with one typed, the server changes it to the
      confirmed value exactly when the current password field is right. */
  lemma ProfileRequestOnServer(form: ProfileForm, admin: Admin)
    requires ProfileError(form).None?
    ensures form.newPassword == "" ==>
      ApplyProfile(admin, ProfileRequest(form)).Ok? && ApplyProfile(admin, ProfileRequest(form)).value.password == admin.password
    ensures form.newPassword != "" ==> (
      && (ApplyProfile(admin, ProfileRequest(form)).Ok? <==> form.currentPassword != "" && form.currentPassword == admin.password)
      && (ApplyProfile(admin, ProfileRequest(form)).Ok? ==>
            ApplyProfile(admin, ProfileRequest(form)).value.password == form.confirmPassword))
  {
  }

  /** A freshly seeded form sends no password change and keeps a non-empty
      name and email. */
  lemma SeededFormKeepsPassword(info: AdminInfo, admin: Admin)
    ensures ProfileError(Seed(info)).None?
    ensures ApplyProfile(admin, ProfileRequest(Seed(info))).Ok?
    ensures ApplyProfile(admin, ProfileRequest(Seed(info))).value.password == admin.password
  {
  }
}
