// The profile page: the editable form, the avatar picker's checks, and the
// save, cancel and avatar handlers. Server replies are parameters.

module ProfilePage {
  import opened Wrappers
  import opened Http

  /** The signed-in user as the client holds it. */
  datatype ProfileUser = ProfileUser(
    id: nat,
    username: string,
    email: string,
    fullName: Option<string>,
    bio: Option<string>,
    avatarPath: Option<string>)

  /** `formData`, also the body of the update request. */
  datatype ProfileForm = ProfileForm(fullName: string, email: string, bio: string)

  datatype ProfileField = FullNameField | EmailField | BioField

  /** The picked file: its MIME type and its size in bytes. */
  datatype FileInfo = FileInfo(mimeType: string, size: nat)

  /** What the picker's checks decide. */
  datatype AvatarCheck = NoFile | Rejected(message: string) | Accepted

  const MaxAvatarBytes: nat := 5 * 1024 * 1024
  const ApiBaseUrl := "http://localhost:8000"

  /** `x || ''` for an optional string. */
  function OrEmpty(s: Option<string>): (r: string)
    ensures s.Some? ==> r == s.value
    ensures s.None? ==> r == ""
  {
    match s
    case None => ""
    case Some(v) => v
  }

  /** The form built from the user, each missing field read as "". */
  function FormFromUser(user: Option<ProfileUser>): (f: ProfileForm)
    ensures user.None? ==> f == ProfileForm("", "", "")
    ensures user.Some? ==> f.email == user.value.email
    ensures user.Some? ==> f.fullName == OrEmpty(user.value.fullName) && f.bio == OrEmpty(user.value.bio)
  {
    match user
    case None => ProfileForm("", "", "")
    case Some(u) => ProfileForm(OrEmpty(u.fullName), u.email, OrEmpty(u.bio))
  }

  /** The picker's checks, in order: no file, then the type, then the size.
      A file of exactly 5 MiB passes. */
  function ValidateAvatar(file: Option<FileInfo>): (r: AvatarCheck)
    ensures r == NoFile <==> file.None?
    ensures r == Accepted <==> file.Some? && "image/" <= file.value.mimeType && file.value.size <= MaxAvatarBytes
    ensures r == Rejected("Please select an image file") <==> file.Some? && !("image/" <= file.value.mimeType)
    ensures r == Rejected("Image size must be less than 5MB")
            <==> file.Some? && "image/" <= file.value.mimeType && file.value.size > MaxAvatarBytes
  {
    match file
    case None => NoFile
    case Some(f) =>
      if !("image/" <= f.mimeType) then Rejected("Please select an image file")
      else if f.size > MaxAvatarBytes then Rejected("Image size must be less than 5MB")
      else Accepted
  }

  /** `err.response?.data?.detail || fallback`. */
  function ErrorText(detail: string, fallback: string): (r: string)
    ensures detail != "" ==> r == detail
    ensures detail == "" ==> r == fallback
  {
    if detail != "" then detail else fallback
  }

  /** The picture the avatar shows: the local preview first, then the
      stored file served by the backend, else none (the initial letter). */
  function AvatarUrl(preview: Option<string>, user: Option<ProfileUser>): (r: Option<string>)
    ensures preview.Some? && preview.value != "" ==> r == preview
    ensures (preview.None? || preview.value == "") && user.Some? && user.value.avatarPath.Some?
            && user.value.avatarPath.value != ""
            ==> r == Some(ApiBaseUrl + "/" + user.value.avatarPath.value)
    ensures r.None? <==> (preview.None? || preview.value == "")
                         && (user.None? || user.value.avatarPath.None? || user.value.avatarPath.value == "")
  {
    if preview.Some? && preview.value != "" then preview
    else if user.Some? && user.value.avatarPath.Some? && user.value.avatarPath.value != ""
    then Some(ApiBaseUrl + "/" + user.value.avatarPath.value)
    else None
  }

  class ProfileView {
    /** `user` from the authentication context; `updateUser` replaces it. */
    var user: Option<ProfileUser>
    var form: ProfileForm
    var editing: bool
    var loading: bool
    var error: string
    var success: string
    var avatarPreview: Option<string>

    constructor (user: Option<ProfileUser>)
      ensures this.user == user && form == FormFromUser(user)
      ensures !editing && !loading && error == "" && success == "" && avatarPreview == None
    {
      this.user := user;
      form := FormFromUser(user);
      editing := false;
      loading := false;
      error := "";
      success := "";
      avatarPreview := None;
    }

    function GetAvatarUrl(): Option<string>
      reads this
    {
      AvatarUrl(avatarPreview, user)
    }

    /** `handleInputChange`: only the named field changes. */
    method HandleInputChange(field: ProfileField, value: string)
      modifies this`form
      ensures field == FullNameField ==> form == old(form).(fullName := value)
      ensures field == EmailField ==> form == old(form).(email := value)
      ensures field == BioField ==> form == old(form).(bio := value)
    {
      match field {
        case FullNameField => form := form.(fullName := value);
        case EmailField => form := form.(email := value);
        case BioField => form := form.(bio := value);
      }
    }

    /** The Edit Profile button. */
    method StartEditing()
      modifies this`editing
      ensures editing
    {
      editing := true;
    }

    /** `handleAvatarChange`. A missing or rejected file uploads nothing;
        a rejection only sets the error. An accepted file shows its data
        URL as the preview (when the reader has finished: `dataUrl`) and
        is uploaded; the reply either replaces the user or sets the error. */
    method HandleAvatarChange(file: Option<FileInfo>, dataUrl: Option<string>, response: Response<ProfileUser>)
      modifies this`user, this`loading, this`error, this`success, this`avatarPreview
      ensures ValidateAvatar(file) == NoFile ==> unchanged(this)
      ensures ValidateAvatar(file).Rejected? ==>
        error == ValidateAvatar(file).message && user == old(user) && success == old(success)
        && avatarPreview == old(avatarPreview) && loading == old(loading)
      ensures ValidateAvatar(file) == Accepted ==> !loading
      ensures ValidateAvatar(file) == Accepted && dataUrl.Some? ==> avatarPreview == dataUrl
      ensures ValidateAvatar(file) == Accepted && dataUrl.None? ==> avatarPreview == old(avatarPreview)
      ensures ValidateAvatar(file) == Accepted && response.Ok? ==>
        user == Some(response.value) && success == "Avatar updated successfully!" && error == ""
      ensures ValidateAvatar(file) == Accepted && response.Err? ==>
        user == old(user) && success == old(success) && error == ErrorText(response.detail, "Failed to upload avatar")
    {
      var check := ValidateAvatar(file);
      if check == NoFile {
        return;
      }
      if check.Rejected? {
        error := check.message;
        return;
      }
      if dataUrl.Some? {
        avatarPreview := dataUrl;
      }
      loading := true;
      error := "";
      match response {
        case Ok(updated) =>
          user := Some(updated);
          success := "Avatar updated successfully!";
        case Err(detail) =>
          error := ErrorText(detail, "Failed to upload avatar");
      }
      loading := false;
    }

    /** `handleDeleteAvatar`: nothing without confirmation; on success the
        user is replaced and the preview dropped. */
    method HandleDeleteAvatar(confirmed: bool, response: Response<ProfileUser>)
      modifies this`user, this`loading, this`error, this`success, this`avatarPreview
      ensures !confirmed ==> unchanged(this)
      ensures confirmed ==> !loading
      ensures confirmed && response.Ok? ==>
        user == Some(response.value) && avatarPreview == None && error == ""
        && success == "Avatar deleted successfully!"
      ensures confirmed && response.Err? ==>
        user == old(user) && avatarPreview == old(avatarPreview) && success == old(success)
        && error == ErrorText(response.detail, "Failed to delete avatar")
    {
      if !confirmed {
        return;
      }
      loading := true;
      error := "";
      match response {
        case Ok(updated) =>
          user := Some(updated);
          avatarPreview := None;
          success := "Avatar deleted successfully!";
        case Err(detail) =>
          error := ErrorText(detail, "Failed to delete avatar");
      }
      loading := false;
    }

    /** `handleSave`: success leaves edit mode with a message; failure
        stays in edit mode with the server's detail or the default. The
        form itself is not touched either way. */
    method HandleSave(response: Response<ProfileUser>)
      modifies this`user, this`loading, this`error, this`success, this`editing
      ensures !loading
      ensures response.Ok? ==>
        user == Some(response.value) && !editing && error == "" && success == "Profile updated successfully!"
      ensures response.Err? ==>
        user == old(user) && editing == old(editing) && success == old(success)
        && error == ErrorText(response.detail, "Failed to update profile")
    {
      loading := true;
      error := "";
      match response {
        case Ok(updated) =>
          user := Some(updated);
          editing := false;
          success := "Profile updated successfully!";
        case Err(detail) =>
          error := ErrorText(detail, "Failed to update profile");
      }
      loading := false;
    }

    /** `handleCancel`: the form is rebuilt from the user, edit mode ends
        and the error is cleared. */
    method HandleCancel()
      modifies this`form, this`editing, this`error
      ensures form == FormFromUser(user) && !editing && error == ""
    {
      form := FormFromUser(user);
      editing := false;
      error := "";
    }

    /** The three-second timer after a success message. */
    method ClearSuccess()
      modifies this`success
      ensures success == ""
    {
      success := "";
    }
  }
}
