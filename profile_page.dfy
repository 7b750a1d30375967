/**
 * The pure logic of the profile page (`src/pages/user/ProfilePage.jsx`):
 * the checks in front of an avatar upload, the profile image URL, the edit
 * form and the checks and payload of a profile update.
 */
module ProfilePage {
  import opened Wrappers
  import opened Text
  import AuthStore
  import ProductDetail

  // ---------------------------------------------------------------- avatar upload

  const ALLOWED_TYPES := ["image/jpeg", "image/jpg", "image/png", "image/gif", "image/webp"]
  /** Two mebibytes. */
  const MAX_AVATAR_BYTES := 2 * 1024 * 1024

  const INVALID_TYPE := "Invalid file type. Only JPEG, PNG, GIF, and WebP are allowed."
  const TOO_LARGE := "File too large. Maximum size is 2MB."

  datatype File = File(mimeType: string, size: int)

  /** What `handleImageUpload` does with the first selected file. */
  datatype UploadDecision = NoFile | Refused(error: string) | Upload(file: File)

  function HandleImageUpload(file: Option<File>): UploadDecision {
    if file.None? then NoFile
    else if file.value.mimeType !in ALLOWED_TYPES then Refused(INVALID_TYPE)
    else if file.value.size > MAX_AVATAR_BYTES then Refused(TOO_LARGE)
    else Upload(file.value)
  }

  /**
   * A file is uploaded exactly when its type is allowed and it is at most
   * 2 MiB; the type is checked first, so a wrong type is reported even for
   * an oversized file.
   */
  lemma UploadIff(file: File)
    ensures HandleImageUpload(Some(file)).Upload? <==> file.mimeType in ALLOWED_TYPES && file.size <= MAX_AVATAR_BYTES
    ensures HandleImageUpload(Some(file)).Upload? ==> HandleImageUpload(Some(file)).file == file
    ensures file.mimeType !in ALLOWED_TYPES ==> HandleImageUpload(Some(file)) == Refused(INVALID_TYPE)
    ensures file.mimeType in ALLOWED_TYPES && file.size > MAX_AVATAR_BYTES ==> HandleImageUpload(Some(file)) == Refused(TOO_LARGE)
  {
  }

  /** The size bound is inclusive: exactly 2 MiB passes, one byte more does not. */
  lemma SizeBoundary(mimeType: string)
    requires mimeType in ALLOWED_TYPES
    ensures HandleImageUpload(Some(File(mimeType, 2097152))).Upload?
    ensures HandleImageUpload(Some(File(mimeType, 2097153))) == Refused(TOO_LARGE)
  {
  }

  // ---------------------------------------------------------------- image URL

  /** `getProfileImageUrl`: the same rule as the product images, applied to the user's avatar. */
  function ProfileImageUrl(serverUrl: string, user: Option<AuthStore.User>): Option<string> {
    ProductDetail.ImageUrl(serverUrl, if user.Some? then user.value.profileImage else None)
  }

  /**
   * An avatar is shown exactly for a signed-in user with a truthy image, and
   * with an absolute server URL its address is never a root-relative path.
   */
  lemma AvatarUrlIsNeverRootRelative(serverUrl: string, user: Option<AuthStore.User>)
    requires serverUrl != "" && serverUrl[0] != '/'
    ensures ProfileImageUrl(serverUrl, user).Some? <==> user.Some? && Truthy(user.value.profileImage)
    ensures ProfileImageUrl(serverUrl, user).Some? ==> !StartsWith(ProfileImageUrl(serverUrl, user).value, "/")
  {
    if user.Some? && Truthy(user.value.profileImage) && StartsWith(user.value.profileImage.value, "/") {
      var r := serverUrl + user.value.profileImage.value;
      assert r[..1] == serverUrl[..1];
    }
  }

  // ---------------------------------------------------------------- the edit form

  datatype ProfileForm = ProfileForm(firstName: string, lastName: string, phone: string)

  /** `user?.x || ""` for each field. */
  function FormFromUser(user: Option<AuthStore.User>): ProfileForm {
    if user.None? then ProfileForm("", "", "")
    else ProfileForm(user.value.firstName.GetOr(""), user.value.lastName.GetOr(""), user.value.phone.GetOr(""))
  }

  datatype ProfileField = FirstName | LastName | Phone

  /** `handleInputChange`: the named field takes the value. */
  function WithInput(f: ProfileForm, field: ProfileField, value: string): ProfileForm {
    match field
    case FirstName => f.(firstName := value)
    case LastName => f.(lastName := value)
    case Phone => f.(phone := value)
  }

  /** The page's editing state. */
  datatype EditState = EditState(isEditing: bool, form: ProfileForm, error: string, success: string)

  /** `handleEditClick`: the form is refilled from the current user and the messages cleared. */
  function EditClick(s: EditState, user: Option<AuthStore.User>): EditState {
    EditState(true, FormFromUser(user), "", "")
  }

  /** `handleCancelEdit`: editing stops and the error is cleared; the typed values stay. */
  function CancelEdit(s: EditState): EditState {
    s.(isEditing := false, error := "")
  }

  /** Cancelling and editing again discards what was typed. */
  lemma EditAfterCancelDiscardsInput(s: EditState, user: Option<AuthStore.User>, field: ProfileField, typed: string)
    ensures EditClick(CancelEdit(s.(form := WithInput(s.form, field, typed))), user).form == FormFromUser(user)
    ensures CancelEdit(s.(form := WithInput(s.form, field, typed))).form == WithInput(s.form, field, typed)
  {
  }

  // ---------------------------------------------------------------- the update

  const FIRST_NAME_REQUIRED := "First name is required"
  const LAST_NAME_REQUIRED := "Last name is required"

  /** The update request; `phone` is null when it was left blank. */
  datatype ProfilePayload = ProfilePayload(firstName: string, lastName: string, phone: Option<string>)

  datatype SubmitOutcome = Invalid(error: string) | Send(payload: ProfilePayload)

  /** `handleSubmitProfile`. */
  function SubmitProfile(f: ProfileForm): SubmitOutcome {
    if Trim(f.firstName) == "" then Invalid(FIRST_NAME_REQUIRED)
    else if Trim(f.lastName) == "" then Invalid(LAST_NAME_REQUIRED)
    else Send(ProfilePayload(Trim(f.firstName), Trim(f.lastName), if Trim(f.phone) == "" then None else Some(Trim(f.phone))))
  }

  /**
   * An update is sent exactly when both names have a non-space character;
   * a blank first name is reported before a blank last name.
   */
  lemma SubmitIff(f: ProfileForm)
    ensures SubmitProfile(f).Send? <==> !AllWhitespace(f.firstName) && !AllWhitespace(f.lastName)
    ensures AllWhitespace(f.firstName) ==> SubmitProfile(f) == Invalid(FIRST_NAME_REQUIRED)
    ensures !AllWhitespace(f.firstName) && AllWhitespace(f.lastName) ==> SubmitProfile(f) == Invalid(LAST_NAME_REQUIRED)
  {
    TrimEmptyIffAllWhitespace(f.firstName);
    TrimEmptyIffAllWhitespace(f.lastName);
  }

  /**
   * The payload carries the names without surrounding whitespace, and the
   * phone the same way, or null when it is blank.
   */
  lemma PayloadIsTrimmed(f: ProfileForm)
    requires SubmitProfile(f).Send?
    ensures var p := SubmitProfile(f).payload;
      && p.firstName == Trim(f.firstName) && p.lastName == Trim(f.lastName)
      && p.firstName != "" && !IsJsWhitespace(p.firstName[0]) && !IsJsWhitespace(p.firstName[|p.firstName| - 1])
      && (p.phone.None? <==> AllWhitespace(f.phone))
      && (p.phone.Some? ==> p.phone.value == Trim(f.phone))
  {
    TrimEmptyIffAllWhitespace(f.phone);
  }
}
