/** The profile form: two tabs (profile information and password change)
    over one record, an editing switch, and what each tab hands to `onSave`.
    The `profile` prop is a parameter; the picture preview is left out. */
module ProfileForm {
  import opened Optional
  import opened FormFields
  import Validators

  datatype Field = Name | Email | PhoneNumber | Department | Designation | Bio
                 | ProfilePicture | CurrentPassword | NewPassword | ConfirmPassword

  type Form = Record<Field>

  const Fields := [Name, Email, PhoneNumber, Department, Designation, Bio,
                   ProfilePicture, CurrentPassword, NewPassword, ConfirmPassword]

  /** The two tabs. */
  datatype Tab = ProfileTab | PasswordTab

  function EmptyForm(): (r: Form)
    ensures Keys(r) == Fields && DistinctKeys(r)
  {
    [(Name, Str("")), (Email, Str("")), (PhoneNumber, Str("")), (Department, Str("")), (Designation, Str("")),
     (Bio, Str("")), (ProfilePicture, Null), (CurrentPassword, Str("")), (NewPassword, Str("")), (ConfirmPassword, Str(""))]
  }

  /** What loading a profile sets, on a new prop and on cancel alike: its
      text fields (or ''), no picture, empty passwords. */
  function Loaded(profile: Record<string>): (r: Form)
    ensures Keys(r) == Fields && DistinctKeys(r)
    ensures r[0].1 == OrEmpty(Get(profile, "name")) && r[1].1 == OrEmpty(Get(profile, "email"))
    ensures r[2].1 == OrEmpty(Get(profile, "phoneNumber")) && r[3].1 == OrEmpty(Get(profile, "department"))
    ensures r[4].1 == OrEmpty(Get(profile, "designation")) && r[5].1 == OrEmpty(Get(profile, "bio"))
    ensures r[6].1 == Null && forall i :: 7 <= i < 10 ==> r[i].1 == Str("")
  {
    [(Name, OrEmpty(Get(profile, "name"))), (Email, OrEmpty(Get(profile, "email"))),
     (PhoneNumber, OrEmpty(Get(profile, "phoneNumber"))), (Department, OrEmpty(Get(profile, "department"))),
     (Designation, OrEmpty(Get(profile, "designation"))), (Bio, OrEmpty(Get(profile, "bio"))),
     (ProfilePicture, Null), (CurrentPassword, Str("")), (NewPassword, Str("")), (ConfirmPassword, Str(""))]
  }

  const Checked := {Name, Email, PhoneNumber, CurrentPassword, NewPassword, ConfirmPassword}

  /** The message `validateForm` records for one field: only the active
      tab's fields are checked. */
  function Message(r: Form, tab: Tab, f: Field): Option<string> {
    match (tab, f)
    case (ProfileTab, Name) => RequiredError(r, Name, "Name is required")
    case (ProfileTab, Email) => EmailError(r, Email)
    case (ProfileTab, PhoneNumber) => PhoneError(r, PhoneNumber)
    case (PasswordTab, CurrentPassword) => RequiredError(r, CurrentPassword, "Current password is required")
    case (PasswordTab, NewPassword) => PasswordError(r, NewPassword, "New password is required")
    case (PasswordTab, ConfirmPassword) => ConfirmError(r, NewPassword, ConfirmPassword, "Please confirm your password")
    case _ => None
  }

  function Check(r: Form, tab: Tab): Field -> Option<string> {
    (f: Field) => Message(r, tab, f)
  }

  function Errors(r: Form, tab: Tab): ErrorMap<Field> {
    ErrorsOf(Checked, Check(r, tab))
  }

  predicate Acceptable(r: Form, tab: Tab) {
    match tab
    case ProfileTab =>
      && Truthy(Get(r, Name))
      && Truthy(Get(r, Email)) && LooseEmail(StrOf(Get(r, Email)))
      && (Truthy(Get(r, PhoneNumber)) ==> Validators.PhonePattern(StrOf(Get(r, PhoneNumber))))
    case PasswordTab =>
      && Truthy(Get(r, CurrentPassword))
      && Truthy(Get(r, NewPassword)) && !ShorterThan(Get(r, NewPassword), 8)
      && Truthy(Get(r, ConfirmPassword)) && Get(r, NewPassword) == Get(r, ConfirmPassword)
  }

  /** Each tab's errors are about that tab's fields only. */
  lemma ErrorsStayOnTab(r: Form)
    ensures Errors(r, ProfileTab).Keys <= {Name, Email, PhoneNumber}
    ensures Errors(r, PasswordTab).Keys <= {CurrentPassword, NewPassword, ConfirmPassword}
  {
  }

  /** The active tab's form is accepted exactly when its checks pass. */
  lemma ErrorsEmptyIffAcceptable(r: Form, tab: Tab)
    ensures Errors(r, tab).Keys == {} <==> Acceptable(r, tab)
  {
    var e := Errors(r, tab);
    if e.Keys == {} {
      assert Name !in e && Email !in e && PhoneNumber !in e;
      assert CurrentPassword !in e && NewPassword !in e && ConfirmPassword !in e;
    } else {
      var f :| f in e.Keys;
      assert Message(r, tab, f).Some?;
    }
  }

  /** The profile tab's required-field messages. */
  lemma ProfileMessages(r: Form)
    ensures !Truthy(Get(r, Name)) ==> Errors(r, ProfileTab)[Name] == "Name is required"
    ensures !Truthy(Get(r, Email)) ==> Errors(r, ProfileTab)[Email] == "Email is required"
  {
  }

  /** The password tab's messages: the current password is required, the
      new one is required and at least eight characters, and the
      confirmation is required and must match. */
  lemma PasswordMessages(r: Form)
    ensures !Truthy(Get(r, CurrentPassword)) ==> Errors(r, PasswordTab)[CurrentPassword] == "Current password is required"
    ensures !Truthy(Get(r, NewPassword)) ==> Errors(r, PasswordTab)[NewPassword] == "New password is required"
    ensures Truthy(Get(r, NewPassword)) && ShorterThan(Get(r, NewPassword), 8) ==>
      Errors(r, PasswordTab)[NewPassword] == "Password must be at least 8 characters"
    ensures !Truthy(Get(r, ConfirmPassword)) ==> Errors(r, PasswordTab)[ConfirmPassword] == "Please confirm your password"
    ensures Truthy(Get(r, ConfirmPassword)) && Get(r, NewPassword) != Get(r, ConfirmPassword) ==>
      Errors(r, PasswordTab)[ConfirmPassword] == "Passwords do not match"
  {
  }

  /** What `onSave` receives, with the kind it is told. */
  datatype Saved =
    | ProfileData(entries: Record<string>)
    | PasswordData(currentPassword: Value, newPassword: Value)

  /** The profile tab's `FormData`: the six text fields in order, then the
      picture when one was chosen. */
  function ProfileEntries(r: Form): (e: Record<string>)
    ensures Keys(e) == ["name", "email", "phoneNumber", "department", "designation", "bio"]
                       + (if Truthy(Get(r, ProfilePicture)) then ["profilePicture"] else [])
    ensures forall i :: 0 <= i < 6 ==> e[i].1 == Get(r, [Name, Email, PhoneNumber, Department, Designation, Bio][i])
  {
    [("name", Get(r, Name)), ("email", Get(r, Email)), ("phoneNumber", Get(r, PhoneNumber)),
     ("department", Get(r, Department)), ("designation", Get(r, Designation)), ("bio", Get(r, Bio))]
    + (if Truthy(Get(r, ProfilePicture)) then [("profilePicture", Get(r, ProfilePicture))] else [])
  }

  /** The reset after a password change. */
  function ClearPasswords(r: Form): Form {
    Set(Set(Set(r, CurrentPassword, Str("")), NewPassword, Str("")), ConfirmPassword, Str(""))
  }

  /** After a password change the three password fields are empty, every
      other field is as it was, and the fields keep their order. */
  lemma ClearPasswordsMeaning(r: Form, f: Field)
    requires f !in {CurrentPassword, NewPassword, ConfirmPassword}
    requires Keys(r) == Fields
    ensures Get(ClearPasswords(r), CurrentPassword) == Str("")
    ensures Get(ClearPasswords(r), NewPassword) == Str("")
    ensures Get(ClearPasswords(r), ConfirmPassword) == Str("")
    ensures Get(ClearPasswords(r), f) == Get(r, f)
    ensures Keys(ClearPasswords(r)) == Fields
  {
    var r1 := Set(r, CurrentPassword, Str(""));
    var r2 := Set(r1, NewPassword, Str(""));
    SetGet(r, CurrentPassword, Str(""), f);
    SetGet(r1, NewPassword, Str(""), f);
    SetGet(r2, ConfirmPassword, Str(""), f);
    SetGet(r1, NewPassword, Str(""), CurrentPassword);
    SetGet(r2, ConfirmPassword, Str(""), CurrentPassword);
    SetGet(r2, ConfirmPassword, Str(""), NewPassword);
    assert CurrentPassword in Keys(r) by { assert Keys(r)[7] == CurrentPassword; }
    SetKeys(r, CurrentPassword, Str(""));
    assert NewPassword in Keys(r1) by { assert Keys(r1)[8] == NewPassword; }
    SetKeys(r1, NewPassword, Str(""));
    assert ConfirmPassword in Keys(r2) by { assert Keys(r2)[9] == ConfirmPassword; }
    SetKeys(r2, ConfirmPassword, Str(""));
  }

  class ProfileFormView {
    var formData: Form
    var errors: ErrorMap<Field>
    var isEditing: bool
    var activeTab: Tab

    ghost predicate Valid()
      reads this
    {
      DistinctKeys(formData)
    }

    constructor ()
      ensures Valid() && formData == EmptyForm() && errors == map[] && !isEditing && activeTab == ProfileTab
    {
      formData := EmptyForm();
      errors := map[];
      isEditing := false;
      activeTab := ProfileTab;
    }

    /** The effect on a new `profile` prop. */
    method Load(profile: Option<Record<string>>)
      requires Valid()
      modifies this
      ensures Valid()
      ensures profile.Some? ==> formData == Loaded(profile.value)
      ensures profile.None? ==> formData == old(formData)
      ensures errors == old(errors) && isEditing == old(isEditing) && activeTab == old(activeTab)
    {
      if profile.Some? {
        formData := Loaded(profile.value);
      }
    }

    /** The two tab buttons: the errors of the other tab stay. */
    method SetActiveTab(tab: Tab)
      modifies this
      ensures activeTab == tab
      ensures formData == old(formData) && errors == old(errors) && isEditing == old(isEditing)
    {
      activeTab := tab;
    }

    /** 'Edit Profile'. */
    method StartEditing()
      modifies this
      ensures isEditing
      ensures formData == old(formData) && errors == old(errors) && activeTab == old(activeTab)
    {
      isEditing := true;
    }

    method HandleInputChange(name: Field, value: string)
      requires Valid()
      modifies this
      ensures Valid()
      ensures formData == Set(old(formData), name, Str(value))
      ensures errors == ClearError(old(errors), name)
      ensures isEditing == old(isEditing) && activeTab == old(activeTab)
    {
      SetKeepsDistinct(formData, name, Str(value));
      formData := Set(formData, name, Str(value));
      if name in errors && errors[name] != "" {
        errors := errors[name := ""];
      }
    }

    method HandleProfilePictureChange(file: Option<string>)
      requires Valid()
      modifies this
      ensures Valid()
      ensures file.Some? ==> formData == Set(old(formData), ProfilePicture, Upload(file.value))
      ensures file.None? ==> formData == old(formData)
      ensures errors == old(errors) && isEditing == old(isEditing) && activeTab == old(activeTab)
    {
      if file.Some? {
        SetKeepsDistinct(formData, ProfilePicture, Upload(file.value));
        formData := Set(formData, ProfilePicture, Upload(file.value));
      }
    }

    method ValidateForm() returns (valid: bool)
      modifies this
      ensures errors == Errors(formData, activeTab) && valid == (errors.Keys == {})
      ensures formData == old(formData) && isEditing == old(isEditing) && activeTab == old(activeTab)
    {
      errors := Errors(formData, activeTab);
      valid := |errors.Keys| == 0;
    }

    /** `handleSubmit`: a form that fails its tab's checks stays as it is,
        with its errors. Otherwise the profile tab saves its entries, the
        password tab saves the two passwords and empties the password
        fields, and editing ends. */
    method HandleSubmit() returns (saved: Option<Saved>)
      requires Valid()
      modifies this
      ensures Valid()
      ensures errors == Errors(old(formData), activeTab) && activeTab == old(activeTab)
      ensures saved.None? <==> errors.Keys != {}
      ensures saved.None? ==> formData == old(formData) && isEditing == old(isEditing)
      ensures saved.Some? ==> !isEditing
      ensures saved.Some? && activeTab == ProfileTab ==>
        saved.value == ProfileData(ProfileEntries(old(formData))) && formData == old(formData)
      ensures saved.Some? && activeTab == PasswordTab ==>
        && saved.value == PasswordData(Get(old(formData), CurrentPassword), Get(old(formData), NewPassword))
        && formData == ClearPasswords(old(formData))
    {
      var valid := ValidateForm();
      if !valid {
        return None;
      }
      if activeTab == ProfileTab {
        var entries := [("name", Get(formData, Name)), ("email", Get(formData, Email)),
                        ("phoneNumber", Get(formData, PhoneNumber)), ("department", Get(formData, Department)),
                        ("designation", Get(formData, Designation)), ("bio", Get(formData, Bio))];
        if Truthy(Get(formData, ProfilePicture)) {
          entries := entries + [("profilePicture", Get(formData, ProfilePicture))];
        }
        saved := Some(ProfileData(entries));
      } else {
        saved := Some(PasswordData(Get(formData, CurrentPassword), Get(formData, NewPassword)));
        SetKeepsDistinct(formData, CurrentPassword, Str(""));
        formData := Set(formData, CurrentPassword, Str(""));
        SetKeepsDistinct(formData, NewPassword, Str(""));
        formData := Set(formData, NewPassword, Str(""));
        SetKeepsDistinct(formData, ConfirmPassword, Str(""));
        formData := Set(formData, ConfirmPassword, Str(""));
      }
      isEditing := false;
    }

    /** 'Cancel': back to the profile's data (when there is one), no
        errors, editing ends. */
    method CancelEdit(profile: Option<Record<string>>)
      requires Valid()
      modifies this
      ensures Valid()
      ensures profile.Some? ==> formData == Loaded(profile.value)
      ensures profile.None? ==> formData == old(formData)
      ensures errors == map[] && !isEditing && activeTab == old(activeTab)
    {
      if profile.Some? {
        formData := Loaded(profile.value);
      }
      errors := map[];
      isEditing := false;
    }
  }
}
