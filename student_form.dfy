/** The student create/edit form: its fields, the checks run on submit,
    and what it hands to `onSubmit`. The `student` and `isEditMode` props
    are parameters; the picture preview (a `FileReader` result) is left out. */
module StudentForm {
  import opened Optional
  import opened FormFields
  import Lists
  import Validators

  /** The form's fields; `Key` gives each one's property name. */
  datatype Field = Name | Email | StudentId | Department | Batch | PhoneNumber | Address
                 | ProfilePicture | Password | ConfirmPassword

  function Key(f: Field): string {
    match f
    case Name => "name"
    case Email => "email"
    case StudentId => "studentId"
    case Department => "department"
    case Batch => "batch"
    case PhoneNumber => "phoneNumber"
    case Address => "address"
    case ProfilePicture => "profilePicture"
    case Password => "password"
    case ConfirmPassword => "confirmPassword"
  }

  type Form = Record<Field>

  /** The fields, in the order the initial state declares them. */
  const Fields := [Name, Email, StudentId, Department, Batch, PhoneNumber, Address, ProfilePicture, Password, ConfirmPassword]

  function EmptyForm(): (r: Form)
    ensures Keys(r) == Fields && DistinctKeys(r)
  {
    [(Name, Str("")), (Email, Str("")), (StudentId, Str("")), (Department, Str("")), (Batch, Str("")),
     (PhoneNumber, Str("")), (Address, Str("")), (ProfilePicture, Null), (Password, Str("")), (ConfirmPassword, Str(""))]
  }

  /** The form an edit-mode load sets from the fetched student: its text
      fields (or ''), no picture, empty passwords. */
  function Loaded(student: Record<string>): (r: Form)
    ensures Keys(r) == Fields && DistinctKeys(r)
    ensures forall i :: 0 <= i < 7 ==> r[i].1 == OrEmpty(Get(student, Key(r[i].0)))
    ensures r[7].1 == Null && r[8].1 == Str("") && r[9].1 == Str("")
  {
    [(Name, OrEmpty(Get(student, "name"))), (Email, OrEmpty(Get(student, "email"))),
     (StudentId, OrEmpty(Get(student, "studentId"))), (Department, OrEmpty(Get(student, "department"))),
     (Batch, OrEmpty(Get(student, "batch"))), (PhoneNumber, OrEmpty(Get(student, "phoneNumber"))),
     (Address, OrEmpty(Get(student, "address"))), (ProfilePicture, Null), (Password, Str("")), (ConfirmPassword, Str(""))]
  }

  /** The fields `validateForm` checks. */
  const Checked := {Name, Email, StudentId, Department, Batch, PhoneNumber, Password, ConfirmPassword}

  /** The message `validateForm` records for one field, if any; the
      password checks run only when not in edit mode. */
  function Message(r: Form, editMode: bool, f: Field): Option<string> {
    match f
    case Name => RequiredError(r, Name, "Name is required")
    case Email => EmailError(r, Email)
    case StudentId => RequiredError(r, StudentId, "Student ID is required")
    case Department => RequiredError(r, Department, "Department is required")
    case Batch => RequiredError(r, Batch, "Batch is required")
    case PhoneNumber => PhoneError(r, PhoneNumber)
    case Password => if editMode then None else PasswordError(r, Password, "Password is required")
    case ConfirmPassword => if editMode then None else ConfirmError(r, Password, ConfirmPassword, "Please confirm password")
    case _ => None
  }

  function Check(r: Form, editMode: bool): Field -> Option<string> {
    (f: Field) => Message(r, editMode, f)
  }

  /** The error map: one entry per checked field that failed. */
  function Errors(r: Form, editMode: bool): ErrorMap<Field> {
    ErrorsOf(Checked, Check(r, editMode))
  }

  /** The conditions under which the form is accepted, written out. */
  predicate Acceptable(r: Form, editMode: bool) {
    && Truthy(Get(r, Name))
    && Truthy(Get(r, Email)) && LooseEmail(StrOf(Get(r, Email)))
    && Truthy(Get(r, StudentId)) && Truthy(Get(r, Department)) && Truthy(Get(r, Batch))
    && (Truthy(Get(r, PhoneNumber)) ==> Validators.PhonePattern(StrOf(Get(r, PhoneNumber))))
    && (!editMode ==>
          && Truthy(Get(r, Password)) && !ShorterThan(Get(r, Password), 8)
          && Truthy(Get(r, ConfirmPassword)) && Get(r, Password) == Get(r, ConfirmPassword))
  }

  /** An edit-mode form is never refused for its passwords. */
  lemma EditModeSkipsPasswords(r: Form)
    ensures Password !in Errors(r, true) && ConfirmPassword !in Errors(r, true)
  {
  }

  /** The form is accepted exactly when every check passes. */
  lemma ErrorsEmptyIffAcceptable(r: Form, editMode: bool)
    ensures Errors(r, editMode).Keys == {} <==> Acceptable(r, editMode)
  {
    if Errors(r, editMode).Keys == {} {
      NoErrorsAcceptable(r, editMode);
    } else {
      ErrorMeansUnacceptable(r, editMode);
    }
  }

  lemma NoErrorsAcceptable(r: Form, editMode: bool)
    requires Errors(r, editMode).Keys == {}
    ensures Acceptable(r, editMode)
  {
    var e := Errors(r, editMode);
    assert Name !in e && Email !in e && StudentId !in e && Department !in e;
    assert Batch !in e && PhoneNumber !in e && Password !in e && ConfirmPassword !in e;
  }

  lemma ErrorMeansUnacceptable(r: Form, editMode: bool)
    requires Errors(r, editMode).Keys != {}
    ensures !Acceptable(r, editMode)
  {
    var f :| f in Errors(r, editMode).Keys;
    assert Message(r, editMode, f).Some?;
  }

  /** A missing required field always carries its message. */
  lemma RequiredMessages(r: Form, editMode: bool)
    ensures !Truthy(Get(r, Name)) ==> Errors(r, editMode)[Name] == "Name is required"
    ensures !Truthy(Get(r, Email)) ==> Errors(r, editMode)[Email] == "Email is required"
    ensures !Truthy(Get(r, StudentId)) ==> Errors(r, editMode)[StudentId] == "Student ID is required"
    ensures !Truthy(Get(r, Department)) ==> Errors(r, editMode)[Department] == "Department is required"
    ensures !Truthy(Get(r, Batch)) ==> Errors(r, editMode)[Batch] == "Batch is required"
  {
  }

  /** Outside edit mode: the password is required and at least eight
      characters, and the confirmation is required and must match. */
  lemma PasswordMessages(r: Form)
    ensures !Truthy(Get(r, Password)) ==> Errors(r, false)[Password] == "Password is required"
    ensures Truthy(Get(r, Password)) && ShorterThan(Get(r, Password), 8) ==>
      Errors(r, false)[Password] == "Password must be at least 8 characters"
    ensures !Truthy(Get(r, ConfirmPassword)) ==> Errors(r, false)[ConfirmPassword] == "Please confirm password"
    ensures Truthy(Get(r, ConfirmPassword)) && Get(r, Password) != Get(r, ConfirmPassword) ==>
      Errors(r, false)[ConfirmPassword] == "Passwords do not match"
  {
  }

  /** `FormData` keys are the fields' property names. */
  function Named(entries: Form): (r: Record<string>)
    ensures |r| == |entries| && forall i :: 0 <= i < |entries| ==> r[i] == (Key(entries[i].0), entries[i].1)
  {
    seq(|entries|, i requires 0 <= i < |entries| => (Key(entries[i].0), entries[i].1))
  }

  /** What the submit loop sends from a form. */
  function Sent(r: Form): Form {
    Lists.Filter(r, Sends(ProfilePicture, {ConfirmPassword}))
  }

  /** The submitted fields: in the form's order, every field but the
      confirmation, and the picture only when one was chosen. In edit mode
      the (empty) password fields are therefore still sent. */
  lemma SentFields(r: Form)
    ensures Lists.IsSubsequence(Sent(r), r)
    ensures forall e :: e in Sent(r) <==>
      e in r && e.0 != ConfirmPassword && (e.0 == ProfilePicture ==> Truthy(e.1))
    ensures DistinctKeys(r) ==> forall e :: e in Sent(r) ==> Get(r, e.0) == e.1
  {
    SubmittedEntries(r, ProfilePicture, {ConfirmPassword});
  }

  /** The form component's state. */
  class StudentFormView {
    var formData: Form
    var errors: ErrorMap<Field>
    /** The `isEditMode` prop. */
    const editMode: bool

    ghost predicate Valid()
      reads this
    {
      DistinctKeys(formData)
    }

    constructor (editMode: bool)
      ensures Valid() && formData == EmptyForm() && errors == map[] && this.editMode == editMode
    {
      formData := EmptyForm();
      errors := map[];
      this.editMode := editMode;
    }

    /** The effect on a new `student` prop: in edit mode with a student,
        the form is reloaded from it. */
    method Load(student: Option<Record<string>>)
      requires Valid()
      modifies this
      ensures Valid()
      ensures student.Some? && editMode ==> formData == Loaded(student.value)
      ensures !(student.Some? && editMode) ==> formData == old(formData)
      ensures errors == old(errors)
    {
      if student.Some? && editMode {
        formData := Loaded(student.value);
      }
    }

    /** `handleInputChange`: the field takes the typed text and loses its error. */
    method HandleInputChange(name: Field, value: string)
      requires Valid()
      modifies this
      ensures Valid()
      ensures formData == Set(old(formData), name, Str(value))
      ensures errors == ClearError(old(errors), name)
    {
      SetKeepsDistinct(formData, name, Str(value));
      formData := Set(formData, name, Str(value));
      if name in errors && errors[name] != "" {
        errors := errors[name := ""];
      }
    }

    /** `handleProfilePictureChange`: a chosen file replaces the picture;
        no file changes nothing. */
    method HandleProfilePictureChange(file: Option<string>)
      requires Valid()
      modifies this
      ensures Valid()
      ensures file.Some? ==> formData == Set(old(formData), ProfilePicture, Upload(file.value))
      ensures file.None? ==> formData == old(formData)
      ensures errors == old(errors)
    {
      if file.Some? {
        SetKeepsDistinct(formData, ProfilePicture, Upload(file.value));
        formData := Set(formData, ProfilePicture, Upload(file.value));
      }
    }

    /** `validateForm`: records the error map and says whether it is empty. */
    method ValidateForm() returns (valid: bool)
      modifies this
      ensures errors == Errors(formData, editMode) && valid == (errors.Keys == {})
      ensures formData == old(formData)
    {
      errors := Errors(formData, editMode);
      valid := |errors.Keys| == 0;
    }

    /** `handleSubmit`: nothing is sent unless the form validates; then the
        fields go out under their property names, and in edit mode the
        student's id last when it has one. */
    method HandleSubmit(student: Option<Record<string>>) returns (submitted: Option<Record<string>>)
      modifies this
      ensures errors == Errors(old(formData), editMode) && formData == old(formData)
      ensures submitted.Some? <==> errors.Keys == {}
      ensures submitted.Some? ==>
        if editMode && student.Some? && Truthy(Get(student.value, "id"))
        then submitted.value == Named(Sent(formData)) + [("id", Get(student.value, "id"))]
        else submitted.value == Named(Sent(formData))
    {
      var valid := ValidateForm();
      if !valid {
        return None;
      }
      var entries := CollectEntries(formData, ProfilePicture, {ConfirmPassword});
      var named := seq(|entries|, i requires 0 <= i < |entries| => (Key(entries[i].0), entries[i].1));
      if editMode && student.Some? && Truthy(Get(student.value, "id")) {
        named := named + [("id", Get(student.value, "id"))];
      }
      submitted := Some(named);
    }
  }
}
