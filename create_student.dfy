/** The 'Create New Student' page: its form state, the required-field
    checks, the change handler shared by text inputs and the checkbox, and
    the submit flow. The `createStudent` call becomes its outcome, passed
    in; the current year is a parameter. */
module CreateStudent {
  import opened Optional
  import opened FormFields

  datatype Field = Name | Email | StudentId | Course | Phone | Dob | AdmissionYear | IsActive

  type Form = Record<Field>

  const Fields := [Name, Email, StudentId, Course, Phone, Dob, AdmissionYear, IsActive]

  /** The initial form: empty text, the current year, active. */
  function InitialForm(currentYear: int): (r: Form)
    ensures Keys(r) == Fields && DistinctKeys(r)
  {
    [(Name, Str("")), (Email, Str("")), (StudentId, Str("")), (Course, Str("")),
     (Phone, Str("")), (Dob, Str("")), (AdmissionYear, Number(currentYear)), (IsActive, Flag(true))]
  }

  /** The initial values: every text field empty, the admission year the
      current year, the student active. */
  lemma InitialValues(currentYear: int)
    ensures var r := InitialForm(currentYear);
      && Get(r, AdmissionYear) == Number(currentYear) && Get(r, IsActive) == Flag(true)
      && Get(r, Name) == Str("") && Get(r, Email) == Str("") && Get(r, StudentId) == Str("")
      && Get(r, Course) == Str("") && Get(r, Phone) == Str("") && Get(r, Dob) == Str("")
  {
    var r := InitialForm(currentYear);
    GetOfEntry(r, 1);
    GetOfEntry(r, 2);
    GetOfEntry(r, 3);
    GetOfEntry(r, 4);
    GetOfEntry(r, 5);
    GetOfEntry(r, 6);
    GetOfEntry(r, 7);
  }

  /** What a change event carries: a checkbox's `checked`, or an input's `value`. */
  datatype Input = TextValue(value: string) | Checkbox(checked: bool)

  function ValueOf(input: Input): (v: Value)
    ensures input.Checkbox? ==> v == Flag(input.checked)
    ensures input.TextValue? ==> v == Str(input.value)
  {
    match input
    case TextValue(s) => Str(s)
    case Checkbox(b) => Flag(b)
  }

  /** The fields `validateForm` requires; nothing else is checked. */
  const Required := {Name, Email, StudentId, Course}

  function Message(r: Form, f: Field): Option<string> {
    match f
    case Name => RequiredError(r, Name, "Name is required")
    case Email => RequiredError(r, Email, "Email is required")
    case StudentId => RequiredError(r, StudentId, "Student ID is required")
    case Course => RequiredError(r, Course, "Course is required")
    case _ => None
  }

  function Check(r: Form): Field -> Option<string> {
    (f: Field) => Message(r, f)
  }

  function Errors(r: Form): ErrorMap<Field> {
    ErrorsOf(Required, Check(r))
  }

  /** The form is accepted exactly when the four required fields are
      filled in: there are no format checks. */
  lemma ErrorsEmptyIffFilled(r: Form)
    ensures Errors(r).Keys == {} <==>
      Truthy(Get(r, Name)) && Truthy(Get(r, Email)) && Truthy(Get(r, StudentId)) && Truthy(Get(r, Course))
  {
    var e := Errors(r);
    if e.Keys == {} {
      assert Name !in e && Email !in e && StudentId !in e && Course !in e;
    } else {
      var f :| f in e.Keys;
      assert Message(r, f).Some?;
    }
  }

  /** Each missing required field carries its own message, and only
      required fields can carry one. */
  lemma RequiredMessages(r: Form)
    ensures Errors(r).Keys <= Required
    ensures !Truthy(Get(r, Name)) ==> Errors(r)[Name] == "Name is required"
    ensures !Truthy(Get(r, Email)) ==> Errors(r)[Email] == "Email is required"
    ensures !Truthy(Get(r, StudentId)) ==> Errors(r)[StudentId] == "Student ID is required"
    ensures !Truthy(Get(r, Course)) ==> Errors(r)[Course] == "Course is required"
  {
  }

  /** A fresh form is refused on every required field. */
  lemma InitialFormRefused(currentYear: int)
    ensures Errors(InitialForm(currentYear)).Keys == Required
  {
    var e := Errors(InitialForm(currentYear));
    InitialValues(currentYear);
    assert Name in e && Email in e && StudentId in e && Course in e;
  }

  /** Where a successful creation navigates, with the message it carries. */
  const ListPath := "/students"
  const CreatedMessage := "Student created successfully"
  const DefaultFailure := "Failed to create student"

  /** What `createStudent` did: an error carries its (possibly empty) message. */
  datatype Outcome = Created | Failed(message: string)

  datatype Navigation = Navigation(path: string, message: string)

  class CreateStudentPage {
    var formData: Form
    var errors: ErrorMap<Field>
    var isSubmitting: bool
    var submitError: Option<string>

    ghost predicate Valid()
      reads this
    {
      DistinctKeys(formData)
    }

    constructor (currentYear: int)
      ensures Valid() && formData == InitialForm(currentYear) && errors == map[]
      ensures !isSubmitting && submitError == None
    {
      formData := InitialForm(currentYear);
      errors := map[];
      isSubmitting := false;
      submitError := None;
    }

    /** `handleChange`: the field takes the new value and loses its error. */
    method HandleChange(name: Field, input: Input)
      requires Valid()
      modifies this
      ensures Valid()
      ensures formData == Set(old(formData), name, ValueOf(input))
      ensures errors == ClearError(old(errors), name)
      ensures isSubmitting == old(isSubmitting) && submitError == old(submitError)
    {
      var value := if input.Checkbox? then Flag(input.checked) else Str(input.value);
      SetKeepsDistinct(formData, name, value);
      formData := Set(formData, name, value);
      if name in errors && errors[name] != "" {
        errors := errors[name := ""];
      }
    }

    method ValidateForm() returns (valid: bool)
      modifies this
      ensures errors == Errors(formData) && valid == (errors.Keys == {})
      ensures formData == old(formData) && isSubmitting == old(isSubmitting) && submitError == old(submitError)
    {
      errors := Errors(formData);
      valid := |errors.Keys| == 0;
    }

    /** `handleSubmit`: an invalid form sends nothing and changes only the
        errors. A valid one is sent as it stands; success navigates to the
        list with its message, failure shows the error's message or the
        default one. Submitting is over either way. */
    method HandleSubmit(outcome: Outcome) returns (sent: Option<Form>, navigateTo: Option<Navigation>)
      modifies this
      ensures errors == Errors(old(formData)) && formData == old(formData)
      ensures sent.Some? <==> errors.Keys == {}
      ensures sent.Some? ==> sent.value == formData && !isSubmitting
      ensures sent.None? ==> navigateTo.None? && isSubmitting == old(isSubmitting) && submitError == old(submitError)
      ensures sent.Some? && outcome.Created? ==>
        navigateTo == Some(Navigation(ListPath, CreatedMessage)) && submitError == None
      ensures sent.Some? && outcome.Failed? ==>
        navigateTo.None? && submitError == Some(if outcome.message != "" then outcome.message else DefaultFailure)
    {
      var valid := ValidateForm();
      if !valid {
        return None, None;
      }
      isSubmitting := true;
      submitError := None;
      sent := Some(formData);
      navigateTo := None;
      match outcome {
        case Created =>
          navigateTo := Some(Navigation(ListPath, CreatedMessage));
        case Failed(message) =>
          submitError := Some(if message != "" then message else DefaultFailure);
      }
      isSubmitting := false;
    }
  }
}
