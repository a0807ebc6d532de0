/** The shared validation helpers: email and phone shape, the password
    rules in the order they are checked, required and match checks, and the
    rule-driven form validator that builds an error map field by field.

    Form values are strings; a field missing from the data reads as absent
    (`undefined`), and absent and "" are the falsy values. */
module Validators {
  import opened Optional
  import opened Text
  import Lists

  /** A character the email pattern admits outside the '@': `[^\s@]`. */
  predicate EmailChar(c: char) { !IsWhitespace(c) && c != '@' }

  function IndexOf(s: string, c: char): (i: nat)
    ensures i <= |s|
    ensures i < |s| ==> s[i] == c
    ensures forall j :: 0 <= j < i ==> s[j] != c
    decreases |s|
  {
    if s == [] then 0 else if s[0] == c then 0 else 1 + IndexOf(s[1..], c)
  }

  predicate NoneAt(s: string) { forall j :: 0 <= j < |s| ==> s[j] != '@' }

  /** A '.' that is neither the first nor the last character. */
  predicate DotInside(s: string) { exists k | 1 <= k < |s| - 1 :: s[k] == '.' }

  /** The language of `^[^\s@]+@[^\s@]+\.[^\s@]+$`: one '@' with a non-empty
      part before it, and after it a '.' with something on both sides; no
      whitespace and no other '@' anywhere. */
  ghost predicate EmailPattern(s: string) {
    exists at, dot :: 0 < at && at + 1 < dot < |s| - 1 && s[at] == '@' && s[dot] == '.' &&
      forall j :: 0 <= j < |s| && j != at ==> EmailChar(s[j])
  }

  /** `isValidEmail`: the '@' found first must be preceded by something, and
      what follows it must hold no other '@' and a '.' inside it. */
  function IsValidEmail(email: string): (ok: bool)
    ensures email == "" ==> !ok
    ensures ok ==> IndexOf(email, '@') < |email| && !HasWhitespace(email)
  {
    var i := IndexOf(email, '@');
    email != "" && !HasWhitespace(email) && 0 < i < |email|
      && NoneAt(email[i + 1..]) && DotInside(email[i + 1..])
  }

  /** The check accepts exactly the strings of the pattern. */
  lemma EmailMatchesPattern(email: string)
    ensures IsValidEmail(email) <==> EmailPattern(email)
  {
    var i := IndexOf(email, '@');
    if IsValidEmail(email) {
      var rest := email[i + 1..];
      var k :| 1 <= k < |rest| - 1 && rest[k] == '.';
      assert email[i + 1 + k] == '.';
      forall j | 0 <= j < |email| && j != i ensures EmailChar(email[j]) {
        if j > i { assert email[j] == rest[j - i - 1]; }
      }
    }
    if EmailPattern(email) {
      var at, dot :| 0 < at && at + 1 < dot < |email| - 1 && email[at] == '@' && email[dot] == '.' &&
        forall j :: 0 <= j < |email| && j != at ==> EmailChar(email[j]);
      assert !EmailChar(email[at]);
      assert i == at;
      assert email[i + 1..][dot - i - 1] == '.';
      assert !HasWhitespace(email) by {
        forall j | 0 <= j < |email| ensures !IsWhitespace(email[j]) {
          if j != at { assert EmailChar(email[j]); }
        }
      }
    }
  }

  /** What `validatePassword` returns. */
  datatype PasswordCheck = PasswordCheck(isValid: bool, message: string)

  /** `validatePassword`: the rules are checked in the order missing, too
      short, no upper-case letter, no lower-case letter, no digit, and the
      first one that fails gives the message. */
  function ValidatePassword(password: string): (r: PasswordCheck)
    ensures r.isValid <==> |password| >= 8 && HasUpper(password) && HasLower(password) && HasDigit(password)
    ensures password == "" ==> r.message == "Password is required"
    ensures password != "" && |password| < 8 ==> r.message == "Password must be at least 8 characters long"
    ensures |password| >= 8 && !HasUpper(password) ==>
      r.message == "Password must contain at least one uppercase letter"
    ensures |password| >= 8 && HasUpper(password) && !HasLower(password) ==>
      r.message == "Password must contain at least one lowercase letter"
    ensures |password| >= 8 && HasUpper(password) && HasLower(password) && !HasDigit(password) ==>
      r.message == "Password must contain at least one number"
    ensures r.isValid <==> r.message == "Password is valid"
  {
    if password == "" then PasswordCheck(false, "Password is required")
    else if |password| < 8 then PasswordCheck(false, "Password must be at least 8 characters long")
    else if !HasUpper(password) then PasswordCheck(false, "Password must contain at least one uppercase letter")
    else if !HasLower(password) then PasswordCheck(false, "Password must contain at least one lowercase letter")
    else if !HasDigit(password) then PasswordCheck(false, "Password must contain at least one number")
    else PasswordCheck(true, "Password is valid")
  }

  /** The characters `[\s()-]` that the phone check deletes first. */
  predicate PhoneSeparator(c: char) { IsWhitespace(c) || c == '(' || c == ')' || c == '-' }

  function StripPhone(phone: string): (r: string)
    ensures forall i :: 0 <= i < |r| ==> !PhoneSeparator(r[i])
  {
    Lists.Filter(phone, (c: char) => !PhoneSeparator(c))
  }

  /** `^\+?[0-9]{10,15}$`. */
  predicate PhonePattern(s: string) {
    var digits := if s != [] && s[0] == '+' then s[1..] else s;
    10 <= |digits| <= 15 && AllDigits(digits)
  }

  /** `isValidPhone`. */
  function IsValidPhone(phone: string): (ok: bool)
    ensures ok <==> (phone != "" &&
      var d := StripPhone(phone);
      (AllDigits(d) && 10 <= |d| <= 15) || (|d| > 0 && d[0] == '+' && AllDigits(d[1..]) && 11 <= |d| <= 16))
  {
    phone != "" && PhonePattern(StripPhone(phone))
  }

  /** Separators may be added anywhere in a non-empty phone number without
      changing whether it is accepted. */
  lemma PhoneIgnoresSeparators(a: string, b: string, c: char)
    requires PhoneSeparator(c) && a + b != ""
    ensures IsValidPhone(a + [c] + b) == IsValidPhone(a + b)
  {
    var keep := (c: char) => !PhoneSeparator(c);
    Lists.FilterAppend(a, [c] + b, keep);
    Lists.FilterAppend([c], b, keep);
    Lists.FilterAppend(a, b, keep);
    assert a + [c] + b == a + ([c] + b);
  }

  /** A number written without separators is checked as it stands. */
  lemma StripPhonePlain(phone: string)
    requires forall i :: 0 <= i < |phone| ==> !PhoneSeparator(phone[i])
    ensures StripPhone(phone) == phone
  {
    Lists.FilterAllKept(phone, (c: char) => !PhoneSeparator(c));
  }

  /** Whether a form value is truthy: present and not "". */
  predicate Truthy(v: Option<string>) { v.Some? && v.value != "" }

  /** `validateRequired`. */
  function ValidateRequired(value: Option<string>, fieldName: string): (r: Option<string>)
    ensures r.Some? <==> value == None || forall i :: 0 <= i < |value.value| ==> IsWhitespace(value.value[i])
    ensures r.Some? ==> r.value == fieldName + " is required"
  {
    TrimEmptyIffBlank(if value.Some? then value.value else "");
    if !Truthy(value) || Trim(value.value) == "" then Some(fieldName + " is required") else None
  }

  /** `validateMatch`. */
  function ValidateMatch(value: string, confirmValue: string, fieldName: string := "Passwords"): (r: Option<string>)
    ensures r == None <==> value == confirmValue
    ensures r.Some? ==> r.value == fieldName + " do not match"
  {
    if value != confirmValue then Some(fieldName + " do not match") else None
  }

  /** The form data: each field name maps to its string value. */
  type FormData = map<string, string>

  /** A `custom` rule: given the field's value and all the data, an error
      message, or "" for none. */
  type CustomRule = (Option<string>, FormData) -> string

  /** The rules for one field; `minLength` and `maxLength` are 0 when not set,
      `displayLabel` (the rule's `label`) is "" when not set. */
  datatype FieldRules = FieldRules(
    field: string,
    required: bool,
    email: bool,
    phone: bool,
    password: bool,
    custom: Option<CustomRule>,
    minLength: nat,
    maxLength: nat,
    displayLabel: string)

  function Get(data: FormData, field: string): Option<string> {
    if field in data then Some(data[field]) else None
  }

  /** `fieldRules.label || field`. */
  function LabelOf(rules: FieldRules): string {
    if rules.displayLabel != "" then rules.displayLabel else rules.field
  }

  function MinLengthMessage(rules: FieldRules): string {
    LabelOf(rules) + " must be at least " + NatToString(rules.minLength) + " characters"
  }

  function MaxLengthMessage(rules: FieldRules): string {
    LabelOf(rules) + " must not exceed " + NatToString(rules.maxLength) + " characters"
  }

  /** The error the checks leave on one field: each failing check, in the
      order required, email, phone, password, custom, minLength, maxLength,
      overwrites what the earlier ones wrote. */
  function FieldError(data: FormData, rules: FieldRules): Option<string> {
    var v := Get(data, rules.field);
    var e0: Option<string> := None;
    var e1 := if rules.required && ValidateRequired(v, rules.field).Some? then ValidateRequired(v, LabelOf(rules)) else e0;
    var e2 := if rules.email && Truthy(v) && !IsValidEmail(v.value) then Some("Please enter a valid email address") else e1;
    var e3 := if rules.phone && Truthy(v) && !IsValidPhone(v.value) then Some("Please enter a valid phone number") else e2;
    var e4 := if rules.password && Truthy(v) && !ValidatePassword(v.value).isValid then Some(ValidatePassword(v.value).message) else e3;
    var e5 := if rules.custom.Some? && rules.custom.value(v, data) != "" then Some(rules.custom.value(v, data)) else e4;
    var e6 := if rules.minLength > 0 && Truthy(v) && |v.value| < rules.minLength then Some(MinLengthMessage(rules)) else e5;
    if rules.maxLength > 0 && Truthy(v) && |v.value| > rules.maxLength then Some(MaxLengthMessage(rules)) else e6
  }

  /** The names of the fields that rules are given for. */
  function Fields(rules: seq<FieldRules>): set<string> {
    set i | 0 <= i < |rules| :: rules[i].field
  }

  /** Rules are the values of an object keyed by field name: no field twice. */
  ghost predicate DistinctFields(rules: seq<FieldRules>) {
    forall i, j :: 0 <= i < j < |rules| ==> rules[i].field != rules[j].field
  }

  /** The error map after the checks of the given rules, in their order. */
  function FormErrors(data: FormData, rules: seq<FieldRules>): map<string, string>
    decreases |rules|
  {
    if rules == [] then map[]
    else
      var last := rules[|rules| - 1];
      var earlier := FormErrors(data, rules[..|rules| - 1]);
      match FieldError(data, last)
      case Some(message) => earlier[last.field := message]
      case None => earlier
  }

  /** Every error message the checks write names the failing check; none is "". */
  lemma FieldErrorNotEmpty(data: FormData, rules: FieldRules)
    ensures FieldError(data, rules).Some? ==> FieldError(data, rules).value != ""
  {
  }

  /** A field has an error in the map exactly when one of its checks failed,
      and then it is that field's error; only fields with rules are examined. */
  lemma {:induction false} FormErrorsEntries(data: FormData, rules: seq<FieldRules>)
    requires DistinctFields(rules)
    ensures FormErrors(data, rules).Keys <= Fields(rules)
    ensures forall i :: 0 <= i < |rules| ==>
      (rules[i].field in FormErrors(data, rules) <==> FieldError(data, rules[i]).Some?)
    ensures forall i :: 0 <= i < |rules| && FieldError(data, rules[i]).Some? ==>
      FormErrors(data, rules)[rules[i].field] == FieldError(data, rules[i]).value
    decreases |rules|
  {
    if rules != [] {
      var n := |rules| - 1;
      var init, last := rules[..n], rules[n];
      FormErrorsEntries(data, init);
      var earlier, errors := FormErrors(data, init), FormErrors(data, rules);
      assert Fields(rules) == Fields(init) + {last.field} by {
        assert forall i :: 0 <= i < n ==> init[i] == rules[i];
      }
      assert last.field !in Fields(init);
      forall i | 0 <= i < |rules|
        ensures rules[i].field in errors <==> FieldError(data, rules[i]).Some?
        ensures FieldError(data, rules[i]).Some? ==> errors[rules[i].field] == FieldError(data, rules[i]).value
      {
        if i < n {
          assert init[i] == rules[i];
          assert rules[i].field != last.field;
        }
      }
    }
  }

  /** The form is valid exactly when no field has an error. */
  lemma FormValidIffNoFieldFails(data: FormData, rules: seq<FieldRules>)
    requires DistinctFields(rules)
    ensures FormErrors(data, rules) == map[] <==> forall i :: 0 <= i < |rules| ==> FieldError(data, rules[i]) == None
  {
    FormErrorsEntries(data, rules);
    if FormErrors(data, rules) != map[] {
      var k :| k in FormErrors(data, rules);
      assert k in Fields(rules);
    }
  }

  /** On an empty or missing value the format and length checks are skipped:
      only `custom` and `required` can fail, and `custom` wins. */
  lemma EmptyValueSkipsFormatChecks(data: FormData, rules: FieldRules)
    requires !Truthy(Get(data, rules.field))
    ensures var v := Get(data, rules.field);
      FieldError(data, rules) ==
        if rules.custom.Some? && rules.custom.value(v, data) != "" then Some(rules.custom.value(v, data))
        else if rules.required then Some(LabelOf(rules) + " is required")
        else None
  {
  }

  /** The last failing check wins: a value over the maximum length reports
      that, whatever else failed; one under the minimum length reports that
      unless it is also over the maximum. */
  lemma LastFailingCheckWins(data: FormData, rules: FieldRules)
    requires Truthy(Get(data, rules.field))
    ensures rules.maxLength > 0 && |data[rules.field]| > rules.maxLength ==>
      FieldError(data, rules) == Some(MaxLengthMessage(rules))
    ensures (rules.minLength > 0 && |data[rules.field]| < rules.minLength &&
      !(rules.maxLength > 0 && |data[rules.field]| > rules.maxLength)) ==>
      FieldError(data, rules) == Some(MinLengthMessage(rules))
  {
  }

  /** The checks `validateForm` runs on one field, in the source's order;
      each failing check overwrites the error an earlier one left. */
  method CheckField(data: FormData, fieldRules: FieldRules) returns (error: Option<string>)
    ensures error == FieldError(data, fieldRules)
  {
    var value := Get(data, fieldRules.field);
    error := None;
    if fieldRules.required && ValidateRequired(value, fieldRules.field).Some? {
      error := ValidateRequired(value, LabelOf(fieldRules));
    }
    if fieldRules.email && Truthy(value) && !IsValidEmail(value.value) {
      error := Some("Please enter a valid email address");
    }
    if fieldRules.phone && Truthy(value) && !IsValidPhone(value.value) {
      error := Some("Please enter a valid phone number");
    }
    if fieldRules.password && Truthy(value) {
      var passwordResult := ValidatePassword(value.value);
      if !passwordResult.isValid {
        error := Some(passwordResult.message);
      }
    }
    if fieldRules.custom.Some? {
      var customError := fieldRules.custom.value(value, data);
      if customError != "" {
        error := Some(customError);
      }
    }
    if fieldRules.minLength > 0 && Truthy(value) && |value.value| < fieldRules.minLength {
      error := Some(MinLengthMessage(fieldRules));
    }
    if fieldRules.maxLength > 0 && Truthy(value) && |value.value| > fieldRules.maxLength {
      error := Some(MaxLengthMessage(fieldRules));
    }
  }

  /** What `validateForm` returns. */
  datatype FormResult = FormResult(errors: map<string, string>, isValid: bool)

  /** `validateForm`: one pass over the fields that have rules, in the order
      the rules object lists them. */
  method ValidateForm(data: FormData, rules: seq<FieldRules>) returns (result: FormResult)
    requires DistinctFields(rules)
    ensures result.errors == FormErrors(data, rules)
    ensures result.isValid <==> result.errors == map[]
    ensures result.errors.Keys <= Fields(rules)
  {
    var errors: map<string, string> := map[];
    var isValid := true;
    var i := 0;
    while i < |rules|
      invariant 0 <= i <= |rules|
      invariant errors == FormErrors(data, rules[..i])
      invariant isValid <==> errors == map[]
    {
      var fieldRules := rules[i];
      var error := CheckField(data, fieldRules);
      assert rules[..i + 1][..i] == rules[..i];
      if error.Some? {
        errors := errors[fieldRules.field := error.value];
        isValid := false;
        assert fieldRules.field in errors;
      }
      i := i + 1;
    }
    assert rules[..i] == rules;
    FormErrorsEntries(data, rules);
    result := FormResult(errors, isValid);
  }
}
