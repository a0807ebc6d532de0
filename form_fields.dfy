/** What the form components share: form values and their truthiness, the
    form record as a JavaScript object (its keys in insertion order), the
    error map and the way an edit clears one error, the per-field checks the
    forms write inline, and the loop that copies fields into the submitted
    `FormData`. */
module FormFields {
  import opened Text
  import Lists
  import Validators
  import opened Optional

  /** A form value: text from an input, a number, a checkbox state, a
      chosen file, or `null`/`undefined`. */
  datatype Value = Null | Str(s: string) | Number(n: int) | Flag(b: bool) | Upload(file: string)

  predicate Truthy(v: Value) {
    match v
    case Null => false
    case Str(s) => s != ""
    case Number(n) => n != 0
    case Flag(b) => b
    case Upload(_) => true
  }

  /** `String(value)`, the text a regular expression test reads: a number
      in decimal, a flag as 'true' or 'false', a chosen file as
      '[object File]'. The checks test truthiness first, so the text of
      `null`/`undefined` is never read; it is left empty here. */
  function StrOf(v: Value): (s: string)
    ensures v.Str? ==> s == v.s
    ensures v.Number? ==> s == IntToString(v.n) && s != ""
    ensures v.Flag? ==> s == (if v.b then "true" else "false")
    ensures v.Null? ==> s == ""
  {
    match v
    case Null => ""
    case Str(t) => t
    case Number(n) => IntToString(n)
    case Flag(b) => if b then "true" else "false"
    case Upload(_) => "[object File]"
  }

  /** `value.length < n`: only text has a length; for any other value the
      length is `undefined` and the comparison is false. */
  predicate ShorterThan(v: Value, n: int) {
    v.Str? && |v.s| < n
  }

  /** A JavaScript object: its entries in key insertion order. The forms
      name their keys by an enumeration of their fields. */
  type Record<K> = seq<(K, Value)>

  function Keys<K>(r: Record<K>): (ks: seq<K>)
    ensures |ks| == |r| && forall i :: 0 <= i < |r| ==> ks[i] == r[i].0
  {
    seq(|r|, i requires 0 <= i < |r| => r[i].0)
  }

  lemma KeysCons<K>(r: Record<K>)
    requires r != []
    ensures Keys(r) == [r[0].0] + Keys(r[1..])
  {
  }

  ghost predicate DistinctKeys<K>(r: Record<K>) {
    forall i, j :: 0 <= i < j < |r| ==> r[i].0 != r[j].0
  }

  /** `obj[key]`: `undefined` when the key is missing. */
  function Get<K(==)>(r: Record<K>, key: K): Value
    decreases |r|
  {
    if r == [] then Null else if r[0].0 == key then r[0].1 else Get(r[1..], key)
  }

  /** `{ ...obj, [key]: value }`: an existing key keeps its place, a new one goes last. */
  function Set<K(==)>(r: Record<K>, key: K, value: Value): (t: Record<K>)
    decreases |r|
  {
    if r == [] then [(key, value)]
    else if r[0].0 == key then [(key, value)] + r[1..]
    else [r[0]] + Set(r[1..], key, value)
  }

  /** Setting a key changes that key's value and nothing else: every other
      key reads as before. */
  lemma {:induction false} SetGet<K>(r: Record<K>, key: K, value: Value, other: K)
    requires other != key
    ensures Get(Set(r, key, value), key) == value
    ensures Get(Set(r, key, value), other) == Get(r, other)
    decreases |r|
  {
    if r != [] && r[0].0 != key {
      SetGet(r[1..], key, value, other);
      assert Set(r, key, value)[1..] == Set(r[1..], key, value);
    }
  }

  /** The keys keep their order, and a new key is appended. */
  lemma {:induction false} SetKeys<K>(r: Record<K>, key: K, value: Value)
    ensures key in Keys(r) ==> Keys(Set(r, key, value)) == Keys(r)
    ensures key !in Keys(r) ==> Keys(Set(r, key, value)) == Keys(r) + [key]
    decreases |r|
  {
    if r != [] && r[0].0 != key {
      SetKeys(r[1..], key, value);
      var t := Set(r[1..], key, value);
      assert Set(r, key, value) == [r[0]] + t;
      assert ([r[0]] + t)[1..] == t;
      KeysCons(r);
      KeysCons(Set(r, key, value));
    } else if r != [] {
      assert Set(r, key, value)[1..] == r[1..];
      KeysCons(r);
      KeysCons(Set(r, key, value));
    }
  }

  lemma {:induction false} SetKeepsDistinct<K>(r: Record<K>, key: K, value: Value)
    requires DistinctKeys(r)
    ensures DistinctKeys(Set(r, key, value))
    decreases |r|
  {
    if r != [] && r[0].0 != key {
      SetKeepsDistinct(r[1..], key, value);
      SetKeys(r[1..], key, value);
      var t := Set(r[1..], key, value);
      assert r[0].0 !in Keys(r[1..]);
      assert r[0].0 !in Keys(t);
      forall j | 0 <= j < |t| ensures t[j].0 != r[0].0 {
        assert Keys(t)[j] == t[j].0;
      }
    }
  }

  /** With distinct keys, every entry is what reading its key gives. */
  lemma {:induction false} GetOfEntry<K>(r: Record<K>, i: nat)
    requires DistinctKeys(r) && i < |r|
    ensures Get(r, r[i].0) == r[i].1
    decreases |r|
  {
    if i > 0 {
      assert r[0].0 != r[i].0;
      assert r[1..][i - 1] == r[i];
      GetOfEntry(r[1..], i - 1);
    }
  }

  /** The error map: field name to message. */
  type ErrorMap<K> = map<K, string>

  /** The edit handlers: a field with a non-empty error gets "" instead. */
  function ClearError<K>(errors: ErrorMap<K>, name: K): (e: ErrorMap<K>)
    ensures e.Keys == errors.Keys
    ensures name in e ==> e[name] == ""
    ensures forall k :: k in errors && k != name ==> e[k] == errors[k]
  {
    if name in errors && errors[name] != "" then errors[name := ""] else errors
  }

  /** `newErrors.key = message` when a check produced one. */
  function Put<K>(m: ErrorMap<K>, key: K, message: Option<string>): (r: ErrorMap<K>)
    ensures r.Keys == if message.Some? then m.Keys + {key} else m.Keys
    ensures message.Some? ==> r[key] == message.value
    ensures forall k :: k in m && k != key ==> r[k] == m[k]
  {
    if message.Some? then m[key := message.value] else m
  }

  /** The error map of a set of checks: one entry per field whose check
      produced a message. */
  function ErrorsOf<K(!new)>(keys: set<K>, message: K -> Option<string>): (e: ErrorMap<K>)
    ensures forall k :: k in e <==> k in keys && message(k).Some?
    ensures forall k :: k in e ==> e[k] == message(k).value
  {
    map k | k in keys && message(k).Some? :: message(k).value
  }

  /** The map is empty exactly when no check produced a message. */
  lemma ErrorsOfEmpty<K(!new)>(keys: set<K>, message: K -> Option<string>)
    ensures ErrorsOf(keys, message).Keys == {} <==> forall k :: k in keys ==> message(k).None?
  {
    var e := ErrorsOf(keys, message);
    if e.Keys == {} {
      forall k | k in keys ensures message(k).None? {
        assert k !in e;
      }
    } else {
      var k :| k in e.Keys;
    }
  }

  /** `!value`: the message when the field is empty. */
  function RequiredError<K(==)>(r: Record<K>, key: K, message: string): (e: Option<string>)
    ensures e.Some? <==> !Truthy(Get(r, key))
    ensures e.Some? ==> e.value == message
  {
    if !Truthy(Get(r, key)) then Some(message) else None
  }

  /** The language of the unanchored `\S+@\S+\.\S+`: somewhere an '@' with
      a non-space before it, then non-spaces, a '.', and a non-space after. */
  predicate LooseEmailAt(s: string, at: nat, dot: nat)
    requires 1 <= at && at + 2 <= dot && dot + 1 < |s|
  {
    s[at] == '@' && s[dot] == '.' && !IsWhitespace(s[at - 1]) && !IsWhitespace(s[dot + 1])
      && forall k | at < k < dot :: !IsWhitespace(s[k])
  }

  predicate LooseEmail(s: string) {
    exists at: nat, dot: nat | 1 <= at && at + 2 <= dot < |s| - 1 :: LooseEmailAt(s, at, dot)
  }

  /** The email checks of the forms: required, then the loose pattern. */
  function EmailError<K(==)>(r: Record<K>, key: K): (e: Option<string>)
    ensures !Truthy(Get(r, key)) ==> e == Some("Email is required")
    ensures Truthy(Get(r, key)) ==> (e.None? <==> LooseEmail(StrOf(Get(r, key))))
    ensures Truthy(Get(r, key)) && e.Some? ==> e.value == "Email is invalid"
  {
    var v := Get(r, key);
    if !Truthy(v) then Some("Email is required")
    else if !LooseEmail(StrOf(v)) then Some("Email is invalid")
    else None
  }

  /** Every address the shared validator accepts, the forms accept too. */
  lemma StrictEmailIsLoose(s: string)
    requires Validators.IsValidEmail(s)
    ensures LooseEmail(s)
  {
    var at := Validators.IndexOf(s, '@');
    var rest := s[at + 1..];
    var k :| 1 <= k < |rest| - 1 && rest[k] == '.';
    var dot := at + 1 + k;
    assert s[dot] == rest[k];
    assert !HasWhitespace(s);
    assert LooseEmailAt(s, at, dot);
  }

  /** The forms accept addresses the shared validator refuses: the pattern
      is not anchored, so a space before the local part passes. */
  lemma LooseEmailAdmitsSpaces()
    ensures LooseEmail("a b@c.d") && !Validators.IsValidEmail("a b@c.d")
  {
    var s := "a b@c.d";
    assert LooseEmailAt(s, 3, 5);
    assert IsWhitespace(s[1]);
  }

  /** The phone check of the forms: optional, and the pattern
      `^\+?[0-9]{10,15}$` on the raw text, with no separators deleted. */
  function PhoneError<K(==)>(r: Record<K>, key: K): (e: Option<string>)
    ensures e.Some? <==> Truthy(Get(r, key)) && !Validators.PhonePattern(StrOf(Get(r, key)))
    ensures e.Some? ==> e.value == "Phone number is invalid"
  {
    var v := Get(r, key);
    if Truthy(v) && !Validators.PhonePattern(StrOf(v)) then Some("Phone number is invalid") else None
  }

  /** The decimal text of the number in `NumericPhoneAccepted`, one digit at a time. */
  lemma LoadedPhoneText()
    ensures NatToString(9876543210) == "9876543210"
  {
    assert NatToString(9) == "9";
    assert NatToString(98) == NatToString(9) + "8";
    assert NatToString(987) == NatToString(98) + "7";
    assert NatToString(9876) == NatToString(987) + "6";
    assert NatToString(98765) == NatToString(9876) + "5";
    assert NatToString(987654) == NatToString(98765) + "4";
    assert NatToString(9876543) == NatToString(987654) + "3";
    assert NatToString(98765432) == NatToString(9876543) + "2";
    assert NatToString(987654321) == NatToString(98765432) + "1";
    assert NatToString(9876543210) == NatToString(987654321) + "0";
  }

  /** A phone number fetched as a number is tested in its decimal form: a
      loaded `9876543210` passes the check. */
  lemma NumericPhoneAccepted<K>(key: K)
    ensures PhoneError([(key, Number(9876543210))], key).None?
  {
    LoadedPhoneText();
    var t := StrOf(Number(9876543210));
    assert t == "9876543210";
    assert Validators.PhonePattern(t);
  }

  /** A number the forms accept is accepted by the shared validator too. */
  lemma FormPhoneIsValidPhone(s: string)
    requires s != "" && Validators.PhonePattern(s)
    ensures Validators.IsValidPhone(s)
  {
    forall i | 0 <= i < |s| ensures !Validators.PhoneSeparator(s[i]) {
      if i > 0 || s[0] != '+' {
        var digits := if s[0] == '+' then s[1..] else s;
        assert s[i] == digits[if s[0] == '+' then i - 1 else i];
      }
    }
    Validators.StripPhonePlain(s);
  }

  /** A password field: required, then at least eight characters. */
  function PasswordError<K(==)>(r: Record<K>, key: K, requiredMessage: string): (e: Option<string>)
    ensures !Truthy(Get(r, key)) ==> e == Some(requiredMessage)
    ensures Truthy(Get(r, key)) ==> (e.None? <==> !ShorterThan(Get(r, key), 8))
    ensures Truthy(Get(r, key)) && e.Some? ==> e.value == "Password must be at least 8 characters"
  {
    var v := Get(r, key);
    if !Truthy(v) then Some(requiredMessage)
    else if ShorterThan(v, 8) then Some("Password must be at least 8 characters")
    else None
  }

  /** A confirmation field: required, then equal to the password. */
  function ConfirmError<K(==)>(r: Record<K>, passwordKey: K, confirmKey: K, requiredMessage: string): (e: Option<string>)
    ensures !Truthy(Get(r, confirmKey)) ==> e == Some(requiredMessage)
    ensures Truthy(Get(r, confirmKey)) ==> (e.None? <==> Get(r, passwordKey) == Get(r, confirmKey))
    ensures Truthy(Get(r, confirmKey)) && e.Some? ==> e.value == "Passwords do not match"
  {
    if !Truthy(Get(r, confirmKey)) then Some(requiredMessage)
    else if Get(r, passwordKey) != Get(r, confirmKey) then Some("Passwords do not match")
    else None
  }

  /** `value || ''`: what a load copies from a fetched record. */
  function OrEmpty(v: Value): (r: Value)
    ensures Truthy(v) ==> r == v
    ensures !Truthy(v) ==> r == Str("")
  {
    if Truthy(v) then v else Str("")
  }

  /** Whether the submit loop copies an entry: the upload field only when a
      file was chosen, the omitted fields never, every other field always. */
  function Sends<K(==)>(upload: K, omitted: set<K>): ((K, Value)) -> bool {
    (e: (K, Value)) => if e.0 == upload then Truthy(e.1) else e.0 !in omitted
  }

  /** The `Object.keys(formData).forEach(...)` loop that fills the `FormData`. */
  method CollectEntries<K(==)>(r: Record<K>, upload: K, omitted: set<K>) returns (entries: Record<K>)
    ensures entries == Lists.Filter(r, Sends(upload, omitted))
  {
    entries := [];
    var i := 0;
    while i < |r|
      invariant 0 <= i <= |r|
      invariant entries == Lists.Filter(r[..i], Sends(upload, omitted))
    {
      var (key, value) := r[i];
      Lists.FilterAppend(r[..i], [r[i]], Sends(upload, omitted));
      assert r[..i + 1] == r[..i] + [r[i]];
      if key == upload {
        if Truthy(value) {
          entries := entries + [(key, value)];
        }
      } else if key !in omitted {
        entries := entries + [(key, value)];
      }
      i := i + 1;
    }
    assert r[..i] == r;
  }

  /** What gets submitted: entries of the record, in its order, exactly the
      ones `Sends` picks. */
  lemma SubmittedEntries<K>(r: Record<K>, upload: K, omitted: set<K>)
    ensures Lists.IsSubsequence(Lists.Filter(r, Sends(upload, omitted)), r)
    ensures forall e :: e in Lists.Filter(r, Sends(upload, omitted)) <==>
      e in r && (if e.0 == upload then Truthy(e.1) else e.0 !in omitted)
    ensures DistinctKeys(r) ==> forall e :: e in Lists.Filter(r, Sends(upload, omitted)) ==> Get(r, e.0) == e.1
  {
    Lists.FilterIsSubsequence(r, Sends(upload, omitted));
    var f := Lists.Filter(r, Sends(upload, omitted));
    forall e | e in f ensures e in r && Sends(upload, omitted)(e) {
      var i :| 0 <= i < |f| && f[i] == e;
    }
    if DistinctKeys(r) {
      forall e | e in f ensures Get(r, e.0) == e.1 {
        var i :| 0 <= i < |r| && r[i] == e;
        GetOfEntry(r, i);
      }
    }
    forall e | e in r && Sends(upload, omitted)(e) ensures e in f {
      var i :| 0 <= i < |r| && r[i] == e;
    }
  }
}
