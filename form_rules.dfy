/**
 * The validation rules the quote wizard and the contact form share: a required text field
 * fails when it trims to nothing, the email field fails as "required" when blank and as
 * "invalid" when the pattern `\S+@\S+\.\S+` finds no match, and typing into a field blanks
 * that field's message when one is shown.
 */
module FormRules {
  import opened Wrappers
  import opened JsString

  /** The text fields of a form, by field. */
  type FormData<K> = map<K, string>

  /** A validator's messages by field; an empty string shows no message. */
  type Errors<K> = map<K, string>

  const EmailRequired := "Email is required"
  const EmailInvalid := "Email is invalid"

  /** The value of a field; both forms hold every field they read, so the default is not reached. */
  function Field<K>(data: FormData<K>, name: K): string {
    if name in data then data[name] else ""
  }

  /** `if (!value.trim()) error = message`. */
  function Required(value: string, message: string): Option<string> {
    if Trim(value) == "" then Some(message) else None
  }

  /** A required field is reported exactly when it is blank, with the field's message. */
  lemma RequiredSpec(value: string, message: string)
    ensures Required(value, message).Some? <==> IsBlank(value)
    ensures Required(value, message).Some? ==> Required(value, message).value == message
  {
    TrimEmptyIffBlank(value);
  }

  /** The email rule: "required" when blank, else "invalid" when the pattern does not match. */
  function EmailError(email: string): Option<string> {
    if Trim(email) == "" then Some(EmailRequired)
    else if !EmailPattern(email) then Some(EmailInvalid)
    else None
  }

  /** The email rule in terms of the regular expression itself. */
  lemma EmailErrorSpec(email: string)
    ensures EmailError(email) == Some(EmailRequired) <==> IsBlank(email)
    ensures EmailError(email) == Some(EmailInvalid) <==> !IsBlank(email) && !EmailRegexMatches(email)
    ensures EmailError(email).None? <==> !IsBlank(email) && EmailRegexMatches(email)
  {
    TrimEmptyIffBlank(email);
    EmailPatternIsRegex(email);
  }

  /** `if (errors[name]) errors = {...errors, [name]: ''}`: a shown message is blanked, an
      absent one stays absent, every other field keeps its message. */
  function ClearError<K>(errors: Errors<K>, name: K): (r: Errors<K>)
    ensures r.Keys == errors.Keys
    ensures name in r ==> r[name] == ""
    ensures forall k :: k in errors && k != name ==> r[k] == errors[k]
  {
    if name in errors && errors[name] != "" then errors[name := ""] else errors
  }

  /** The message a check leaves for one field: a one-entry map, or none. */
  function Entry<K>(name: K, e: Option<string>): (m: Errors<K>)
    ensures name in m <==> e.Some?
    ensures name in m ==> m[name] == e.value
  {
    if e.Some? then map[name := e.value] else map[]
  }

  /** The messages of three checks on three different fields. */
  lemma Entries3<K>(a: K, ea: Option<string>, b: K, eb: Option<string>, c: K, ec: Option<string>)
    requires a != b && b != c && a != c
    ensures var m := Entry(a, ea) + Entry(b, eb) + Entry(c, ec);
            && m.Keys <= {a, b, c}
            && (a in m <==> ea.Some?) && (a in m ==> m[a] == ea.value)
            && (b in m <==> eb.Some?) && (b in m ==> m[b] == eb.value)
            && (c in m <==> ec.Some?) && (c in m ==> m[c] == ec.value)
  {
  }

  /** Recording a check's message is adding its entry. */
  lemma AddEntry<K>(m: Errors<K>, name: K, e: Option<string>)
    ensures (if e.Some? then m[name := e.value] else m) == m + Entry(name, e)
  {
  }

  /** The example of an address the email rule rejects. */
  lemma NoAtSignRejected()
    ensures EmailError("not-an-email") == Some(EmailInvalid)
  {
    var s := "not-an-email";
    assert !IsWhite(s[0]);
    NoAtSignNoEmail(s);
  }

  /** A well-formed address passes. */
  lemma AddressAccepted()
    ensures EmailError("a@b.co").None?
  {
    var s := "a@b.co";
    assert !IsWhite(s[0]);
    assert EmailShapeAt(s, 1, 3);
  }
}
