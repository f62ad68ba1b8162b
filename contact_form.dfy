/**
 * The contact form (src/components/molecules/ContactForm.jsx): six text fields, of which
 * the name, the email and the message are validated. A valid form is handed to the page's
 * `onSubmit` callback, if there is one, and cleared once that has not failed; an invalid
 * form is neither sent nor cleared.
 */
module ContactForm {
  import opened Wrappers
  import opened JsString
  import opened FormRules

  /** The inputs of the form, by their `name` attribute. */
  datatype ContactField = Name | Email | Phone | Company | Subject | Message

  const ContactFields: set<ContactField> := {Name, Email, Phone, Company, Subject, Message}

  type ContactData = FormData<ContactField>
  type ContactMessages = Errors<ContactField>

  /** The form as it opens and as a successful submit leaves it: every field empty. */
  const EmptyForm: ContactData :=
    map[Name := "", Email := "", Phone := "", Company := "", Subject := "", Message := ""]

  /** The error map `validateForm` builds. */
  function FormErrors(data: ContactData): ContactMessages {
    Entry(Name, Required(Field(data, Name), "Name is required"))
    + Entry(Email, EmailError(Field(data, Email)))
    + Entry(Message, Required(Field(data, Message), "Message is required"))
  }

  class ContactForm {
    var formData: ContactData
    var errors: ContactMessages

    ghost predicate Valid()
      reads this
    {
      formData.Keys == ContactFields
    }

    constructor ()
      ensures Valid() && formData == EmptyForm && errors == map[]
    {
      formData := EmptyForm;
      errors := map[];
    }

    /** `handleChange`: the field takes the value, and its message, if one is shown, is
        blanked. */
    method HandleChange(name: ContactField, value: string)
      requires Valid()
      modifies this
      ensures Valid()
      ensures formData == old(formData)[name := value]
      ensures errors == ClearError(old(errors), name)
    {
      formData := formData[name := value];
      if name in errors && errors[name] != "" {
        errors := errors[name := ""];
      }
    }

    /** `validateForm`: the new messages replace the previous ones wholesale, and the form
        is valid exactly when there are none. */
    method ValidateForm() returns (ok: bool)
      modifies this
      ensures formData == old(formData)
      ensures errors == FormErrors(old(formData))
      ensures ok <==> errors == map[]
    {
      var data := formData;
      var name := Required(Field(data, Name), "Name is required");
      var email := EmailError(Field(data, Email));
      var message := Required(Field(data, Message), "Message is required");
      var newErrors: ContactMessages := map[];
      AddEntry(newErrors, Name, name);
      if name.Some? {
        newErrors := newErrors[Name := name.value];
      }
      assert newErrors == Entry(Name, name);
      AddEntry(newErrors, Email, email);
      if email.Some? {
        newErrors := newErrors[Email := email.value];
      }
      AddEntry(newErrors, Message, message);
      if message.Some? {
        newErrors := newErrors[Message := message.value];
      }
      assert newErrors == FormErrors(data);
      ok := |newErrors| == 0;
      assert ok <==> newErrors == map[];
      errors := newErrors;
      assert errors == FormErrors(data);
    }

    /** `handleSubmit`. The page's callback is a parameter: `hasHandler` says whether one
        was passed, `handlerRejects` whether its promise rejects. What the callback was
        given is returned. */
    method HandleSubmit(hasHandler: bool, handlerRejects: bool) returns (delivered: Option<ContactData>)
      requires Valid()
      modifies this
      ensures Valid()
      ensures errors == FormErrors(old(formData))
      ensures errors != map[] ==> delivered.None? && formData == old(formData)
      ensures errors == map[] ==> delivered == (if hasHandler then Some(old(formData)) else None)
      ensures errors == map[] ==> formData == if hasHandler && handlerRejects then old(formData) else EmptyForm
    {
      var ok := ValidateForm();
      if !ok {
        delivered := None;
        return;
      }
      delivered := None;
      if hasHandler {
        delivered := Some(formData);
        if handlerRejects {
          return;
        }
      }
      formData := EmptyForm;
    }
  }

  // ---------------------------------------------------------------------------
  // Properties of the form
  // ---------------------------------------------------------------------------

  /** A blank name and a blank message are reported, and only the three checked fields ever
      are. */
  lemma FormErrorsRequired(data: ContactData)
    ensures var e := FormErrors(data);
            && e.Keys <= {Name, Email, Message}
            && (Name in e <==> IsBlank(Field(data, Name)))
            && (Name in e ==> e[Name] == "Name is required")
            && (Message in e <==> IsBlank(Field(data, Message)))
            && (Message in e ==> e[Message] == "Message is required")
  {
    RequiredSpec(Field(data, Name), "Name is required");
    RequiredSpec(Field(data, Message), "Message is required");
    Entries3(Name, Required(Field(data, Name), "Name is required"), Email, EmailError(Field(data, Email)),
             Message, Required(Field(data, Message), "Message is required"));
  }

  /** The email message: "required" when blank, else "invalid" when the regular expression
      finds no match, else none. */
  lemma FormErrorsEmail(data: ContactData)
    ensures var e := FormErrors(data);
            && (Email in e && e[Email] == EmailRequired <==> IsBlank(Field(data, Email)))
            && (Email in e && e[Email] == EmailInvalid
                <==> !IsBlank(Field(data, Email)) && !EmailRegexMatches(Field(data, Email)))
            && (Email !in e <==> !IsBlank(Field(data, Email)) && EmailRegexMatches(Field(data, Email)))
  {
    EmailErrorSpec(Field(data, Email));
    Entries3(Name, Required(Field(data, Name), "Name is required"), Email, EmailError(Field(data, Email)),
             Message, Required(Field(data, Message), "Message is required"));
  }

  /** Validation reads nothing but the name, the email and the message. */
  lemma FormErrorsReads(a: ContactData, b: ContactData)
    requires Field(a, Name) == Field(b, Name) && Field(a, Email) == Field(b, Email)
    requires Field(a, Message) == Field(b, Message)
    ensures FormErrors(a) == FormErrors(b)
  {
  }

  /** The phone, the company and the subject are never validated: whatever they hold, the
      messages are the same. */
  lemma UnvalidatedFields(data: ContactData, f: ContactField, value: string)
    requires f in {Phone, Company, Subject}
    ensures f !in FormErrors(data)
    ensures FormErrors(data[f := value]) == FormErrors(data)
  {
    FormErrorsReads(data[f := value], data);
    Entries3(Name, Required(Field(data, Name), "Name is required"), Email, EmailError(Field(data, Email)),
             Message, Required(Field(data, Message), "Message is required"));
  }

  /** An empty form, as the form opens and as a successful submit leaves it, reports the
      three required fields, so submitting it again sends nothing. */
  lemma EmptyFormFails()
    ensures FormErrors(EmptyForm)
            == map[Name := "Name is required", Email := EmailRequired, Message := "Message is required"]
  {
    assert Field(EmptyForm, Name) == "" && Field(EmptyForm, Email) == "" && Field(EmptyForm, Message) == "";
    assert Trim("") == "";
    assert Required("", "Name is required") == Some("Name is required");
    assert Required("", "Message is required") == Some("Message is required");
    assert EmailError("") == Some(EmailRequired);
  }
}
