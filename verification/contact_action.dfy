/**
 * The contact form's server action: validate the four fields read from the
 * submitted form data and answer with either a thank-you message or the
 * first validation error.
 */
module ContactAction {
  import opened Entities
  import opened Validation

  const ContactSchema: Schema := [
    Field("name", MinLength(2), false, "Name is too short."),
    Field("email", EmailFormat, false, "Invalid email address."),
    Field("subject", MinLength(5), false, "Subject is too short."),
    Field("message", MinLength(10), false, "Message is too short.")
  ]

  const FallbackError: string := "Invalid input. Please check the form and try again."
  const ThankYou: string := "Thank you for your message! We will get back to you shortly."

  /** `FormState`: `None` stands for `null`. */
  datatype FormState = FormState(message: Option<string>, error: Option<string>)

  /** `formData.get(key)` for each schema key: a missing entry reads as `null`. */
  function ReadFields(submitted: map<string, string>, keys: seq<string>): (form: Form)
    ensures forall k :: k in keys ==> k in form && form[k] == (if k in submitted then Str(submitted[k]) else Null)
    ensures forall k :: k in form ==> k in keys
  {
    map k | k in keys :: if k in submitted then Str(submitted[k]) else Null
  }

  function ContactKeys(): seq<string> {
    ["name", "email", "subject", "message"]
  }

  /**
   * `Object.values(fieldErrors)[0]?.[0]`: the first message of the first key
   * in insertion order, which is the key of the first issue.
   */
  function FirstFieldError(issues: seq<Issue>): (m: Option<string>)
    ensures |issues| == 0 ==> m.None?
    ensures |issues| > 0 ==> m == Some(issues[0].message)
  {
    if |issues| == 0 then None
    else
      var f := Flatten(issues);
      assert issues[0].key in f;
      Some(f[issues[0].key][0])
  }

  /** `sendMessageAction(prevState, formData)`; `isEmail` stands for zod's e-mail check. */
  function SendMessage(submitted: map<string, string>, isEmail: string -> bool): (s: FormState)
    ensures s.message.Some? != s.error.Some?
    ensures s.message.Some? ==> s.message.value == ThankYou
  {
    match SafeParse(ContactSchema, ReadFields(submitted, ContactKeys()), isEmail)
    case Success(_) => FormState(Some(ThankYou), None)
    case Failure(issues) =>
      var first := FirstFieldError(issues);
      FormState(None, Some(if first.Some? && |first.value| > 0 then first.value else FallbackError))
  }

  /** The contact rules, written out field by field, on the submitted entries. */
  predicate ValidContact(submitted: map<string, string>, isEmail: string -> bool) {
    && "name" in submitted && |submitted["name"]| >= 2
    && "email" in submitted && isEmail(submitted["email"])
    && "subject" in submitted && |submitted["subject"]| >= 5
    && "message" in submitted && |submitted["message"]| >= 10
  }

  // ---------------------------------------------------------------------
  // Properties

  /** The first key in insertion order carries the first issue's message. */
  lemma {:induction false} FirstFieldErrorIsFirstIssue(issues: seq<Issue>)
    requires |issues| > 0
    ensures FirstFieldError(issues) == Some(issues[0].message)
  {
  }

  /** The action thanks the sender exactly when the field rules hold. */
  lemma ThanksIffValid(submitted: map<string, string>, isEmail: string -> bool)
    ensures SendMessage(submitted, isEmail).message.Some? <==> ValidContact(submitted, isEmail)
  {
    var form := ReadFields(submitted, ContactKeys());
    var s := ContactSchema;
    assert ContactKeys() == ["name", "email", "subject", "message"];
    assert "name" in ContactKeys() && "email" in ContactKeys() && "subject" in ContactKeys() && "message" in ContactKeys();
    assert (forall i :: 0 <= i < |s| ==> FieldOk(s[i], form, isEmail)) <==>
      FieldOk(s[0], form, isEmail) && FieldOk(s[1], form, isEmail) && FieldOk(s[2], form, isEmail) && FieldOk(s[3], form, isEmail);
  }

  /**
   * A rejected message reports the message of the first failing field in
   * schema order; the generic fallback is never shown, because every
   * message is non-empty.
   */
  lemma ErrorIsFirstFailingField(submitted: map<string, string>, isEmail: string -> bool)
    requires !ValidContact(submitted, isEmail)
    ensures var form := ReadFields(submitted, ContactKeys());
      exists j :: (FirstFailing(ContactSchema, form, isEmail, j)
        && SendMessage(submitted, isEmail).error == FieldIssue(ContactSchema[j], Get(form, ContactSchema[j].key), isEmail))
    ensures SendMessage(submitted, isEmail).error != Some(FallbackError)
  {
    ThanksIffValid(submitted, isEmail);
    var form := ReadFields(submitted, ContactKeys());
    var issues := Issues(ContactSchema, form, isEmail);
    FirstIssueIsFirstFailingField(ContactSchema, form, isEmail);
    FirstFieldErrorIsFirstIssue(issues);
    IssueMessagesNonEmpty(ContactSchema, form, isEmail);
    assert issues[0] in issues;
    var j :| FirstFailing(ContactSchema, form, isEmail, j)
      && issues[0] == Issue(ContactSchema[j].key, FieldIssue(ContactSchema[j], Get(form, ContactSchema[j].key), isEmail).value);
    NotFallback(issues[0].message);
  }

  /** No field message equals the fallback text. */
  lemma NotFallback(m: string)
    requires m in {"Name is too short.", "Invalid email address.", "Subject is too short.", "Message is too short.", RequiredMessage, NullMessage}
    ensures m != FallbackError
  {
  }
}
