/** The contact form's submit handler as a decision: from the three field
    values to the notification shown and the field values left behind. */
module ContactForm {
  import opened EmailValidation

  datatype Kind = Success | Error

  /** A banner passed to `showNotification(message, type)`. */
  datatype Notification = Notification(text: string, kind: Kind)

  /** The values of the `name`, `email` and `message` inputs. */
  datatype Form = Form(name: string, email: string, message: string)

  datatype SubmitResult = SubmitResult(shown: Notification, form: Form)

  const FillAllFields := Notification("Please fill in all fields", Error)
  const InvalidEmail := Notification("Please enter a valid email address", Error)
  const Thanks := Notification("Thank you for your message! I will get back to you soon.", Success)

  /** What `contactForm.reset()` leaves in inputs that carry no default value. */
  const Cleared := Form("", "", "")

  /** `!name || !email || !message`: only the empty string is falsy. */
  predicate HasEmptyField(f: Form) {
    f.name == "" || f.email == "" || f.message == ""
  }

  /** The submit handler: the empty-field test comes first, the address test
      second; only a complete form with a well-formed address is accepted,
      and only then are the fields cleared. */
  function Submit(f: Form): (r: SubmitResult)
    ensures r.shown.kind == Success <==> !HasEmptyField(f) && WellFormedAddress(f.email)
    ensures HasEmptyField(f) ==> r.shown == FillAllFields
    ensures !HasEmptyField(f) && !WellFormedAddress(f.email) ==> r.shown == InvalidEmail
    ensures r.shown.kind == Success ==> r.shown == Thanks && r.form == Cleared
    ensures r.shown.kind == Error ==> r.form == f
  {
    IsValidEmailIff(f.email);
    if HasEmptyField(f) then SubmitResult(FillAllFields, f)
    else if !IsValidEmail(f.email) then SubmitResult(InvalidEmail, f)
    else SubmitResult(Thanks, Cleared)
  }

  /** While the name or the message is empty the address is never looked at:
      any address gives the same outcome. */
  lemma EmptyFieldIgnoresEmail(f: Form, other: string)
    requires f.name == "" || f.message == ""
    ensures Submit(f.(email := other)).shown == Submit(f).shown == FillAllFields
  {
  }

  /** Whitespace-only fields are not empty: a single space as name or message
      passes the first test. */
  lemma WhitespaceIsNotEmpty()
    ensures Submit(Form(" ", "a@b.c", " ")) == SubmitResult(Thanks, Cleared)
  {
  }

  /** After a successful submission the cleared form is refused as incomplete. */
  lemma ResubmitAfterSuccess(f: Form)
    requires Submit(f).shown.kind == Success
    ensures Submit(Submit(f).form) == SubmitResult(FillAllFields, Cleared)
  {
  }
}
