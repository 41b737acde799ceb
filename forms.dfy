/**
 * The submit-time decisions of the volunteer, donation and contact forms.
 * Each handler runs a fixed list of checks in order and stops at the first
 * one that fails, showing that check's error message; when all pass it goes
 * on to its success path. The form's fields arrive as the key/value snapshot
 * `Object.fromEntries(new FormData(form))`.
 */
module Forms {
  import opened Wrappers
  import Email

  /** A form's field snapshot; a key that is absent reads as `undefined`. */
  type FormData = map<string, string>

  function Get(data: FormData, key: string): Option<string> {
    if key in data then Some(data[key]) else None
  }

  /** JavaScript truthiness of a field value: defined and not the empty string. */
  predicate Truthy(v: Option<string>) {
    v.Some? && v.value != ""
  }

  predicate Filled(data: FormData, key: string) {
    Truthy(Get(data, key))
  }

  /** The email test applied to a field that the earlier check found filled. */
  predicate ValidEmailField(data: FormData) {
    Email.IsValidEmail(Get(data, "email").GetOr(""))
  }

  const RequiredFields := "Please fill in all required fields."
  const InvalidEmail := "Please enter a valid email address."
  const MissingAmount := "Please select or enter a donation amount."
  const VolunteerThanks := "Thank you for your interest! We'll be in touch soon."
  const ContactThanks := "Thank you for your message! We will get back to you."
  const ContactFallback := "Opening your email client. Please send the email manually."

  /** One guard of a handler: whether it passes, and the message shown when it does not. */
  datatype Check = Check(passes: bool, message: string)

  /** The message of the first failing check, or `None` when every check passes. */
  function FirstFailure(checks: seq<Check>): (r: Option<string>)
    ensures r.None? <==> forall i :: 0 <= i < |checks| ==> checks[i].passes
    ensures r.Some? ==> exists i :: 0 <= i < |checks| && !checks[i].passes &&
                                    checks[i].message == r.value &&
                                    forall j :: 0 <= j < i ==> checks[j].passes
  {
    if checks == [] then None
    else if !checks[0].passes then Some(checks[0].message)
    else
      var r := FirstFailure(checks[1..]);
      assert forall j :: 1 <= j < |checks| ==> checks[j] == checks[1..][j - 1];
      r
  }

  /** Volunteer form (script.js:150-158): name and email required, then the email format. */
  function VolunteerChecks(data: FormData): seq<Check> {
    [Check(Filled(data, "name") && Filled(data, "email"), RequiredFields),
     Check(ValidEmailField(data), InvalidEmail)]
  }

  /** Contact form (script.js:210-217): the message is required as well. */
  function ContactChecks(data: FormData): seq<Check> {
    [Check(Filled(data, "name") && Filled(data, "email") && Filled(data, "message"), RequiredFields),
     Check(ValidEmailField(data), InvalidEmail)]
  }

  /**
   * The handler-local amount of the donation form (script.js:176): the active
   * preset's `data-amount` when a preset is active, else the typed `amount` field.
   */
  function ChosenAmount(activeAmount: Option<string>, data: FormData): Option<string> {
    if activeAmount.Some? then activeAmount else Get(data, "amount")
  }

  /**
   * Donation form (script.js:178-191): an amount first, then name and email, then
   * the email format. `activeAmount` is `None` when no preset is active, and
   * otherwise that preset's `data-amount`.
   */
  function DonationChecks(activeAmount: Option<string>, data: FormData): seq<Check> {
    [Check(Truthy(ChosenAmount(activeAmount, data)) || Filled(data, "amount"), MissingAmount),
     Check(Filled(data, "name") && Filled(data, "email"), RequiredFields),
     Check(ValidEmailField(data), InvalidEmail)]
  }

  /** The amount the donation thanks the donor for (script.js:194): `selectedAmount || data.amount`. */
  function DonationAmount(activeAmount: Option<string>, data: FormData): string {
    var chosen := ChosenAmount(activeAmount, data);
    if Truthy(chosen) then chosen.value else Get(data, "amount").GetOr("")
  }

  function DonationThanks(amount: string): string {
    "Thank you for your donation of $" + amount +
    "! Your contribution directly supports Title 1 engineering schools."
  }

  /** The parameters handed to the email service for a contact message (script.js:227-236). */
  datatype TemplateParams = TemplateParams(
    toEmail: string, fromName: string, fromEmail: string,
    phone: string, school: string, subject: string,
    message: string, replyTo: string)

  const Inbox := "recraftedfutures@gmail.com"

  /** `data[key] || fallback`: never empty when the fallback is not, and the typed text whenever there is one. */
  function FieldOr(data: FormData, key: string, fallback: string): (v: string)
    ensures fallback != "" ==> v != ""
    ensures v == fallback || (key in data && v == data[key])
    ensures key in data && data[key] != "" ==> v == data[key]
  {
    if Filled(data, key) then data[key] else fallback
  }

  function ContactTemplate(data: FormData): TemplateParams {
    TemplateParams(
      Inbox, "Anonymous", "noreply@recraftedfutures.org",
      FieldOr(data, "phone", "Not provided"),
      FieldOr(data, "school", "Not provided"),
      FieldOr(data, "subject", "General Question"),
      Get(data, "message").GetOr(""),
      Get(data, "email").GetOr(""))
  }

  /** The layout of the fallback email draft's body (script.js:248-252). */
  function DraftBody(name: string, email: string, phone: string, school: string, message: string): string {
    "Name: " + name + "\n" +
    "Email: " + email + "\n" +
    "Phone: " + phone + "\n" +
    "School: " + school + "\n\n" +
    "Message:\n" + message
  }

  /** The plain-text body of the fallback email draft, filled from the form. */
  function MailBody(data: FormData): string {
    DraftBody(Get(data, "name").GetOr(""), Get(data, "email").GetOr(""),
              FieldOr(data, "phone", "Not provided"), FieldOr(data, "school", "Not provided"),
              Get(data, "message").GetOr(""))
  }

  /**
   * The `mailto:` link opened when the email service fails (script.js:246-254);
   * `encode` is `encodeURIComponent`, left uninterpreted.
   */
  function MailtoLink(data: FormData, encode: string -> string): string {
    "mailto:" + Inbox + "?subject=" + encode(FieldOr(data, "subject", "General Question")) +
    "&body=" + encode(MailBody(data))
  }
}

/** What the three decisions promise, stated against the fields themselves. */
module FormProperties {
  import opened Wrappers
  import opened Forms
  import Email
  import Text

  /** A missing name or email is reported as such, whatever the email looks like. */
  lemma VolunteerRequiredBeforeFormat(data: FormData)
    ensures FirstFailure(VolunteerChecks(data)) == Some(RequiredFields) <==>
              !Filled(data, "name") || !Filled(data, "email")
  {
  }

  /** The volunteer form is accepted exactly when name and email are filled and the email is well formed. */
  lemma VolunteerAccepts(data: FormData)
    ensures FirstFailure(VolunteerChecks(data)).None? <==>
              Filled(data, "name") && Filled(data, "email") && Email.IsValidEmail(data["email"])
  {
  }

  lemma ContactRequiredBeforeFormat(data: FormData)
    ensures FirstFailure(ContactChecks(data)) == Some(RequiredFields) <==>
              !Filled(data, "name") || !Filled(data, "email") || !Filled(data, "message")
  {
  }

  /** The contact form is accepted exactly when name, email and message are filled and the email is well formed. */
  lemma ContactAccepts(data: FormData)
    ensures FirstFailure(ContactChecks(data)).None? <==>
              Filled(data, "name") && Filled(data, "email") && Filled(data, "message") &&
              Email.IsValidEmail(data["email"])
  {
  }

  /**
   * An accepted contact message hands the email service the typed message and a
   * well-formed reply-to address.
   */
  lemma ContactAcceptedTemplate(data: FormData)
    requires FirstFailure(ContactChecks(data)).None?
    ensures ContactTemplate(data).message == data["message"] != ""
    ensures Email.IsValidEmail(ContactTemplate(data).replyTo)
    ensures ContactTemplate(data).toEmail == Inbox
  {
    assert ContactChecks(data)[0].passes && ContactChecks(data)[1].passes;
  }

  /**
   * The defaulted fields of the request are never empty: each is the typed text
   * when there is one, and its fallback otherwise.
   */
  lemma ContactTemplateDefaults(data: FormData)
    ensures var t := ContactTemplate(data);
            t.phone != "" && t.school != "" && t.subject != "" &&
            (Filled(data, "phone") ==> t.phone == data["phone"]) &&
            (Filled(data, "school") ==> t.school == data["school"]) &&
            (Filled(data, "subject") ==> t.subject == data["subject"]) &&
            (!Filled(data, "phone") ==> t.phone == "Not provided") &&
            (!Filled(data, "school") ==> t.school == "Not provided") &&
            (!Filled(data, "subject") ==> t.subject == "General Question")
  {
  }

  /**
   * The fallback draft and the email-service request carry the same subject,
   * email, phone, school and message.
   */
  lemma DraftAgreesWithTemplate(data: FormData, encode: string -> string)
    ensures var t := ContactTemplate(data);
            MailtoLink(data, encode) ==
              "mailto:" + t.toEmail + "?subject=" + encode(t.subject) + "&body=" +
              encode(DraftBody(Get(data, "name").GetOr(""), t.replyTo, t.phone, t.school, t.message))
  {
  }

  /** The amount check fails only when no active preset carries an amount and none was typed. */
  lemma DonationAmountCheckFirst(activeAmount: Option<string>, data: FormData)
    ensures FirstFailure(DonationChecks(activeAmount, data)) == Some(MissingAmount) <==>
              !Truthy(activeAmount) && !Filled(data, "amount")
  {
  }

  /** An active preset's amount wins over the typed one. */
  lemma DonationPresetWins(activeAmount: Option<string>, data: FormData)
    requires Truthy(activeAmount)
    ensures DonationAmount(activeAmount, data) == activeAmount.value
  {
  }

  /** An accepted donation always thanks for a non-empty amount. */
  lemma DonationAcceptedHasAmount(activeAmount: Option<string>, data: FormData)
    requires FirstFailure(DonationChecks(activeAmount, data)).None?
    ensures DonationAmount(activeAmount, data) != ""
    ensures Filled(data, "name") && Filled(data, "email") && Email.IsValidEmail(data["email"])
  {
    assert DonationChecks(activeAmount, data)[0].passes;
    assert DonationChecks(activeAmount, data)[1].passes && DonationChecks(activeAmount, data)[2].passes;
  }

  /** The `Jo`/`jo@x.com`/`Hi` contact message passes every check. */
  lemma ContactExampleAccepted()
    ensures FirstFailure(ContactChecks(map["name" := "Jo", "email" := "jo@x.com", "message" := "Hi"])).None?
  {
    var d := map["name" := "Jo", "email" := "jo@x.com", "message" := "Hi"];
    assert Email.IsValidEmail("jo@x.com") by {
      assert Text.IndexOf("jo@x.com", '@') == 2;
      assert "jo@x.com"[3..][1..4][0] == '.';
    }
    assert Filled(d, "name") && Filled(d, "email") && Filled(d, "message");
    ContactAccepts(d);
  }
}
