/**
 * The contact form of the contact-management page (app/dashboard/contact-management/page.jsx):
 * `contactSchema`, and the choice between updating and creating on submit. Zod's e-mail
 * format check is the parameter `isEmail`.
 */
module ContactForm {
  import opened Wrappers
  import opened Schema
  import opened Database
  import opened JsStrings
  import opened ContactsRoute

  /**
   * The form's values; None is a property left out or `null`, which every rule of the schema
   * rejects alike.
   */
  datatype ContactFormData = ContactFormData(
    id: Option<int>,
    leadId: Option<int>,
    contactPerson: Option<string>,
    contactEmail: Option<string>,
    contactPhone: Option<string>,
    role: Option<string>)

  datatype ContactField = LeadId | ContactPerson | ContactEmail | ContactPhone | Role

  /** `z.string().min(n)`: a string of at least n UTF-16 code units. */
  predicate AtLeast(s: Option<string>, n: nat) {
    s.Some? && Utf16Length(s.value) >= n
  }

  /**
   * What `contactSchema` accepts, rule by rule: a lead id, a name and a role of two or more
   * code units, an e-mail address, and a phone of ten or more code units.
   */
  predicate MeetsContactSchema(f: ContactFormData, isEmail: string -> bool) {
    && f.leadId.Some?
    && f.contactPerson.Some? && Utf16Length(f.contactPerson.value) >= 2
    && f.contactEmail.Some? && isEmail(f.contactEmail.value)
    && f.contactPhone.Some? && Utf16Length(f.contactPhone.value) >= 10
    && f.role.Some? && Utf16Length(f.role.value) >= 2
  }

  /**
   * The fields `contactSchema` rejects: a missing lead id, a name or role shorter than two
   * characters, a phone shorter than ten, and an e-mail that is missing or not an address (the
   * e-mail is not optional here).
   */
  function ContactFormErrors(f: ContactFormData, isEmail: string -> bool): (errors: set<ContactField>)
    ensures errors == {} <==> MeetsContactSchema(f, isEmail)
    ensures errors == {} ==> f.leadId.Some? && f.contactPerson.Some? && f.role.Some? && f.contactEmail.Some?
    ensures errors == {} ==> f.contactPhone.Some? && Utf16Length(f.contactPhone.value) >= 10
    ensures errors == {} ==> isEmail(f.contactEmail.value)
    ensures errors == {} ==> f.contactPhone.Some? && |f.contactPhone.value| >= 5
    ensures errors == {} ==> |f.contactPerson.value| >= 1 && |f.role.value| >= 1
  {
    (if f.leadId.Some? then {} else {LeadId})
    + (if AtLeast(f.contactPerson, 2) then {} else {ContactPerson})
    + (if f.contactEmail.Some? && isEmail(f.contactEmail.value) then {} else {ContactEmail})
    + (if AtLeast(f.contactPhone, 10) then {} else {ContactPhone})
    + (if AtLeast(f.role, 2) then {} else {Role})
  }

  datatype HttpMethod = Put | Post

  /** `data.id ? "PUT" : "POST"`: an absent or zero id creates. */
  function SubmitMethod(f: ContactFormData): (m: HttpMethod)
    ensures m == Put <==> f.id.Some? && f.id.value != 0
  {
    if f.id.Some? && f.id.value != 0 then Put else Post
  }

  /** "Add Contact": the form reset to hold only the lead's id. */
  function AddContactForm(leadId: int): ContactFormData {
    ContactFormData(None, Some(leadId), None, None, None, None)
  }

  /** "Edit": the form reset to the contact's row, id included. */
  function EditContactForm(c: Contact): ContactFormData {
    ContactFormData(Some(c.id), Some(c.leadId), Some(c.contactPerson), c.contactEmail, c.contactPhone, Some(c.role))
  }

  /** What the user types into the dialog; the id is not a field of it. */
  function FillIn(f: ContactFormData, person: string, email: string, phone: string, role: string): ContactFormData {
    f.(contactPerson := Some(person), contactEmail := Some(email), contactPhone := Some(phone), role := Some(role))
  }

  /**
   * However the user fills in a form opened with "Add Contact", it is POSTed; a form opened
   * with "Edit" on a stored contact (ids start at 1) is PUT.
   */
  lemma AddPostsEditPuts(leadId: int, c: Contact, person: string, email: string, phone: string, role: string)
    requires c.id >= 1
    ensures SubmitMethod(FillIn(AddContactForm(leadId), person, email, phone, role)) == Post
    ensures SubmitMethod(FillIn(EditContactForm(c), person, email, phone, role)) == Put
  {
  }

  /** An untouched "Add Contact" form fails on every field but the lead id. */
  lemma AddContactFormErrors(leadId: int, isEmail: string -> bool)
    ensures ContactFormErrors(AddContactForm(leadId), isEmail) == {ContactPerson, ContactEmail, ContactPhone, Role}
  {
  }

  /** The body sent on POST: `isPrimary` is not a field of the form, so the column default applies. */
  function ToPayload(f: ContactFormData): ContactPayload {
    ContactPayload(Sent(f.leadId), Sent(f.contactPerson), Sent(f.contactEmail), Sent(f.contactPhone), Sent(f.role), Absent)
  }

  /** A form value as `JSON.stringify` sends it: an unset field is left out. */
  function Sent<T>(v: Option<T>): JsonField<T> {
    if v.Some? then Value(v.value) else Absent
  }

  /**
   * An accepted form has every NOT NULL column, so the API's insert fails only on a value
   * longer than its column (and not padded with spaces), and the stored contact is not primary.
   */
  lemma AcceptedFormInsert(f: ContactFormData, isEmail: string -> bool)
    requires ContactFormErrors(f, isEmail) == {}
    ensures ContactInsertFails(ToPayload(f)) <==> !ContactsRoute.PayloadFits(ToPayload(f))
    ensures !ContactInsertFails(ToPayload(f)) ==> forall now :: NewContactRow(ToPayload(f), now).isPrimary == Some(false)
  {
    assert LeadId !in ContactFormErrors(f, isEmail);
    assert ContactPerson !in ContactFormErrors(f, isEmail);
    assert Role !in ContactFormErrors(f, isEmail);
  }
}
