/**
 * The add/edit-lead form's validation (`formSchema` in app/dashboard/lead-management/page.jsx)
 * and how a form that passes it fares at the leads API. Zod's e-mail format check is the
 * parameter `isEmail`.
 */
module LeadForm {
  import opened Wrappers
  import opened Schema
  import opened Database
  import opened JsStrings
  import opened LeadsRoute

  /**
   * The form's values. A property is left out, `null` (the edit dialog copies a stored lead's
   * NULL columns into the form) or a value.
   */
  datatype LeadFormData = LeadFormData(
    id: Option<int>,
    restaurantName: JsonField<string>,
    location: JsonField<string>,
    leadType: JsonField<string>,
    status: JsonField<string>,
    contactPerson: JsonField<string>,
    contactEmail: JsonField<string>,
    contactPhone: JsonField<string>,
    notes: JsonField<string>)

  datatype LeadField = RestaurantName | Location | LeadType | Status | ContactPerson | ContactEmail | ContactPhone | Notes

  /** `z.string().min(2)`: a string of at least two UTF-16 code units. */
  predicate AtLeastTwo(f: JsonField<string>) {
    f.Value? && Utf16Length(f.value) >= 2
  }

  /**
   * What `formSchema` accepts, rule by rule: the three names are strings of two or more code
   * units, the status is any string, the other fields are left out or strings of any length,
   * and a given e-mail is an address.
   */
  predicate MeetsLeadSchema(f: LeadFormData, isEmail: string -> bool) {
    && f.restaurantName.Value? && Utf16Length(f.restaurantName.value) >= 2
    && f.location.Value? && Utf16Length(f.location.value) >= 2
    && f.leadType.Value? && Utf16Length(f.leadType.value) >= 2
    && f.status.Value?
    && !f.contactPerson.Null? && !f.contactPhone.Null? && !f.notes.Null?
    && (f.contactEmail.Absent? || (f.contactEmail.Value? && isEmail(f.contactEmail.value)))
  }

  /**
   * The fields `formSchema` rejects: the three names unless strings of two or more code units,
   * a status that is not a string, and for the optional fields (`z.string().optional()`) a
   * `null`, or for the e-mail a string that is not an address.
   */
  function LeadFormErrors(f: LeadFormData, isEmail: string -> bool): (errors: set<LeadField>)
    ensures errors == {} <==> MeetsLeadSchema(f, isEmail)
    ensures errors == {} ==> f.restaurantName.Value? && f.location.Value? && f.leadType.Value? && f.status.Value?
    ensures errors == {} ==> !f.contactPerson.Null? && !f.contactEmail.Null? && !f.contactPhone.Null? && !f.notes.Null?
    ensures errors == {} ==> |f.restaurantName.value| >= 1 && |f.location.value| >= 1 && |f.leadType.value| >= 1
    ensures errors == {} && f.contactEmail.Value? ==> isEmail(f.contactEmail.value)
    ensures Status in errors <==> !f.status.Value?
    ensures ContactPerson in errors <==> f.contactPerson.Null?
    ensures ContactPhone in errors <==> f.contactPhone.Null?
    ensures Notes in errors <==> f.notes.Null?
    ensures f.contactEmail.Absent? ==> ContactEmail !in errors
  {
    (if AtLeastTwo(f.restaurantName) then {} else {RestaurantName})
    + (if AtLeastTwo(f.location) then {} else {Location})
    + (if AtLeastTwo(f.leadType) then {} else {LeadType})
    + (if f.status.Value? then {} else {Status})
    + (if f.contactPerson.Null? then {ContactPerson} else {})
    + (if f.contactEmail.Absent? || (f.contactEmail.Value? && isEmail(f.contactEmail.value)) then {} else {ContactEmail})
    + (if f.contactPhone.Null? then {ContactPhone} else {})
    + (if f.notes.Null? then {Notes} else {})
  }

  /** The form's `defaultValues`: every text empty, status 'New'. */
  function DefaultLeadForm(): LeadFormData {
    LeadFormData(None, Value(""), Value(""), Value(""), Value("New"), Value(""), Value(""), Value(""), Value(""))
  }

  /**
   * An untouched form fails on the three names, and on the e-mail too whenever "" is not an
   * address: the default "" is present, so the `optional()` does not excuse it.
   */
  lemma DefaultLeadFormErrors(isEmail: string -> bool)
    ensures LeadFormErrors(DefaultLeadForm(), isEmail)
              == {RestaurantName, Location, LeadType} + (if isEmail("") then {} else {ContactEmail})
    ensures !isEmail("") ==> ContactEmail in LeadFormErrors(DefaultLeadForm(), isEmail)
  {
  }

  /** Clearing the e-mail (leaving the property out) is the only way past its check with "". */
  lemma AbsentEmailPasses(f: LeadFormData, isEmail: string -> bool)
    requires f.contactEmail.Absent?
    ensures ContactEmail !in LeadFormErrors(f, isEmail)
  {
  }

  /** A nullable column as the edit dialog receives it: `null` for NULL. */
  function FromColumn(c: Option<string>): JsonField<string> {
    if c.None? then Null else Value(c.value)
  }

  /** `openEditDialog`: the form reset to the stored lead. */
  function EditLeadForm(l: Lead): LeadFormData {
    LeadFormData(Some(l.id), Value(l.restaurantName), Value(l.location), Value(l.leadType), Value(l.status),
                 FromColumn(l.contactPerson), FromColumn(l.contactEmail), FromColumn(l.contactPhone), FromColumn(l.notes))
  }

  /**
   * Editing a stored lead: each optional column that is NULL blocks the dialog until the user
   * fills it in, since `z.string().optional()` rejects the `null` it is reset to.
   */
  lemma EditFormRejectsNulls(l: Lead, isEmail: string -> bool)
    ensures ContactPerson in LeadFormErrors(EditLeadForm(l), isEmail) <==> l.contactPerson.None?
    ensures ContactPhone in LeadFormErrors(EditLeadForm(l), isEmail) <==> l.contactPhone.None?
    ensures Notes in LeadFormErrors(EditLeadForm(l), isEmail) <==> l.notes.None?
    ensures l.contactEmail.None? ==> ContactEmail in LeadFormErrors(EditLeadForm(l), isEmail)
    ensures Status !in LeadFormErrors(EditLeadForm(l), isEmail)
  {
  }

  /** The body the form sends to the leads API. */
  function ToPayload(f: LeadFormData): LeadPayload {
    LeadPayload(f.restaurantName, f.location, f.leadType, f.status, f.contactPerson, f.contactEmail,
                f.contactPhone, f.notes)
  }

  /**
   * A form the schema accepts has every NOT NULL column and no `null`, so the API's insert
   * fails only on a value longer than its column (and not padded with spaces), which the schema
   * does not check; and the stored status is the form's, never the column default.
   */
  lemma AcceptedFormInsert(f: LeadFormData, isEmail: string -> bool)
    requires LeadFormErrors(f, isEmail) == {}
    ensures LeadInsertFails(ToPayload(f)) <==> !PayloadFits(ToPayload(f))
    ensures !NullsRequiredColumn(ToPayload(f))
    ensures !LeadInsertFails(ToPayload(f)) ==>
              forall now :: Truncates(f.status.value, NewLeadRow(ToPayload(f), now).status, 50)
  {
    assert RestaurantName !in LeadFormErrors(f, isEmail);
    assert Location !in LeadFormErrors(f, isEmail);
    assert LeadType !in LeadFormErrors(f, isEmail);
    assert Status !in LeadFormErrors(f, isEmail);
  }

  /** A restaurant name of 256 characters passes the schema but not the varchar(255) column. */
  lemma LongNameAcceptedThenRejected(isEmail: string -> bool)
    ensures var f := LeadFormData(None, Value(seq(256, _ => 'a')), Value("Pune"), Value("Cafe"), Value("New"),
                                  Absent, Absent, Absent, Absent);
            LeadFormErrors(f, isEmail) == {} && LeadInsertFails(ToPayload(f))
  {
    var name := seq(256, _ => 'a');
    assert name[255] != ' ';
  }
}
