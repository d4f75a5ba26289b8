/**
 * The leads API (app/api/leads/route.jsx): create, list, update and delete leads. The handlers
 * pass the request body straight to the database, so the only checks are the table's own
 * (NOT NULL columns and varchar lengths) and a failing statement answers 500.
 */
module LeadsRoute {
  import opened Wrappers
  import opened Seqs
  import opened Schema
  import opened Database

  /** The lead properties a request body may carry (`type` is `leadType`). */
  datatype LeadPayload = LeadPayload(
    restaurantName: JsonField<string>,
    location: JsonField<string>,
    leadType: JsonField<string>,
    status: JsonField<string>,
    contactPerson: JsonField<string>,
    contactEmail: JsonField<string>,
    contactPhone: JsonField<string>,
    notes: JsonField<string>)

  /** Every written string fits its column: varchar(255), (255), (100), (50), (255), (255), (50); text. */
  predicate PayloadFits(b: LeadPayload) {
    && FieldFits(b.restaurantName, 255) && FieldFits(b.location, 255)
    && FieldFits(b.leadType, 100) && FieldFits(b.status, 50)
    && FieldFits(b.contactPerson, 255) && FieldFits(b.contactEmail, 255)
    && FieldFits(b.contactPhone, 50)
  }

  /** A `null` for one of the NOT NULL columns. */
  predicate NullsRequiredColumn(b: LeadPayload) {
    b.restaurantName.Null? || b.location.Null? || b.leadType.Null? || b.status.Null?
  }

  /**
   * The INSERT fails on a NOT NULL column without default left out, on a `null` for any NOT
   * NULL column (`status` included, whose default covers only a left-out property), or on a
   * string its column does not accept.
   */
  predicate LeadInsertFails(b: LeadPayload) {
    !b.restaurantName.Value? || !b.location.Value? || !b.leadType.Value? || b.status.Null? || !PayloadFits(b)
  }

  /**
   * The row stored for a body: strings as their columns hold them, status 'New' when left out,
   * NULL for an optional column left out or `null`, both stamps `now`.
   */
  function NewLeadRow(b: LeadPayload, now: Timestamp): (r: Lead)
    requires !LeadInsertFails(b)
    ensures LeadFits(r)
    ensures Truncates(b.restaurantName.value, r.restaurantName, 255)
    ensures Truncates(b.location.value, r.location, 255) && Truncates(b.leadType.value, r.leadType, 100)
    ensures b.status.Absent? ==> r.status == DefaultLeadStatus
    ensures b.status.Value? ==> Truncates(b.status.value, r.status, 50)
    ensures InsertsColumn(b.contactPerson, r.contactPerson, 255)
    ensures InsertsColumn(b.contactEmail, r.contactEmail, 255)
    ensures InsertsColumn(b.contactPhone, r.contactPhone, 50)
    ensures r.notes.Some? <==> b.notes.Value?
    ensures b.notes.Value? ==> r.notes == Some(b.notes.value)
    ensures r.createdAt == Some(now) && r.updatedAt == Some(now)
  {
    Lead(0, Varchar(b.restaurantName.value, 255), Varchar(b.location.value, 255), Varchar(b.leadType.value, 100),
         if b.status.Absent? then DefaultLeadStatus else Varchar(b.status.value, 50),
         Inserted(Stored(b.contactPerson, 255)), Inserted(Stored(b.contactEmail, 255)),
         Inserted(Stored(b.contactPhone, 50)), Inserted(b.notes), Some(now), Some(now))
  }

  /** POST: 201 with the stored row, or 500 and nothing stored. */
  method PostLead(db: Store, body: LeadPayload, now: Timestamp) returns (res: Response<Lead>)
    requires db.Valid()
    modifies db`leads, db`nextLeadId
    ensures db.Valid()
    ensures res.Created? <==> !LeadInsertFails(body)
    ensures res.Created? || res.ServerError?
    ensures res.ServerError? ==> db.leads == old(db.leads) && db.nextLeadId == old(db.nextLeadId)
    ensures res.Created? ==>
              && res.body == NewLeadRow(body, now).(id := old(db.nextLeadId))
              && db.leads == old(db.leads) + [res.body]
              && db.nextLeadId == old(db.nextLeadId) + 1
  {
    if LeadInsertFails(body) {
      return ServerError;
    }
    var row := db.InsertLead(NewLeadRow(body, now));
    res := Created(row);
  }

  /** GET: every lead, in table order. */
  function GetLeads(db: Store): seq<Lead>
    reads db
  {
    db.leads
  }

  predicate IsEmptyPatch(p: LeadPayload) {
    p == LeadPayload(Absent, Absent, Absent, Absent, Absent, Absent, Absent, Absent)
  }

  /**
   * `.set(updateData)`: drizzle drops the left-out properties, so those columns keep their
   * values; a `null` sets its (nullable) column to NULL; a string is stored as its column holds
   * it. `updated_at` is not touched: its default applies only on insert.
   */
  function ApplyLeadPatch(l: Lead, p: LeadPayload): (r: Lead)
    requires PayloadFits(p) && !NullsRequiredColumn(p)
    ensures r.id == l.id && r.createdAt == l.createdAt && r.updatedAt == l.updatedAt
    ensures IsEmptyPatch(p) ==> r == l
    ensures LeadFits(l) ==> LeadFits(r)
    ensures SetsColumn(l.restaurantName, p.restaurantName, r.restaurantName, 255)
    ensures SetsColumn(l.location, p.location, r.location, 255)
    ensures SetsColumn(l.leadType, p.leadType, r.leadType, 100)
    ensures SetsColumn(l.status, p.status, r.status, 50)
    ensures SetsNullableColumn(l.contactPerson, p.contactPerson, r.contactPerson, 255)
    ensures SetsNullableColumn(l.contactEmail, p.contactEmail, r.contactEmail, 255)
    ensures SetsNullableColumn(l.contactPhone, p.contactPhone, r.contactPhone, 50)
    ensures SetsNullable(l.notes, p.notes, r.notes)
  {
    l.(restaurantName := Updated(l.restaurantName, Stored(p.restaurantName, 255)),
       location := Updated(l.location, Stored(p.location, 255)),
       leadType := Updated(l.leadType, Stored(p.leadType, 100)),
       status := Updated(l.status, Stored(p.status, 50)),
       contactPerson := UpdatedNullable(l.contactPerson, Stored(p.contactPerson, 255)),
       contactEmail := UpdatedNullable(l.contactEmail, Stored(p.contactEmail, 255)),
       contactPhone := UpdatedNullable(l.contactPhone, Stored(p.contactPhone, 50)),
       notes := UpdatedNullable(l.notes, p.notes))
  }

  /** Repeating the same PUT changes nothing further. */
  lemma LeadPatchIdempotent(l: Lead, p: LeadPayload)
    requires PayloadFits(p) && !NullsRequiredColumn(p)
    ensures ApplyLeadPatch(ApplyLeadPatch(l, p), p) == ApplyLeadPatch(l, p)
  {
  }

  /** The PUT's WHERE matches a row: the body has an id some lead carries. */
  predicate LeadFound(leads: seq<Lead>, id: Option<int>) {
    id.Some? && IndexOf(leads, LeadKey, id.value).Some?
  }

  /**
   * PUT: 500 when the body names no column (an UPDATE with nothing to set is rejected) or a
   * string its column does not accept; 404 when no lead has the id (a missing id matches
   * nothing); 500 when a `null` is written to a NOT NULL column of the matched lead (the
   * constraint is checked on the rows the UPDATE touches, so with no match the answer stays
   * 404); otherwise the lead is updated and answered.
   */
  method PutLead(db: Store, id: Option<int>, patch: LeadPayload) returns (res: Response<Lead>)
    requires db.Valid()
    modifies db`leads
    ensures db.Valid()
    ensures res.Ok? || res.NotFound? || res.ServerError?
    ensures res.ServerError? <==> IsEmptyPatch(patch) || !PayloadFits(patch)
                                  || (NullsRequiredColumn(patch) && LeadFound(old(db.leads), id))
    ensures res.NotFound? <==> !IsEmptyPatch(patch) && PayloadFits(patch) && !LeadFound(old(db.leads), id)
    ensures !res.Ok? ==> db.leads == old(db.leads)
    ensures res.Ok? ==>
              var i := IndexOf(old(db.leads), LeadKey, id.value).value;
              && res.body == ApplyLeadPatch(old(db.leads)[i], patch)
              && db.leads == old(db.leads)[i := res.body]
  {
    if IsEmptyPatch(patch) || !PayloadFits(patch) {
      return ServerError;
    }
    if id.None? {
      return NotFound;
    }
    var found := IndexOf(db.leads, LeadKey, id.value);
    if found.None? {
      return NotFound;
    }
    if NullsRequiredColumn(patch) {
      return ServerError;
    }
    var i := found.value;
    var row := ApplyLeadPatch(db.leads[i], patch);
    db.ReplaceLead(i, row);
    res := Ok(row);
  }

  /**
   * DELETE ?id=: 400 for a missing or empty id, 500 when it is not a number, 404 when no lead
   * has it; otherwise the lead is removed. Contacts, orders, interactions and calls that name
   * the lead are left in place (no table references `leads`).
   */
  method DeleteLead(db: Store, id: IdParam) returns (res: Response<()>)
    requires db.Valid()
    modifies db`leads
    ensures db.Valid()
    ensures res.BadRequest? <==> id.Missing?
    ensures res.ServerError? <==> id.NotANumber?
    ensures res.NotFound? <==> id.Number? && IndexOf(old(db.leads), LeadKey, id.n).None?
    ensures res.Ok? || res.BadRequest? || res.ServerError? || res.NotFound?
    ensures !res.Ok? ==> db.leads == old(db.leads)
    ensures res.Ok? ==> db.leads == RemoveAt(old(db.leads), IndexOf(old(db.leads), LeadKey, id.n).value)
    ensures res.Ok? ==> forall l :: l in db.leads ==> l.id != id.n
    ensures db.contacts == old(db.contacts) && db.orders == old(db.orders) && db.interactions == old(db.interactions)
    ensures db.potentialOrders == old(db.potentialOrders) && db.scheduledCalls == old(db.scheduledCalls)
  {
    if id.Missing? {
      return BadRequest;
    }
    if id.NotANumber? {
      return ServerError;
    }
    var found := IndexOf(db.leads, LeadKey, id.n);
    if found.None? {
      return NotFound;
    }
    RemovedKeyIsGone(db.leads, LeadKey, db.nextLeadId, found.value);
    db.DeleteLead(found.value);
    res := Ok(());
  }
}
