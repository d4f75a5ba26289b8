/**
 * The additional-contacts API (app/api/contacts/route.js): list (all, or one lead's), create,
 * update and delete. As for leads, the body goes straight to the database, whose NOT NULL and
 * varchar checks are the only validation.
 */
module ContactsRoute {
  import opened Wrappers
  import opened Seqs
  import opened Schema
  import opened Database

  /** The contact properties a request body may carry. */
  datatype ContactPayload = ContactPayload(
    leadId: JsonField<int>,
    contactPerson: JsonField<string>,
    contactEmail: JsonField<string>,
    contactPhone: JsonField<string>,
    role: JsonField<string>,
    isPrimary: JsonField<bool>)

  /** Every written string fits its column: varchar(255), (255), (50), (100). */
  predicate PayloadFits(b: ContactPayload) {
    && FieldFits(b.contactPerson, 255) && FieldFits(b.contactEmail, 255)
    && FieldFits(b.contactPhone, 50) && FieldFits(b.role, 100)
  }

  /** A `null` for one of the NOT NULL columns. */
  predicate NullsRequiredColumn(b: ContactPayload) {
    b.leadId.Null? || b.contactPerson.Null? || b.role.Null?
  }

  predicate IsEmptyPatch(p: ContactPayload) {
    p == ContactPayload(Absent, Absent, Absent, Absent, Absent, Absent)
  }

  /**
   * GET ?leadId=: without the parameter (or with it empty) every contact; with a number the
   * contacts whose `leadId` equals it, in table order; with NaN the query fails (500).
   */
  function ListContacts(contacts: seq<Contact>, leadId: IdParam): (r: Response<seq<Contact>>)
    ensures r.Ok? || r.ServerError?
    ensures r.ServerError? <==> leadId.NotANumber?
    ensures leadId.Missing? ==> r == Ok(contacts)
    ensures leadId.Number? ==> forall c :: c in r.body <==> c in contacts && c.leadId == leadId.n
    ensures leadId.Number? ==> IsSubsequence(r.body, contacts)
  {
    match leadId
    case Missing => Ok(contacts)
    case NotANumber => ServerError
    case Number(n) => Ok(Filter(contacts, (c: Contact) => c.leadId == n))
  }

  function GetContacts(db: Store, leadId: IdParam): Response<seq<Contact>>
    reads db
  {
    ListContacts(db.contacts, leadId)
  }

  /** The INSERT fails on a NOT NULL column left out or `null`, or a string its column does not accept. */
  predicate ContactInsertFails(b: ContactPayload) {
    !b.leadId.Value? || !b.contactPerson.Value? || !b.role.Value? || !PayloadFits(b)
  }

  /**
   * The row stored for a body: strings as their columns hold them, `isPrimary` false when left
   * out but NULL when `null`, both stamps `now`.
   */
  function NewContactRow(b: ContactPayload, now: Timestamp): (r: Contact)
    requires !ContactInsertFails(b)
    ensures ContactFits(r)
    ensures r.leadId == b.leadId.value
    ensures Truncates(b.contactPerson.value, r.contactPerson, 255) && Truncates(b.role.value, r.role, 100)
    ensures InsertsColumn(b.contactEmail, r.contactEmail, 255)
    ensures InsertsColumn(b.contactPhone, r.contactPhone, 50)
    ensures b.isPrimary.Absent? ==> r.isPrimary == Some(false)
    ensures b.isPrimary.Null? ==> r.isPrimary.None?
    ensures b.isPrimary.Value? ==> r.isPrimary == Some(b.isPrimary.value)
  {
    Contact(0, b.leadId.value, Varchar(b.contactPerson.value, 255), Inserted(Stored(b.contactEmail, 255)),
            Inserted(Stored(b.contactPhone, 50)), Varchar(b.role.value, 100),
            if b.isPrimary.Absent? then Some(false) else Inserted(b.isPrimary), Some(now), Some(now))
  }

  /** POST: 201 with the stored row, or 500 and nothing stored. The lead is not looked up. */
  method PostContact(db: Store, body: ContactPayload, now: Timestamp) returns (res: Response<Contact>)
    requires db.Valid()
    modifies db`contacts, db`nextContactId
    ensures db.Valid()
    ensures res.Created? <==> !ContactInsertFails(body)
    ensures res.Created? || res.ServerError?
    ensures res.ServerError? ==> db.contacts == old(db.contacts) && db.nextContactId == old(db.nextContactId)
    ensures res.Created? ==>
              && res.body == NewContactRow(body, now).(id := old(db.nextContactId))
              && db.contacts == old(db.contacts) + [res.body]
              && db.nextContactId == old(db.nextContactId) + 1
  {
    if ContactInsertFails(body) {
      return ServerError;
    }
    var row := db.InsertContact(NewContactRow(body, now));
    res := Created(row);
  }

  /** A created contact is listed for its lead, and under no other lead. */
  lemma CreatedContactIsListed(contacts: seq<Contact>, row: Contact, n: int)
    ensures row in ListContacts(contacts + [row], Number(row.leadId)).body
    ensures n != row.leadId ==> ListContacts(contacts + [row], Number(n)) == ListContacts(contacts, Number(n))
  {
    if n != row.leadId {
      FilterAppendSkips(contacts, row, n);
    }
  }

  lemma {:induction false} FilterAppendSkips(contacts: seq<Contact>, row: Contact, n: int)
    requires row.leadId != n
    ensures Filter(contacts + [row], (c: Contact) => c.leadId == n) == Filter(contacts, (c: Contact) => c.leadId == n)
  {
    if contacts == [] {
      assert contacts + [row] == [row];
      assert [row][1..] == [];
    } else {
      assert (contacts + [row])[0] == contacts[0];
      assert (contacts + [row])[1..] == contacts[1..] + [row];
      FilterAppendSkips(contacts[1..], row, n);
    }
  }

  /**
   * `.set(updateData)`: left-out properties keep their columns, a `null` sets its (nullable)
   * column to NULL, a string is stored as its column holds it.
   */
  function ApplyContactPatch(c: Contact, p: ContactPayload): (r: Contact)
    requires PayloadFits(p) && !NullsRequiredColumn(p)
    ensures r.id == c.id && r.createdAt == c.createdAt && r.updatedAt == c.updatedAt
    ensures IsEmptyPatch(p) ==> r == c
    ensures ContactFits(c) ==> ContactFits(r)
    ensures p.leadId.Absent? ==> r.leadId == c.leadId
    ensures p.leadId.Value? ==> r.leadId == p.leadId.value
    ensures SetsColumn(c.contactPerson, p.contactPerson, r.contactPerson, 255)
    ensures SetsNullableColumn(c.contactEmail, p.contactEmail, r.contactEmail, 255)
    ensures SetsNullableColumn(c.contactPhone, p.contactPhone, r.contactPhone, 50)
    ensures SetsColumn(c.role, p.role, r.role, 100)
    ensures SetsNullable(c.isPrimary, p.isPrimary, r.isPrimary)
  {
    c.(leadId := Updated(c.leadId, p.leadId),
       contactPerson := Updated(c.contactPerson, Stored(p.contactPerson, 255)),
       contactEmail := UpdatedNullable(c.contactEmail, Stored(p.contactEmail, 255)),
       contactPhone := UpdatedNullable(c.contactPhone, Stored(p.contactPhone, 50)),
       role := Updated(c.role, Stored(p.role, 100)),
       isPrimary := UpdatedNullable(c.isPrimary, p.isPrimary))
  }

  /** The PUT's WHERE matches a row: the body has an id some contact carries. */
  predicate ContactFound(contacts: seq<Contact>, id: Option<int>) {
    id.Some? && IndexOf(contacts, ContactKey, id.value).Some?
  }

  /**
   * PUT: 500 when the body names no column or a string its column does not accept; 404 when
   * no contact has the id; 500 when a `null` is written to a NOT NULL column of the matched
   * contact; otherwise the contact is updated and answered.
   */
  method PutContact(db: Store, id: Option<int>, patch: ContactPayload) returns (res: Response<Contact>)
    requires db.Valid()
    modifies db`contacts
    ensures db.Valid()
    ensures res.Ok? || res.NotFound? || res.ServerError?
    ensures res.ServerError? <==> IsEmptyPatch(patch) || !PayloadFits(patch)
                                  || (NullsRequiredColumn(patch) && ContactFound(old(db.contacts), id))
    ensures res.NotFound? <==> !IsEmptyPatch(patch) && PayloadFits(patch) && !ContactFound(old(db.contacts), id)
    ensures !res.Ok? ==> db.contacts == old(db.contacts)
    ensures res.Ok? ==>
              var i := IndexOf(old(db.contacts), ContactKey, id.value).value;
              && res.body == ApplyContactPatch(old(db.contacts)[i], patch)
              && db.contacts == old(db.contacts)[i := res.body]
  {
    if IsEmptyPatch(patch) || !PayloadFits(patch) {
      return ServerError;
    }
    if id.None? {
      return NotFound;
    }
    var found := IndexOf(db.contacts, ContactKey, id.value);
    if found.None? {
      return NotFound;
    }
    if NullsRequiredColumn(patch) {
      return ServerError;
    }
    var i := found.value;
    var row := ApplyContactPatch(db.contacts[i], patch);
    db.ReplaceContact(i, row);
    res := Ok(row);
  }

  /** DELETE ?id=: 400 for a missing or empty id, 500 for NaN, 404 when no contact has it. */
  method DeleteContact(db: Store, id: IdParam) returns (res: Response<()>)
    requires db.Valid()
    modifies db`contacts
    ensures db.Valid()
    ensures res.BadRequest? <==> id.Missing?
    ensures res.ServerError? <==> id.NotANumber?
    ensures res.NotFound? <==> id.Number? && IndexOf(old(db.contacts), ContactKey, id.n).None?
    ensures res.Ok? || res.BadRequest? || res.ServerError? || res.NotFound?
    ensures !res.Ok? ==> db.contacts == old(db.contacts)
    ensures res.Ok? ==> db.contacts == RemoveAt(old(db.contacts), IndexOf(old(db.contacts), ContactKey, id.n).value)
    ensures res.Ok? ==> forall c :: c in db.contacts ==> c.id != id.n
  {
    if id.Missing? {
      return BadRequest;
    }
    if id.NotANumber? {
      return ServerError;
    }
    var found := IndexOf(db.contacts, ContactKey, id.n);
    if found.None? {
      return NotFound;
    }
    RemovedKeyIsGone(db.contacts, ContactKey, db.nextContactId, found.value);
    db.DeleteContact(found.value);
    res := Ok(());
  }
}
