/**
 * The seven tables of the PostgreSQL schema as row datatypes (configs/schema.js).
 *
 * Money columns (`decimal(10, 2)`) hold integer cents; timestamps are integers counting
 * wall-clock seconds. A nullable column is an `Option`; a `notNull` column is a plain value.
 * Every table's `id` is a `serial` primary key, handed out by the table's own sequence.
 */
module Schema {
  import opened Wrappers

  type Timestamp = int
  type Cents = int

  /** The largest magnitude a `decimal(10, 2)` column holds, in cents (99 999 999.99). */
  const MaxDecimalCents: int := 9_999_999_999

  predicate FitsMoney(c: Cents) {
    -MaxDecimalCents <= c <= MaxDecimalCents
  }

  /**
   * A string a `varchar(n)` column accepts. PostgreSQL rejects a longer string unless every
   * character past the n-th is a space.
   */
  predicate FitsVarchar(s: string, n: nat) {
    forall i :: n <= i < |s| ==> s[i] == ' '
  }

  /**
   * `stored` is what a `varchar(n)` column keeps of `sent`: all of it when it fits, otherwise
   * its first n characters, the rest being spaces.
   */
  predicate Truncates(sent: string, stored: string, n: nat) {
    && stored <= sent
    && |stored| == (if |sent| <= n then |sent| else n)
    && forall i :: |stored| <= i < |sent| ==> sent[i] == ' '
  }

  /** The value a `varchar(n)` column stores: an accepted longer string loses its trailing spaces past n. */
  function Varchar(s: string, n: nat): (r: string)
    requires FitsVarchar(s, n)
    ensures Truncates(s, r, n) && |r| <= n
    ensures |s| <= n ==> r == s
  {
    if |s| <= n then s else s[..n]
  }

  predicate FitsOptVarchar(s: Option<string>, n: nat) {
    s.None? || FitsVarchar(s.value, n)
  }

  function OptVarchar(s: Option<string>, n: nat): (r: Option<string>)
    requires FitsOptVarchar(s, n)
    ensures r.None? <==> s.None?
    ensures r.Some? ==> r.value == Varchar(s.value, n)
  {
    if s.None? then None else Some(Varchar(s.value, n))
  }

  // Column defaults.
  const DefaultUserRole: string := "user"
  const DefaultLeadStatus: string := "New"
  const DefaultOrderStatus: string := "Pending"
  const DefaultCallStatus: string := "scheduled"

  // Values the handlers write.
  const CallType: string := "call"
  const CompletedStatus: string := "completed"

  datatype User = User(
    id: nat,
    userName: Option<string>,
    email: string,
    role: Option<string>,
    userId: Option<string>)

  datatype Lead = Lead(
    id: nat,
    restaurantName: string,    // varchar(255)
    location: string,          // varchar(255)
    leadType: string,          // varchar(100)
    status: string,            // varchar(50), default 'New'
    contactPerson: Option<string>,
    contactEmail: Option<string>,
    contactPhone: Option<string>,
    notes: Option<string>,
    createdAt: Option<Timestamp>,
    updatedAt: Option<Timestamp>)

  datatype Contact = Contact(
    id: nat,
    leadId: int,               // a plain integer: no reference constraint
    contactPerson: string,     // varchar(255)
    contactEmail: Option<string>,
    contactPhone: Option<string>,
    role: string,              // varchar(100)
    isPrimary: Option<bool>,   // default false
    createdAt: Option<Timestamp>,
    updatedAt: Option<Timestamp>)

  datatype Order = Order(
    id: nat,
    leadId: int,
    orderDate: Option<Timestamp>,   // default now(), but nullable
    totalAmount: Cents,             // decimal(10, 2) not null
    status: string,                 // default 'Pending'
    notes: Option<string>,
    createdAt: Option<Timestamp>,
    updatedAt: Option<Timestamp>)

  /** `duration` is documented in seconds and `rating` as 1 to 5; neither range is enforced. */
  datatype Interaction = Interaction(
    id: nat,
    leadId: int,
    contactId: int,
    kind: string,              // the `type` column: 'call', 'email' or 'text'
    status: string,
    notes: Option<string>,
    duration: Option<int>,
    rating: Option<int>,
    orderId: Option<int>,
    createdAt: Option<Timestamp>)

  /** `probability` is documented as 1 to 100; the range is not enforced. */
  datatype PotentialOrder = PotentialOrder(
    id: nat,
    leadId: int,
    expectedDate: Timestamp,
    estimatedAmount: Option<Cents>,
    probability: Option<int>,
    notes: Option<string>,
    createdAt: Option<Timestamp>,
    updatedAt: Option<Timestamp>)

  /** `duration` is documented in minutes; `status` as one of scheduled, completed, cancelled. */
  datatype ScheduledCall = ScheduledCall(
    id: nat,
    leadId: int,
    contactId: int,
    scheduledDate: Timestamp,
    duration: int,
    notes: Option<string>,
    status: string,
    reminderSent: Option<bool>,
    createdAt: Option<Timestamp>,
    updatedAt: Option<Timestamp>)

  predicate OptWithin(s: Option<string>, n: nat) {
    s.None? || |s.value| <= n
  }

  /** Every varchar column of the lead holds no more than its length. */
  predicate LeadFits(l: Lead) {
    && |l.restaurantName| <= 255 && |l.location| <= 255 && |l.leadType| <= 100 && |l.status| <= 50
    && OptWithin(l.contactPerson, 255) && OptWithin(l.contactEmail, 255) && OptWithin(l.contactPhone, 50)
  }

  /** Every varchar column of the contact holds no more than its length. */
  predicate ContactFits(c: Contact) {
    && |c.contactPerson| <= 255 && OptWithin(c.contactEmail, 255) && OptWithin(c.contactPhone, 50)
    && |c.role| <= 100
  }

  // Primary keys, as functions for the generic table helpers.
  function UserKey(u: User): nat { u.id }
  function LeadKey(l: Lead): nat { l.id }
  function ContactKey(c: Contact): nat { c.id }
  function OrderKey(o: Order): nat { o.id }
  function InteractionKey(i: Interaction): nat { i.id }
  function PotentialOrderKey(p: PotentialOrder): nat { p.id }
  function ScheduledCallKey(c: ScheduledCall): nat { c.id }

  /**
   * The interaction recorded when a scheduled call is completed: lead, contact, notes and
   * duration copied from the call, type 'call', status 'completed', no rating and no order.
   * The call's duration (minutes) lands unconverted in the interaction's duration (seconds).
   * The id is a placeholder: the table's sequence assigns the real one on insert.
   */
  function InteractionForCall(call: ScheduledCall, now: Timestamp): (r: Interaction)
    ensures r.leadId == call.leadId && r.contactId == call.contactId && r.notes == call.notes
    ensures r.duration == Some(call.duration)
    ensures r.kind == CallType && r.status == CompletedStatus
    ensures r.rating.None? && r.orderId.None? && r.createdAt == Some(now)
  {
    Interaction(0, call.leadId, call.contactId, CallType, CompletedStatus,
                call.notes, Some(call.duration), None, None, Some(now))
  }
}
