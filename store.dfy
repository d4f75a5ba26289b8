/**
 * The PostgreSQL store as in-memory tables: one sequence of rows per table of the schema,
 * in insertion order, and the next value of each table's `serial` sequence. The methods are
 * the single-statement writes the handlers issue (INSERT ... RETURNING, UPDATE and DELETE by
 * primary key); each keeps every table serially keyed, and its frame names the only fields
 * it may change.
 */
module Database {
  import opened Wrappers
  import opened Seqs
  import opened Schema

  /** What a route handler answers: a body with 200 or 201, or an error status. */
  datatype Response<T> = Ok(body: T) | Created(body: T) | BadRequest | NotFound | ServerError

  /**
   * A query-string id as `parseInt(searchParams.get('id'))` sees it: Missing when the
   * parameter is absent or empty (falsy), NotANumber when `parseInt` yields NaN, which the
   * database then rejects, and Number(n) otherwise.
   */
  datatype IdParam = Missing | NotANumber | Number(n: int)

  /**
   * A property of a JSON request body: left out (`undefined`), `null`, or a value. drizzle
   * treats the first two differently: an INSERT fills a left-out column with its default but
   * writes NULL for `null`, and an UPDATE skips a left-out column but sets a `null` one to NULL.
   */
  datatype JsonField<T> = Absent | Null | Value(value: T)

  /** A string property, if written, fits its `varchar(n)` column. */
  predicate FieldFits(f: JsonField<string>, n: nat) {
    f.Value? ==> FitsVarchar(f.value, n)
  }

  /** The property as the `varchar(n)` column will hold it. */
  function Stored(f: JsonField<string>, n: nat): (r: JsonField<string>)
    requires FieldFits(f, n)
    ensures r.Absent? <==> f.Absent?
    ensures r.Null? <==> f.Null?
    ensures r.Value? ==> Truncates(f.value, r.value, n)
  {
    if f.Value? then Value(Varchar(f.value, n)) else f
  }

  /** An INSERT into a nullable column without default: NULL unless a value is given. */
  function Inserted<T>(f: JsonField<T>): (r: Option<T>)
    ensures r.Some? <==> f.Value?
    ensures r.Some? ==> r.value == f.value
  {
    if f.Value? then Some(f.value) else None
  }

  /** An UPDATE of a NOT NULL column: a left-out property keeps the old value. */
  function Updated<T>(current: T, f: JsonField<T>): (r: T)
    requires !f.Null?
    ensures f.Absent? ==> r == current
    ensures f.Value? ==> r == f.value
  {
    if f.Value? then f.value else current
  }

  /** An UPDATE of a nullable column: left out keeps the old value, `null` clears it. */
  function UpdatedNullable<T>(current: Option<T>, f: JsonField<T>): (r: Option<T>)
    ensures f.Absent? ==> r == current
    ensures f.Null? ==> r.None?
    ensures f.Value? ==> r == Some(f.value)
  {
    match f
    case Absent => current
    case Null => None
    case Value(v) => Some(v)
  }

  /** An INSERT into a nullable varchar(n) column: NULL unless a value is sent, else that value as the column holds it. */
  predicate InsertsColumn(f: JsonField<string>, stored: Option<string>, n: nat) {
    && (stored.Some? <==> f.Value?)
    && (f.Value? ==> Truncates(f.value, stored.value, n))
  }

  /** A NOT NULL varchar(n) column after `.set`: kept when left out, else the sent value as the column holds it. */
  predicate SetsColumn(before: string, f: JsonField<string>, after: string, n: nat) {
    && (f.Absent? ==> after == before)
    && (f.Value? ==> Truncates(f.value, after, n))
  }

  /** A nullable column after `.set`: kept when left out, NULL for `null`, else the sent value. */
  predicate SetsNullable<T(==)>(before: Option<T>, f: JsonField<T>, after: Option<T>) {
    && (f.Absent? ==> after == before)
    && (f.Null? ==> after.None?)
    && (f.Value? ==> after == Some(f.value))
  }

  /** A nullable varchar(n) column after `.set`: as `SetsNullable`, a sent value as the column holds it. */
  predicate SetsNullableColumn(before: Option<string>, f: JsonField<string>, after: Option<string>, n: nat) {
    && (f.Absent? ==> after == before)
    && (f.Null? ==> after.None?)
    && (f.Value? ==> after.Some? && Truncates(f.value, after.value, n))
  }

  class Store {
    var users: seq<User>
    var leads: seq<Lead>
    var contacts: seq<Contact>
    var orders: seq<Order>
    var interactions: seq<Interaction>
    var potentialOrders: seq<PotentialOrder>
    var scheduledCalls: seq<ScheduledCall>

    // The next value of each table's serial sequence.
    var nextUserId: nat
    var nextLeadId: nat
    var nextContactId: nat
    var nextOrderId: nat
    var nextInteractionId: nat
    var nextPotentialOrderId: nat
    var nextScheduledCallId: nat

    /** Every table's ids were handed out by its own sequence: unique, ascending, below the next one. */
    ghost predicate Valid()
      reads this
    {
      && SerialKeyed(users, UserKey, nextUserId) && 1 <= nextUserId
      && SerialKeyed(leads, LeadKey, nextLeadId) && 1 <= nextLeadId
      && SerialKeyed(contacts, ContactKey, nextContactId) && 1 <= nextContactId
      && SerialKeyed(orders, OrderKey, nextOrderId) && 1 <= nextOrderId
      && SerialKeyed(interactions, InteractionKey, nextInteractionId) && 1 <= nextInteractionId
      && SerialKeyed(potentialOrders, PotentialOrderKey, nextPotentialOrderId) && 1 <= nextPotentialOrderId
      && SerialKeyed(scheduledCalls, ScheduledCallKey, nextScheduledCallId) && 1 <= nextScheduledCallId
    }

    /** An empty database whose sequences all start at 1. */
    constructor ()
      ensures Valid()
      ensures users == [] && leads == [] && contacts == [] && orders == []
      ensures interactions == [] && potentialOrders == [] && scheduledCalls == []
    {
      users, leads, contacts, orders := [], [], [], [];
      interactions, potentialOrders, scheduledCalls := [], [], [];
      nextUserId, nextLeadId, nextContactId, nextOrderId := 1, 1, 1, 1;
      nextInteractionId, nextPotentialOrderId, nextScheduledCallId := 1, 1, 1;
    }

    // --- INSERT ... RETURNING: the row is stored with the sequence's next id ---

    method InsertUser(r: User) returns (row: User)
      requires Valid()
      modifies this`users, this`nextUserId
      ensures Valid()
      ensures row == r.(id := old(nextUserId)) && nextUserId == old(nextUserId) + 1
      ensures users == old(users) + [row]
    {
      row := r.(id := nextUserId);
      AppendKeepsSerial(users, UserKey, nextUserId, row);
      users, nextUserId := users + [row], nextUserId + 1;
    }

    method InsertLead(r: Lead) returns (row: Lead)
      requires Valid()
      modifies this`leads, this`nextLeadId
      ensures Valid()
      ensures row == r.(id := old(nextLeadId)) && nextLeadId == old(nextLeadId) + 1
      ensures leads == old(leads) + [row]
    {
      row := r.(id := nextLeadId);
      AppendKeepsSerial(leads, LeadKey, nextLeadId, row);
      leads, nextLeadId := leads + [row], nextLeadId + 1;
    }

    method InsertContact(r: Contact) returns (row: Contact)
      requires Valid()
      modifies this`contacts, this`nextContactId
      ensures Valid()
      ensures row == r.(id := old(nextContactId)) && nextContactId == old(nextContactId) + 1
      ensures contacts == old(contacts) + [row]
    {
      row := r.(id := nextContactId);
      AppendKeepsSerial(contacts, ContactKey, nextContactId, row);
      contacts, nextContactId := contacts + [row], nextContactId + 1;
    }

    method InsertOrder(r: Order) returns (row: Order)
      requires Valid()
      modifies this`orders, this`nextOrderId
      ensures Valid()
      ensures row == r.(id := old(nextOrderId)) && nextOrderId == old(nextOrderId) + 1
      ensures orders == old(orders) + [row]
    {
      row := r.(id := nextOrderId);
      AppendKeepsSerial(orders, OrderKey, nextOrderId, row);
      orders, nextOrderId := orders + [row], nextOrderId + 1;
    }

    method InsertInteraction(r: Interaction) returns (row: Interaction)
      requires Valid()
      modifies this`interactions, this`nextInteractionId
      ensures Valid()
      ensures row == r.(id := old(nextInteractionId)) && nextInteractionId == old(nextInteractionId) + 1
      ensures interactions == old(interactions) + [row]
    {
      row := r.(id := nextInteractionId);
      AppendKeepsSerial(interactions, InteractionKey, nextInteractionId, row);
      interactions, nextInteractionId := interactions + [row], nextInteractionId + 1;
    }

    method InsertScheduledCall(r: ScheduledCall) returns (row: ScheduledCall)
      requires Valid()
      modifies this`scheduledCalls, this`nextScheduledCallId
      ensures Valid()
      ensures row == r.(id := old(nextScheduledCallId)) && nextScheduledCallId == old(nextScheduledCallId) + 1
      ensures scheduledCalls == old(scheduledCalls) + [row]
    {
      row := r.(id := nextScheduledCallId);
      AppendKeepsSerial(scheduledCalls, ScheduledCallKey, nextScheduledCallId, row);
      scheduledCalls, nextScheduledCallId := scheduledCalls + [row], nextScheduledCallId + 1;
    }

    // --- UPDATE ... WHERE id = $1: the row at position i, keeping its id ---

    method ReplaceLead(i: nat, row: Lead)
      requires Valid() && i < |leads| && row.id == leads[i].id
      modifies this`leads
      ensures Valid()
      ensures leads == old(leads)[i := row]
    {
      ReplaceKeepsSerial(leads, LeadKey, nextLeadId, i, row);
      leads := leads[i := row];
    }

    method ReplaceContact(i: nat, row: Contact)
      requires Valid() && i < |contacts| && row.id == contacts[i].id
      modifies this`contacts
      ensures Valid()
      ensures contacts == old(contacts)[i := row]
    {
      ReplaceKeepsSerial(contacts, ContactKey, nextContactId, i, row);
      contacts := contacts[i := row];
    }

    method ReplaceOrder(i: nat, row: Order)
      requires Valid() && i < |orders| && row.id == orders[i].id
      modifies this`orders
      ensures Valid()
      ensures orders == old(orders)[i := row]
    {
      ReplaceKeepsSerial(orders, OrderKey, nextOrderId, i, row);
      orders := orders[i := row];
    }

    method ReplaceScheduledCall(i: nat, row: ScheduledCall)
      requires Valid() && i < |scheduledCalls| && row.id == scheduledCalls[i].id
      modifies this`scheduledCalls
      ensures Valid()
      ensures scheduledCalls == old(scheduledCalls)[i := row]
    {
      ReplaceKeepsSerial(scheduledCalls, ScheduledCallKey, nextScheduledCallId, i, row);
      scheduledCalls := scheduledCalls[i := row];
    }

    // --- DELETE ... WHERE id = $1: the row at position i; the others keep their order ---

    method DeleteLead(i: nat)
      requires Valid() && i < |leads|
      modifies this`leads
      ensures Valid()
      ensures leads == RemoveAt(old(leads), i)
    {
      RemoveKeepsSerial(leads, LeadKey, nextLeadId, i);
      leads := RemoveAt(leads, i);
    }

    method DeleteContact(i: nat)
      requires Valid() && i < |contacts|
      modifies this`contacts
      ensures Valid()
      ensures contacts == RemoveAt(old(contacts), i)
    {
      RemoveKeepsSerial(contacts, ContactKey, nextContactId, i);
      contacts := RemoveAt(contacts, i);
    }

    method DeleteScheduledCall(i: nat)
      requires Valid() && i < |scheduledCalls|
      modifies this`scheduledCalls
      ensures Valid()
      ensures scheduledCalls == RemoveAt(old(scheduledCalls), i)
    {
      RemoveKeepsSerial(scheduledCalls, ScheduledCallKey, nextScheduledCallId, i);
      scheduledCalls := RemoveAt(scheduledCalls, i);
    }
  }
}
