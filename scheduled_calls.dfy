/**
 * The scheduled-calls API (app/api/interactions/scheduled-calls/route.jsx): list the upcoming
 * calls, schedule one, and complete one.
 */
module ScheduledCallsRoute {
  import opened Wrappers
  import opened Seqs
  import opened Schema
  import opened Database

  /** A listed call, with the lead's restaurant and the contact's name from the two left joins. */
  datatype UpcomingCall = UpcomingCall(
    id: nat,
    scheduledDate: Timestamp,
    duration: int,
    notes: Option<string>,
    status: string,
    restaurantName: Option<string>,   // NULL when no lead has the call's leadId
    contactPerson: Option<string>)    // NULL when no contact has the call's contactId

  function UpcomingDate(u: UpcomingCall): int { u.scheduledDate }

  /** `LEFT JOIN leads ON leads.id = call.lead_id`. */
  function RestaurantOf(leads: seq<Lead>, leadId: int): (r: Option<string>)
    ensures r.Some? <==> exists l :: l in leads && l.id == leadId
    ensures r.Some? ==> exists l :: l in leads && l.id == leadId && l.restaurantName == r.value
  {
    match IndexOf(leads, LeadKey, leadId)
    case None => None
    case Some(i) => Some(leads[i].restaurantName)
  }

  /** `LEFT JOIN additional_contacts ON additional_contacts.id = call.contact_id`. */
  function ContactPersonOf(contacts: seq<Contact>, contactId: int): (r: Option<string>)
    ensures r.Some? <==> exists c :: c in contacts && c.id == contactId
    ensures r.Some? ==> exists c :: c in contacts && c.id == contactId && c.contactPerson == r.value
  {
    match IndexOf(contacts, ContactKey, contactId)
    case None => None
    case Some(i) => Some(contacts[i].contactPerson)
  }

  function JoinCall(leads: seq<Lead>, contacts: seq<Contact>, c: ScheduledCall): UpcomingCall {
    UpcomingCall(c.id, c.scheduledDate, c.duration, c.notes, c.status,
                 RestaurantOf(leads, c.leadId), ContactPersonOf(contacts, c.contactId))
  }

  function JoinCalls(leads: seq<Lead>, contacts: seq<Contact>, calls: seq<ScheduledCall>): (r: seq<UpcomingCall>)
    ensures |r| == |calls|
    ensures forall i :: 0 <= i < |calls| ==> r[i] == JoinCall(leads, contacts, calls[i])
  {
    if calls == [] then [] else [JoinCall(leads, contacts, calls[0])] + JoinCalls(leads, contacts, calls[1..])
  }

  predicate IsScheduled(c: ScheduledCall) {
    c.status == DefaultCallStatus
  }

  /**
   * GET: the calls whose status is 'scheduled', joined and ordered by date. The handler passes
   * its "after now" condition as a second argument to `where`, which takes only one, so the
   * date is not filtered: calls already past are listed too.
   */
  function UpcomingCalls(calls: seq<ScheduledCall>, leads: seq<Lead>, contacts: seq<Contact>): (r: seq<UpcomingCall>)
    ensures |r| == |Filter(calls, IsScheduled)|
    ensures SortedBy(r, UpcomingDate)
    ensures forall u :: u in r ==> u.status == DefaultCallStatus
  {
    var f := Filter(calls, IsScheduled);
    var j := JoinCalls(leads, contacts, f);
    SortedSameMembers(j, UpcomingDate);
    JoinCallsMembers(leads, contacts, f);
    SortByKey(j, UpcomingDate)
  }

  function GetScheduledCalls(db: Store): (r: seq<UpcomingCall>)
    reads db
    ensures r == UpcomingCalls(db.scheduledCalls, db.leads, db.contacts)
    ensures SortedBy(r, UpcomingDate)
  {
    UpcomingCalls(db.scheduledCalls, db.leads, db.contacts)
  }

  /**
   * The list holds one row per call whose status is 'scheduled', and no other: a listed row
   * is such a call joined with its lead and contact, every such call is listed, the list is in
   * ascending date order, and calls on the same date keep their table order.
   */
  lemma UpcomingCallsSpec(calls: seq<ScheduledCall>, leads: seq<Lead>, contacts: seq<Contact>)
    ensures |UpcomingCalls(calls, leads, contacts)| == |Filter(calls, IsScheduled)|
    ensures forall c :: c in calls && IsScheduled(c) ==> JoinCall(leads, contacts, c) in UpcomingCalls(calls, leads, contacts)
    ensures forall u :: u in UpcomingCalls(calls, leads, contacts) ==>
              exists c :: c in calls && IsScheduled(c) && u == JoinCall(leads, contacts, c)
    ensures SortedBy(UpcomingCalls(calls, leads, contacts), UpcomingDate)
    ensures forall k :: WithKey(UpcomingCalls(calls, leads, contacts), UpcomingDate, k)
                          == WithKey(JoinCalls(leads, contacts, Filter(calls, IsScheduled)), UpcomingDate, k)
  {
    var f := Filter(calls, IsScheduled);
    var j := JoinCalls(leads, contacts, f);
    assert forall u :: u in UpcomingCalls(calls, leads, contacts) <==> u in j by {
      SortedSameMembers(j, UpcomingDate);
    }
    JoinCallsMembers(leads, contacts, f);
  }

  /** Sorting neither adds nor drops a row. */
  lemma SortedSameMembers(s: seq<UpcomingCall>, key: UpcomingCall -> int)
    ensures forall u :: u in SortByKey(s, key) <==> u in s
  {
    var r := SortByKey(s, key);
    forall u ensures u in r <==> u in s {
      assert u in r <==> u in multiset(r);
      assert u in s <==> u in multiset(s);
    }
  }

  /** The joined rows are exactly the joins of the filtered calls. */
  lemma JoinCallsMembers(leads: seq<Lead>, contacts: seq<Contact>, f: seq<ScheduledCall>)
    ensures forall c :: c in f ==> JoinCall(leads, contacts, c) in JoinCalls(leads, contacts, f)
    ensures forall u :: u in JoinCalls(leads, contacts, f) ==>
              exists c :: c in f && u == JoinCall(leads, contacts, c)
  {
    var j := JoinCalls(leads, contacts, f);
    forall c | c in f ensures JoinCall(leads, contacts, c) in j {
      var i :| 0 <= i < |f| && f[i] == c;
      assert j[i] == JoinCall(leads, contacts, c);
    }
    forall u | u in j ensures exists c :: c in f && u == JoinCall(leads, contacts, c) {
      var i :| 0 <= i < |j| && j[i] == u;
      assert f[i] in f;
    }
  }

  /**
   * A call the mark-call-done action has deleted is no longer listed: no other call carries
   * its id.
   */
  lemma DeletedCallLeavesList(calls: seq<ScheduledCall>, next: nat, leads: seq<Lead>, contacts: seq<Contact>, i: nat)
    requires SerialKeyed(calls, ScheduledCallKey, next) && i < |calls|
    ensures forall u :: u in UpcomingCalls(RemoveAt(calls, i), leads, contacts) ==> u.id != calls[i].id
  {
    ListedIds(RemoveAt(calls, i), leads, contacts);
    RemovedKeyIsGone(calls, ScheduledCallKey, next, i);
  }

  /** As written, a 'scheduled' call whose date has already passed is still listed. */
  lemma PastCallIsListed(calls: seq<ScheduledCall>, leads: seq<Lead>, contacts: seq<Contact>, c: ScheduledCall, now: Timestamp)
    requires c in calls && c.status == DefaultCallStatus && c.scheduledDate <= now
    ensures exists u :: u in UpcomingCalls(calls, leads, contacts) && u.id == c.id && u.scheduledDate <= now
  {
    UpcomingCallsSpec(calls, leads, contacts);
    assert JoinCall(leads, contacts, c) in UpcomingCalls(calls, leads, contacts);
  }

  /**
   * POST's `scheduledDate`: NoDate for a missing, null or empty value (falsy), BadDate for a
   * string `new Date` cannot parse (the insert then fails), and At(t) for a parsed date.
   */
  datatype DateInput = NoDate | BadDate | At(t: Timestamp)

  /** `!x` on a JSON number: missing, null and 0 are falsy. */
  predicate Truthy(x: Option<int>) {
    x.Some? && x.value != 0
  }

  /**
   * POST: 400 unless leadId, contactId, scheduledDate and duration are all truthy; 500 when the
   * date does not parse; otherwise inserts the call as 'scheduled' with no reminder sent and
   * answers its id.
   */
  method PostScheduledCall(db: Store, leadId: Option<int>, contactId: Option<int>, scheduledDate: DateInput,
                           duration: Option<int>, notes: Option<string>, now: Timestamp)
    returns (res: Response<nat>)
    requires db.Valid()
    modifies db`scheduledCalls, db`nextScheduledCallId
    ensures db.Valid()
    ensures res.BadRequest? <==> !Truthy(leadId) || !Truthy(contactId) || scheduledDate.NoDate? || !Truthy(duration)
    ensures res.ServerError? <==> Truthy(leadId) && Truthy(contactId) && scheduledDate.BadDate? && Truthy(duration)
    ensures res.Ok? || res.BadRequest? || res.ServerError?
    ensures !res.Ok? ==> db.scheduledCalls == old(db.scheduledCalls) && db.nextScheduledCallId == old(db.nextScheduledCallId)
    ensures res.Ok? ==>
              && res.body == old(db.nextScheduledCallId)
              && db.nextScheduledCallId == old(db.nextScheduledCallId) + 1
              && db.scheduledCalls == old(db.scheduledCalls)
                   + [ScheduledCall(res.body, leadId.value, contactId.value, scheduledDate.t, duration.value, notes,
                                    DefaultCallStatus, Some(false), Some(now), Some(now))]
  {
    if !Truthy(leadId) || !Truthy(contactId) || scheduledDate.NoDate? || !Truthy(duration) {
      return BadRequest;
    }
    if scheduledDate.BadDate? {
      return ServerError;
    }
    var row := db.InsertScheduledCall(
      ScheduledCall(0, leadId.value, contactId.value, scheduledDate.t, duration.value, notes,
                    DefaultCallStatus, Some(false), Some(now), Some(now)));
    res := Ok(row.id);
  }

  /** The call as the PUT handler leaves it. */
  function Completed(c: ScheduledCall): ScheduledCall {
    c.(status := CompletedStatus)
  }

  /**
   * PUT: 400 for a falsy id, 404 when no call has it; otherwise, in one transaction, records a
   * completed 'call' interaction copied from the call and sets the call's status to
   * 'completed'. The call's current status is not checked, so completing it again records a
   * second interaction.
   */
  method PutScheduledCall(db: Store, id: Option<int>, now: Timestamp) returns (res: Response<()>)
    requires db.Valid()
    modifies db`interactions, db`nextInteractionId, db`scheduledCalls
    ensures db.Valid()
    ensures res.BadRequest? <==> !Truthy(id)
    ensures res.NotFound? <==> Truthy(id) && IndexOf(old(db.scheduledCalls), ScheduledCallKey, id.value).None?
    ensures res.Ok? || res.BadRequest? || res.NotFound?
    ensures !res.Ok? ==> db.interactions == old(db.interactions) && db.scheduledCalls == old(db.scheduledCalls)
                         && db.nextInteractionId == old(db.nextInteractionId)
    ensures res.Ok? ==>
              var i := IndexOf(old(db.scheduledCalls), ScheduledCallKey, id.value).value;
              && db.interactions == old(db.interactions)
                   + [InteractionForCall(old(db.scheduledCalls)[i], now).(id := old(db.nextInteractionId))]
              && db.nextInteractionId == old(db.nextInteractionId) + 1
              && db.scheduledCalls == old(db.scheduledCalls)[i := Completed(old(db.scheduledCalls)[i])]
  {
    if !Truthy(id) {
      return BadRequest;
    }
    var found := IndexOf(db.scheduledCalls, ScheduledCallKey, id.value);
    if found.None? {
      return NotFound;
    }
    var i := found.value;
    var call := db.scheduledCalls[i];
    var _ := db.InsertInteraction(InteractionForCall(call, now));
    db.ReplaceScheduledCall(i, Completed(call));
    res := Ok(());
  }

  /** Each listed row carries the id of some 'scheduled' call of the table. */
  lemma ListedIds(calls: seq<ScheduledCall>, leads: seq<Lead>, contacts: seq<Contact>)
    ensures forall u :: u in UpcomingCalls(calls, leads, contacts) ==>
              exists j :: 0 <= j < |calls| && IsScheduled(calls[j]) && calls[j].id == u.id
  {
    UpcomingCallsSpec(calls, leads, contacts);
    forall u | u in UpcomingCalls(calls, leads, contacts)
      ensures exists j :: 0 <= j < |calls| && IsScheduled(calls[j]) && calls[j].id == u.id
    {
      var c :| c in calls && IsScheduled(c) && u == JoinCall(leads, contacts, c);
      var j :| 0 <= j < |calls| && calls[j] == c;
    }
  }

  /** After PUT completes a call, the GET list no longer shows it. */
  lemma CompletedCallLeavesList(calls: seq<ScheduledCall>, next: nat, leads: seq<Lead>, contacts: seq<Contact>, i: nat)
    requires SerialKeyed(calls, ScheduledCallKey, next) && i < |calls|
    ensures forall u :: u in UpcomingCalls(calls[i := Completed(calls[i])], leads, contacts) ==> u.id != calls[i].id
  {
    var after := calls[i := Completed(calls[i])];
    ListedIds(after, leads, contacts);
    forall u | u in UpcomingCalls(after, leads, contacts) ensures u.id != calls[i].id {
      var j :| 0 <= j < |after| && IsScheduled(after[j]) && after[j].id == u.id;
      if u.id == calls[i].id {
        KeyIsUnique(calls, ScheduledCallKey, next, i, j);
        assert false;
      }
    }
  }

  /** Completing one call leaves every other 'scheduled' call in the GET list. */
  lemma OtherCallsStayListed(calls: seq<ScheduledCall>, leads: seq<Lead>, contacts: seq<Contact>, i: nat)
    requires i < |calls|
    ensures forall j :: 0 <= j < |calls| && j != i && IsScheduled(calls[j]) ==>
              JoinCall(leads, contacts, calls[j]) in UpcomingCalls(calls[i := Completed(calls[i])], leads, contacts)
  {
    var after := calls[i := Completed(calls[i])];
    UpcomingCallsSpec(after, leads, contacts);
    forall j | 0 <= j < |calls| && j != i && IsScheduled(calls[j])
      ensures JoinCall(leads, contacts, calls[j]) in UpcomingCalls(after, leads, contacts)
    {
      assert after[j] == calls[j] && after[j] in after;
    }
  }
}
