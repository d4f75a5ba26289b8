/**
 * The two server actions of the interaction-tracking page: completing a scheduled call
 * (app/actions/mark-call-done.jsx) and scheduling one from a form (app/actions/schedule-call.jsx).
 * Each answers `{ success }` and reports every failure as `success: false`.
 */
module CallActions {
  import opened Wrappers
  import opened Seqs
  import opened Schema
  import opened Database

  /**
   * `markCallDone`: looks the call up by id; when it is missing nothing is written. Otherwise,
   * in one transaction, records a completed 'call' interaction copied from the call (stamped
   * `now`) and deletes the call.
   */
  method MarkCallDone(db: Store, callId: int, now: Timestamp) returns (success: bool)
    requires db.Valid()
    modifies db`interactions, db`nextInteractionId, db`scheduledCalls
    ensures db.Valid()
    ensures success <==> IndexOf(old(db.scheduledCalls), ScheduledCallKey, callId).Some?
    ensures !success ==> db.interactions == old(db.interactions) && db.scheduledCalls == old(db.scheduledCalls)
                         && db.nextInteractionId == old(db.nextInteractionId)
    ensures success ==>
              var i := IndexOf(old(db.scheduledCalls), ScheduledCallKey, callId).value;
              && db.interactions == old(db.interactions)
                   + [InteractionForCall(old(db.scheduledCalls)[i], now).(id := old(db.nextInteractionId))]
              && db.nextInteractionId == old(db.nextInteractionId) + 1
              && db.scheduledCalls == RemoveAt(old(db.scheduledCalls), i)
  {
    var found := IndexOf(db.scheduledCalls, ScheduledCallKey, callId);
    if found.None? {
      return false;
    }
    var i := found.value;
    var call := db.scheduledCalls[i];
    var _ := db.InsertInteraction(InteractionForCall(call, now));
    db.DeleteScheduledCall(i);
    success := true;
  }

  /**
   * Completing the same call twice: the second attempt always fails, and whatever the first
   * did, at most one interaction is recorded for the call.
   */
  method MarkCallDoneTwice(db: Store, callId: int, now: Timestamp) returns (first: bool, second: bool)
    requires db.Valid()
    modifies db`interactions, db`nextInteractionId, db`scheduledCalls
    ensures db.Valid()
    ensures !second
    ensures |db.interactions| == |old(db.interactions)| + (if first then 1 else 0)
  {
    first := MarkCallDone(db, callId, now);
    if first {
      var i := IndexOf(old(db.scheduledCalls), ScheduledCallKey, callId).value;
      RemovedKeyIsGone(old(db.scheduledCalls), ScheduledCallKey, old(db.nextScheduledCallId), i);
    }
    second := MarkCallDone(db, callId, now);
  }

  /**
   * The row `scheduleCall` inserts: the form's values, status 'scheduled', no reminder sent,
   * both stamps `now`. The id is a placeholder the table's sequence replaces.
   */
  function ScheduledCallRow(leadId: int, contactId: int, scheduledDate: Timestamp, duration: int,
                            notes: Option<string>, now: Timestamp): ScheduledCall
  {
    ScheduledCall(0, leadId, contactId, scheduledDate, duration, notes, DefaultCallStatus,
                  Some(false), Some(now), Some(now))
  }

  /**
   * `scheduleCall`: the form's integers after `parseInt` (None for NaN) and the date and time
   * after `new Date` (None for an invalid date). Nothing is validated: a NaN or an invalid date
   * makes the insert fail and the action answer failure; any number, 0 included, is accepted.
   * On success the answer carries the new row's id.
   */
  method ScheduleCall(db: Store, leadId: Option<int>, contactId: Option<int>, scheduledDate: Option<Timestamp>,
                      duration: Option<int>, notes: Option<string>, now: Timestamp)
    returns (id: Option<nat>)
    requires db.Valid()
    modifies db`scheduledCalls, db`nextScheduledCallId
    ensures db.Valid()
    ensures id.Some? <==> leadId.Some? && contactId.Some? && scheduledDate.Some? && duration.Some?
    ensures id.None? ==> db.scheduledCalls == old(db.scheduledCalls) && db.nextScheduledCallId == old(db.nextScheduledCallId)
    ensures id.Some? ==>
              && id.value == old(db.nextScheduledCallId)
              && db.nextScheduledCallId == old(db.nextScheduledCallId) + 1
              && db.scheduledCalls == old(db.scheduledCalls)
                   + [ScheduledCallRow(leadId.value, contactId.value, scheduledDate.value, duration.value, notes, now)
                        .(id := id.value)]
  {
    if leadId.None? || contactId.None? || scheduledDate.None? || duration.None? {
      return None;
    }
    var row := db.InsertScheduledCall(
      ScheduledCallRow(leadId.value, contactId.value, scheduledDate.value, duration.value, notes, now));
    id := Some(row.id);
  }
}
