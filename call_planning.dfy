/**
 * The interaction form of the call-planning page (app/dashboard/call-planning/page.jsx): its
 * state, the validity check, the request body it sends to /api/call, and its reset. The
 * simulated call timer and the page's rendering are not part of this model.
 */
module CallPlanning {
  import opened Wrappers

  /**
   * A select's value: the lead and contact lists offer numeric row ids, and the lead's own
   * contact is offered as the string `primary_<leadId>`.
   */
  datatype Choice = Text(s: string) | Number(n: int)

  /** `!x` on a selected value: null, "" and 0 are falsy. */
  predicate Chosen(c: Option<Choice>) {
    match c
    case None => false
    case Some(Text(s)) => s != ""
    case Some(Number(n)) => n != 0
  }

  const PrimaryPrefix: string := "primary_"
  const DefaultInteractionType: string := "call"
  const SavedStatus: string := "completed"

  predicate StartsWith(s: string, prefix: string) {
    |prefix| <= |s| && s[..|prefix|] == prefix
  }

  /** `typeof selectedContact === 'string' && selectedContact.startsWith('primary_')`. */
  predicate IsPrimaryChoice(c: Option<Choice>) {
    c.Some? && c.value.Text? && StartsWith(c.value.s, PrimaryPrefix)
  }

  /** `interactionData.order`: the amount still as typed (`parseFloat` is not modelled). */
  datatype OrderData = OrderData(amountText: string, notes: string)

  /** The body POSTed to /api/call. */
  datatype InteractionData = InteractionData(
    leadId: Choice,
    contactId: Option<Choice>,
    isPrimaryContact: bool,
    kind: string,
    status: string,
    notes: string,
    duration: int,
    rating: int,
    order: Option<OrderData>)

  class InteractionForm {
    var selectedLead: Option<Choice>
    var selectedContact: Option<Choice>
    var interactionType: string
    var isInteracting: bool
    var interactionDuration: int
    var notes: string
    var rating: int
    var isOrderPlaced: bool
    var orderAmount: string
    var orderNotes: string

    /** The page's initial state. */
    constructor ()
      ensures selectedLead == None && selectedContact == None && interactionType == DefaultInteractionType
      ensures !isInteracting && interactionDuration == 0 && notes == "" && rating == 0
      ensures !isOrderPlaced && orderAmount == "" && orderNotes == ""
    {
      selectedLead, selectedContact, interactionType := None, None, DefaultInteractionType;
      isInteracting, interactionDuration, notes, rating := false, 0, "", 0;
      isOrderPlaced, orderAmount, orderNotes := false, "", "";
    }

    /**
     * `isFormValid`: lead, contact, type and notes filled in, a rating given, no interaction in
     * progress, and, when an order was placed, its amount and notes filled in.
     */
    predicate IsFormValid()
      reads this
      ensures IsFormValid() ==> selectedLead.Some? && selectedContact.Some? && rating != 0
      ensures isInteracting ==> !IsFormValid()
      ensures isOrderPlaced && (orderAmount == "" || orderNotes == "") ==> !IsFormValid()
    {
      && Chosen(selectedLead) && Chosen(selectedContact) && interactionType != "" && notes != ""
      && rating != 0 && !isInteracting
      && (isOrderPlaced ==> orderAmount != "" && orderNotes != "")
    }

    /**
     * `handleEndInteraction` up to the request: nothing is sent for an invalid form; otherwise
     * the body names the lead, names the contact unless it is the lead's primary one, always
     * has status 'completed', and carries an order exactly when one was placed.
     */
    method EndInteraction() returns (body: Option<InteractionData>)
      ensures body.None? <==> !IsFormValid()
      ensures body.Some? ==>
                && body.value.leadId == selectedLead.value
                && (body.value.isPrimaryContact <==> IsPrimaryChoice(selectedContact))
                && (body.value.isPrimaryContact ==> body.value.contactId.None?)
                && (!body.value.isPrimaryContact ==> body.value.contactId == selectedContact)
                && body.value.status == SavedStatus
                && body.value.kind == interactionType && body.value.notes == notes
                && body.value.rating == rating && body.value.duration == interactionDuration
                && (body.value.order.Some? <==> isOrderPlaced)
                && (isOrderPlaced ==> body.value.order.value == OrderData(orderAmount, orderNotes))
    {
      if !IsFormValid() {
        return None;
      }
      var isPrimary := selectedContact.Some? && selectedContact.value.Text?
                       && StartsWith(selectedContact.value.s, PrimaryPrefix);
      var data := InteractionData(selectedLead.value, if isPrimary then None else selectedContact, isPrimary,
                                  interactionType, SavedStatus, notes, interactionDuration, rating, None);
      if isOrderPlaced {
        data := data.(order := Some(OrderData(orderAmount, orderNotes)));
      }
      body := Some(data);
    }

    /**
     * `resetForm`: clears the selections, notes, rating and order fields and restores the type
     * 'call'. The duration of the last interaction and the in-progress flag are kept.
     */
    method ResetForm()
      modifies this
      ensures selectedLead == None && selectedContact == None && interactionType == DefaultInteractionType
      ensures notes == "" && rating == 0 && !isOrderPlaced && orderAmount == "" && orderNotes == ""
      ensures interactionDuration == old(interactionDuration) && isInteracting == old(isInteracting)
      ensures !IsFormValid()
    {
      selectedLead := None;
      selectedContact := None;
      interactionType := DefaultInteractionType;
      notes := "";
      rating := 0;
      isOrderPlaced := false;
      orderAmount := "";
      orderNotes := "";
    }
  }

  /** The lead's own contact entry is recognised as primary; a numeric contact id never is. */
  lemma PrimaryChoiceExamples(leadId: string, contactId: int)
    ensures IsPrimaryChoice(Some(Text(PrimaryPrefix + leadId)))
    ensures !IsPrimaryChoice(Some(Number(contactId)))
    ensures !IsPrimaryChoice(None)
  {
    assert (PrimaryPrefix + leadId)[..|PrimaryPrefix|] == PrimaryPrefix;
  }
}
