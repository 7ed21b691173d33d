/** The form that opens a ticket (src/components/Tickets/CreateTicketModal.tsx):
    title, description, priority, category and a comma-separated tag field.
    A submit with the three text fields filled in builds the new ticket, hands
    it to `createTicket` and empties the form; otherwise the form stays as it
    is. */
module CreateTicket {
  import opened Common
  import opened Domain
  import System

  datatype TicketForm = TicketForm(title: string, description: string, priority: Priority, category: string,
                                   tags: string)

  /** The form as it starts and as a submit leaves it. */
  function BlankTicketForm(): TicketForm
  {
    TicketForm("", "", Medium, "", "")
  }

  const MissingFields := "Por favor completa todos los campos obligatorios"

  /** `user?.id || '1'`: the signed-in user's id, or "1" when nobody is
      signed in or the id is empty. */
  function CreatedBy(user: Option<User>): (r: string)
    ensures user.Some? && user.value.id != "" ==> r == user.value.id
    ensures user.None? || user.value.id == "" ==> r == "1"
  {
    if user.Some? && user.value.id != "" then user.value.id else "1"
  }

  /** `handleSubmit` up to the call of `createTicket`. The store sets the id
      and both timestamps, so the ticket carries "" and 0 there; it carries
      neither `autoAssignAttempts` nor `requiresAssignment`. */
  function SubmitTicket(f: TicketForm, user: Option<User>): (r: Result<Ticket>)
    ensures r.Err? <==> f.title == "" || f.description == "" || f.category == ""
    ensures r.Err? ==> r.message == MissingFields
    ensures r.Ok? ==>
      (r.value.title == f.title && r.value.description == f.description && r.value.priority == f.priority
       && r.value.category == f.category && r.value.createdBy == CreatedBy(user))
    ensures r.Ok? ==>
      (r.value.status == Open && r.value.assignedTechnicians == [] && r.value.timeSpent == 0
       && r.value.attachments == [] && r.value.comments == [] && !r.value.autoAssigned
       && r.value.resolvedAt.None? && r.value.autoAssignAttempts.None? && r.value.requiresAssignment.None?)
    ensures r.Ok? ==> r.value.tags == ParseCommaList(f.tags)
  {
    if f.title == "" || f.description == "" || f.category == "" then Err(MissingFields)
    else
      Ok(Ticket("", f.title, f.description, Open, f.priority, f.category, [], None, CreatedBy(user), 0, 0, None, 0,
                ParseCommaList(f.tags), [], [], false, None))
  }

  /** The form after a submit: empty when the ticket was created, unchanged
      when it was refused. */
  function FormAfterSubmit(f: TicketForm, user: Option<User>): (g: TicketForm)
    ensures SubmitTicket(f, user).Ok? ==> g == BlankTicketForm()
    ensures SubmitTicket(f, user).Err? ==> g == f
  {
    if SubmitTicket(f, user).Ok? then BlankTicketForm() else f
  }

  /** The blank form is refused, so submitting twice creates one ticket. */
  lemma SubmitTwiceCreatesOnce(f: TicketForm, user: Option<User>)
    ensures SubmitTicket(FormAfterSubmit(f, user), user).Ok? ==> SubmitTicket(f, user).Err?
  {
  }

  /** Tags written as the entries joined with ", " come back as those
      entries, when each is non-empty, trimmed and free of commas. */
  lemma TagsRoundTrip(f: TicketForm, user: Option<User>, tags: seq<string>)
    requires f.title != "" && f.description != "" && f.category != ""
    requires forall k :: 0 <= k < |tags| ==> tags[k] != [] && Trimmed(tags[k]) && ',' !in tags[k]
    ensures SubmitTicket(f.(tags := Join(tags, ", ")), user).value.tags == tags
  {
    JoinThenParse(tags);
  }

  /** A ticket from this form never waits for assignment: once the store has
      put it first, the list of tickets waiting for a technician is what it
      was before. */
  lemma CreatedTicketNotUnassigned(f: TicketForm, user: Option<User>, tickets: seq<Ticket>, id: string,
                                   now: Timestamp)
    requires SubmitTicket(f, user).Ok?
    ensures var t := SubmitTicket(f, user).value.(id := id, createdAt := now, updatedAt := now);
      System.UnassignedTickets([t] + tickets) == System.UnassignedTickets(tickets)
  {
    var t := SubmitTicket(f, user).value.(id := id, createdAt := now, updatedAt := now);
    assert !System.NeedsAssignment(t);
    assert ([t] + tickets)[1..] == tickets;
  }
}
