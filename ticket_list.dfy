/** The ticket table (src/components/Tickets/TicketList.tsx): a search term
    and two drop-down filters choose the rows shown; the status drop-down of
    a row sends a status change to the store. */
module TicketList {
  import opened Common
  import opened Domain
  import System

  /** The value of a drop-down filter: "all" or the literal of one value. */
  predicate FilterAccepts(filter: string, name: string)
  {
    filter == "all" || name == filter
  }

  /** The test of `filteredTickets` for the lower-cased term `q`: it occurs
      in the lower-cased title or description, and both drop-downs accept. */
  predicate Shown(t: Ticket, q: string, statusFilter: string, priorityFilter: string)
  {
    (Contains(Lower(t.title), q) || Contains(Lower(t.description), q))
    && FilterAccepts(statusFilter, t.status.Name()) && FilterAccepts(priorityFilter, t.priority.Name())
  }

  function ShownTest(q: string, statusFilter: string, priorityFilter: string): Ticket -> bool
  {
    t => Shown(t, q, statusFilter, priorityFilter)
  }

  /** `filteredTickets`: exactly the tickets that pass the test, in the
      store's order. */
  function FilteredTickets(tickets: seq<Ticket>, term: string, statusFilter: string, priorityFilter: string)
    : (r: seq<Ticket>)
    ensures forall t :: t in r <==> t in tickets && Shown(t, Lower(term), statusFilter, priorityFilter)
    ensures IsSubsequence(r, tickets)
  {
    FilterIsSubsequence(tickets, ShownTest(Lower(term), statusFilter, priorityFilter));
    Filter(tickets, ShownTest(Lower(term), statusFilter, priorityFilter))
  }

  /** With an empty term and both drop-downs on "all" every ticket is shown. */
  lemma NoFilterShowsAll(tickets: seq<Ticket>)
    ensures FilteredTickets(tickets, "", "all", "all") == tickets
  {
    forall t | t in tickets ensures Shown(t, "", "all", "all") {
      ContainsEmpty(Lower(t.title));
    }
    assert Lower("") == "";
    FilterKeepsAll(tickets, ShownTest("", "all", "all"));
  }

  /** Choosing a status instead of "all" only hides rows: what is shown is a
      sub-sequence of what was shown before. */
  lemma StatusFilterNarrows(tickets: seq<Ticket>, term: string, statusFilter: string, priorityFilter: string)
    ensures IsSubsequence(FilteredTickets(tickets, term, statusFilter, priorityFilter),
                          FilteredTickets(tickets, term, "all", priorityFilter))
  {
    FilterStricterIsSubsequence(tickets, ShownTest(Lower(term), statusFilter, priorityFilter),
                                ShownTest(Lower(term), "all", priorityFilter));
  }

  /** Likewise for the priority drop-down. */
  lemma PriorityFilterNarrows(tickets: seq<Ticket>, term: string, statusFilter: string, priorityFilter: string)
    ensures IsSubsequence(FilteredTickets(tickets, term, statusFilter, priorityFilter),
                          FilteredTickets(tickets, term, statusFilter, "all"))
  {
    FilterStricterIsSubsequence(tickets, ShownTest(Lower(term), statusFilter, priorityFilter),
                                ShownTest(Lower(term), statusFilter, "all"));
  }

  /** The search ignores the case of the term. */
  lemma TermCaseIgnored(tickets: seq<Ticket>, term: string, statusFilter: string, priorityFilter: string)
    ensures FilteredTickets(tickets, Lower(term), statusFilter, priorityFilter)
         == FilteredTickets(tickets, term, statusFilter, priorityFilter)
  {
    LowerIdempotent(term);
  }

  // ---------------------------------------------------------------------------
  // Status changes and the time column
  // ---------------------------------------------------------------------------

  /** `handleStatusChange`: the new status, and the resolution time only when
      the new status is "resolved". */
  function StatusChange(newStatus: Status, now: Timestamp): (p: TicketPatch)
    ensures p.status == Some(newStatus)
    ensures p.resolvedAt.Some? <==> newStatus == Resolved
    ensures p.resolvedAt.Some? ==> p.resolvedAt.value == now
  {
    NoTicketChanges.(status := Some(newStatus), resolvedAt := if newStatus == Resolved then Some(now) else None)
  }

  /** The changed ticket has the new status; it is stamped resolved only when
      it becomes resolved, and keeps every other field. */
  lemma StatusChangeEffect(t: Ticket, newStatus: Status, now: Timestamp)
    ensures var u := ApplyTicketPatch(t, StatusChange(newStatus, now));
      && u.status == newStatus
      && (newStatus == Resolved ==> u.resolvedAt == Some(now))
      && (newStatus != Resolved ==> u.resolvedAt == t.resolvedAt)
      && u == t.(status := newStatus, resolvedAt := u.resolvedAt)
  {
  }

  /** Through the store: only the ticket with that id changes, as above. */
  lemma StatusChangeInStore(tickets: seq<Ticket>, id: string, newStatus: Status, now: Timestamp)
    ensures var r := System.UpdateTickets(tickets, id, StatusChange(newStatus, now), now);
      |r| == |tickets|
      && forall k :: 0 <= k < |tickets| && tickets[k].id != id ==> r[k] == tickets[k]
  {
    System.UpdateTicketsChangesOnlyThatId(tickets, id, StatusChange(newStatus, now), now);
  }

  /** The time column: `${Math.floor(timeSpent / 60)}h ${timeSpent % 60}m`,
      which tells different times apart. */
  function TimeSpentText(t: Ticket): string
  {
    HoursMinutes(t.timeSpent)
  }

  lemma TimeSpentTextDistinguishes(t: Ticket, u: Ticket)
    requires TimeSpentText(t) == TimeSpentText(u)
    ensures t.timeSpent == u.timeSpent
  {
    HoursMinutesInjective(t.timeSpent, u.timeSpent);
  }
}
