/** The in-memory store of src/contexts/SystemContext.tsx: the configuration
    and the ticket, user, article and department lists, the create, update and
    delete operations on them, automatic assignment of a ticket to the first
    available technician, and the list of tickets waiting for assignment.
    Persistence to local storage is not modelled; the clock and the
    `Date.now()` identifiers are parameters. */
module System {
  import opened Common
  import opened Domain

  // ---------------------------------------------------------------------------
  // The list operations, as functions of the old list
  // ---------------------------------------------------------------------------

  /** `tickets.map(t => t.id === id ? { ...t, ...updates, updatedAt: now } : t)` */
  function UpdateTickets(tickets: seq<Ticket>, id: string, patch: TicketPatch, now: Timestamp): seq<Ticket>
  {
    UpdateWhere(tickets, (t: Ticket) => t.id == id, (t: Ticket) => ApplyTicketPatch(t, patch).(updatedAt := now))
  }

  /** `tickets.filter(t => t.id !== id)` */
  function DeleteTickets(tickets: seq<Ticket>, id: string): (r: seq<Ticket>)
    ensures forall k :: 0 <= k < |r| ==> r[k].id != id
    ensures forall k :: 0 <= k < |tickets| && tickets[k].id != id ==> tickets[k] in r
    ensures IsSubsequence(r, tickets)
  {
    FilterIsSubsequence(tickets, (t: Ticket) => t.id != id);
    Filter(tickets, (t: Ticket) => t.id != id)
  }

  function UpdateUsers(users: seq<User>, id: string, patch: UserPatch): seq<User>
  {
    UpdateWhere(users, (u: User) => u.id == id, (u: User) => ApplyUserPatch(u, patch))
  }

  function DeleteUsers(users: seq<User>, id: string): (r: seq<User>)
    ensures forall k :: 0 <= k < |r| ==> r[k].id != id
    ensures forall k :: 0 <= k < |users| && users[k].id != id ==> users[k] in r
    ensures IsSubsequence(r, users)
  {
    FilterIsSubsequence(users, (u: User) => u.id != id);
    Filter(users, (u: User) => u.id != id)
  }

  function UpdateArticles(articles: seq<Article>, id: string, patch: ArticlePatch): seq<Article>
  {
    UpdateWhere(articles, (a: Article) => a.id == id, (a: Article) => ApplyArticlePatch(a, patch))
  }

  function UpdateDepartments(departments: seq<Department>, id: string, patch: DepartmentPatch): seq<Department>
  {
    UpdateWhere(departments, (d: Department) => d.id == id, (d: Department) => ApplyDepartmentPatch(d, patch))
  }

  function DeleteDepartments(departments: seq<Department>, id: string): (r: seq<Department>)
    ensures forall k :: 0 <= k < |r| ==> r[k].id != id
    ensures forall k :: 0 <= k < |departments| && departments[k].id != id ==> departments[k] in r
    ensures IsSubsequence(r, departments)
  {
    FilterIsSubsequence(departments, (d: Department) => d.id != id);
    Filter(departments, (d: Department) => d.id != id)
  }

  /** An update changes the tickets with that id, each merged with the patch
      and stamped `now`, and no other ticket. */
  lemma UpdateTicketsChangesOnlyThatId(tickets: seq<Ticket>, id: string, patch: TicketPatch, now: Timestamp)
    ensures var r := UpdateTickets(tickets, id, patch, now);
      && |r| == |tickets|
      && (forall k :: 0 <= k < |r| && tickets[k].id != id ==> r[k] == tickets[k])
      && (forall k :: 0 <= k < |r| && tickets[k].id == id ==> r[k] == ApplyTicketPatch(tickets[k], patch).(updatedAt := now))
  {
  }

  /** Updating an id that no ticket carries changes nothing. */
  lemma UpdateUnknownTicketIsNoOp(tickets: seq<Ticket>, id: string, patch: TicketPatch, now: Timestamp)
    requires forall k :: 0 <= k < |tickets| ==> tickets[k].id != id
    ensures UpdateTickets(tickets, id, patch, now) == tickets
  {
    UpdateWhereNoMatch(tickets, (t: Ticket) => t.id == id, (t: Ticket) => ApplyTicketPatch(t, patch).(updatedAt := now));
  }

  /** An update that does not rename the ticket touches nothing that deleting
      that id would keep. */
  lemma DeleteAfterUpdateTicket(tickets: seq<Ticket>, id: string, patch: TicketPatch, now: Timestamp)
    requires patch.id.None? || patch.id == Some(id)
    ensures DeleteTickets(UpdateTickets(tickets, id, patch, now), id) == DeleteTickets(tickets, id)
  {
    FilterAfterUpdateWhere(tickets, (t: Ticket) => t.id == id, (t: Ticket) => t.id != id,
      (t: Ticket) => ApplyTicketPatch(t, patch).(updatedAt := now));
  }

  lemma DeleteAfterUpdateUser(users: seq<User>, id: string, patch: UserPatch)
    ensures DeleteUsers(UpdateUsers(users, id, patch), id) == DeleteUsers(users, id)
  {
    FilterAfterUpdateWhere(users, (u: User) => u.id == id, (u: User) => u.id != id, (u: User) => ApplyUserPatch(u, patch));
  }

  lemma DeleteAfterUpdateDepartment(departments: seq<Department>, id: string, patch: DepartmentPatch)
    ensures DeleteDepartments(UpdateDepartments(departments, id, patch), id) == DeleteDepartments(departments, id)
  {
    FilterAfterUpdateWhere(departments, (d: Department) => d.id == id, (d: Department) => d.id != id,
      (d: Department) => ApplyDepartmentPatch(d, patch));
  }

    /** Creating a ticket under a fresh id and deleting that id restores the
      list. */
  lemma DeleteUndoesCreateTicket(ticket: Ticket, tickets: seq<Ticket>)
    requires forall k :: 0 <= k < |tickets| ==> tickets[k].id != ticket.id
    ensures DeleteTickets([ticket] + tickets, ticket.id) == tickets
  {
    FilterAfterPrepend(ticket, tickets, (t: Ticket) => t.id != ticket.id);
  }

  lemma DeleteUndoesCreateUser(user: User, users: seq<User>)
    requires forall k :: 0 <= k < |users| ==> users[k].id != user.id
    ensures DeleteUsers([user] + users, user.id) == users
  {
    FilterAfterPrepend(user, users, (u: User) => u.id != user.id);
  }

  lemma DeleteUndoesCreateDepartment(department: Department, departments: seq<Department>)
    requires forall k :: 0 <= k < |departments| ==> departments[k].id != department.id
    ensures DeleteDepartments([department] + departments, department.id) == departments
  {
    FilterAfterPrepend(department, departments, (d: Department) => d.id != department.id);
  }

  /** `updateConfig`: `{ ...config, ...newConfig }`, a merge of whole sections. */
  function MergeConfig(config: Config, newConfig: Config): Config
  {
    config + newConfig
  }

  /** The supplied sections replace the old ones whole; every other section
      is kept. */
  lemma MergeConfigReplacesWholeSections(config: Config, newConfig: Config)
    ensures var r := MergeConfig(config, newConfig);
      && r.Keys == config.Keys + newConfig.Keys
      && (forall s :: s in newConfig ==> r[s] == newConfig[s])
      && (forall s :: s in config && s !in newConfig ==> r[s] == config[s])
  {
  }

  // ---------------------------------------------------------------------------
  // Automatic assignment and the unassigned list
  // ---------------------------------------------------------------------------

  /** `tickets.find(t => t.id === id)`. */
  function FindTicket(tickets: seq<Ticket>, id: string): (r: Option<Ticket>)
    ensures r.None? <==> forall k :: 0 <= k < |tickets| ==> tickets[k].id != id
    ensures r.Some? ==>
      (exists k :: 0 <= k < |tickets| && tickets[k] == r.value && r.value.id == id && forall j :: 0 <= j < k ==> tickets[j].id != id)
  {
    if tickets == [] then None
    else if tickets[0].id == id then Some(tickets[0])
    else
      var r := FindTicket(tickets[1..], id);
      assert forall k :: 1 <= k < |tickets| ==> tickets[k] == tickets[1..][k - 1];
      r
  }

  /** A technician who can take a ticket: active, online and with at least one
      support area. */
  predicate Available(u: User)
  {
    u.role == Technician && u.isActive && u.isOnline && |u.supportAreas| > 0
  }

  function AvailableTechnicians(users: seq<User>): (r: seq<User>)
    ensures forall k :: 0 <= k < |r| ==> Available(r[k])
    ensures forall k :: 0 <= k < |users| && Available(users[k]) ==> users[k] in r
  {
    Filter(users, Available)
  }

  /** The first available technician is the first one in list order. */
  lemma FirstAvailableIsFirstInList(users: seq<User>)
    requires |AvailableTechnicians(users)| > 0
    ensures exists k :: (0 <= k < |users| && users[k] == AvailableTechnicians(users)[0]
      && Available(users[k]) && forall j :: 0 <= j < k ==> !Available(users[j]))
  {
    if Available(users[0]) {
      assert AvailableTechnicians(users)[0] == users[0];
    } else {
      assert AvailableTechnicians(users) == AvailableTechnicians(users[1..]);
      FirstAvailableIsFirstInList(users[1..]);
      var k :| 0 <= k < |users[1..]| && users[1..][k] == AvailableTechnicians(users)[0]
        && Available(users[1..][k]) && forall j :: 0 <= j < k ==> !Available(users[1..][j]);
      assert forall j :: 1 <= j < k + 1 ==> users[j] == users[1..][j - 1];
    }
  }

  /** The fields a successful assignment writes. */
  function AssignmentPatch(technicianId: string, attempts: Option<nat>): TicketPatch
  {
    NoTicketChanges.(assignedTechnicians := Some([technicianId]), autoAssigned := Some(true),
      requiresAssignment := Some(false), autoAssignAttempts := Some(Pick(attempts, 0) + 1))
  }

  /** `assignTicketToAvailableTechnician`: the new ticket list when the ticket
      is found, has no technician and someone is available; `None` (the
      source's `false`) otherwise. */
  function AutoAssign(tickets: seq<Ticket>, users: seq<User>, id: string, now: Timestamp): Option<seq<Ticket>>
  {
    var found := FindTicket(tickets, id);
    if found.None? || |found.value.assignedTechnicians| > 0 then None
    else
      var available := AvailableTechnicians(users);
      if |available| == 0 then None
      else Some(UpdateTickets(tickets, id, AssignmentPatch(available[0].id, found.value.autoAssignAttempts), now))
  }

  /** The guards: assignment happens exactly when the ticket exists, its first
      occurrence has no technician, and some technician is available. */
  lemma AutoAssignGuards(tickets: seq<Ticket>, users: seq<User>, id: string, now: Timestamp)
    ensures AutoAssign(tickets, users, id, now).Some? <==>
      (exists k :: 0 <= k < |tickets| && tickets[k].id == id && |tickets[k].assignedTechnicians| == 0
        && forall j :: 0 <= j < k ==> tickets[j].id != id)
      && (exists k :: 0 <= k < |users| && Available(users[k]))
  {
    UnassignedFirstOccurrence(tickets, id);
    SomeoneAvailable(users);
  }

  lemma UnassignedFirstOccurrence(tickets: seq<Ticket>, id: string)
    ensures var found := FindTicket(tickets, id);
      found.Some? && |found.value.assignedTechnicians| == 0 <==>
      (exists k :: 0 <= k < |tickets| && tickets[k].id == id && |tickets[k].assignedTechnicians| == 0
        && forall j :: 0 <= j < k ==> tickets[j].id != id)
  {
    if exists k :: 0 <= k < |tickets| && tickets[k].id == id && forall j :: 0 <= j < k ==> tickets[j].id != id {
      var k :| 0 <= k < |tickets| && tickets[k].id == id && forall j :: 0 <= j < k ==> tickets[j].id != id;
      FindTicketIsFirst(tickets, id, k);
    }
  }

  lemma SomeoneAvailable(users: seq<User>)
    ensures |AvailableTechnicians(users)| > 0 <==> exists k :: 0 <= k < |users| && Available(users[k])
  {
    if exists k :: 0 <= k < |users| && Available(users[k]) {
      var k :| 0 <= k < |users| && Available(users[k]);
      assert users[k] in AvailableTechnicians(users);
    }
    if |AvailableTechnicians(users)| > 0 {
      FirstAvailableIsFirstInList(users);
    }
  }

  /** The lookup returns the first ticket carrying the id. */
  lemma FindTicketIsFirst(tickets: seq<Ticket>, id: string, k: nat)
    requires k < |tickets| && tickets[k].id == id && forall j :: 0 <= j < k ==> tickets[j].id != id
    ensures FindTicket(tickets, id) == Some(tickets[k])
  {
    var found := FindTicket(tickets, id);
    var m :| 0 <= m < |tickets| && tickets[m] == found.value && found.value.id == id
      && forall j :: 0 <= j < m ==> tickets[j].id != id;
    assert !(m < k) && !(k < m);
  }

  /** The assignment update writes the technician, the flags and the attempt
      count into every ticket with that id and leaves the rest alone. */
  lemma AssignmentUpdate(tickets: seq<Ticket>, id: string, technicianId: string, attempts: Option<nat>, now: Timestamp)
    ensures var r := UpdateTickets(tickets, id, AssignmentPatch(technicianId, attempts), now);
      && |r| == |tickets|
      && (forall k :: 0 <= k < |r| && tickets[k].id != id ==> r[k] == tickets[k])
      && (forall k :: 0 <= k < |r| && tickets[k].id == id ==>
            && r[k].assignedTechnicians == [technicianId] && r[k].autoAssigned
            && r[k].requiresAssignment == Some(false)
            && r[k].autoAssignAttempts == Some(Pick(attempts, 0) + 1)
            && r[k].updatedAt == now && r[k].id == id && r[k].title == tickets[k].title
            && r[k].status == tickets[k].status && r[k].createdAt == tickets[k].createdAt)
  {
    var patch := AssignmentPatch(technicianId, attempts);
    var r := UpdateTickets(tickets, id, patch, now);
    UpdateTicketsChangesOnlyThatId(tickets, id, patch, now);
    forall k | 0 <= k < |r| && tickets[k].id == id
      ensures r[k].assignedTechnicians == [technicianId] && r[k].autoAssigned
      ensures r[k].requiresAssignment == Some(false)
      ensures r[k].autoAssignAttempts == Some(Pick(attempts, 0) + 1)
      ensures r[k].updatedAt == now && r[k].id == id && r[k].title == tickets[k].title
      ensures r[k].status == tickets[k].status && r[k].createdAt == tickets[k].createdAt
    {
      assert r[k] == ApplyTicketPatch(tickets[k], patch).(updatedAt := now);
      AssignmentPatchEffect(tickets[k], technicianId, attempts, now);
    }
  }

  lemma AssignmentPatchEffect(t: Ticket, technicianId: string, attempts: Option<nat>, now: Timestamp)
    ensures var u := ApplyTicketPatch(t, AssignmentPatch(technicianId, attempts)).(updatedAt := now);
      && u.assignedTechnicians == [technicianId] && u.autoAssigned && u.requiresAssignment == Some(false)
      && u.autoAssignAttempts == Some(Pick(attempts, 0) + 1)
      && u.updatedAt == now && u.id == t.id && u.title == t.title && u.status == t.status && u.createdAt == t.createdAt
  {
  }

  /** After a successful assignment every ticket with that id has exactly the
      first available technician, is marked auto-assigned and no longer
      waiting, and counts one more attempt than the first such ticket did;
      the other tickets are untouched. */
  lemma AutoAssignOutcome(tickets: seq<Ticket>, users: seq<User>, id: string, now: Timestamp)
    requires AutoAssign(tickets, users, id, now).Some?
    ensures var r := AutoAssign(tickets, users, id, now).value;
      var tech := AvailableTechnicians(users)[0];
      var attempts := FindTicket(tickets, id).value.autoAssignAttempts;
      && Available(tech) && tech in users
      && r == UpdateTickets(tickets, id, AssignmentPatch(tech.id, attempts), now)
  {
  }

  /** After the assignment update, every ticket keeps its id and every ticket
      carrying the id has the technician. */
  lemma AssignedTicketsHaveTechnician(tickets: seq<Ticket>, id: string, technicianId: string, attempts: Option<nat>,
                                      now: Timestamp)
    ensures var r := UpdateTickets(tickets, id, AssignmentPatch(technicianId, attempts), now);
      && |r| == |tickets|
      && (forall k :: 0 <= k < |r| ==> r[k].id == tickets[k].id)
      && (forall k :: 0 <= k < |r| && r[k].id == id ==> r[k].assignedTechnicians == [technicianId])
  {
    AssignmentUpdate(tickets, id, technicianId, attempts, now);
  }

  /** Lookup in a list that keeps the ids of another and gives every ticket
      with the id a technician. */
  lemma FoundWithTechnician(tickets: seq<Ticket>, r: seq<Ticket>, id: string, technicianId: string)
    requires |r| == |tickets| && forall k :: 0 <= k < |r| ==> r[k].id == tickets[k].id
    requires forall k :: 0 <= k < |r| && r[k].id == id ==> r[k].assignedTechnicians == [technicianId]
    requires exists k :: 0 <= k < |tickets| && tickets[k].id == id
    ensures FindTicket(r, id).Some? && FindTicket(r, id).value.assignedTechnicians == [technicianId]
  {
    var k :| 0 <= k < |tickets| && tickets[k].id == id;
    assert r[k].id == id;
  }

  /** The ticket with the id is still found after the assignment update,
      now with the technician. */
  lemma AssignedTicketFound(tickets: seq<Ticket>, id: string, technicianId: string, attempts: Option<nat>, now: Timestamp)
    requires exists k :: 0 <= k < |tickets| && tickets[k].id == id
    ensures var found := FindTicket(UpdateTickets(tickets, id, AssignmentPatch(technicianId, attempts), now), id);
      found.Some? && found.value.assignedTechnicians == [technicianId]
  {
    AssignedTicketsHaveTechnician(tickets, id, technicianId, attempts, now);
    FoundWithTechnician(tickets, UpdateTickets(tickets, id, AssignmentPatch(technicianId, attempts), now), id, technicianId);
  }

  /** A second attempt on the same ticket is refused: it now has a
      technician. */
  lemma AutoAssignOnlyOnce(tickets: seq<Ticket>, users: seq<User>, id: string, now: Timestamp, later: Timestamp)
    requires AutoAssign(tickets, users, id, now).Some?
    ensures AutoAssign(AutoAssign(tickets, users, id, now).value, users, id, later).None?
  {
    AutoAssignOutcome(tickets, users, id, now);
    AssignedTicketFound(tickets, id, AvailableTechnicians(users)[0].id, FindTicket(tickets, id).value.autoAssignAttempts, now);
  }

  /** A ticket waiting for a technician: not closed, nobody assigned, and
      flagged as requiring assignment. */
  predicate NeedsAssignment(t: Ticket)
  {
    t.status != Closed && |t.assignedTechnicians| == 0 && t.requiresAssignment == Some(true)
  }

  /** `getUnassignedTickets`. */
  function UnassignedTickets(tickets: seq<Ticket>): (r: seq<Ticket>)
    ensures forall k :: 0 <= k < |r| ==> NeedsAssignment(r[k]) && r[k] in tickets
    ensures forall k :: 0 <= k < |tickets| && NeedsAssignment(tickets[k]) ==> tickets[k] in r
    ensures IsSubsequence(r, tickets)
  {
    FilterIsSubsequence(tickets, NeedsAssignment);
    Filter(tickets, NeedsAssignment)
  }

  lemma AssignedLeaveUnassigned(tickets: seq<Ticket>, id: string, technicianId: string, attempts: Option<nat>,
                                 now: Timestamp)
    ensures var u := UnassignedTickets(UpdateTickets(tickets, id, AssignmentPatch(technicianId, attempts), now));
      forall k :: 0 <= k < |u| ==> u[k].id != id
  {
    var r := UpdateTickets(tickets, id, AssignmentPatch(technicianId, attempts), now);
    AssignedTicketsHaveTechnician(tickets, id, technicianId, attempts, now);
    assert forall x | x in r :: x.id == id ==> !NeedsAssignment(x);
  }

  /** An assigned ticket leaves the unassigned list. */
  lemma AutoAssignClearsUnassigned(tickets: seq<Ticket>, users: seq<User>, id: string, now: Timestamp)
    requires AutoAssign(tickets, users, id, now).Some?
    ensures forall k :: 0 <= k < |UnassignedTickets(AutoAssign(tickets, users, id, now).value)| ==>
      UnassignedTickets(AutoAssign(tickets, users, id, now).value)[k].id != id
  {
    AutoAssignOutcome(tickets, users, id, now);
    AssignedLeaveUnassigned(tickets, id, AvailableTechnicians(users)[0].id, FindTicket(tickets, id).value.autoAssignAttempts, now);
  }

  // ---------------------------------------------------------------------------
  // The store
  // ---------------------------------------------------------------------------

  /** 2024-01-01, the creation date of the seeded users, in milliseconds. */
  const SeedDate: Timestamp := 1704067200000

  /** The users the store starts with. */
  function MockUsers(): seq<User>
  {
    [User("1", "admin@company.com", "Administrador Sistema", Admin, None, [], true, true, SeedDate, None, 0, None, Some(true)),
     User("2", "tech1@company.com", "Juan Pérez", Technician, Some(""), [], true, true, SeedDate, None, 0, None, None),
     User("3", "user@company.com", "María García", EndUser, Some(""), [], true, false, SeedDate, None, 0, None, None)]
  }

  class SystemStore {
    var config: Config
    var tickets: seq<Ticket>
    var users: seq<User>
    var articles: seq<Article>
    var departments: seq<Department>

    constructor()
      ensures config == DefaultConfig() && tickets == [] && users == MockUsers()
      ensures articles == [] && departments == []
    {
      config := DefaultConfig();
      tickets := [];
      users := MockUsers();
      articles := [];
      departments := [];
    }

    method UpdateConfig(newConfig: Config)
      modifies this
      ensures config == MergeConfig(old(config), newConfig)
      ensures tickets == old(tickets) && users == old(users) && articles == old(articles)
      ensures departments == old(departments)
    {
      config := MergeConfig(config, newConfig);
    }

    /** `createTicket`: the new ticket, under `id` and stamped `now`, goes first. */
    method CreateTicket(data: Ticket, id: string, now: Timestamp)
      modifies this
      ensures tickets == [data.(id := id, createdAt := now, updatedAt := now)] + old(tickets)
      ensures config == old(config) && users == old(users) && articles == old(articles)
      ensures departments == old(departments)
    {
      tickets := [data.(id := id, createdAt := now, updatedAt := now)] + tickets;
    }

    method UpdateTicket(id: string, patch: TicketPatch, now: Timestamp)
      modifies this
      ensures tickets == UpdateTickets(old(tickets), id, patch, now)
      ensures config == old(config) && users == old(users) && articles == old(articles)
      ensures departments == old(departments)
    {
      tickets := UpdateTickets(tickets, id, patch, now);
    }

    method DeleteTicket(id: string)
      modifies this
      ensures tickets == DeleteTickets(old(tickets), id)
      ensures config == old(config) && users == old(users) && articles == old(articles)
      ensures departments == old(departments)
    {
      tickets := DeleteTickets(tickets, id);
    }

    method CreateUser(data: User, id: string, now: Timestamp)
      modifies this
      ensures users == [data.(id := id, createdAt := now)] + old(users)
      ensures config == old(config) && tickets == old(tickets) && articles == old(articles)
      ensures departments == old(departments)
    {
      users := [data.(id := id, createdAt := now)] + users;
    }

    method UpdateUser(id: string, patch: UserPatch)
      modifies this
      ensures users == UpdateUsers(old(users), id, patch)
      ensures config == old(config) && tickets == old(tickets) && articles == old(articles)
      ensures departments == old(departments)
    {
      users := UpdateUsers(users, id, patch);
    }

    method DeleteUser(id: string)
      modifies this
      ensures users == DeleteUsers(old(users), id)
      ensures config == old(config) && tickets == old(tickets) && articles == old(articles)
      ensures departments == old(departments)
    {
      users := DeleteUsers(users, id);
    }

    /** `createKnowledgeArticle`: a new article starts with no views and no
        votes. */
    method CreateKnowledgeArticle(data: Article, id: string, now: Timestamp)
      modifies this
      ensures articles == [data.(id := id, createdAt := now, updatedAt := now, views := 0, helpful := 0, notHelpful := 0)]
        + old(articles)
      ensures config == old(config) && tickets == old(tickets) && users == old(users)
      ensures departments == old(departments)
    {
      articles := [data.(id := id, createdAt := now, updatedAt := now, views := 0, helpful := 0, notHelpful := 0)]
        + articles;
    }

    method UpdateKnowledgeArticle(id: string, patch: ArticlePatch)
      modifies this
      ensures articles == UpdateArticles(old(articles), id, patch)
      ensures config == old(config) && tickets == old(tickets) && users == old(users)
      ensures departments == old(departments)
    {
      articles := UpdateArticles(articles, id, patch);
    }

    method CreateDepartment(data: Department, id: string, now: Timestamp)
      modifies this
      ensures departments == [data.(id := id, createdAt := now)] + old(departments)
      ensures config == old(config) && tickets == old(tickets) && users == old(users)
      ensures articles == old(articles)
    {
      departments := [data.(id := id, createdAt := now)] + departments;
    }

    method UpdateDepartment(id: string, patch: DepartmentPatch)
      modifies this
      ensures departments == UpdateDepartments(old(departments), id, patch)
      ensures config == old(config) && tickets == old(tickets) && users == old(users)
      ensures articles == old(articles)
    {
      departments := UpdateDepartments(departments, id, patch);
    }

    method DeleteDepartment(id: string)
      modifies this
      ensures departments == DeleteDepartments(old(departments), id)
      ensures config == old(config) && tickets == old(tickets) && users == old(users)
      ensures articles == old(articles)
    {
      departments := DeleteDepartments(departments, id);
    }

    /** `assignTicketToAvailableTechnician`. */
    method AssignTicketToAvailableTechnician(ticketId: string, now: Timestamp) returns (success: bool)
      modifies this
      ensures success == AutoAssign(old(tickets), old(users), ticketId, now).Some?
      ensures success ==> tickets == AutoAssign(old(tickets), old(users), ticketId, now).value
      ensures !success ==> tickets == old(tickets)
      ensures config == old(config) && users == old(users) && articles == old(articles)
      ensures departments == old(departments)
    {
      var found := FindTicket(tickets, ticketId);
      if found.None? || |found.value.assignedTechnicians| > 0 {
        return false;
      }
      var available := AvailableTechnicians(users);
      if |available| == 0 {
        return false;
      }
      var technician := available[0];
      UpdateTicket(ticketId, AssignmentPatch(technician.id, found.value.autoAssignAttempts), now);
      return true;
    }

    /** `getUnassignedTickets`. */
    function GetUnassignedTickets(): (r: seq<Ticket>)
      reads this
      ensures forall k :: 0 <= k < |r| ==> NeedsAssignment(r[k]) && r[k] in tickets
      ensures forall k :: 0 <= k < |tickets| && NeedsAssignment(tickets[k]) ==> tickets[k] in r
      ensures IsSubsequence(r, tickets)
    {
      UnassignedTickets(tickets)
    }
  }
}
