# Helpdesk console core, modelled in Dafny

This project models the logic inside a React helpdesk console: the
in-memory store of tickets, users, knowledge articles and departments with
its automatic assignment of technicians; the sign-in lock-out state
machine; the global search; the mail service's text classification and its
batch import; and the list editing, filtering, validation and export
logic of the screens (processing rules, departments, users, tickets,
knowledge base, mail accounts, security centre, assistant, settings,
sidebar and reports). Every piece of logic is written as Dafny functions,
classes and methods, and what the screens and the store promise is proved
as contracts and lemmas.

One module per source file, plus two shared ones:

- `Common` (common.dfy): trimming, lower-casing of ASCII and Latin-1 capitals, substring search,
  splitting and joining, filters, de-duplication and decimal text — the
  JavaScript built-ins the screens use.
- `Domain` (domain.dfy): the records of `src/types/index.ts`, the default
  configuration, and the `{ ...t, ...updates }` merges of partial records.
- `System` (system_store.dfy): `src/contexts/SystemContext.tsx`, the store,
  as a class over sequences.
- `Auth` (auth.dfy): `src/contexts/AuthContext.tsx`.
- `Search` (search.dfy): `src/contexts/SearchContext.tsx`.
- `EmailService` (email_service.dfy): `src/services/EmailService.ts`.
- `RulesModal`, `CreateDepartment`, `EditDepartment`, `EditUser`,
  `TicketList`, `UserManagement`, `KnowledgeBase`, `DepartmentManagement`,
  `CreateTicket`, `CreateArticle`, `EmailAccountForm`, `Security`,
  `AIAssistant`, `Settings`, `Sidebar` and `Reports`: the components of the
  same names under `src/components/`.

Clocks, random numbers and generated ids are parameters (`now`, `freshIds`),
and so are the locale date text and the outcome of processing a malformed
message.

## Model

| member | source | states |
|---|---|---|
| Common.ParseCommaList | src/components/Departments/CreateDepartmentModal.tsx:45 | every entry of a parsed comma list is non-empty, has no white space at its ends and holds no comma |
| Common.JoinThenParse | src/components/Departments/EditDepartmentModal.tsx:36 | joining entries with ", " and parsing the text again gives the same entries, for any entries the parse itself could produce |
| Common.ParseCommaListStable | src/components/Departments/EditDepartmentModal.tsx:65 | a parsed list, shown joined and parsed again, comes back unchanged |
| Common.Distinct | src/components/Knowledge/KnowledgeBase.tsx:25 | `[...new Set(s)]` holds no duplicates and exactly the values of `s` |
| Common.DistinctKeepsFirstOccurrenceOrder | src/components/Knowledge/KnowledgeBase.tsx:25 | the de-duplicated values come in the order of their first occurrence |
| Common.HoursMinutesInjective | src/components/Tickets/TicketList.tsx:191 | the "Xh Ym" text of a duration determines the number of minutes |
| Common.DecInjective | src/components/Reports/Reports.tsx:39 | different numbers have different decimal texts |
| EmailService.ExtractSender | src/services/EmailService.ts:325-332 | for a `Name <addr>` sender, the text before the first `<...>` ending, trimmed and without quotes; any other sender unchanged |
| EmailService.ExtractSenderExample | src/services/EmailService.ts:325-332 | "A <b>" yields "A" |
| EmailService.CleanSubject | src/services/EmailService.ts:337-339 | the subject trimmed, after one leading RE:, FW: (three characters) or FWD: (four), in any case, is removed when present |
| EmailService.CleanSubjectRemovesOneMarker | src/services/EmailService.ts:337-339 | only one marker goes: "RE: RE: x" becomes "RE: x" for every non-empty trimmed text x |
| EmailService.CleanSubjectOfMarkedText | src/services/EmailService.ts:337-339 | a marker, white space and a trimmed text give back exactly the text |
| EmailService.CleanSubjectKeepsSecondMarker | src/services/EmailService.ts:337-339 | only the first marker goes: a second marker after it stays at the front of the cleaned subject |
| EmailService.FwdMarkerIsLonger | src/services/EmailService.ts:338 | a FWD: subject loses all four marker characters, and a RE: or FW: subject loses three |
| EmailService.StripTags | src/services/EmailService.ts:347 | the text left after removing tags holds no `<...>` tag and only characters of the input |
| EmailService.ReplaceNbspKeepsNoTag | src/services/EmailService.ts:347 | replacing `&nbsp;` by a space creates no tag |
| EmailService.ExtractTextFromBody | src/services/EmailService.ts:344-350 | a body with both `<` and `>` has its tags stripped, then `&nbsp;` replaced, then is trimmed; any other body is only trimmed; the result is trimmed and holds no tag |
| EmailService.StripTagsOfPlain | src/services/EmailService.ts:347 | text without a tag is left unchanged by tag removal |
| EmailService.StripTagsOfTag | src/services/EmailService.ts:347 | the text before the first tag is kept, the tag `<t>` is removed, and removal goes on after it |
| EmailService.StripTagsKeepsPrefix | src/services/EmailService.ts:347 | text in front holding no `<` passes through tag removal unchanged |
| EmailService.ReplaceNbspWithoutEntity | src/services/EmailService.ts:347 | text without `&nbsp;` is left unchanged |
| EmailService.ReplaceNbspOfEntity | src/services/EmailService.ts:347 | the text before the first `&` is kept, `&nbsp;` becomes one space, and replacing goes on after it |
| EmailService.ReplaceNbspKeepsPrefix | src/services/EmailService.ts:347 | text in front holding no `&` passes through the `&nbsp;` replacement unchanged |
| EmailService.ExtractTextOfElement | src/services/EmailService.ts:344-350 | an element around two words joined by `&nbsp;` gives the two words with one space between them |
| EmailService.DeterminePriorityIsFirstMatchingLevel | src/services/EmailService.ts:355-377 | the priority is the highest level with a keyword in the lower-cased subject and body, "medium" exactly when no level has one |
| EmailService.CriticalKeywordWins | src/services/EmailService.ts:359-362 | any critical keyword gives "critical", whatever else the text holds |
| EmailService.FirstMatchingCategory | src/services/EmailService.ts:382-393 | the first category whose keywords occur, or "general" when none does |
| EmailService.CategorizeEmailIsFirstMatch | src/services/EmailService.ts:382-393 | categorising follows the fixed order hardware, network, software, access, email, and gives "general" exactly when no keyword occurs |
| EmailService.SelectIsSubsequence | src/services/EmailService.ts:398-411 | the tags chosen keep the fixed tag order |
| EmailService.SelectMembership | src/services/EmailService.ts:398-411 | a tag is chosen exactly when its condition holds |
| EmailService.ExtractTags | src/services/EmailService.ts:398-411 | the tags start with "email-import", hold each tag exactly when its condition holds, have no duplicates and keep the fixed order |
| EmailService.ExtractTagsConditions | src/services/EmailService.ts:403-408 | "reply" exactly for replies, "attachments" exactly when there are attachments, and the keyword tags exactly when their keyword occurs |
| EmailService.ProcessEmail | src/services/EmailService.ts:267-319 | the record holds the sender name, the cleaned subject, the date, the plain text, the keyword priority, the category and the tags each helper gives for the message; it keeps the attachments, the reply flag and the HTML body |
| EmailService.EmailService.constructor | src/services/EmailService.ts:9 | a new service is not connected |
| EmailService.EmailService.Connect | src/services/EmailService.ts:16-77 | an unsupported provider or empty credentials fail with their messages and leave the flag as it was; otherwise the service is connected |
| EmailService.EmailService.GetUnreadEmails | src/services/EmailService.ts:146-149 | fails with "no connection" unless connected |
| EmailService.EmailService.MarkAsRead | src/services/EmailService.ts:417-420 | fails exactly when not connected |
| EmailService.EmailService.Disconnect | src/services/EmailService.ts:439-451 | afterwards the service is not connected |
| EmailService.SurvivorsAppend | src/services/EmailService.ts:515-542 | each further message adds itself, marked processed, exactly when its processing does not fail |
| EmailService.SurvivorsAreTheNonFailing | src/services/EmailService.ts:515-542 | the result holds, marked processed and in input order, exactly the messages whose processing did not fail |
| EmailService.ProcessEmailsSecurely | src/services/EmailService.ts:492-563 | with a connection the result is the non-failing messages in order; without one it is an error |
| System.DeleteTickets | src/contexts/SystemContext.tsx:256-260 | no ticket with the id is left, every other ticket is, in the same order |
| System.DeleteUsers | src/contexts/SystemContext.tsx:281-285 | no user with the id is left, every other user is, in the same order |
| System.DeleteDepartments | src/contexts/SystemContext.tsx:329-333 | no department with the id is left, every other department is, in the same order |
| System.UpdateTicketsChangesOnlyThatId | src/contexts/SystemContext.tsx:246-254 | an update merges the changes and the new time into the tickets with that id; length and every other ticket are unchanged |
| System.UpdateUnknownTicketIsNoOp | src/contexts/SystemContext.tsx:246-254 | an update for an id no ticket has changes nothing |
| System.DeleteAfterUpdateTicket | src/contexts/SystemContext.tsx:246-260 | deleting after an update that keeps the id is deleting alone |
| System.DeleteAfterUpdateUser | src/contexts/SystemContext.tsx:273-285 | the same for users |
| System.DeleteAfterUpdateDepartment | src/contexts/SystemContext.tsx:321-333 | the same for departments |
| System.DeleteUndoesCreateTicket | src/contexts/SystemContext.tsx:234-260 | deleting a ticket just created with a new id gives the old list back |
| System.DeleteUndoesCreateUser | src/contexts/SystemContext.tsx:262-285 | the same for users |
| System.DeleteUndoesCreateDepartment | src/contexts/SystemContext.tsx:310-333 | the same for departments |
| System.MergeConfigReplacesWholeSections | src/contexts/SystemContext.tsx:228-232 | the merged configuration takes every supplied section whole and keeps the others |
| System.FindTicket | src/contexts/SystemContext.tsx:336 | `find` gives the first ticket with the id, or nothing exactly when none has it |
| System.AvailableTechnicians | src/contexts/SystemContext.tsx:340-345 | exactly the active, online technicians with support areas |
| System.FirstAvailableIsFirstInList | src/contexts/SystemContext.tsx:350 | the technician chosen is the first eligible user in list order |
| System.AutoAssignGuards | src/contexts/SystemContext.tsx:336-347 | assignment happens exactly when the first ticket with the id has no technician and some user is eligible |
| System.UnassignedFirstOccurrence | src/contexts/SystemContext.tsx:336-337 | the ticket found has no technicians exactly when the first with that id has none |
| System.SomeoneAvailable | src/contexts/SystemContext.tsx:347 | the eligible list is non-empty exactly when some user is eligible |
| System.FindTicketIsFirst | src/contexts/SystemContext.tsx:336 | the first ticket with the id is the one found |
| System.AssignmentUpdate | src/contexts/SystemContext.tsx:351-356 | the assignment update changes only the tickets with the id, as the patch says |
| System.AssignmentPatchEffect | src/contexts/SystemContext.tsx:351-356 | technicians become exactly the chosen one, auto-assigned true, requires-assignment false, attempts one more (missing counts as 0) |
| System.AutoAssignOutcome | src/contexts/SystemContext.tsx:349-358 | a successful assignment is that update with the first eligible technician |
| System.AssignedTicketsHaveTechnician | src/contexts/SystemContext.tsx:351-356 | after the update every ticket with the id has exactly the chosen technician, and ids are unchanged |
| System.AssignedTicketFound | src/contexts/SystemContext.tsx:336-337 | after the update the ticket found for the id has a technician |
| System.AutoAssignOnlyOnce | src/contexts/SystemContext.tsx:337 | a second assignment of the same ticket fails |
| System.UnassignedTickets | src/contexts/SystemContext.tsx:361-367 | exactly the tickets not closed, with no technician and requiring assignment, in list order |
| System.AssignedLeaveUnassigned | src/contexts/SystemContext.tsx:361-367 | an assigned ticket is no longer listed as unassigned |
| System.AutoAssignClearsUnassigned | src/contexts/SystemContext.tsx:349-367 | after a successful assignment the ticket is not listed as unassigned |
| System.SystemStore.constructor | src/contexts/SystemContext.tsx:173-178 | the store starts with the default configuration, the sample users and empty lists |
| System.SystemStore.UpdateConfig | src/contexts/SystemContext.tsx:228-232 | the configuration becomes the shallow merge; the lists are unchanged |
| System.SystemStore.CreateTicket | src/contexts/SystemContext.tsx:234-244 | the new ticket, with its id and times, is put first and the old list follows; nothing else changes |
| System.SystemStore.UpdateTicket | src/contexts/SystemContext.tsx:246-254 | the tickets become the updated list; nothing else changes |
| System.SystemStore.DeleteTicket | src/contexts/SystemContext.tsx:256-260 | the tickets lose those with the id; nothing else changes |
| System.SystemStore.CreateUser | src/contexts/SystemContext.tsx:262-271 | the new user is put first; nothing else changes |
| System.SystemStore.UpdateUser | src/contexts/SystemContext.tsx:273-279 | the users become the updated list; nothing else changes |
| System.SystemStore.DeleteUser | src/contexts/SystemContext.tsx:281-285 | the users lose those with the id; nothing else changes |
| System.SystemStore.CreateKnowledgeArticle | src/contexts/SystemContext.tsx:287-300 | the new article, with zero views and votes, is put first; nothing else changes |
| System.SystemStore.UpdateKnowledgeArticle | src/contexts/SystemContext.tsx:302-308 | the articles become the updated list; nothing else changes |
| System.SystemStore.CreateDepartment | src/contexts/SystemContext.tsx:310-319 | the new department is put first; nothing else changes |
| System.SystemStore.UpdateDepartment | src/contexts/SystemContext.tsx:321-327 | the departments become the updated list; nothing else changes |
| System.SystemStore.DeleteDepartment | src/contexts/SystemContext.tsx:329-333 | the departments lose those with the id; nothing else changes |
| System.SystemStore.AssignTicketToAvailableTechnician | src/contexts/SystemContext.tsx:335-359 | succeeds exactly when the assignment applies, and then the tickets are the assigned list; otherwise nothing changes |
| System.SystemStore.GetUnassignedTickets | src/contexts/SystemContext.tsx:361-367 | exactly the tickets needing assignment, in list order |
| Common.RemoveIndex | src/components/Email/EmailProcessingRulesModal.tsx:51 | removing index i of a list drops exactly that entry and keeps the rest in order; an index outside the list changes nothing |
| Common.UpdateAt | src/components/Email/EmailProcessingRulesModal.tsx:56-58 | updating index i changes only that entry, and the length is kept |
| Common.RemoveLastAppended | src/components/Email/EmailProcessingRulesModal.tsx:45-53 | removing the entry just added gives the list back |
| Common.RemoveIndexKeepsRest | src/components/Email/EmailProcessingRulesModal.tsx:49-53 | removing from a list of at least two leaves a non-empty list of old entries |
| Common.UpdateWhere | src/contexts/SystemContext.tsx:248-250 | the entries that satisfy the test are rewritten, the others kept, the length unchanged |
| Auth.NumberSetting | src/contexts/AuthContext.tsx:95-97 | `security?.x \|\| fallback`: a saved non-zero number is used, and the fallback otherwise |
| Auth.FallbacksMatchDefaults | src/contexts/AuthContext.tsx:95-97 | without saved security settings the limits are three attempts and fifteen minutes, the same values the default configuration stores, and no whitelist is required |
| Auth.LockUntil | src/contexts/AuthContext.tsx:98 | the lock ends the configured number of minutes after now |
| Auth.FindByEmail | src/contexts/AuthContext.tsx:67 | `find` gives the first user with the address, or nothing exactly when none has it |
| Auth.LoginStep | src/contexts/AuthContext.tsx:61-114 | one sign-in attempt never adds or removes users |
| Auth.UnknownEmailIsRefused | src/contexts/AuthContext.tsx:67-72 | an unknown address is refused and nothing changes |
| Auth.LockedAccountIsRefused | src/contexts/AuthContext.tsx:75-78 | a locked account is refused before the password is looked at, so nothing changes even with the right password |
| Auth.NonWhitelistedIsRefused | src/contexts/AuthContext.tsx:81-85 | when the whitelist is required, an account not on it is refused and nothing changes |
| Auth.WrongPasswordCounts | src/contexts/AuthContext.tsx:90-102 | a wrong password is refused and raises that account's failures by exactly one, changing no other account |
| Auth.RightPasswordSignsIn | src/contexts/AuthContext.tsx:105-113 | the right password succeeds, resets the failures, clears the lock and records the sign-in time; the rest of that account and every other account are kept |
| Auth.LoginSucceedsExactly | src/contexts/AuthContext.tsx:61-114 | sign-in succeeds exactly for a known, unlocked, admitted account with the right password |
| Auth.WrongAttempts | src/contexts/AuthContext.tsx:90-102 | repeated wrong passwords keep the number of accounts |
| Auth.WrongAttemptsCount | src/contexts/AuthContext.tsx:92 | below the limit, n wrong passwords leave exactly n failures and nothing else changed |
| Auth.NoWrongAttempts | src/contexts/AuthContext.tsx:92 | no attempt leaves the account as it was |
| Auth.NextWrongAttempt | src/contexts/AuthContext.tsx:90-102 | one more wrong password below the limit adds one failure |
| Auth.FindByEmailAfterUpdate | src/contexts/AuthContext.tsx:67 | the account is still found where it was after its own record changes |
| Auth.WrongAttemptsReachLimit | src/contexts/AuthContext.tsx:94-99 | the wrong password that reaches the limit locks the account until now plus the lock-out minutes |
| Auth.OneShortOfLimit | src/contexts/AuthContext.tsx:90-102 | below the limit the account is found where it was, holding the failures so far |
| Auth.WrongAttemptBelowLimit | src/contexts/AuthContext.tsx:96 | below the limit a wrong password sets no lock |
| Auth.WrongPasswordStep | src/contexts/AuthContext.tsx:90-102 | a wrong password applies the failure update to that account only |
| Auth.FailureAtLimit | src/contexts/AuthContext.tsx:96-98 | the failure that reaches the limit sets the lock time |
| Auth.LimitOfWrongPasswordsLocks | src/contexts/AuthContext.tsx:75-99 | after the limit of wrong passwords even the right password is refused until the lock runs out |
| Auth.AuthProvider.constructor | src/contexts/AuthContext.tsx:15-50 | the three sample accounts, nobody signed in, and the provider loading |
| Auth.AuthProvider.RestoreSession | src/contexts/AuthContext.tsx:52-59 | the saved session, if any, becomes the current user and loading ends |
| Auth.AuthProvider.Login | src/contexts/AuthContext.tsx:61-114 | the outcome and the accounts are those of one sign-in step; on success the found account becomes the current user, otherwise the current user is kept |
| Auth.AuthProvider.Logout | src/contexts/AuthContext.tsx:116-119 | the current user is cleared and the accounts are kept |
| Search.TicketResult | src/contexts/SearchContext.tsx:49-56 | a ticket hit carries the ticket's id, its kind and "/tickets" |
| Search.UserResult | src/contexts/SearchContext.tsx:67-74 | a user hit carries the user's id, its kind and "/users", the name as title and "email - role" as description |
| Search.ArticleResult | src/contexts/SearchContext.tsx:85-92 | an article hit carries the article's id, its kind and "/knowledge", the title, and the excerpt of its content |
| Search.DepartmentResult | src/contexts/SearchContext.tsx:106-113 | a department hit carries the department's id, its kind and "/departments", the name and the description |
| Search.TicketResultShape | src/contexts/SearchContext.tsx:52-53 | the title reads "Ticket #id: title"; the description is the first 100 characters of the ticket's description followed by "...", or all of it when it is shorter |
| Search.Collect | src/contexts/SearchContext.tsx:42-58 | one `forEach` contributes at most one hit per entity |
| Search.CollectStep | src/contexts/SearchContext.tsx:42-58 | each further entity adds its hit exactly when it matches |
| Search.CollectIsFilterMap | src/contexts/SearchContext.tsx:42-58 | the hits are the matching entities, in list order, turned into results |
| Search.CollectHasEveryMatch | src/contexts/SearchContext.tsx:42-58 | every matching entity has its hit |
| Search.CollectOnlyMatches | src/contexts/SearchContext.tsx:42-58 | every hit comes from a matching entity |
| Search.BlankTermFindsNothing | src/contexts/SearchContext.tsx:32-35 | a blank or white-space term gives no results |
| Search.AtMostOneResultPerEntity | src/contexts/SearchContext.tsx:42-115 | there are at most as many results as entities |
| Search.CollectKind | src/contexts/SearchContext.tsx:51 | every hit of one loop has that loop's kind |
| Search.ResultsAreGroupedByKind | src/contexts/SearchContext.tsx:41-117 | results list tickets, then users, then articles, then departments |
| Search.RanksAscend | src/contexts/SearchContext.tsx:41-117 | four groups of one kind each, in that order, keep the kinds in order |
| Search.TicketFoundIffMatches | src/contexts/SearchContext.tsx:43-48 | a ticket is in the results exactly when its lower-cased title, description or a tag, or its raw id, holds the lower-cased term |
| Search.TrimEmptyAfterLower | src/contexts/SearchContext.tsx:32-39 | a term is blank exactly when its lower-cased form is |
| Search.SearchIgnoresCaseOfTerm | src/contexts/SearchContext.tsx:39 | searching a term and its lower-cased form gives the same results |
| Search.PushHits | src/contexts/SearchContext.tsx:42-58 | one `forEach` loop appends exactly the hits of its list to the results |
| Search.SearchProvider.constructor | src/contexts/SearchContext.tsx:26-28 | the term and results start empty and nothing is being searched |
| Search.SearchProvider.SetSearchTerm | src/contexts/SearchContext.tsx:26 | only the term changes |
| Search.SearchProvider.PerformSearch | src/contexts/SearchContext.tsx:31-119 | the results become the search results of the term; the searching flag is off afterwards unless a blank term returned early |
| Search.SearchProvider.ClearSearch | src/contexts/SearchContext.tsx:121-124 | the term and the results are emptied |
| RulesModal.EditCondition | src/components/Email/EmailProcessingRulesModal.tsx:57 | `{ ...condition, [field]: value }` sets exactly the named field |
| RulesModal.EditAction | src/components/Email/EmailProcessingRulesModal.tsx:74 | `{ ...action, [field]: value }` sets exactly the named field |
| RulesModal.EditConditionTouchesOneField | src/components/Email/EmailProcessingRulesModal.tsx:55-60 | a field that changed is the field named by the edit |
| RulesModal.Technicians | src/components/Email/EmailProcessingRulesModal.tsx:79 | exactly the technicians, in list order |
| RulesModal.RulesForm.constructor | src/components/Email/EmailProcessingRulesModal.tsx:13-23 | the form opens with an empty name, active, priority 1, one default condition and one default action |
| RulesModal.RulesForm.SetName | src/components/Email/EmailProcessingRulesModal.tsx:13-17 | only the name changes; the lists stay non-empty |
| RulesModal.RulesForm.SetPriority | src/components/Email/EmailProcessingRulesModal.tsx:13-17 | only the priority changes; the lists stay non-empty |
| RulesModal.RulesForm.SetActive | src/components/Email/EmailProcessingRulesModal.tsx:13-17 | only the active flag changes; the lists stay non-empty |
| RulesModal.RulesForm.AddCondition | src/components/Email/EmailProcessingRulesModal.tsx:45-47 | the default condition (subject, contains, empty, case-insensitive) is appended; nothing else changes |
| RulesModal.RulesForm.RemoveCondition | src/components/Email/EmailProcessingRulesModal.tsx:49-53 | with more than one condition, exactly index i goes; with one, nothing changes; the list never empties |
| RulesModal.RulesForm.UpdateCondition | src/components/Email/EmailProcessingRulesModal.tsx:55-60 | only the condition at the index is edited; the length is kept |
| RulesModal.RulesForm.AddAction | src/components/Email/EmailProcessingRulesModal.tsx:62-64 | the default action (create_ticket, "true") is appended; nothing else changes |
| RulesModal.RulesForm.RemoveAction | src/components/Email/EmailProcessingRulesModal.tsx:66-70 | with more than one action, exactly index i goes; with one, nothing changes; the list never empties |
| RulesModal.RulesForm.UpdateAction | src/components/Email/EmailProcessingRulesModal.tsx:72-77 | only the action at the index is edited; the length is kept |
| RulesModal.RulesForm.Submit | src/components/Email/EmailProcessingRulesModal.tsx:25-43 | refused, with nothing changed, exactly when the name is empty (the lists never are); otherwise the rule carries the form and the form is reset |
| CreateDepartment.EditArea | src/components/Departments/CreateDepartmentModal.tsx:75 | `{ ...area, [field]: value }` sets exactly the named field |
| CreateDepartment.ValidAreas | src/components/Departments/CreateDepartmentModal.tsx:30 | exactly the areas whose trimmed name is non-empty, in order; empty exactly when every name is blank |
| CreateDepartment.AreaIdsDistinct | src/components/Departments/CreateDepartmentModal.tsx:42 | areas made in one submit get pairwise different ids, thanks to the index suffix |
| CreateDepartment.BuildAreas | src/components/Departments/CreateDepartmentModal.tsx:41-47 | one area per kept row, with its name, description and priority, and its keywords parsed from the comma list |
| CreateDepartment.SubmitDepartment | src/components/Departments/CreateDepartmentModal.tsx:22-48 | refused with the missing-fields alert when name or description is empty; an accepted department carries the form's fields |
| CreateDepartment.SubmitDepartmentOutcome | src/components/Departments/CreateDepartmentModal.tsx:25-34 | accepted exactly when name and description are filled and some area has a non-blank name |
| CreateDepartment.SubmittedAreasAreNamedRows | src/components/Departments/CreateDepartmentModal.tsx:30-47 | the areas submitted are, in order, some of the rows, with non-blank names and distinct ids |
| CreateDepartment.BuiltAreaFields | src/components/Departments/CreateDepartmentModal.tsx:43-46 | the built areas keep the rows' names, descriptions and priorities |
| CreateDepartment.SubsequenceMaps | src/components/Departments/CreateDepartmentModal.tsx:41 | mapping keeps a sublist a sublist |
| CreateDepartment.CreateDepartmentForm.constructor | src/components/Departments/CreateDepartmentModal.tsx:12-20 | the form opens empty, blue, active, with one blank area |
| CreateDepartment.CreateDepartmentForm.SetFields | src/components/Departments/CreateDepartmentModal.tsx:12-17 | sets the department fields; the areas are kept |
| CreateDepartment.CreateDepartmentForm.AddSupportArea | src/components/Departments/CreateDepartmentModal.tsx:63-65 | a blank area is appended; nothing else changes |
| CreateDepartment.CreateDepartmentForm.RemoveSupportArea | src/components/Departments/CreateDepartmentModal.tsx:67-71 | with more than one area, exactly index i goes; with one, nothing changes; the list never empties |
| CreateDepartment.CreateDepartmentForm.UpdateSupportArea | src/components/Departments/CreateDepartmentModal.tsx:73-78 | only the area at the index is edited |
| CreateDepartment.CreateDepartmentForm.Submit | src/components/Departments/CreateDepartmentModal.tsx:22-61 | the outcome is that of the submit function; a refusal changes nothing and a success resets the form |
| CreateDepartment.CreateDepartmentForm.Reset | src/components/Departments/CreateDepartmentModal.tsx:53-59 | the form is back to its opening state |
| EditDepartment.LoadRow | src/components/Departments/EditDepartmentModal.tsx:32-38 | a loaded row keeps the area's id, name, description and priority |
| EditDepartment.EditRow | src/components/Departments/EditDepartmentModal.tsx:92 | sets exactly the named field and never the id |
| EditDepartment.ValidRows | src/components/Departments/EditDepartmentModal.tsx:50 | exactly the rows whose trimmed name is non-empty, in order |
| EditDepartment.SavedArea | src/components/Departments/EditDepartmentModal.tsx:61-67 | a row with an id keeps it, a row without one gets the generated id; name, description and priority kept; keywords parsed |
| EditDepartment.SavedAreas | src/components/Departments/EditDepartmentModal.tsx:61-67 | one saved area per kept row, in order |
| EditDepartment.SubmitEdit | src/components/Departments/EditDepartmentModal.tsx:42-70 | refused with the missing-fields alert when name or description is empty or there is no department; an accepted update targets that department's id |
| EditDepartment.SubmitEditOutcome | src/components/Departments/EditDepartmentModal.tsx:45-54 | accepted exactly when name, description and department are present and some row has a non-blank name |
| EditDepartment.SubmitKeepsIds | src/components/Departments/EditDepartmentModal.tsx:61-67 | the saved areas are the kept rows, each keeping its id or getting a generated one |
| EditDepartment.Load | src/components/Departments/EditDepartmentModal.tsx:24-40 | one row per area of the department, loaded in order |
| EditDepartment.SaveLoadedRow | src/components/Departments/EditDepartmentModal.tsx:36-65 | a well-formed area loaded (keywords joined with ", ") and saved unedited comes back identical |
| EditDepartment.SubmitUnchangedIsIdentity | src/components/Departments/EditDepartmentModal.tsx:24-70 | submitting a loaded, unedited well-formed department is accepted and the update leaves it unchanged |
| EditDepartment.LoadedRowsAllValid | src/components/Departments/EditDepartmentModal.tsx:50 | every loaded row of a well-formed department is kept |
| EditDepartment.LoadedRowsSaveBack | src/components/Departments/EditDepartmentModal.tsx:61-67 | the loaded rows save back to the department's own areas |
| EditDepartment.EditDepartmentForm.constructor | src/components/Departments/EditDepartmentModal.tsx:14-22 | the form opens empty, blue, active, with one blank row |
| EditDepartment.EditDepartmentForm.LoadDepartment | src/components/Departments/EditDepartmentModal.tsx:24-40 | a department is loaded into the form; without one nothing changes |
| EditDepartment.EditDepartmentForm.SetFields | src/components/Departments/EditDepartmentModal.tsx:14-19 | sets the department fields; the rows are kept |
| EditDepartment.EditDepartmentForm.AddSupportArea | src/components/Departments/EditDepartmentModal.tsx:74-82 | a blank row without id is appended; nothing else changes |
| EditDepartment.EditDepartmentForm.RemoveSupportArea | src/components/Departments/EditDepartmentModal.tsx:84-88 | with more than one row, exactly index i goes; with one, nothing changes |
| EditDepartment.EditDepartmentForm.UpdateSupportArea | src/components/Departments/EditDepartmentModal.tsx:90-95 | only the row at the index is edited |
| EditDepartment.EditDepartmentForm.Submit | src/components/Departments/EditDepartmentModal.tsx:42-72 | the outcome is that of the submit function on the form's state |
| EditUser.ToggleFlipsOne | src/components/Users/EditUserModal.tsx:59-66 | after a toggle the area is listed exactly when it was not, and every other area is listed as before |
| EditUser.ToggleKeepsNoDuplicates | src/components/Users/EditUserModal.tsx:62-64 | a list without duplicates stays without duplicates |
| EditUser.ToggleTwice | src/components/Users/EditUserModal.tsx:59-66 | toggling an absent area twice gives the exact list back; toggling a present one twice moves it to the end |
| EditUser.AvailableSupportAreas | src/components/Users/EditUserModal.tsx:68-70 | the areas of the first department with the selected name, or none when no department has it |
| EditUser.Load | src/components/Users/EditUserModal.tsx:24-36 | the form shows the user's fields, a missing department as "" and a missing whitelist entry as false |
| EditUser.Submit | src/components/Users/EditUserModal.tsx:38-57 | refused exactly when name or email is empty or there is no user; otherwise the update targets that user's id |
| EditUser.SubmitLoadedIsIdentity | src/components/Users/EditUserModal.tsx:24-57 | submitting an unedited user changes nothing but filling in the missing department and whitelist entry |
| EditUser.SubmitWritesForm | src/components/Users/EditUserModal.tsx:45-55 | the updated user carries the form's seven fields and keeps everything else |
| EditUser.EditUserForm.constructor | src/components/Users/EditUserModal.tsx:14-22 | the form opens empty, as a plain active user not on the whitelist |
| EditUser.EditUserForm.LoadUser | src/components/Users/EditUserModal.tsx:24-36 | a user is loaded into the form; without one nothing changes |
| EditUser.EditUserForm.SetFields | src/components/Users/EditUserModal.tsx:14-22 | sets the plain fields; department and areas are kept |
| EditUser.EditUserForm.SetDepartment | src/components/Users/EditUserModal.tsx:145 | choosing a department clears the chosen areas |
| EditUser.EditUserForm.ToggleSupportArea | src/components/Users/EditUserModal.tsx:59-66 | only the area list changes, by the toggle |
| EditUser.EditUserForm.SubmitForm | src/components/Users/EditUserModal.tsx:38-57 | the outcome is that of the submit function on the form |
| TicketList.FilteredTickets | src/components/Tickets/TicketList.tsx:32-39 | a ticket is listed exactly when its title or description contains the term, ignoring case, and it passes the status and priority filters; the list keeps the store's order |
| TicketList.NoFilterShowsAll | src/components/Tickets/TicketList.tsx:32-39 | an empty term with both filters on "all" lists every ticket |
| TicketList.StatusFilterNarrows | src/components/Tickets/TicketList.tsx:35 | choosing a status only removes tickets from the list shown for "all" |
| TicketList.PriorityFilterNarrows | src/components/Tickets/TicketList.tsx:36 | choosing a priority only removes tickets from the list shown for "all" |
| TicketList.TermCaseIgnored | src/components/Tickets/TicketList.tsx:33-34 | a term and its lower-case form list the same tickets |
| TicketList.StatusChange | src/components/Tickets/TicketList.tsx:41-46 | the patch sets the new status, and sets the resolution time exactly when the new status is resolved |
| TicketList.StatusChangeEffect | src/components/Tickets/TicketList.tsx:41-46 | the ticket takes the new status; resolving stamps the time, any other status keeps the old resolution time; nothing else changes |
| TicketList.StatusChangeInStore | src/components/Tickets/TicketList.tsx:42 | the store keeps its length and every other ticket |
| TicketList.TimeSpentTextDistinguishes | src/components/Tickets/TicketList.tsx:191 | two tickets showing the same "Xh Ym" text have spent the same minutes |
| UserManagement.FilteredUsers | src/components/Users/UserManagement.tsx:28-34 | a user is listed exactly when their name or email contains the term, ignoring case, and they pass the role filter; the list keeps the store's order |
| UserManagement.ActiveAtMostTotal | src/components/Users/UserManagement.tsx:84-85 | the active count never exceeds the total, and equals it exactly when every listed user is active |
| UserManagement.NoFilterShowsAll | src/components/Users/UserManagement.tsx:28-34 | an empty term with the role filter on "all" lists every user |
| UserManagement.RoleFilterNarrows | src/components/Users/UserManagement.tsx:31 | choosing a role only removes users from the list shown for "all" |
| UserManagement.ToggleStatus | src/components/Users/UserManagement.tsx:36-38 | the patch sets the active flag to the switch's value |
| UserManagement.ToggleStatusEffect | src/components/Users/UserManagement.tsx:36-38 | the user with that id takes the new flag and every other user is unchanged |
| KnowledgeBase.FilteredArticles | src/components/Knowledge/KnowledgeBase.tsx:16-23 | an article is listed exactly when its title, content or a tag contains the term, ignoring case, and it passes the category filter; the list keeps the store's order |
| KnowledgeBase.NoFilterShowsAll | src/components/Knowledge/KnowledgeBase.tsx:16-23 | an empty term with the category on "all" lists every article |
| KnowledgeBase.CategoryFilterNarrows | src/components/Knowledge/KnowledgeBase.tsx:20 | choosing a category only removes articles, and keeps only articles of that category |
| KnowledgeBase.Categories | src/components/Knowledge/KnowledgeBase.tsx:25 | the categories offered are those of the articles, each listed once |
| KnowledgeBase.CategoriesInFirstSeenOrder | src/components/Knowledge/KnowledgeBase.tsx:25 | the categories appear in the order of their first article |
| KnowledgeBase.Preview | src/components/Knowledge/KnowledgeBase.tsx:98 | a preview is a prefix of the content of at most 150 characters, followed by "..." |
| KnowledgeBase.SortByViews | src/components/Knowledge/KnowledgeBase.tsx:163 | the articles are rearranged into decreasing order of views |
| KnowledgeBase.InsertLast | src/components/Knowledge/KnowledgeBase.tsx:163 | one insertion step extends the sorted prefix by one article and only rearranges the array |
| KnowledgeBase.InsertionStart | src/components/Knowledge/KnowledgeBase.tsx:163 | a sorted prefix is where an insertion step starts |
| KnowledgeBase.SwapStep | src/components/Knowledge/KnowledgeBase.tsx:163 | swapping the new article with a neighbour that has fewer views keeps the insertion on track |
| KnowledgeBase.InsertionDone | src/components/Knowledge/KnowledgeBase.tsx:163 | an insertion that meets a neighbour with at least as many views leaves the prefix sorted |
| KnowledgeBase.PopularArticles | src/components/Knowledge/KnowledgeBase.tsx:162-165 | the first five articles by views; each shown article has at least as many views as any article left out |
| DepartmentManagement.FilteredDepartments | src/components/Departments/DepartmentManagement.tsx:15-18 | a department is listed exactly when its name or description contains the term, ignoring case; the list keeps the store's order |
| DepartmentManagement.NoFilterShowsAll | src/components/Departments/DepartmentManagement.tsx:15-18 | an empty term lists every department |
| DepartmentManagement.TermCaseIgnored | src/components/Departments/DepartmentManagement.tsx:15-18 | a term and its lower-case form list the same departments |
| DepartmentManagement.DepartmentTechnicians | src/components/Departments/DepartmentManagement.tsx:20-22 | exactly the technicians whose department is the one named, in store order |
| DepartmentManagement.TechniciansOfDifferentDepartmentsDisjoint | src/components/Departments/DepartmentManagement.tsx:20-22 | no technician is counted under two departments |
| DepartmentManagement.MoreLabelInjective | src/components/Departments/DepartmentManagement.tsx:116-119 | different overflow counts give different "+n más" labels |
| DepartmentManagement.Abridged | src/components/Departments/DepartmentManagement.tsx:107-119 | a card shows a prefix of at most the limit, and an overflow label exactly when the list is longer |
| DepartmentManagement.AbridgedAccountsForAll | src/components/Departments/DepartmentManagement.tsx:116-119 | the overflow label counts exactly the items not shown; without one every item is shown |
| DepartmentManagement.AreasOnCard | src/components/Departments/DepartmentManagement.tsx:107-119 | the first three areas, or all when there are fewer, and the label "+n más" counting the rest exactly when there are more than three |
| DepartmentManagement.TechniciansOnCard | src/components/Departments/DepartmentManagement.tsx:124-140 | no technician block exactly when the department has none; otherwise its first two technicians, or the one, and the label "+n más" counting the rest exactly when there are more than two |
| DepartmentManagement.TechniciansOnCardBelong | src/components/Departments/DepartmentManagement.tsx:124-140 | every technician on a card is a technician of that department |
| CreateTicket.CreatedBy | src/components/Tickets/CreateTicketModal.tsx:37 | the signed-in user's id, or "1" when there is no user or the id is empty |
| CreateTicket.SubmitTicket | src/components/Tickets/CreateTicketModal.tsx:22-43 | refused exactly when title, description or category is empty; otherwise an open ticket with no technician, the form's fields, the author, no time spent and the parsed tags |
| CreateTicket.FormAfterSubmit | src/components/Tickets/CreateTicketModal.tsx:45-52 | the form is cleared after a ticket is created and kept after a refusal |
| CreateTicket.SubmitTwiceCreatesOnce | src/components/Tickets/CreateTicketModal.tsx:25-52 | submitting again right after a success is refused |
| CreateTicket.TagsRoundTrip | src/components/Tickets/CreateTicketModal.tsx:39 | tags written joined by ", " are read back as the same list |
| CreateTicket.CreatedTicketNotUnassigned | src/components/Tickets/CreateTicketModal.tsx:36 | a new ticket, although it has no technician, does not join the unassigned list, because the form never flags it as requiring assignment |
| CreateArticle.SubmitArticle | src/components/Knowledge/CreateArticleModal.tsx:24-41 | refused exactly when title, content or category is empty; otherwise an article with the form's fields, the author and the parsed tags |
| CreateArticle.FormAfterSubmit | src/components/Knowledge/CreateArticleModal.tsx:43-50 | the form is cleared after an article is created and kept after a refusal |
| CreateArticle.TagsRoundTrip | src/components/Knowledge/CreateArticleModal.tsx:36 | tags written joined by ", " are read back as the same list |
| CreateArticle.NewCategoryOffered | src/components/Knowledge/CreateArticleModal.tsx:22 | once an article is created its category is offered |
| EmailAccountForm.DefaultPort | src/components/Email/EmailAccountModal.tsx:56-68 | 995 for POP3 and 993 for IMAP and Exchange |
| EmailAccountForm.ChangeProvider | src/components/Email/EmailAccountModal.tsx:56-70 | the form takes the provider and its default port |
| EmailAccountForm.ChangeProviderKeepsTheRest | src/components/Email/EmailAccountModal.tsx:70 | every other field is kept, and changing the provider twice is the same as changing it once to the last |
| EmailAccountForm.InitialFormHasDefaultPort | src/components/Email/EmailAccountModal.tsx:12-26 | the empty form already holds the default port of its provider |
| EmailAccountForm.Submit | src/components/Email/EmailAccountModal.tsx:28-36 | refused exactly when name, email, server, username or password is empty; otherwise the form itself is stored |
| EmailAccountForm.FormAfterSubmit | src/components/Email/EmailAccountModal.tsx:38-52 | the form is reset after an account is created and kept after a refusal |
| EmailAccountForm.SubmitTwiceCreatesOnce | src/components/Email/EmailAccountModal.tsx:28-52 | submitting again right after a success is refused |
| Security.BlockedUsers | src/components/Security/Security.tsx:9-11 | exactly the users whose block ends after the current time, in store order |
| Security.BlockedUsersShrinkOverTime | src/components/Security/Security.tsx:9-11 | a user blocked later was already blocked earlier |
| Security.FailedAttemptUsers | src/components/Security/Security.tsx:13 | exactly the users with at least one failed attempt, in store order |
| Security.FailedAttemptsTotalOverAllUsers | src/components/Security/Security.tsx:89 | the total over users with failures is the total over all users, and it is zero exactly when no user has a failure |
| Security.ActiveUsersCount | src/components/Security/Security.tsx:69 | the active users never outnumber the users |
| Security.WhitelistCount | src/components/Security/Security.tsx:99 | the whitelisted users never outnumber the users |
| Security.WhitelistCountIsTotalIffAll | src/components/Security/Security.tsx:99 | the count equals the total exactly when every user is whitelisted |
| Security.Alerts | src/components/Security/Security.tsx:110-150 | at most two alerts are shown |
| Security.AllClearIffNoAlerts | src/components/Security/Security.tsx:110-150 | the all-clear notice shows exactly when no user is blocked and no user has failed attempts, and then alone; each warning counts its users, and that count is positive |
| AIAssistant.SetProviderEnabled | src/components/AI/AIAssistant.tsx:46-48 | the providers with that id take the flag and the others are unchanged |
| AIAssistant.SetProviderEnabledLastWins | src/components/AI/AIAssistant.tsx:46-48 | of two settings the last one wins, and setting a flag a provider already has changes nothing |
| AIAssistant.ToggleAIProvider | src/components/AI/AIAssistant.tsx:45-57 | the configuration holds the providers with the one flag changed |
| AIAssistant.ToggleAIProviderEffect | src/components/AI/AIAssistant.tsx:50-56 | the assistant flag agrees with the providers afterwards, and every other section and field is kept |
| AIAssistant.ToggleAIProviderTurnsAssistant | src/components/AI/AIAssistant.tsx:54 | enabling a listed provider turns the assistant on; when every provider has that id, the assistant is on exactly when they are enabled and there are some |
| AIAssistant.AfterSend | src/components/AI/AIAssistant.tsx:15-24 | a blank message is ignored; otherwise it is appended as the user's message and the box is cleared |
| AIAssistant.SendTwiceAddsOnce | src/components/AI/AIAssistant.tsx:15-24 | sending again right away adds nothing, and one send adds at most one message |
| AIAssistant.ChatPanel.constructor | src/components/AI/AIAssistant.tsx:6-13 | the chat opens with no history and an empty box |
| AIAssistant.ChatPanel.Type | src/components/AI/AIAssistant.tsx:6-13 | typing replaces the box's text and keeps the history |
| AIAssistant.ChatPanel.SendMessage | src/components/AI/AIAssistant.tsx:15-24 | the panel's history and box become those of the send function |
| Settings.ConfigChange | src/components/Settings/Settings.tsx:10-17 | the changed configuration holds the section and the field |
| Settings.ConfigChangeReplacesOneField | src/components/Settings/Settings.tsx:10-17 | exactly the one field of the one section takes the value; every other section and field is kept |
| Settings.ConfigChangeLastWins | src/components/Settings/Settings.tsx:10-17 | two changes to the same field leave the last value |
| Settings.ConfigChangesCommute | src/components/Settings/Settings.tsx:10-17 | changes to different fields can be made in either order |
| Settings.ConfigChangeSameValue | src/components/Settings/Settings.tsx:10-17 | writing a field's own value changes nothing |
| Settings.StoreHoldsChange | src/components/Settings/Settings.tsx:18 | the store's merge of the changed configuration is that configuration |
| Settings.ProviderCheckbox | src/components/Settings/Settings.tsx:356-361 | the providers are those with the one flag changed |
| Settings.ProviderCheckboxKeepsFlag | src/components/Settings/Settings.tsx:356-361 | the assistant flag and every other field and section are kept |
| Settings.CheckboxAndSwitchDisagree | src/components/Settings/Settings.tsx:356-361 | from the default configuration, the settings checkbox leaves the assistant flag out of step with the providers, and the assistant page's switch keeps it in step |
| Settings.SettingsScreen.constructor | src/components/Settings/Settings.tsx:8 | the screen opens with no pending changes |
| Settings.SettingsScreen.HandleConfigChange | src/components/Settings/Settings.tsx:10-20 | the store's configuration takes the change, nothing else in the store changes, and changes are pending |
| Settings.SettingsScreen.ToggleProvider | src/components/Settings/Settings.tsx:356-361 | the store's configuration takes the checkbox's change and nothing else in the store changes |
| Settings.SettingsScreen.SaveChanges | src/components/Settings/Settings.tsx:22-26 | no changes are pending afterwards |
| Sidebar.FilteredItems | src/components/Layout/Sidebar.tsx:44-46 | an item is shown exactly when it has no role list or the user's role is in it, in menu order |
| Sidebar.AdminSeesAll | src/components/Layout/Sidebar.tsx:26-37 | an administrator sees all ten items |
| Sidebar.TechnicianSeesSix | src/components/Layout/Sidebar.tsx:26-37 | a technician sees the four open items, Usuarios and AI Assistant, in that order |
| Sidebar.OthersSeeFive | src/components/Layout/Sidebar.tsx:26-37 | an end user, or nobody signed in, sees the four open items and AI Assistant |
| Sidebar.OpenItemsAlwaysShown | src/components/Layout/Sidebar.tsx:44-46 | items without a role list are shown to everyone, and a technician's menu is part of an administrator's |
| Reports.ExportData | src/components/Reports/Reports.tsx:16 | the first ten tickets, or all when there are at most ten |
| Reports.HeaderIsOneLine | src/components/Reports/Reports.tsx:35 | the header is one line and splits at its commas into the seven column names |
| Reports.CSVContent | src/components/Reports/Reports.tsx:34-44 | the content starts with the header, and is only the header for any report type but tickets |
| Reports.GenerateCSVContent | src/components/Reports/Reports.tsx:34-44 | the text built one ticket line at a time is the header followed by the lines of the tickets |
| Reports.RowsAppend | src/components/Reports/Reports.tsx:37-41 | the lines of two runs of tickets are the lines of the first followed by those of the second |
| Reports.RowIsOneLine | src/components/Reports/Reports.tsx:39 | a ticket whose text fields hold no line break gives exactly one line |
| Reports.RowSplitsIntoFields | src/components/Reports/Reports.tsx:39 | when no text field holds a comma, cutting the line at its commas gives back its seven fields |
| Reports.RowsLineCount | src/components/Reports/Reports.tsx:37-41 | such tickets give one line each |
| Reports.ExportLineCount | src/components/Reports/Reports.tsx:12-41 | the export has the header and one line per ticket, for at most ten tickets; only the header for other report types |
| Common.Trim | src/services/EmailService.ts:347 | `trim`: the result is the text between the leading and trailing white space, and is empty exactly when the text is all white space |
| EmailService.ReplaceNbsp | src/services/EmailService.ts:347 | replacing `&nbsp;` adds no character but spaces and never lengthens the text |
| Search.Excerpt | src/contexts/SearchContext.tsx:53 | a result description is the first 100 characters followed by "...", or the whole text when it is that short |

## Left out

- Persistence: the `localStorage` reads and writes and the JSON encoding in `src/contexts/SystemContext.tsx` and `src/contexts/AuthContext.tsx` are not modelled. A session restored from storage is a parameter of `Auth.AuthProvider.RestoreSession`.
- Simulated mail I/O: the delays, console logging and hard-coded sample messages of `src/services/EmailService.ts` are left out. The messages on the server are a parameter, and so is whether processing a message throws.
- Wall-clock time and locale formatting (`new Date()`, `toISOString`, `toLocaleDateString`) are not modelled. Times are `nat` milliseconds or opaque strings passed in, and the export's date text is a function parameter.
- Ids built from `Date.now()` and `Math.random()` are drawn from a parameter that yields fresh ids.
- `trim` and `\s` use the full ECMAScript white-space and line-terminator set. Lower-casing covers ASCII and the Latin-1 capitals (U+00C0 to U+00DE), which include the accented Spanish letters. Other Unicode case mappings are not modelled.
- `substring` and `length` count UTF-16 code units, while Dafny strings count code points. The 100-character cut of `Search.Excerpt` and the 150-character cut of `KnowledgeBase.Preview` differ from the source on text with characters outside the Basic Multilingual Plane, such as emoji.
- Auth.NumberSetting: a saved setting that is truthy but not a number, such as a text or `true`, is read as the fallback. The source would compare the attempt count against it with JavaScript coercion. The default configuration stores numbers there.
- Regular expressions are written out as the string functions they compute; there is no general regular-expression engine.
- Rule matching and rule actions are not modelled. No code evaluates a processing rule against a message.
- The context functions that are referenced but never defined in `src/contexts/SystemContext.tsx` are not modelled. These include `createEmailProcessingRule`, `syncEmailAccount` and `createEmailAccount`. The forms that call them stop at what they would pass.
- The assistant's canned reply, chosen by `Math.random` after a timer, is not modelled. Only the appending of the user's own message is.
- Floating-point percentages and bar widths of the charts (`Reports.tsx`, `TicketChart.tsx`, `TechnicianWorkload.tsx`) are left out.
- Pure UI files are not part of this model, because they hold no logic to state: `Email.tsx`, `Header.tsx`, `Dashboard.tsx`, `RecentTickets.tsx`, `StatsCard.tsx`, `UnassignedTicketsAlert.tsx`, `Layout.tsx`, `App.tsx`, `CreateUserModal.tsx`, JSX, routing and `alert` calls.
- KnowledgeBase.SortByViews: stability of `Array.sort` is not stated. The contract gives order by views and a permutation, not the relative order of articles with equal views.
- Reports.RowSplitsIntoFields: the quotes around the title are not escaped in the source, so a title holding a comma or a quote cannot be read back. The lemma is stated only for texts without commas.
- AIAssistant.ToggleAIProvider: requires an `ai` section holding a providers list; the source would throw without one.
- Settings.ProviderCheckbox: the Settings checkbox rewrites the providers list but leaves `ai.enabled` as it was, while the assistant page's switch recomputes it. `Settings.CheckboxAndSwitchDisagree` exhibits this from the default configuration. The model keeps the source's behaviour.
- Common.HoursMinutes: the table in `src/components/Reports/Reports.tsx:266` uses the same hours-and-minutes text as the ticket list, and the model shares one definition for both.
