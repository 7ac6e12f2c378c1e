# Work orders, team authority, one-time codes and migrations: a verified model

A Dafny model of four cooperating state machines of the repository's Go code,
with proofs of what they keep over every run.

**Work orders** (`WorkItem*.dfy`, `Trail*.dfy`, `Visibility.dfy`,
`Transactions.dfy`, `Notification*.dfy`). A work item moves along a cyclic status
graph. One service call may write up to five rows in five stores: the item, the
status history, the current assignment, the assignment history and a
notification. `WorkItemModel` gives each call as a *plan*: the guards, in the
order the code checks them, and then the list of writes. `WorkItemServices` and
`WorkItemStores` are the imperative services and stores, each method proved
equal to running its plan. A `World` adds the teams, and a `Command` is any
service call, a team change or a notification being read, so that `Run` ranges
over every history of the platform. `Trails` projects the stores to one item;
its invariant ties the status, both audit logs, both records of who holds the
item, and the notifications to one another. `Transactions` takes the same plans
one statement at a time with a fault at any statement, at begin or at commit.

`Permissions` spells out, over the rows of the stores, exactly who may make each
call and which refusal everyone else gets. `Provenance` and `ItemChanges` lift that
to runs: both logs, the notifications and every item's row are at any time exactly
what the permitted calls have made of them.

**Team authority** (`Team*.dfy`). Membership and supervision rows are closed,
never deleted. Two differently shaped queries answer "may this supervisor act
for this assignee"; they agree only because nobody is ever on two teams, and the
work-order list and the work-order lookup each use a different one.

**Evidence** (`Attachments.dfy`, `Evidence.dfy`, `Requests.dfy`,
`HandlerServices.dfy`). The HTTP layer lets nothing into review without an
attachment. The check and the service call are two steps, with any other requests in
between. `Requests` says exactly which requests leave a mark.

**One-time codes** (`Otp*.dfy`). Every atomic update of the user store is one
step; everything between two such steps may interleave with any number of other
calls, and clocks are read before the lock is taken. `OtpProtocol` keeps a log of
committed updates and proves each account field to be the fold of its own events.
`OtpTheorems` and `OtpGuessing` bound what can happen, `OtpLiveness` says when a code
does work.

**Migrations** (`Migration*.dfy`). Any number of replicas contend for one advisory
lock. Each statement is a step, and a replica may fail or crash between any two;
a commit, or the grant of the lock, may land although its answer is lost.

Where the code and its comments differ, the model follows the code:

- The comment on the attempt limit (`internal/auth/otp.go:22-27`) speaks of five
  wrong guesses per lockout. The counter is not reset when a lockout ends, so from
  the sixth guess on a single wrong guess locks the account again.
  `OtpWindow.FitsIffWithinCapacity` states how many guesses fit one window from every
  counter, five exactly when none was counted before (`OtpWindow.FiveFitIffClear`),
  and `OtpGuessing.CallsReachCapacity` carries it over to calls.
- The comment on the migration runner (`internal/db/db.go:9-17`) says that it runs
  whichever files have not run. Of two files with one version only one ever runs;
  `MigrationRunner.AllAppliedIffDistinct` states exactly when every file does.
  It also says that numbered files run in order. They run in string order, which is
  numeric order exactly when all versions have one width
  (`MigrationFiles.WidthsDecideOrder`, `MigrationFiles.WidthsDecideRunOrder`).
- The comment on the password write (`internal/auth/service.go:562-566`) says that a
  reset code requested between the consumption and that write needs a fresh request.
  It does not: `OtpTheorems.IssuedCodeSurvives` shows it stays valid.
- The comment on `mayView` (`internal/workitems/service.go:577-582`) says that it applies
  the rule of `GetByID`. It does not know requesters;
  `Visibility.HistoryOpensIffSameRule` states exactly when the two agree.
- A status of assigned does not imply an assignee: an administrator may move an
  item there directly. `WorkItemTheorems.AssignedWithoutAssignee` exhibits the
  call, and the two lemmas beside it say exactly when there is an assignee.
- The comment on assigning (`internal/workitems/service.go:665-671`) says that a
  supervisor may assign only their own, not yet assigned creation. An item moved back
  as above still has an assignee, and then the check asks for that user's team:
  `ItemChanges.SupervisorAssignsAnothersItem` exhibits the call, and
  `ItemChanges.HandedOverItemIsOwnIff` says exactly when the comment holds.

Times are integers and every clock reading is a parameter, with no order assumed
between readings unless a lemma says so. A generated id is kept beside the value
it names (`Stored`), so that statements can be made up to ids.

## Model

| member | source | states |
|---|---|---|
| Text.TrimSpaceMeaning | internal/workitems/service.go:83-97 | Trimming cuts white space off both ends, all of it, and nothing else |
| Text.TrimIdempotent | internal/teams/service.go:67-76 | What has been trimmed once is its own trim, so stored ids compare equal to later trimmed arguments |
| Text.Pad4Injective | internal/workitems/store.go:41-44 | Counters never print alike, below and above 9999 |
| Text.SqlPaddingAgrees | internal/workitems/postgres_store.go:41-42 | The SQL `lpad(..., greatest(length, 4))` form of an id equals the Go `%04d` form for every counter |
| Text.BareLpadAgreesIff | internal/workitems/postgres_store.go:41-42 | Padding to a flat four would agree exactly for counters below 10000, since `lpad` truncates |
| Text.NumberedInjective | internal/workitems/store.go:41-44 | Ids with one prefix are equal exactly when their counters are |
| Sequences.StableSortMeaning | internal/workitems/store.go:60-64 | The sort of the list views is ordered, keeps contents, and keeps the order of equal keys |
| Sequences.StableSortUnique | internal/workitems/store.go:60-64 | Order plus stability determine the sorted list |
| Sequences.FilterSortCommute | internal/workitems/store.go:73-112 | Filtering then stably sorting gives the same sequence as sorting then filtering |
| TeamServices.MemoryTeamStore.GetByID | internal/teams/store.go:61-72 | Finds a team exactly when one has the id |
| TeamServices.MemoryMembershipStore.Update | internal/teams/store.go:106-118 | Replaces the one row with that id and no other, or reports that there is none |
| TeamServices.MemoryMembershipStore.GetActiveByUserID | internal/teams/store.go:120-131 | The first open row of the user, or none |
| TeamServices.MemoryMembershipStore.ListActiveByTeamID | internal/teams/store.go:133-145 | The open rows of the team, in creation order |
| TeamServices.MemorySupervisionStore.Update | internal/teams/store.go:169-181 | Replaces the one row with that id and no other, or reports that there is none |
| TeamServices.MemorySupervisionStore.ListActiveByTeamID | internal/teams/store.go:183-195 | The open supervisions of the team, in creation order |
| TeamServices.MemorySupervisionStore.ListActiveByUserID | internal/teams/store.go:197-209 | The open supervisions of the user, in creation order |
| TeamServices.TeamService.CreateTeam | internal/teams/service.go:26-33 | Same result and new state as the model's command, blank names refused |
| TeamHistory.CreatedTeamIsThere | internal/teams/service.go:26-33 | A team from any name that is not blank, trimmed and dated; every team there was is still there |
| TeamServices.TeamService.AddAssignee | internal/teams/service.go:67-102 | Closes the row moved away from and opens the new one; a repeated call to the same team changes nothing |
| TeamServices.TeamService.AddSupervisor | internal/teams/service.go:108-127 | Adds an open supervision of an existing team |
| TeamServices.TeamService.RemoveSupervisor | internal/teams/service.go:132-161 | The scan with its found flag closes every open row of the pair at once and no other, or reports that there was none |
| TeamServices.TeamService.IsActiveSupervisorOf | internal/teams/service.go:168-196 | Some open supervision puts the caller in charge of the assignee's current team |
| TeamServices.TeamService.SupervisedAssigneeUserIDs | internal/teams/service.go:202-233 | The loop with its seen-map returns the members of every supervised team, first occurrences only |
| TeamHistory.RunKeepsInv | internal/teams/service.go:67-161 | After every run each user's rows tile: each row is closed when the next opens, on a different team, and only the last is open; stored ids are trimmed and every row names an existing team |
| TeamHistory.ExactlyOneTeam | internal/teams/service.go:67-102 | With a clock that never runs backwards a user once added is on exactly one team at every later instant |
| TeamHistory.QueriesAgree | internal/teams/service.go:168-233 | The per-assignee check holds exactly for the users on the per-supervisor list, which has no duplicates |
| TeamHistory.QueriesAgreeInEveryRun | internal/teams/service.go:168-233 | The same, both halves, after every run of team commands |
| TeamHistory.RemoveSupervisorEndsOnlyThatAuthority | internal/teams/service.go:132-161 | Afterwards authority is as before except for that supervisor over that team's members |
| TeamHistory.AddAssigneeMovesAuthority | internal/teams/service.go:67-102 | Afterwards the user answers to the new team's supervisors and nobody else; everyone else's authority is unchanged |
| TeamHistory.AddSupervisorGrantsExactly | internal/teams/service.go:108-127 | Afterwards authority is as before plus that supervisor over the present members of that team, and nothing more |
| TeamHistory.JoiningGivesAuthority | internal/teams/service.go:67-233 | From any state, a user put on a team and a supervisor then put in charge of it: both queries say so |
| TeamHistory.CommandsAcceptedIff | internal/teams/service.go:26-161 | The exact condition under which each command is accepted; a refused one changes nothing |
| TeamHistory.JoiningRowsSay | internal/teams/service.go:67-127 | New rows say who joined what, when and by whose hand, and are open; joining the team one is on already makes none |
| TeamHistory.SteppingDownStampsRows | internal/teams/service.go:132-161 | The open rows of the pair get the time of the call, no other row anything |
| NotificationServices.MemoryNotificationStore.Create | internal/notifications/store.go:35-45 | Appends a row under a fresh id |
| NotificationServices.NotificationService.Notify | internal/notifications/service.go:33-51 | Stores a trimmed notification, or refuses a blank field and stores nothing |
| NotificationServices.NotificationService.MarkAsRead | internal/notifications/service.go:67-89 | Sets the read time once, only for the recipient |
| NotificationModel.NotifyAcceptedIff | internal/notifications/service.go:33-51 | A notification is stored exactly if none of its parts is blank: trimmed, unread, at the end |
| NotificationModel.MarkedByRecipientOnly | internal/notifications/service.go:67-89 | A known row is marked for its recipient and nobody else, keeps its first mark, and leaves all others alone |
| WorkItemTypes.AssigneeMovesAreValid | internal/workitems/types.go:44-75 | The assignee's table grants only moves of the full table, none of them into or out of created or assigned |
| Permissions.TableIsLegal | internal/workitems/types.go:44-52 | A status move is valid exactly when it is one step forward, a decline, a flag or the rework after one, or a cancellation of something not ended |
| Permissions.AssigneeTableIsProgress | internal/workitems/types.go:65-75 | An assignee may start work, also after a flag, and submit it, and nothing else |
| WorkItemStores.MemoryStore.Create | internal/workitems/store.go:37-49 | Stores the item under the next id, at the end of the order list; on a well-formed table that id is free, so nothing is overwritten, and the table stays well-formed |
| WorkItemStores.MemoryStore.List | internal/workitems/store.go:51-65 | All items, newest first, ties in creation order |
| WorkItemStores.MemoryStore.ListByAssignedToUserID | internal/workitems/store.go:73-90 | The assignee's items in the same order |
| WorkItemStores.MemoryStore.ListByCreatedByUserID | internal/workitems/store.go:95-112 | The creator's items in the same order |
| WorkItemStores.MemoryStore.Update | internal/workitems/store.go:126-137 | Replaces an existing row, or reports that there is none |
| WorkItemStores.MemoryAssignmentStore.Create | internal/workitems/assignment_store.go:31-41 | Overwrites the item's one current row, under a new id |
| WorkItemStores.MemoryAssignmentStore.Update | internal/workitems/assignment_store.go:55-66 | Replaces an existing row, or reports that there is none |
| WorkItemStores.MemoryStatusHistoryStore.Create | internal/workitems/status_history_store.go:28-38 | Appends, changing no earlier row |
| WorkItemStores.MemoryStatusHistoryStore.ListByWorkItemID | internal/workitems/status_history_store.go:40-56 | One item's rows, oldest first, ties in append order |
| WorkItemStores.MemoryAssignmentHistoryStore.Create | internal/workitems/assignment_history_store.go:28-38 | Appends, changing no earlier row |
| WorkItemStores.MemoryAssignmentHistoryStore.ListByWorkItemID | internal/workitems/assignment_history_store.go:40-56 | One item's rows, oldest first, ties in append order |
| WorkItemServices.Service.SupervisorMayActOn | internal/workitems/service.go:484-494 | A supervisor may act on an item of someone they supervise, or on their own unassigned one |
| WorkItemServices.Service.ListForSupervisor | internal/workitems/service.go:163-197 | The loop over the team list gives the full list filtered to the supervisor's board |
| WorkItemServices.Service.List | internal/workitems/service.go:137-155 | The list for each combination of role flags |
| WorkItemServices.Service.GetByID | internal/workitems/service.go:216-255 | The lookup for each combination of role flags, hidden items reported as missing |
| WorkItemServices.Service.MayView | internal/workitems/service.go:583-593 | The rule of the history endpoints, which are not told about requesters |
| WorkItemServices.Service.ListStatusHistory | internal/workitems/service.go:613-632 | One item's status rows, oldest first, hidden items reported as missing |
| WorkItemServices.Service.ListAssignmentHistory | internal/workitems/service.go:637-656 | One item's assignment events, oldest first, hidden items reported as missing |
| WorkItemServices.Service.GetAssignment | internal/workitems/service.go:780-799 | The current row of an item the caller may view, a missing row told apart from a missing item |
| WorkItemServices.Service.Create | internal/workitems/service.go:82-122 | New items start created, unassigned and trimmed; bad input stores nothing |
| WorkItemServices.Service.Update | internal/workitems/service.go:276-353 | The patch, field by field, under the guards in the code's order |
| WorkItemServices.Service.ChangeStatus | internal/workitems/service.go:373-474 | Guards, item write, history row and notification equal the plan of a status change, on success and on every failure |
| WorkItemServices.Service.RecordStatusChange | internal/workitems/service.go:531-550 | One history row with the trimmed reason, or none if blank |
| WorkItemServices.Service.RecordAssignmentEvent | internal/workitems/service.go:557-576 | One event row with the trimmed note, or none if blank |
| WorkItemServices.Service.NotificationForStatusChange | internal/workitems/service.go:503-525 | Who is told what about a status: the creator on submission, the assignee, if any, on the three verdicts |
| WorkItemServices.Service.AssignWorkItem | internal/workitems/service.go:682-773 | The five writes of an assignment equal its plan, and so do its refusals |
| WorkItemServices.Service.RespondToAssignment | internal/workitems/service.go:820-918 | The writes of an accept or a decline equal its plan, and so do its refusals; the row returned is the answered one |
| WorkItemRuns.RunKeepsInv | internal/workitems/service.go:82-918 | Every run of every command keeps the whole-state invariant |
| WorkItemRuns.MoveSucceeds | internal/workitems/service.go:373-474 | A status change its guards let through cannot fail at any write and leaves a lawful state |
| WorkItemRuns.AssignSucceeds | internal/workitems/service.go:682-773 | The same for an assignment |
| WorkItemRuns.RespondSucceeds | internal/workitems/service.go:820-918 | The same for a response |
| Permissions.MayActIffInCharge | internal/workitems/service.go:484-494 | The rule for acting on an item, in terms of open team rows: some team has this supervisor in charge and this assignee as a member, or the item is the supervisor's own and unassigned |
| Permissions.MoveAcceptedIff | internal/workitems/service.go:373-445 | A status change passes exactly for an administrator, a supervisor in charge, or the assignee, on a move the graph has for them; which refusal is given otherwise |
| Permissions.AssigneeOnlyWorksAndSubmits | internal/workitems/service.go:426-444 | A plain assignee moves only their own item and only into progress or review; verdicts, completion and cancellation take an administrator or a supervisor in charge |
| Permissions.AssignAcceptedIff | internal/workitems/service.go:682-735 | An assignment passes exactly for an administrator, or a supervisor in charge of the item and of its new assignee's team, on a created item; which refusal otherwise |
| Permissions.RespondAcceptedIff | internal/workitems/service.go:820-862 | An answer passes exactly for the holder of a pending row on an assigned item, who is no requester; which of the six refusals otherwise |
| Permissions.UpdateAcceptedIff | internal/workitems/service.go:276-353 | An edit passes exactly for an administrator, or the supervisor who created the still unassigned item, with a well-formed patch |
| Permissions.FetchedIffSeen | internal/workitems/service.go:216-255 | Who sees an item: administrators all, supervisors what they are in charge of, requesters what they created, others what they hold; hidden and missing look alike |
| Permissions.ViewedIffSeen | internal/workitems/service.go:577-593 | The histories ask the same question as if nobody were a requester |
| ItemChanges.CreatedAsAsked | internal/workitems/service.go:82-122 | A creation is refused exactly for blank or unknown fields; otherwise every field of the new row is what was asked for |
| ItemChanges.EditedIsPatched | internal/workitems/service.go:310-351 | A well-formed patch sets exactly the fields it gives, a blank location clears, and which refusal the others get |
| ItemChanges.EditsMerge | internal/workitems/service.go:310-351 | Two edits in a row are one edit with the merged patch, at the later time |
| WorkItemTheorems.AssignmentRebuilt | internal/workitems/service.go:699-766 | In every run, replaying an item's assignment history from nothing gives its current assignment row in all fields but the generated id; there is a row exactly when the history is not empty |
| WorkItemTheorems.HistoryExplainsStatus | internal/workitems/types.go:44-52 | In every run the status history is a path of valid moves from created to the current status; every flag has a non-blank reason; unless cancelled, its length is rank plus two per row into created plus three per row into flagged |
| WorkItemTheorems.CancelledLength | internal/workitems/types.go:44-52 | A cancelled item's history is one row longer than the status it was cancelled in accounts for |
| WorkItemTheorems.EventsEmbedInHistory | internal/workitems/service.go:820-918 | In every run the assignment events embed in order into the status history, same actor, time and note; a response directly follows the assignment to the same user; an acceptance ends the log |
| WorkItemTheorems.VerdictsAnswerSubmissions | internal/workitems/types.go:44-52 | In every history, cancelled or not, submissions equal verdicts given plus the one pending, or pending when the item was cancelled; and at most one verdict is a verification |
| WorkItemTheorems.ReviewedMeansSubmitted | internal/workitems/types.go:44-52 | Nothing is verified, flagged or completed that was never submitted |
| WorkItemTheorems.AssigneeAgrees | internal/workitems/service.go:739-757 | In every run the item names u as assignee exactly when its assignment row names u and is assigned or accepted, and nobody exactly when there is no row or it is declined |
| WorkItemTheorems.MoveKeepsAssignee | internal/workitems/service.go:446-455 | A status change never sets or clears the assignee, so a move to assigned has one afterwards exactly when it had one before |
| WorkItemTheorems.AssignedWithoutAssignee | internal/workitems/service.go:406-410 | A concrete run in which an administrator leaves an item assigned to nobody |
| WorkItemTheorems.AssigneeIffLastEventStands | internal/workitems/service.go:739-757 | In every run an item has an assignee exactly when its last assignment event is not a decline |
| WorkItemTheorems.SettledForGood | internal/workitems/service.go:739-757 | Once the status has left created and assigned, no run changes the assignee or the assignment row, id included |
| WorkItemTheorems.LogsOnlyGrow | internal/workitems/status_history_store.go:28-38 | Both histories after a run extend those before it |
| Provenance.PlannedIffPermitted | internal/workitems/service.go:276-862 | In every lawful state the guards of each call let it through exactly when it is permitted |
| Provenance.RecordsAreThePermittedCalls | internal/workitems/service.go:373-918 | After every run both histories and the notifications are, entry for entry and in order, what the permitted calls of the run make: nothing missing, nothing forged |
| Provenance.VerdictsTakeAuthority | internal/workitems/service.go:405-455 | In every run whatever was verified, flagged, completed or cancelled was so by an administrator, or by a supervisor in charge of it at that moment |
| Provenance.AssignmentsTakeAuthority | internal/workitems/service.go:705-766 | In every run each assignment was made by an administrator, or by a supervisor then in charge of the item and of its new assignee; each answer is the assignee's own |
| Provenance.ReadMarksAreTheRecipients | internal/notifications/service.go:67-89 | At every step a notification stays as it is but for its recipient's own first reading |
| ItemChanges.ItemsChangeOnlySo | internal/workitems/service.go:276-918 | At every step of every run an item's row is what it was but for the fields a permitted call on that very item sets |
| ItemChanges.ContentChangesOnlyByPermittedEdits | internal/workitems/service.go:276-353 | In every run what the work is changes only by a permitted edit; identity, creator and creation time never change |
| ItemChanges.HandedOverItemIsOwnIff | internal/workitems/service.go:706-731 | An item a supervisor assigns is their own and unassigned exactly when it has no assignee; when it has one they run that user's team |
| ItemChanges.SupervisorAssignsAnothersItem | internal/workitems/service.go:706-731 | A concrete run after which a supervisor may assign an item somebody else created, left with its assignee by an administrator's move |
| WorkItemTheorems.EndStatusIsFinal | internal/workitems/types.go:44-52 | No run takes an item out of completed or cancelled or adds to its status history |
| WorkItemTheorems.NotificationsConserved | internal/workitems/service.go:461-525 | With a sink, per item: assignment and submission notices equal the rows that raise them, in order and to the right people; flagged, verified and completed notices equal their rows if there is an assignee, all to that assignee, and are none otherwise; nothing else is sent |
| WorkItemTheorems.AcceptanceNotified | internal/workitems/service.go:903-909 | An acceptance on record was told exactly once, to whoever made the assignment it answers |
| WorkItemTheorems.InMemoryCallsAreAllOrNothing | internal/workitems/service.go:31-80 | Without a transaction runner, in every reachable state a call fails exactly when its guards refuse it, and then no store has changed |
| WorkItemTheorems.CreationNeverOverwrites | internal/workitems/store.go:37-49 | In every run the order list enumerates the keys once each, every row sits under its own id, and the next id is free |
| Visibility.ListShowsWhatGetByIDFetches | internal/workitems/service.go:137-255 | For every caller with an identity and every combination of flags, the list is the full ordered list filtered by what the lookup lets through |
| Visibility.ListAndLookupAgree | internal/workitems/service.go:137-255 | In every reachable state of teams and items, for every caller and flags, an item is listed exactly when its id can be fetched, with the same row |
| Visibility.StoreListsNewestFirst | internal/workitems/store.go:51-112 | In the three store lists later creations come first, and items of one creation time keep creation order |
| Visibility.ListsAreNewestFirst | internal/workitems/service.go:137-197 | The same in every reachable state for the list of every caller with an identity, which is exactly what they may fetch |
| Visibility.ListRefusedIff | internal/workitems/service.go:137-155 | A list is refused exactly to a caller with no identity who is no administrator |
| Visibility.HistoryOpensIffSameRule | internal/workitems/service.go:216-255 | The lookup and the histories open the same items for a caller exactly when the caller is not a plain requester, or created the item exactly if assigned to it; both histories and the assignment follow one rule |
| Visibility.ListedMeansHistoryOpens | internal/workitems/service.go:577-656 | In every reachable state, for every caller but plain requesters, an item is listed exactly when its history opens, and then in full |
| Visibility.RequesterCannotReadOwnHistory | internal/workitems/service.go:583-593 | A concrete requester who may fetch the item they created and is refused its history |
| Visibility.AssignmentShownIsReplay | internal/workitems/service.go:637-799 | In every run the current assignment and its history open to the same callers, there is one exactly when the history has an entry, and it is what replaying the history gives |
| Visibility.HistoryViewsAreAppendOrder | internal/workitems/status_history_store.go:40-56 | With a clock that never runs backwards both history views give exact append order |
| Visibility.HistoryViewsAreOldestFirst | internal/workitems/status_history_store.go:40-56 | Whatever the clock did, both history views run from oldest to newest, rows of one time in append order |
| Transactions.Database.WithTx | internal/db/tx.go:51-72 | Whatever fails, every store is as before but for ids drawn and lost; on success exactly the call's writes are committed |
| Transactions.Database.RunStatements | internal/workitems/service.go:74-80 | One write after another up to the first that fails |
| Transactions.MoveRetryIsAFirstCall | internal/db/tx.go:41-50 | After any rollback a fault-free retry of a status change ends as a first call would, up to generated ids and times |
| Transactions.AssignRetryIsAFirstCall | internal/db/tx.go:41-50 | The same for an assignment |
| Transactions.RespondRetryIsAFirstCall | internal/db/tx.go:41-50 | The same for a response |
| Transactions.HalfAssignedIsStuck | internal/db/tx.go:41-50 | Without a rollback, an assignment stopped after any of its first four writes is refused on every retry |
| Attachments.MemoryStore.Create | internal/attachments/store.go:29-39 | Appends, changing no earlier row |
| Attachments.MemoryStore.ListByWorkItemID | internal/attachments/store.go:41-57 | One item's attachments, oldest first, ties in append order |
| Attachments.Service.UploadFile | internal/attachments/service.go:32-59 | Stores a row exactly when the ids are not blank, the kind is known and the file is not empty |
| Attachments.ListedIffPresent | internal/attachments/service.go:65-71 | A listing is non-empty exactly when a row for that item exists |
| Attachments.UploadAcceptedIff | internal/attachments/service.go:32-59 | An upload is stored exactly if item and user are named, the kind is known and the file was saved and is not empty; the row says whose and what it is |
| Attachments.ListedOldestFirst | internal/attachments/store.go:41-57 | A listing runs from oldest to newest |
| HandlerServices.WorkItemHandler.ChangeStatus | internal/http/handlers/workitems.go:136-196 | A submission the gate refuses changes nothing and is answered with the reason; everything else is the service call, its error or its item handed on |
| HandlerServices.WorkItemHandler.Verify | internal/http/handlers/workitems.go:209-241 | A status change with a fixed target, the service's error or item handed on |
| HandlerServices.WorkItemHandler.Flag | internal/http/handlers/workitems.go:250-288 | A blank note is refused before the service is asked; otherwise a status change with a fixed target, the service's error or item handed on |
| HandlerServices.AttachmentHandler.UploadFile | internal/http/handlers/attachments.go:37-86 | A caller who cannot see the item never reaches the upload; otherwise the upload's own answer |
| HandlerServices.AttachmentHandler.ListFiles | internal/http/handlers/attachments.go:91-112 | The same for a listing |
| Evidence.GateOpensIff | internal/http/handlers/workitems.go:160-176 | The gate opens exactly for an administrator, a supervisor in charge or the assignee, once a file is on the item |
| Evidence.UninterruptedRequest | internal/http/handlers/workitems.go:136-196 | The gate and the service call taken back to back have the effect of the handler |
| Requests.VerifyLandsIff | internal/http/handlers/workitems.go:209-241 | A verification goes through exactly for an administrator or a supervisor in charge, on an item awaiting review, and then leaves this one row and status; otherwise nothing changes |
| Requests.FlagLandsIff | internal/http/handlers/workitems.go:250-288 | A rejection likewise, and only with a note |
| Requests.SubmissionLandsIff | internal/http/handlers/workitems.go:136-196 | A submission goes through exactly on an item in progress that has a file, for its assignee or those in charge |
| Requests.FilesAreThePermittedUploads | internal/http/handlers/attachments.go:37-86 | Over every sequence of requests the attachments are exactly those uploaded by callers who saw the item at that moment, in order |
| Evidence.NothingReviewedWithoutEvidence | internal/http/handlers/workitems.go:160-176 | Over every sequence of requests, with anything between a check and its service call, every item ever submitted, and so every verified, flagged or completed one, has a stored attachment of valid kind and positive size |
| OtpModel.NormalizeIdempotent | internal/auth/service.go:657-659 | With ASCII lower-casing, normalising an identifier twice is normalising it once |
| OtpModel.NormalizesOnceIffSettles | internal/auth/service.go:657-659 | For any character-by-character lower-casing, normalising twice is normalising once for all identifiers exactly when the table is idempotent and makes no white space |
| OtpModel.NormalizeFoldsCase | internal/auth/service.go:657-659 | Two identifiers normalise alike exactly when they differ only in ASCII case and outer white space |
| OtpModel.PasswordLengths | internal/auth/service.go:382-385 | There are acceptable passwords of exactly eight to seventy-two characters, and padding with white space does not help |
| OtpServices.MemoryUserStore.FindByIdentifier | internal/auth/memory_user_store.go:25-37 | The first account with the normalised identifier, or none |
| OtpServices.MemoryUserStore.Create | internal/auth/memory_user_store.go:68-96 | Appends under the next id, or refuses a taken identifier or Google subject and stores nothing; if ids were distinct and the counter ahead of them, the id is new and both stay so |
| OtpServices.MemoryUserStore.UpdateAtomic | internal/auth/memory_user_store.go:126-144 | The mutation of the row with that id is the whole change; no other row is written |
| OtpServices.AuthService.GenerateOTP | internal/auth/otp.go:35-47 | Exactly six digits, whose value is the draw below one million |
| OtpServices.AuthService.ConsumeOTP | internal/auth/service.go:594-635 | The one atomic consumption and the error it is reported as |
| OtpServices.AuthService.VerifyEmail | internal/auth/service.go:440-451 | A consumption of the verification code |
| OtpServices.AuthService.RequestPasswordReset | internal/auth/service.go:460-512 | Writes the two code fields of a local requester account and nothing else |
| OtpServices.AuthService.CompletePasswordReset | internal/auth/service.go:529-571 | The code is consumed before the new password is looked at; only then is the hash written |
| OtpServices.AuthService.SignUp | internal/auth/service.go:374-433 | An unverified requester account with its one verification code; every failure up to the email stores nothing, a failing session token leaves the account |
| OtpServices.SignUpAcceptedIff | internal/auth/service.go:374-415 | Sign-up is refused exactly for blank fields, a bad password, an identifier taken up to case and white space, or a failure around it |
| OtpLiveness.NewAccountIsClean | internal/auth/service.go:374-433 | A new account may reset by email, is unverified, has no lock, no missed guess and no reset code, and its code stands until it expires |
| OtpLiveness.ConsumeAnswers | internal/auth/service.go:594-635 | A guess succeeds exactly when no lock runs and it is the flow's code on the row, unexpired, whatever the counter; and which error is given otherwise |
| OtpLiveness.ConsumeEffect | internal/auth/service.go:594-635 | A success spends the code and clears counter and lock, a miss counts and from the fifth on locks for fifteen minutes, nothing else is touched |
| OtpWindow.WindowBound | internal/auth/service.go:594-635 | Any lockout-long window weighs at most as many guesses as the counter has left, one if it has none left |
| OtpWindow.RateBound | internal/auth/service.go:618-625 | From every counter, each guess past the one that fills it is a whole lockout after its predecessor |
| OtpWindow.BoundsAreTight | internal/auth/otp.go:28-31 | From every counter and every lock that has run out, both bounds are attained together, for every number of guesses |
| OtpWindow.FitsIffWithinCapacity | internal/auth/service.go:594-635 | From every counter and lock, one window can weigh k guesses exactly when k is at most what the counter has left, or one |
| OtpWindow.FiveFitIffClear | internal/auth/otp.go:22-31 | Five guesses fit one window exactly when none was counted before |
| OtpProtocol.EveryFieldFollowsItsOwnEvents | internal/auth/service.go:460-635 | Under every interleaving each account field is the fold of its own events, so no update is lost, and every consumption's outcome is the one the account of that moment demands |
| OtpProtocol.RunKeepsTasks | internal/auth/service.go:529-571 | Under every interleaving each committed update carries its own call's inputs, and a password write follows a match by the same call |
| OtpTheorems.ResetsNeverExceedCodes | internal/auth/service.go:460-571 | Successful resets plus the outstanding code never outnumber the codes issued plus the initial one |
| OtpTheorems.EachResetSpendsTheLatestCode | internal/auth/service.go:594-635 | A reset succeeds only with the latest code, before it expires and with no success since it was issued |
| OtpTheorems.NoCodeSpentTwice | internal/auth/service.go:594-635 | Of two successful resets the later one's code was issued after the earlier one succeeded |
| OtpTheorems.IssuedCodeSurvives | internal/auth/service.go:557-571 | A code survives everything but a newer code or its own use, password writes of earlier resets included |
| OtpTheorems.VerifiedAtMostOnce | internal/auth/service.go:440-451 | A sign-up verifies at most once, and the address counts as verified exactly when it has |
| OtpTheorems.VerifiesWithTheSignUpCode | internal/auth/service.go:440-451 | Only the sign-up code itself verifies, before it expires |
| OtpLiveness.ResetSucceedsIff | internal/auth/service.go:529-635 | After every interleaving a reset guess succeeds exactly when no lock runs and it is the latest code, unspent and unexpired |
| OtpLiveness.VerificationSucceedsIff | internal/auth/service.go:440-451 | After every interleaving a verification succeeds exactly when no lock runs, nothing has verified before and it is the account's own code, unexpired |
| OtpLiveness.LatestCodeResets | internal/auth/service.go:529-571 | After any run the latest reset code, presented in time with no lock running and not interrupted, sets the password, however many guesses were wrong |
| OtpLiveness.SignUpCodeVerifies | internal/auth/service.go:440-451 | After any run of a new account its sign-up code verifies it, unless expired or locked |
| OtpLiveness.RequestIssuesIff | internal/auth/service.go:460-512 | A request issues a code, good for ten minutes, exactly for a requester account that does not sign in with Google |
| OtpLiveness.OthersGetNoCodes | internal/auth/service.go:460-485 | In no interleaving does any other account get one |
| OtpTheorems.PasswordHasProvenance | internal/auth/service.go:529-571 | The password is the initial one, or that of the last committed reset write, whose caller had matched a code and asked for it |
| OtpTheorems.PasswordWritesNeverExceedResets | internal/auth/service.go:529-571 | Password writes never outnumber matched codes |
| OtpGuessing.GuessesPerWindow | internal/auth/service.go:594-635 | Under every interleaving and any clock readings, a stretch without a success weighs at most five guesses from one fifteen-minute window, fewer if some were counted before, a final hit included |
| OtpLiveness.FiveInFifteenMinutes | internal/auth/otp.go:22-31 | In figures: at most five guesses within any fifteen minutes until one hits |
| OtpGuessing.GuessingRate | internal/auth/service.go:594-635 | From every counter the n-th guess of such a stretch is stamped a whole lockout later for each guess past the one that filled the counter; from a clear counter, n minus five lockouts after the fifth |
| OtpGuessing.CallsReachCapacity | internal/auth/service.go:440-635 | For every account, some calls weigh k guesses in one window without an earlier hit exactly when k is within the capacity of its counter |
| OtpGuessing.LockedSignUpNeverVerifies | internal/auth/otp.go:17-31 | Under every interleaving, a lockout that ends no earlier than the sign-up code expires voids the code until some other guess hits |
| OtpGuessing.FullCounterVoidsSignUpCode | internal/auth/otp.go:17-31 | So the guess that fills the counter, made up to five minutes before the code was issued or any time after, ends the code |
| OtpGuessing.NextResetSpendsALaterCode | internal/auth/otp.go:17-31 | The first reset after a lockout spends a code that expires after the lockout ends |
| OtpTheorems.CompletionAlone | internal/auth/service.go:529-571 | A completion nothing interrupts leaves the account as the service method does, reports the same verdict, and sets the password exactly when it reports no error |
| MigrationFiles.ParseMeaning | internal/db/db.go:163-183 | A file is the migration with that version and name exactly when it is called version, underscore, name, `.up.sql`, with no underscore in the version |
| MigrationFiles.EqualWidthOrderIsNumeric | internal/db/db.go:185-187 | For digit versions of one width string order is numeric order |
| MigrationFiles.WidthsDecideOrder | internal/db/db.go:185-187 | Digit strings of widths m and n compare as the numbers they spell, for all digits, exactly when m equals n |
| MigrationFiles.UnequalWidthsInvert | internal/db/db.go:185-187 | For any two different positive widths some pair runs in the wrong order: all nines against the next power of ten |
| MigrationFiles.WidthsDecideRunOrder | internal/db/db.go:153-189 | For files whose versions have given widths, every run is in numeric order whatever the digits and the sort exactly when all widths, empty versions aside, are equal |
| MigrationFiles.LoadMigrations | internal/db/db.go:153-189 | Exactly the migrations among the files, in version order |
| MigrationFiles.OrderIsDetermined | internal/db/db.go:185-187 | With distinct versions any correct sort gives the same list, so all replicas run the same one |
| MigrationServices.Database.Migrate | internal/db/db.go:89-151 | Stops at the first failing statement with every earlier migration applied and recorded and nothing of the current one, unless its commit landed unanswered; keeps the lock exactly when the unlock is lost, or the grant was |
| MigrationRunner.TargetMeaning | internal/db/db.go:110-148 | The loop appends exactly the missing versions, in order, once each |
| MigrationRunner.AllAppliedIffDistinct | internal/db/db.go:110-122 | From an empty record every listed migration is applied exactly when no two share a version |
| MigrationRunner.AppliedIsRecordedIsPrefix | internal/db/db.go:89-151 | For any replicas, interleaving, failures and crashes and any initial record: applied equals recorded, extends the initial record along the missing versions in order, has no duplicates, and is complete once a replica returns |
| MigrationRunner.AppliedIsPrefixOfList | internal/db/db.go:89-151 | With distinct versions and an initial prefix the applied log is always a prefix of the list, and the whole list once a replica returns |
| MigrationRunner.OneReplicaWorks | internal/db/db.go:64-99 | At most one replica is inside the loop |
| MigrationRunner.NothingRunsTwice | internal/db/db.go:136-142 | No migration's SQL is run, and no version recorded, that is on record already |
| MigrationRunner.RerunsChangeNothing | internal/db/db.go:65-70 | Once a replica has returned, no later step of any replica changes the database |
| MigrationRunner.UndisturbedReplicaFinishes | internal/db/db.go:110-150 | From anywhere in the loop, or idle or waiting with the lock free, whatever crashes and failures have left, a replica whose statements succeed returns with everything applied and recorded and the lock free |
| MigrationRunner.RestartedReplicaFinishes | internal/db/db.go:64-150 | The same from any state of the replica, restarting it first, if no other connection holds the lock |
| MigrationRunner.FinishesAloneIffLockFree | internal/db/db.go:72-99 | A replica's own moves can bring it to a return exactly when no other connection holds the lock |
| MigrationRunner.OthersTakeOverIff | internal/db/db.go:89-151 | When the replica in the loop fails, returns or goes down, any other one can finish the work exactly when the unlock got through or the connection went |

## Left out

- SQL text and the isolation levels of concurrent Postgres transactions: a store is its contract, a transaction is begin, statements, then commit or rollback.
- A failed rollback (`internal/db/tx.go:60-63`) only wraps the error; a work-order commit whose answer is lost is not modelled, a migration commit is.
- Interleavings inside one work-order or team call: both read and then write without a lock across the pair, so their run properties hold for calls taken as atomic steps.
- HTTP routing, JSON, status codes, middleware, logging, configuration and the missing-principal answers of the handlers.
- `ListTeams` and `TeamExists`: one guard and a read each.
- Notification listing: the store iterates a Go map, so the order of equal times is not determined.
- The clone helpers and pointer aliasing: rows are values.
- Email delivery, bcrypt, SHA-256, JWT, random generation and constant-time comparison: hashes are opaque values, a draw is a parameter.
- `ChangePassword`, `ResetPassword` and `UpdateUser` write back whole rows read earlier (`internal/auth/service.go:194-284`); they are not among the interleaved calls, for which no update is lost.
- Google login, bootstrap seeding, user administration and sessions.
- OtpModel.NormalizeIdempotent: ASCII, as are the stores; for any other character table `OtpModel.NormalizesOnceIffSettles` says what it has to do.
- Lengths in bytes: identifiers and passwords are measured in characters.
- A password hash that fails in `CompletePasswordReset`: in the interleavings it is a call that stops after its match.
- File bytes and their names on disk: only the address and the size the file storage answers with matter.
- The connection pool: a lock whose unlock is lost, or whose grant was never answered, stays held until that replica is gone, and no more is said of it.
- OtpProtocol.EveryFieldFollowsItsOwnEvents: speaks of one account, because `OtpServices.MemoryUserStore.UpdateAtomic` writes no other row.
