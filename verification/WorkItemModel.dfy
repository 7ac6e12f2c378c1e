/** The work-order engine as values. A workflow call is a `plan`: the guards
    decide either an error or the list of store writes the call makes, in
    order; `ExecAll` performs a list, stopping at the first write that fails. */
module WorkItemModel {
  import opened Wrappers
  import opened Text
  import opened Sequences
  import opened Records
  import opened WorkItemTypes
  import TeamModel
  import N = NotificationModel

  datatype Error =
    | NotFound | InvalidInput | InvalidPriority | InvalidStatus | InvalidTransition
    | AssignmentNotFound | AssignmentNotOwned | AssignmentNotPending
    | FeedbackRequired | AlreadyAssigned
    | FromNotifications(error: N.NotificationError)
    | StorageFailure

  // ----- Stores -----

  datatype ItemTable = ItemTable(counter: nat, byID: map<string, WorkItem>, ordered: seq<string>)

  datatype AssignmentTable = AssignmentTable(counter: nat, byWorkItem: map<string, Stored<Assignment>>)

  /** Everything the engine writes to. `sink` is None when no notifier is wired in. */
  datatype Stores = Stores(
    items: ItemTable, assignments: AssignmentTable,
    statusLog: Log<StatusEntry>, eventLog: Log<AssignmentEvent>,
    sink: Option<Log<N.Notification>>)

  function EmptyStores(hasSink: bool): Stores {
    Stores(ItemTable(0, map[], []), AssignmentTable(0, map[]), Log(0, []), Log(0, []),
           if hasSink then Some(N.EMPTY_SINK) else None)
  }

  function AssignmentID(n: nat): string { Numbered("assignment-", n) }

  datatype Write =
    | PutItem(item: WorkItem)
    | AddStatus(entry: StatusEntry)
    | NewAssignment(assignment: Assignment)
    | PutAssignment(row: Stored<Assignment>)
    | AddEvent(event: AssignmentEvent)
    | SendNote(recipient: string, workItemID: string, kind: N.Kind, message: string, at: int)

  function Exec(s: Stores, w: Write): Result<Stores, Error> {
    match w
    case PutItem(item) =>
      if item.id in s.items.byID then Ok(s.(items := s.items.(byID := s.items.byID[item.id := item])))
      else Err(NotFound)
    case AddStatus(entry) => Ok(s.(statusLog := Append(s.statusLog, "statushistory-", entry)))
    case NewAssignment(a) =>
      var n := s.assignments.counter + 1;
      Ok(s.(assignments := AssignmentTable(
              n, s.assignments.byWorkItem[a.workItemID := Stored(AssignmentID(n), a)])))
    case PutAssignment(row) =>
      if row.value.workItemID in s.assignments.byWorkItem then
        Ok(s.(assignments := s.assignments.(
                byWorkItem := s.assignments.byWorkItem[row.value.workItemID := row])))
      else Err(AssignmentNotFound)
    case AddEvent(event) => Ok(s.(eventLog := Append(s.eventLog, "assignmenthistory-", event)))
    case SendNote(recipient, id, kind, message, at) =>
      match s.sink
      case None => Ok(s)
      case Some(log) =>
        match N.Notify(log, recipient, id, kind, message, at)
        case Ok(log') => Ok(s.(sink := Some(log')))
        case Err(e) => Err(FromNotifications(e))
  }

  function ExecAll(s: Stores, ws: seq<Write>): (Stores, Option<Error>)
    decreases |ws|
  {
    if ws == [] then (s, None)
    else
      match Exec(s, ws[0])
      case Err(e) => (s, Some(e))
      case Ok(s') => ExecAll(s', ws[1..])
  }

  /** Runs a plan: an error from the guards writes nothing. */
  function Perform(s: Stores, plan: Result<seq<Write>, Error>): (Stores, Option<Error>) {
    match plan
    case Err(e) => (s, Some(e))
    case Ok(ws) => ExecAll(s, ws)
  }

  /** What is left to do after the first write of a list. */
  lemma NextWrite(s: Stores, w: Write, rest: seq<Write>)
    ensures Exec(s, w).Ok? ==> ExecAll(s, [w] + rest) == ExecAll(Exec(s, w).value, rest)
    ensures Exec(s, w).Err? ==> ExecAll(s, [w] + rest) == (s, Some(Exec(s, w).error))
  {
    assert ([w] + rest)[1..] == rest;
  }

  lemma LastWrite(s: Stores, w: Write)
    ensures Exec(s, w).Ok? ==> ExecAll(s, [w]) == (Exec(s, w).value, None)
    ensures Exec(s, w).Err? ==> ExecAll(s, [w]) == (s, Some(Exec(s, w).error))
  {
    NextWrite(s, w, []);
    assert [w] + [] == [w];
  }

  lemma {:induction false} ExecAllConcat(s: Stores, ws: seq<Write>, vs: seq<Write>)
    ensures ExecAll(s, ws + vs) ==
            if ExecAll(s, ws).1.None? then ExecAll(ExecAll(s, ws).0, vs) else ExecAll(s, ws)
    decreases |ws|
  {
    if ws == [] {
      assert ws + vs == vs;
    } else {
      assert (ws + vs)[1..] == ws[1..] + vs;
      if Exec(s, ws[0]).Ok? {
        ExecAllConcat(Exec(s, ws[0]).value, ws[1..], vs);
      }
    }
  }

  // ----- Creating and editing -----

  datatype CreateInput = CreateInput(
    title: string, description: string, priority: Priority,
    locationText: Option<string>, dueAt: Option<int>)

  datatype UpdateInput = UpdateInput(
    title: Option<string>, description: Option<string>, priority: Option<Priority>,
    locationText: Option<string>, dueAt: Option<int>)

  /** A text kept trimmed, and dropped when nothing is left. */
  function Clean(raw: Option<string>): Option<string> {
    if raw.Some? && !Blank(raw.value) then Some(TrimSpace(raw.value)) else None
  }

  function Insert(t: ItemTable, item: WorkItem): (ItemTable, WorkItem) {
    var n := t.counter + 1;
    var row := item.(id := ItemID(n), referenceCode := ReferenceCode(n));
    (ItemTable(n, t.byID[row.id := row], t.ordered + [row.id]), row)
  }

  function Create(s: Stores, createdBy: string, input: CreateInput, now: int): (Stores, Result<WorkItem, Error>) {
    if Blank(createdBy) || Blank(input.title) || Blank(input.description) then (s, Err(InvalidInput))
    else if !input.priority.IsValid() then (s, Err(InvalidPriority))
    else
      var draft := WorkItem(
        "", "", TrimSpace(input.title), TrimSpace(input.description), Created, input.priority,
        createdBy, None, Clean(input.locationText), input.dueAt, now, now);
      var (items, item) := Insert(s.items, draft);
      (s.(items := items), Ok(item))
  }

  /** The patch, field by field; an empty location clears it. */
  function Edited(item: WorkItem, input: UpdateInput, now: int): Result<WorkItem, Error> {
    if input.title.Some? && Blank(input.title.value) then Err(InvalidInput)
    else if input.description.Some? && Blank(input.description.value) then Err(InvalidInput)
    else if input.priority.Some? && !input.priority.value.IsValid() then Err(InvalidPriority)
    else
      Ok(item.(
         title := if input.title.Some? then TrimSpace(input.title.value) else item.title,
         description := if input.description.Some? then TrimSpace(input.description.value) else item.description,
         priority := if input.priority.Some? then input.priority.value else item.priority,
         locationText := if input.locationText.Some? then Clean(input.locationText) else item.locationText,
         dueAt := if input.dueAt.Some? then input.dueAt else item.dueAt,
         updatedAt := now))
  }

  datatype UpdateRequest = UpdateRequest(
    id: string, caller: string, isAdmin: bool, isSupervisor: bool, input: UpdateInput)

  function UpdatePlan(s: Stores, authority: Option<TeamModel.TeamState>, q: UpdateRequest, now: int)
    : Result<seq<Write>, Error>
  {
    if Blank(q.id) then Err(InvalidInput)
    else if q.id !in s.items.byID then Err(NotFound)
    else
      var item := s.items.byID[q.id];
      if !q.isAdmin && !(q.isSupervisor && SupervisorMayActOn(authority, q.caller, item)) then Err(NotFound)
      else if !q.isAdmin && item.assignedToUserID.Some? then Err(AlreadyAssigned)
      else
        match Edited(item, q.input, now)
        case Err(e) => Err(e)
        case Ok(edited) => Ok([PutItem(edited)])
  }

  // ----- Authority over one item -----

  predicate SupervisorMayActOn(authority: Option<TeamModel.TeamState>, actor: string, item: WorkItem) {
    match item.assignedToUserID
    case None => item.createdByUserID == actor
    case Some(user) => authority.Some? && TeamModel.IsActiveSupervisorOf(authority.value, actor, user)
  }

  // ----- Changing status -----

  datatype MoveRequest = MoveRequest(
    id: string, actor: string, isAdmin: bool, isSupervisor: bool, isRequester: bool,
    toStatus: Status, reason: Option<string>)

  /** What stops this caller from making this move on this item, if anything. */
  function MoveRefused(authority: Option<TeamModel.TeamState>, q: MoveRequest, item: WorkItem): Option<Error> {
    if q.isAdmin then
      if IsValidTransition(item.status, q.toStatus) then None else Some(InvalidTransition)
    else if q.isSupervisor then
      if !SupervisorMayActOn(authority, q.actor, item) then Some(NotFound)
      else if IsValidTransition(item.status, q.toStatus) then None else Some(InvalidTransition)
    else if q.isRequester then Some(NotFound)
    else if item.assignedToUserID != Some(q.actor) then Some(NotFound)
    else if IsAssigneeAllowedTransition(item.status, q.toStatus) then None else Some(InvalidTransition)
  }

  /** Who hears about an item that has just reached its status. */
  function NotesForStatus(id: string, item: WorkItem, noteNow: int): seq<Write> {
    match item.status
    case SubmittedForReview =>
      [SendNote(item.createdByUserID, id, N.EvidenceSubmitted,
                item.referenceCode + " was submitted for review", noteNow)]
    case Flagged => NoteToAssignee(id, item, N.WorkFlagged, " was flagged and needs rework", noteNow)
    case Verified => NoteToAssignee(id, item, N.WorkVerified, " was verified", noteNow)
    case Completed => NoteToAssignee(id, item, N.WorkCompleted, " was marked completed", noteNow)
    case _ => []
  }

  function NoteToAssignee(id: string, item: WorkItem, kind: N.Kind, text: string, noteNow: int): seq<Write> {
    match item.assignedToUserID
    case None => []
    case Some(user) => [SendNote(user, id, kind, item.referenceCode + text, noteNow)]
  }

  function MoveWrites(item: WorkItem, q: MoveRequest, now: int, noteNow: int): seq<Write> {
    var moved := item.(status := q.toStatus, updatedAt := now);
    [PutItem(moved),
     AddStatus(StatusEntry(q.id, Some(item.status), q.toStatus, q.actor, Clean(q.reason), now))]
    + NotesForStatus(q.id, moved, noteNow)
  }

  function MovePlan(s: Stores, authority: Option<TeamModel.TeamState>, q: MoveRequest, now: int, noteNow: int)
    : Result<seq<Write>, Error>
  {
    if Blank(q.id) || Blank(q.actor) then Err(InvalidInput)
    else if !q.toStatus.IsValid() then Err(InvalidStatus)
    else if q.toStatus == Flagged && Clean(q.reason).None? then Err(FeedbackRequired)
    else if q.id !in s.items.byID then Err(NotFound)
    else
      match MoveRefused(authority, q, s.items.byID[q.id])
      case Some(e) => Err(e)
      case None => Ok(MoveWrites(s.items.byID[q.id], q, now, noteNow))
  }

  // ----- Assigning -----

  datatype AssignRequest = AssignRequest(
    id: string, assigner: string, isAdmin: bool, isSupervisor: bool, target: string)

  predicate MayAssign(authority: Option<TeamModel.TeamState>, q: AssignRequest, item: WorkItem) {
    || q.isAdmin
    || (&& q.isSupervisor
        && SupervisorMayActOn(authority, q.assigner, item)
        && authority.Some?
        && TeamModel.IsActiveSupervisorOf(authority.value, q.assigner, TrimSpace(q.target)))
  }

  function AssignWrites(item: WorkItem, q: AssignRequest, now: int, noteNow: int): seq<Write> {
    var target := TrimSpace(q.target);
    [PutItem(item.(status := Assigned, assignedToUserID := Some(target), updatedAt := now)),
     AddStatus(StatusEntry(q.id, Some(item.status), Assigned, q.assigner, None, now)),
     NewAssignment(Assignment(q.id, q.assigner, target, Pending, now, None, None)),
     AddEvent(AssignmentEvent(q.id, Pending, q.assigner, target, None, now)),
     SendNote(target, q.id, N.AssignmentCreated, item.referenceCode + " was assigned to you", noteNow)]
  }

  function AssignPlan(s: Stores, authority: Option<TeamModel.TeamState>, q: AssignRequest, now: int, noteNow: int)
    : Result<seq<Write>, Error>
  {
    if Blank(q.id) || Blank(q.assigner) || Blank(q.target) then Err(InvalidInput)
    else if q.id !in s.items.byID then Err(NotFound)
    else
      var item := s.items.byID[q.id];
      if !MayAssign(authority, q, item) then Err(NotFound)
      else if !IsValidTransition(item.status, Assigned) then Err(InvalidTransition)
      else Ok(AssignWrites(item, q, now, noteNow))
  }

  // ----- Responding -----

  datatype RespondRequest = RespondRequest(
    id: string, user: string, isRequester: bool, accept: bool, note: Option<string>)

  function AnsweredRow(row: Stored<Assignment>, q: RespondRequest, now: int): Stored<Assignment> {
    row.(value := row.value.(
      status := if q.accept then Taken else Declined, respondedAt := Some(now), responseNote := Clean(q.note)))
  }

  function RespondWrites(
    item: WorkItem, row: Stored<Assignment>, q: RespondRequest, now: int, noteNow: int)
    : seq<Write>
  {
    var a := row.value;
    var toStatus := if q.accept then Accepted else Created;
    var answer := if q.accept then Taken else Declined;
    var assignee := if q.accept then item.assignedToUserID else None;
    [PutItem(item.(status := toStatus, assignedToUserID := assignee, updatedAt := now)),
     AddStatus(StatusEntry(q.id, Some(item.status), toStatus, q.user, Clean(q.note), now)),
     PutAssignment(AnsweredRow(row, q, now)),
     AddEvent(AssignmentEvent(q.id, answer, q.user, a.assignedToUserID, Clean(q.note), now))]
    + (if q.accept then
         [SendNote(a.assignedByUserID, q.id, N.AssignmentAccepted,
                   item.referenceCode + " was accepted by the assignee", noteNow)]
       else [])
  }

  function RespondPlan(s: Stores, q: RespondRequest, now: int, noteNow: int): Result<seq<Write>, Error> {
    if Blank(q.id) || Blank(q.user) then Err(InvalidInput)
    else if q.isRequester then Err(NotFound)
    else if q.id !in s.items.byID then Err(NotFound)
    else if q.id !in s.assignments.byWorkItem then Err(AssignmentNotFound)
    else
      var item, row := s.items.byID[q.id], s.assignments.byWorkItem[q.id];
      if row.value.assignedToUserID != q.user then Err(AssignmentNotOwned)
      else if row.value.status != Pending then Err(AssignmentNotPending)
      else if !IsValidTransition(item.status, if q.accept then Accepted else Created) then Err(InvalidTransition)
      else Ok(RespondWrites(item, row, q, now, noteNow))
  }

  // ----- Reading -----

  function NewestFirst(item: WorkItem): int { -item.createdAt }

  /** Every item in creation order. */
  function AllItems(t: ItemTable): seq<WorkItem>
    requires forall i :: 0 <= i < |t.ordered| ==> t.ordered[i] in t.byID
  {
    seq(|t.ordered|, i requires 0 <= i < |t.ordered| => t.byID[t.ordered[i]])
  }

  predicate Listable(t: ItemTable) {
    forall i :: 0 <= i < |t.ordered| ==> t.ordered[i] in t.byID
  }

  function ListItems(t: ItemTable): seq<WorkItem>
    requires Listable(t)
  {
    StableSort(AllItems(t), NewestFirst)
  }

  function AssignedTo(user: string): WorkItem -> bool {
    (item: WorkItem) => item.assignedToUserID == Some(user)
  }

  function CreatedBy(user: string): WorkItem -> bool {
    (item: WorkItem) => item.createdByUserID == user
  }

  datatype Caller = Caller(user: string, isAdmin: bool, isSupervisor: bool, isRequester: bool)

  /** The loop of `listForSupervisor`: on a supervised user's plate, or the
      caller's own and on nobody's. */
  function OnSupervisorsBoard(supervised: seq<string>, caller: string): WorkItem -> bool {
    (item: WorkItem) =>
      match item.assignedToUserID
      case Some(user) => user in supervised
      case None => item.createdByUserID == caller
  }

  function Supervised(authority: Option<TeamModel.TeamState>, caller: string): seq<string> {
    match authority
    case None => []
    case Some(ts) => TeamModel.SupervisedAssigneeUserIDs(ts, caller)
  }

  function List(s: Stores, authority: Option<TeamModel.TeamState>, c: Caller): Result<seq<WorkItem>, Error>
    requires Listable(s.items)
  {
    if c.isAdmin then Ok(ListItems(s.items))
    else if Blank(c.user) then Err(InvalidInput)
    else if c.isSupervisor then
      Ok(Filter(ListItems(s.items), OnSupervisorsBoard(Supervised(authority, c.user), c.user)))
    else if c.isRequester then Ok(StableSort(Filter(AllItems(s.items), CreatedBy(c.user)), NewestFirst))
    else Ok(StableSort(Filter(AllItems(s.items), AssignedTo(c.user)), NewestFirst))
  }

  function GetByID(s: Stores, authority: Option<TeamModel.TeamState>, id: string, c: Caller): Result<WorkItem, Error> {
    if Blank(id) then Err(InvalidInput)
    else if id !in s.items.byID then Err(NotFound)
    else
      var item := s.items.byID[id];
      if c.isAdmin then Ok(item)
      else if c.isSupervisor then
        if SupervisorMayActOn(authority, c.user, item) then Ok(item) else Err(NotFound)
      else if c.isRequester then
        if item.createdByUserID == c.user then Ok(item) else Err(NotFound)
      else if item.assignedToUserID == Some(c.user) then Ok(item) else Err(NotFound)
  }

  /** The rule of the history endpoints. They are not told about requesters. */
  predicate MayView(authority: Option<TeamModel.TeamState>, item: WorkItem, c: Caller) {
    || c.isAdmin
    || (if c.isSupervisor then SupervisorMayActOn(authority, c.user, item) else item.assignedToUserID == Some(c.user))
  }

  /** The item, for a caller whom the history endpoints let at it. */
  function ViewedItem(s: Stores, authority: Option<TeamModel.TeamState>, id: string, c: Caller)
    : Result<WorkItem, Error>
  {
    if Blank(id) then Err(InvalidInput)
    else if id !in s.items.byID then Err(NotFound)
    else if MayView(authority, s.items.byID[id], c) then Ok(s.items.byID[id])
    else Err(NotFound)
  }

  function ListStatusHistory(s: Stores, authority: Option<TeamModel.TeamState>, id: string, c: Caller)
    : Result<seq<Stored<StatusEntry>>, Error>
  {
    match ViewedItem(s, authority, id, c)
    case Err(e) => Err(e)
    case Ok(_) => Ok(ListStatusRows(s.statusLog, id))
  }

  function ListAssignmentHistory(s: Stores, authority: Option<TeamModel.TeamState>, id: string, c: Caller)
    : Result<seq<Stored<AssignmentEvent>>, Error>
  {
    match ViewedItem(s, authority, id, c)
    case Err(e) => Err(e)
    case Ok(_) => Ok(ListEventRows(s.eventLog, id))
  }

  function GetAssignment(s: Stores, authority: Option<TeamModel.TeamState>, id: string, c: Caller)
    : Result<Stored<Assignment>, Error>
  {
    match ViewedItem(s, authority, id, c)
    case Err(e) => Err(e)
    case Ok(_) =>
      if id in s.assignments.byWorkItem then Ok(s.assignments.byWorkItem[id]) else Err(AssignmentNotFound)
  }

  function StatusTime(row: Stored<StatusEntry>): int { row.value.createdAt }

  function EventTime(row: Stored<AssignmentEvent>): int { row.value.createdAt }

  function StatusRowsOf(id: string): Stored<StatusEntry> -> bool {
    (row: Stored<StatusEntry>) => row.value.workItemID == id
  }

  function EventRowsOf(id: string): Stored<AssignmentEvent> -> bool {
    (row: Stored<AssignmentEvent>) => row.value.workItemID == id
  }

  /** The history views: one item's rows, oldest first. */
  function ListStatusRows(log: Log<StatusEntry>, id: string): seq<Stored<StatusEntry>> {
    StableSort(Filter(log.rows, StatusRowsOf(id)), StatusTime)
  }

  function ListEventRows(log: Log<AssignmentEvent>, id: string): seq<Stored<AssignmentEvent>> {
    StableSort(Filter(log.rows, EventRowsOf(id)), EventTime)
  }
}
