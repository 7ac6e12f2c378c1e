/** Where every row comes from: after any run the two audit logs and the
    notifications are, entry for entry, what the permitted calls of the run put
    there, so that each has a caller who was entitled to it. */
module Provenance {
  import opened Wrappers
  import opened Text
  import opened Records
  import opened WorkItemTypes
  import opened WorkItemModel
  import opened Trails
  import opened WorkItemRuns
  import opened WorkItemTheorems
  import opened Permissions
  import TeamModel
  import N = NotificationModel

  // ----- Permitted calls -----

  ghost predicate MovePermitted(w: World, q: MoveRequest) {
    && MoveWellFormed(q) && q.id in w.stores.items.byID
    && MayMove(Authority(w), q, w.stores.items.byID[q.id]) && MoveFits(q, w.stores.items.byID[q.id])
  }

  ghost predicate AssignPermitted(w: World, q: AssignRequest) {
    && AssignWellFormed(q) && q.id in w.stores.items.byID
    && MayHandOver(Authority(w), q, w.stores.items.byID[q.id]) && w.stores.items.byID[q.id].status == Created
  }

  predicate RespondPermitted(w: World, q: RespondRequest) {
    && RespondWellFormed(q) && Holds(w.stores, q)
    && w.stores.assignments.byWorkItem[q.id].value.status == Pending
    && w.stores.items.byID[q.id].status == Assigned
  }

  predicate EditPermitted(w: World, q: UpdateRequest) {
    && !Blank(q.id) && q.id in w.stores.items.byID
    && MayEdit(q, w.stores.items.byID[q.id]) && PatchWellFormed(q.input)
  }

  ghost predicate Permitted(w: World, c: Command) {
    match c
    case MoveItem(q, _, _) => MovePermitted(w, q)
    case AssignItem(q, _, _) => AssignPermitted(w, q)
    case RespondItem(q, _, _) => RespondPermitted(w, q)
    case EditItem(q, _) => EditPermitted(w, q)
    case _ => true
  }

  lemma PlannedIffPermitted(w: World, c: Command)
    requires WorldInv(w)
    ensures PlanOf(w, c).Ok? <==> Permitted(w, c)
  {
    hide MovePlan, AssignPlan, RespondPlan, UpdatePlan, StoresInv;
    match c
    case MoveItem(q, at, noteAt) => MoveAcceptedIff(w.stores, Authority(w), q, at, noteAt);
    case AssignItem(q, at, noteAt) => AssignAcceptedIff(w.stores, Authority(w), q, at, noteAt);
    case RespondItem(q, at, noteAt) => RespondAcceptedIff(w.stores, q, at, noteAt);
    case EditItem(q, at) => UpdateAcceptedIff(w.stores, Authority(w), q, at);
    case _ =>
  }

  // ----- What a permitted call records -----

  /** The note or reason on record: trimmed, and none if nothing is left. */
  function Kept(given: Option<string>): Option<string> {
    match given
    case None => None
    case Some(text) => if TrimSpace(text) == "" then None else Some(TrimSpace(text))
  }

  /** The status row of a permitted call. */
  ghost function StatusMade(w: World, c: Command): seq<StatusEntry> {
    if !Permitted(w, c) then []
    else
      match c
      case MoveItem(q, at, _) =>
        [StatusEntry(q.id, Some(w.stores.items.byID[q.id].status), q.toStatus, q.actor, Kept(q.reason), at)]
      case AssignItem(q, at, _) => [StatusEntry(q.id, Some(Created), Assigned, q.assigner, None, at)]
      case RespondItem(q, at, _) =>
        [StatusEntry(q.id, Some(Assigned), if q.accept then Accepted else Created, q.user, Kept(q.note), at)]
      case _ => []
  }

  /** The assignment event of a permitted call. */
  ghost function EventMade(w: World, c: Command): seq<AssignmentEvent> {
    if !Permitted(w, c) then []
    else
      match c
      case AssignItem(q, at, _) =>
        [AssignmentEvent(q.id, Pending, q.assigner, TrimSpace(q.target), None, at)]
      case RespondItem(q, at, _) =>
        [AssignmentEvent(q.id, if q.accept then Taken else Declined, q.user, q.user, Kept(q.note), at)]
      case _ => []
  }

  /** What an assignee is told when their item reaches a status. */
  function ToHolderOf(item: WorkItem, kind: N.Kind, text: string, at: int): seq<N.Notification> {
    match item.assignedToUserID
    case None => []
    case Some(user) => [N.Notification(user, item.id, kind, item.referenceCode + text, None, at)]
  }

  /** The notification of a permitted call, unread. */
  ghost function NoteMade(w: World, c: Command): seq<N.Notification> {
    if !Permitted(w, c) then []
    else
      match c
      case MoveItem(q, _, at) =>
        var item := w.stores.items.byID[q.id];
        (match q.toStatus
         case SubmittedForReview =>
           [N.Notification(TrimSpace(item.createdByUserID), q.id, N.EvidenceSubmitted,
                           item.referenceCode + " was submitted for review", None, at)]
         case Flagged => ToHolderOf(item, N.WorkFlagged, " was flagged and needs rework", at)
         case Verified => ToHolderOf(item, N.WorkVerified, " was verified", at)
         case Completed => ToHolderOf(item, N.WorkCompleted, " was marked completed", at)
         case _ => [])
      case AssignItem(q, _, at) =>
        [N.Notification(TrimSpace(q.target), q.id, N.AssignmentCreated,
                        w.stores.items.byID[q.id].referenceCode + " was assigned to you", None, at)]
      case RespondItem(q, _, at) =>
        if q.accept then
          [N.Notification(TrimSpace(w.stores.assignments.byWorkItem[q.id].value.assignedByUserID), q.id,
                          N.AssignmentAccepted,
                          w.stores.items.byID[q.id].referenceCode + " was accepted by the assignee", None, at)]
        else []
      case _ => []
  }

  // ----- What a list of writes records -----

  function StatusWrites(ws: seq<Write>): seq<StatusEntry> {
    if ws == [] then []
    else (if ws[0].AddStatus? then [ws[0].entry] else []) + StatusWrites(ws[1..])
  }

  function EventWrites(ws: seq<Write>): seq<AssignmentEvent> {
    if ws == [] then []
    else (if ws[0].AddEvent? then [ws[0].event] else []) + EventWrites(ws[1..])
  }

  function AsStored(w: Write): N.Notification
    requires w.SendNote?
  {
    N.Notification(TrimSpace(w.recipient), TrimSpace(w.workItemID), w.kind, TrimSpace(w.message), None, w.at)
  }

  function NoteWrites(ws: seq<Write>): seq<N.Notification> {
    if ws == [] then []
    else (if ws[0].SendNote? then [AsStored(ws[0])] else []) + NoteWrites(ws[1..])
  }

  lemma ConsWrite(w: Write, rest: seq<Write>)
    ensures StatusWrites([w] + rest) == (if w.AddStatus? then [w.entry] else []) + StatusWrites(rest)
    ensures EventWrites([w] + rest) == (if w.AddEvent? then [w.event] else []) + EventWrites(rest)
    ensures NoteWrites([w] + rest) == (if w.SendNote? then [AsStored(w)] else []) + NoteWrites(rest)
  {
    hide TrimSpace;
    assert ([w] + rest)[1..] == rest;
  }

  /** An item write and a status row come first in every call. */
  lemma FirstTwo(a: Write, b: Write, rest: seq<Write>)
    requires a.PutItem? && b.AddStatus?
    ensures StatusWrites([a, b] + rest) == [b.entry] + StatusWrites(rest)
    ensures EventWrites([a, b] + rest) == EventWrites(rest) && NoteWrites([a, b] + rest) == NoteWrites(rest)
  {
    hide TrimSpace, StatusWrites, EventWrites, NoteWrites;
    ConsWrite(a, [b] + rest);
    ConsWrite(b, rest);
    assert [a, b] + rest == [a] + ([b] + rest);
  }

  /** Then, for an assignment or an answer, the assignment row and the event. */
  lemma NextTwo(a: Write, b: Write, rest: seq<Write>)
    requires (a.NewAssignment? || a.PutAssignment?) && b.AddEvent?
    ensures EventWrites([a, b] + rest) == [b.event] + EventWrites(rest)
    ensures StatusWrites([a, b] + rest) == StatusWrites(rest) && NoteWrites([a, b] + rest) == NoteWrites(rest)
  {
    hide TrimSpace, StatusWrites, EventWrites, NoteWrites;
    ConsWrite(a, [b] + rest);
    ConsWrite(b, rest);
    assert [a, b] + rest == [a] + ([b] + rest);
  }

  lemma OneWrite(w: Write)
    ensures StatusWrites([w]) == if w.AddStatus? then [w.entry] else []
    ensures EventWrites([w]) == if w.AddEvent? then [w.event] else []
    ensures NoteWrites([w]) == if w.SendNote? then [AsStored(w)] else []
  {
    hide TrimSpace;
    assert [w][1..] == [];
  }

  /** The notifications as sent, whether read or not. */
  function AsSent(rows: seq<Stored<N.Notification>>): seq<N.Notification> {
    seq(|rows|, i requires 0 <= i < |rows| => rows[i].value.(readAt := None))
  }

  lemma {:induction false} ExecAllRecords(s: Stores, ws: seq<Write>)
    requires ExecAll(s, ws).1.None?
    ensures Values(ExecAll(s, ws).0.statusLog.rows) == Values(s.statusLog.rows) + StatusWrites(ws)
    ensures Values(ExecAll(s, ws).0.eventLog.rows) == Values(s.eventLog.rows) + EventWrites(ws)
    ensures s.sink.Some? ==>
              AsSent(SinkRows(ExecAll(s, ws).0)) == AsSent(SinkRows(s)) + NoteWrites(ws)
    decreases |ws|
  {
    hide Numbered, TrimSpace;
    if ws != [] {
      var s' := Exec(s, ws[0]).value;
      ExecAllRecords(s', ws[1..]);
      ExecRecords(s, ws[0]);
      OneWrite(ws[0]);
    }
  }

  lemma ExecRecords(s: Stores, w: Write)
    requires Exec(s, w).Ok?
    ensures Values(Exec(s, w).value.statusLog.rows) == Values(s.statusLog.rows) + StatusWrites([w])
    ensures Values(Exec(s, w).value.eventLog.rows) == Values(s.eventLog.rows) + EventWrites([w])
    ensures s.sink.Some? ==> AsSent(SinkRows(Exec(s, w).value)) == AsSent(SinkRows(s)) + NoteWrites([w])
    ensures s.sink.Some? == Exec(s, w).value.sink.Some?
  {
    hide Numbered, TrimSpace;
    OneWrite(w);
  }

  // ----- The three calls -----

  /** Stored references start with a letter and these texts end with one, so
      trimming the message changes nothing. */
  lemma MessageIsTrimmed(item: WorkItem, text: string)
    requires ItemOk(item) && text != "" && !IsSpace(text[|text| - 1])
    ensures Trimmed(item.referenceCode + text)
  {
    hide TrimSpace;
    var n: nat :| item.id == ItemID(n) && item.referenceCode == ReferenceCode(n);
    assert (item.referenceCode + text)[0] == 'W';
    TightIsTrimmed(item.referenceCode + text);
  }

  lemma NoteReads(item: WorkItem, recipient: string, kind: N.Kind, text: string, at: int)
    requires ItemOk(item) && text != "" && !IsSpace(text[|text| - 1])
    ensures NoteWrites([SendNote(recipient, item.id, kind, item.referenceCode + text, at)]) ==
            [N.Notification(TrimSpace(recipient), item.id, kind, item.referenceCode + text, None, at)]
  {
    hide TrimSpace, IsSpace;
    OneWrite(SendNote(recipient, item.id, kind, item.referenceCode + text, at));
    ItemIdIsTight(item);
    MessageIsTrimmed(item, text);
  }

  lemma HolderNoteReads(item: WorkItem, kind: N.Kind, text: string, at: int)
    requires ItemOk(item) && (item.assignedToUserID.Some? ==> Trimmed(item.assignedToUserID.value))
    requires text != "" && !IsSpace(text[|text| - 1])
    ensures var notes := NoteToAssignee(item.id, item, kind, text, at);
            && StatusWrites(notes) == [] && EventWrites(notes) == []
            && NoteWrites(notes) == ToHolderOf(item, kind, text, at)
  {
    NothingWritten();
    hide TrimSpace, ItemOk, IsSpace, StatusWrites, EventWrites, NoteWrites;
    if item.assignedToUserID.Some? {
      var user := item.assignedToUserID.value;
      OneWrite(SendNote(user, item.id, kind, item.referenceCode + text, at));
      NoteReads(item, user, kind, text, at);
    }
  }

  lemma StatusNotesRead(item: WorkItem, at: int)
    requires ItemOk(item) && (item.assignedToUserID.Some? ==> Trimmed(item.assignedToUserID.value))
    ensures StatusWrites(NotesForStatus(item.id, item, at)) == []
    ensures EventWrites(NotesForStatus(item.id, item, at)) == []
    ensures NoteWrites(NotesForStatus(item.id, item, at)) ==
            match item.status
            case SubmittedForReview =>
              [N.Notification(TrimSpace(item.createdByUserID), item.id, N.EvidenceSubmitted,
                              item.referenceCode + " was submitted for review", None, at)]
            case Flagged => ToHolderOf(item, N.WorkFlagged, " was flagged and needs rework", at)
            case Verified => ToHolderOf(item, N.WorkVerified, " was verified", at)
            case Completed => ToHolderOf(item, N.WorkCompleted, " was marked completed", at)
            case _ => []
  {
    NothingWritten();
    hide TrimSpace, ItemOk, StatusWrites, EventWrites, NoteWrites, NoteToAssignee, ToHolderOf;
    match item.status
    case SubmittedForReview =>
      OneWrite(SendNote(item.createdByUserID, item.id, N.EvidenceSubmitted,
                        item.referenceCode + " was submitted for review", at));
      NoteReads(item, item.createdByUserID, N.EvidenceSubmitted, " was submitted for review", at);
    case Flagged => HolderNoteReads(item, N.WorkFlagged, " was flagged and needs rework", at);
    case Verified => HolderNoteReads(item, N.WorkVerified, " was verified", at);
    case Completed => HolderNoteReads(item, N.WorkCompleted, " was marked completed", at);
    case _ =>
  }

  lemma MoveRecords(w: World, c: Command)
    requires c.MoveItem? && Permitted(w, c) && Sane(w.stores, c.move.id)
    ensures var ws := MoveWrites(w.stores.items.byID[c.move.id], c.move, c.at, c.noteAt);
            && StatusWrites(ws) == StatusMade(w, c) && EventWrites(ws) == EventMade(w, c)
            && NoteWrites(ws) == NoteMade(w, c)
  {
    hide TrimSpace, MovePermitted, NotesForStatus, StatusWrites, EventWrites, NoteWrites;
    var (q, item) := (c.move, w.stores.items.byID[c.move.id]);
    var moved := item.(status := q.toStatus, updatedAt := c.at);
    var (ws, notes) := (MoveWrites(item, q, c.at, c.noteAt), NotesForStatus(q.id, moved, c.noteAt));
    FirstTwo(ws[0], ws[1], notes);
    MovedItemOk(item, moved);
    StatusNotesRead(moved, c.noteAt);
  }

  lemma AssignWritesRecord(item: WorkItem, q: AssignRequest, now: int, noteNow: int)
    requires ItemOk(item) && item.id == q.id
    ensures var ws := AssignWrites(item, q, now, noteNow);
            && StatusWrites(ws) == [StatusEntry(q.id, Some(item.status), Assigned, q.assigner, None, now)]
            && EventWrites(ws) == [AssignmentEvent(q.id, Pending, q.assigner, TrimSpace(q.target), None, now)]
            && NoteWrites(ws) == [N.Notification(TrimSpace(q.target), q.id, N.AssignmentCreated,
                                                 item.referenceCode + " was assigned to you", None, noteNow)]
  {
    TrimIdempotent(q.target);
    hide TrimSpace, ItemOk, StatusWrites, EventWrites, NoteWrites;
    var ws := AssignWrites(item, q, now, noteNow);
    assert ws == [ws[0], ws[1]] + ([ws[2], ws[3]] + [ws[4]]);
    FirstTwo(ws[0], ws[1], [ws[2], ws[3]] + [ws[4]]);
    NextTwo(ws[2], ws[3], [ws[4]]);
    OneWrite(ws[4]);
    NoteReads(item, TrimSpace(q.target), N.AssignmentCreated, " was assigned to you", noteNow);
  }

  lemma AssignRecords(w: World, c: Command)
    requires c.AssignItem? && Permitted(w, c) && Sane(w.stores, c.assign.id)
    ensures var ws := AssignWrites(w.stores.items.byID[c.assign.id], c.assign, c.at, c.noteAt);
            && StatusWrites(ws) == StatusMade(w, c) && EventWrites(ws) == EventMade(w, c)
            && NoteWrites(ws) == NoteMade(w, c)
  {
    hide TrimSpace, ItemOk, StatusWrites, EventWrites, NoteWrites, AssignWrites;
    AssignWritesRecord(w.stores.items.byID[c.assign.id], c.assign, c.at, c.noteAt);
  }

  lemma RespondWritesRecord(item: WorkItem, row: Stored<Assignment>, q: RespondRequest, now: int, noteNow: int)
    requires ItemOk(item) && item.id == q.id
    ensures var ws := RespondWrites(item, row, q, now, noteNow);
            var (to, answer) := if q.accept then (Accepted, Taken) else (Created, Declined);
            && StatusWrites(ws) == [StatusEntry(q.id, Some(item.status), to, q.user, Clean(q.note), now)]
            && EventWrites(ws) ==
                 [AssignmentEvent(q.id, answer, q.user, row.value.assignedToUserID, Clean(q.note), now)]
            && NoteWrites(ws) ==
                 if q.accept then
                   [N.Notification(TrimSpace(row.value.assignedByUserID), q.id, N.AssignmentAccepted,
                                   item.referenceCode + " was accepted by the assignee", None, noteNow)]
                 else []
  {
    NothingWritten();
    hide TrimSpace, ItemOk, Clean, StatusWrites, EventWrites, NoteWrites;
    var ws := RespondWrites(item, row, q, now, noteNow);
    assert ws == [ws[0], ws[1]] + ([ws[2], ws[3]] + ws[4..]);
    FirstTwo(ws[0], ws[1], [ws[2], ws[3]] + ws[4..]);
    NextTwo(ws[2], ws[3], ws[4..]);
    if q.accept {
      assert ws[4..] == [ws[4]];
      OneWrite(ws[4]);
      NoteReads(item, row.value.assignedByUserID, N.AssignmentAccepted, " was accepted by the assignee", noteNow);
    } else {
      assert ws[4..] == [];
    }
  }

  lemma NothingWritten()
    ensures StatusWrites([]) == [] && EventWrites([]) == [] && NoteWrites([]) == []
  {
  }

  lemma RespondRecords(w: World, c: Command)
    requires c.RespondItem? && Permitted(w, c) && Sane(w.stores, c.respond.id)
    ensures var (q, s) := (c.respond, w.stores);
            var ws := RespondWrites(s.items.byID[q.id], s.assignments.byWorkItem[q.id], q, c.at, c.noteAt);
            && StatusWrites(ws) == StatusMade(w, c) && EventWrites(ws) == EventMade(w, c)
            && NoteWrites(ws) == NoteMade(w, c)
  {
    hide TrimSpace, ItemOk, StatusWrites, EventWrites, NoteWrites, RespondWrites;
    var (q, s) := (c.respond, w.stores);
    RespondWritesRecord(s.items.byID[q.id], s.assignments.byWorkItem[q.id], q, c.at, c.noteAt);
  }

  // ----- The logs of a run -----

  ghost predicate Adds(w: World, c: Command, w': World) {
    && Values(w'.stores.statusLog.rows) == Values(w.stores.statusLog.rows) + StatusMade(w, c)
    && Values(w'.stores.eventLog.rows) == Values(w.stores.eventLog.rows) + EventMade(w, c)
    && (w.stores.sink.Some? ==> AsSent(SinkRows(w'.stores)) == AsSent(SinkRows(w.stores)) + NoteMade(w, c))
  }

  lemma PerformAdds(w: World, c: Command, ws: seq<Write>, w': World)
    requires ExecAll(w.stores, ws).1.None? && w'.stores == ExecAll(w.stores, ws).0
    requires StatusWrites(ws) == StatusMade(w, c) && EventWrites(ws) == EventMade(w, c)
    requires NoteWrites(ws) == NoteMade(w, c)
    ensures Adds(w, c, w')
  {
    hide TrimSpace, StatusWrites, EventWrites, NoteWrites, StatusMade, EventMade, NoteMade, ExecAll;
    ExecAllRecords(w.stores, ws);
  }

  lemma NothingAdded(w: World, c: Command, w': World)
    requires StatusMade(w, c) == [] && EventMade(w, c) == [] && NoteMade(w, c) == []
    requires w'.stores.statusLog == w.stores.statusLog && w'.stores.eventLog == w.stores.eventLog
    requires AsSent(SinkRows(w'.stores)) == AsSent(SinkRows(w.stores))
    ensures Adds(w, c, w')
  {
    hide StatusMade, EventMade, NoteMade;
    assert Values(w.stores.statusLog.rows) + [] == Values(w.stores.statusLog.rows);
    assert Values(w.stores.eventLog.rows) + [] == Values(w.stores.eventLog.rows);
    assert AsSent(SinkRows(w.stores)) + [] == AsSent(SinkRows(w.stores));
  }

  lemma MovePlanReads(s: Stores, authority: Option<TeamModel.TeamState>, q: MoveRequest, now: int, noteNow: int)
    requires MovePlan(s, authority, q, now, noteNow).Ok?
    ensures q.id in s.items.byID
    ensures MovePlan(s, authority, q, now, noteNow).value == MoveWrites(s.items.byID[q.id], q, now, noteNow)
  {
    hide TrimSpace, MoveRefused, MoveWrites;
  }

  lemma AssignPlanReads(s: Stores, authority: Option<TeamModel.TeamState>, q: AssignRequest, now: int, noteNow: int)
    requires AssignPlan(s, authority, q, now, noteNow).Ok?
    ensures q.id in s.items.byID
    ensures AssignPlan(s, authority, q, now, noteNow).value == AssignWrites(s.items.byID[q.id], q, now, noteNow)
  {
    hide TrimSpace, MayAssign, AssignWrites;
  }

  lemma RespondPlanReads(s: Stores, q: RespondRequest, now: int, noteNow: int)
    requires RespondPlan(s, q, now, noteNow).Ok?
    ensures q.id in s.items.byID && q.id in s.assignments.byWorkItem
    ensures RespondPlan(s, q, now, noteNow).value ==
            RespondWrites(s.items.byID[q.id], s.assignments.byWorkItem[q.id], q, now, noteNow)
  {
    hide TrimSpace, RespondWrites;
  }

  lemma EditPlanReads(s: Stores, authority: Option<TeamModel.TeamState>, q: UpdateRequest, now: int)
    requires UpdatePlan(s, authority, q, now).Ok?
    ensures q.id in s.items.byID && Edited(s.items.byID[q.id], q.input, now).Ok?
    ensures UpdatePlan(s, authority, q, now).value == [PutItem(Edited(s.items.byID[q.id], q.input, now).value)]
  {
    hide TrimSpace, Edited;
  }

  /** The item a permitted call is about is there and in order. */
  lemma SaneSubject(w: World, c: Command)
    requires (c.MoveItem? || c.AssignItem? || c.RespondItem?) && WorldInv(w) && Permitted(w, c)
    ensures c.MoveItem? ==> Sane(w.stores, c.move.id)
    ensures c.AssignItem? ==> Sane(w.stores, c.assign.id)
    ensures c.RespondItem? ==> Sane(w.stores, c.respond.id)
  {
    hide StoresInv, Sane, MayMove, MayHandOver;
    match c
    case MoveItem(q, _, _) => LawfulIsSane(w.stores, q.id);
    case AssignItem(q, _, _) => LawfulIsSane(w.stores, q.id);
    case RespondItem(q, _, _) => LawfulIsSane(w.stores, q.id);
    case _ =>
  }

  /** Its plan records what the call stands for. */
  lemma PlanRecords(w: World, c: Command)
    requires (c.MoveItem? || c.AssignItem? || c.RespondItem?) && PlanOf(w, c).Ok? && Permitted(w, c)
    requires c.MoveItem? ==> Sane(w.stores, c.move.id)
    requires c.AssignItem? ==> Sane(w.stores, c.assign.id)
    requires c.RespondItem? ==> Sane(w.stores, c.respond.id)
    ensures var ws := PlanOf(w, c).value;
            && StatusWrites(ws) == StatusMade(w, c) && EventWrites(ws) == EventMade(w, c)
            && NoteWrites(ws) == NoteMade(w, c)
  {
    hide TrimSpace, Permitted, Sane, StatusMade, EventMade, NoteMade, StatusWrites, EventWrites, NoteWrites;
    hide MoveWrites, AssignWrites, RespondWrites, MovePlan, AssignPlan, RespondPlan;
    match c
    case MoveItem(q, at, noteAt) =>
      MovePlanReads(w.stores, Authority(w), q, at, noteAt);
      MoveRecords(w, c);
    case AssignItem(q, at, noteAt) =>
      AssignPlanReads(w.stores, Authority(w), q, at, noteAt);
      AssignRecords(w, c);
    case RespondItem(q, at, noteAt) =>
      RespondPlanReads(w.stores, q, at, noteAt);
      RespondRecords(w, c);
    case _ =>
  }

  lemma CallAdds(w: World, c: Command)
    requires (c.MoveItem? || c.AssignItem? || c.RespondItem?) && WorldInv(w) && Permitted(w, c)
    ensures Adds(w, c, Step(w, c))
  {
    hide StoresInv, Sane, Permitted, PlanOf, Adds, ExecAll;
    hide StatusMade, EventMade, NoteMade, StatusWrites, EventWrites, NoteWrites;
    PlannedIffPermitted(w, c);
    PlansSucceed(w, c);
    SaneSubject(w, c);
    PlanRecords(w, c);
    PerformAdds(w, c, PlanOf(w, c).value, Step(w, c));
  }

  lemma EditAdds(w: World, c: Command)
    requires c.EditItem? && WorldInv(w) && Permitted(w, c)
    ensures Adds(w, c, Step(w, c))
  {
    PlannedIffPermitted(w, c);
    PlansSucceed(w, c);
    hide TrimSpace, StoresInv, Adds, Permitted, ExecAll, UpdatePlan, StatusWrites, EventWrites, NoteWrites;
    EditPlanReads(w.stores, Authority(w), c.edit, c.at);
    var ws := PlanOf(w, c).value;
    OneWrite(ws[0]);
    PerformAdds(w, c, ws, Step(w, c));
  }

  lemma RefusedAdds(w: World, c: Command)
    requires WorldInv(w) && !Permitted(w, c)
    ensures Adds(w, c, Step(w, c)) && Step(w, c) == w
  {
    PlannedIffPermitted(w, c);
    hide TrimSpace, StoresInv, Permitted;
    NothingAdded(w, c, Step(w, c));
  }

  lemma ReadingAdds(w: World, c: Command)
    requires c.ReadNote?
    ensures Adds(w, c, Step(w, c))
  {
    hide TrimSpace;
    var (s, s') := (w.stores, Step(w, c).stores);
    assert |SinkRows(s')| == |SinkRows(s)|;
    assert forall i :: 0 <= i < |SinkRows(s)| ==> AsSent(SinkRows(s'))[i] == AsSent(SinkRows(s))[i];
    NothingAdded(w, c, Step(w, c));
  }

  lemma StepAdds(w: World, c: Command)
    requires WorldInv(w)
    ensures Adds(w, c, Step(w, c))
  {
    if !Permitted(w, c) {
      RefusedAdds(w, c);
    } else {
      match c
      case MoveItem(_, _, _) => CallAdds(w, c);
      case AssignItem(_, _, _) => CallAdds(w, c);
      case RespondItem(_, _, _) => CallAdds(w, c);
      case EditItem(_, _) => EditAdds(w, c);
      case ReadNote(_, _, _) => ReadingAdds(w, c);
      case CreateItem(_, _, _) => CreatingAdds(w, c);
      case ChangeTeams(_) => NothingAdded(w, c, Step(w, c));
    }
  }

  lemma CreatingAdds(w: World, c: Command)
    requires c.CreateItem?
    ensures Adds(w, c, Step(w, c))
  {
    hide TrimSpace;
    assert SinkRows(Step(w, c).stores) == SinkRows(w.stores);
    NothingAdded(w, c, Step(w, c));
  }

  /** What all the permitted calls of a run record, in order. */
  ghost function StatusesMade(w: World, cs: seq<Command>): seq<StatusEntry> {
    if cs == [] then []
    else StatusesMade(w, cs[..|cs| - 1]) + StatusMade(Run(w, cs[..|cs| - 1]), cs[|cs| - 1])
  }

  ghost function EventsMade(w: World, cs: seq<Command>): seq<AssignmentEvent> {
    if cs == [] then []
    else EventsMade(w, cs[..|cs| - 1]) + EventMade(Run(w, cs[..|cs| - 1]), cs[|cs| - 1])
  }

  ghost function NotesMade(w: World, cs: seq<Command>): seq<N.Notification> {
    if cs == [] then []
    else NotesMade(w, cs[..|cs| - 1]) + NoteMade(Run(w, cs[..|cs| - 1]), cs[|cs| - 1])
  }

  /** After every run both logs and the notifications, read or not, are exactly
      what the permitted calls of the run made, entry for entry and in order:
      nothing is missing, nothing is anyone else's, nothing is forged. */
  lemma {:induction false} RecordsAreThePermittedCalls(hasSink: bool, hasAuthority: bool, cs: seq<Command>)
    ensures var (start, s) := (Start(hasSink, hasAuthority), After(hasSink, hasAuthority, cs));
            && Values(s.statusLog.rows) == StatusesMade(start, cs)
            && Values(s.eventLog.rows) == EventsMade(start, cs)
            && (hasSink ==> AsSent(SinkRows(s)) == NotesMade(start, cs))
  {
    hide Permitted, StatusMade, EventMade, NoteMade, Step;
    if cs != [] {
      var init := cs[..|cs| - 1];
      RecordsAreThePermittedCalls(hasSink, hasAuthority, init);
      AfterOk(hasSink, hasAuthority, init);
      SinkStays(hasSink, hasAuthority, init);
      StepAdds(Run(Start(hasSink, hasAuthority), init), cs[|cs| - 1]);
    }
  }

  // ----- Reading -----

  lemma {:induction false} ExecAllExtendsSink(s: Stores, ws: seq<Write>)
    ensures SinkRows(s) <= SinkRows(ExecAll(s, ws).0)
    decreases |ws|
  {
    hide TrimSpace, Numbered;
    if ws != [] && Exec(s, ws[0]).Ok? {
      assert SinkRows(s) <= SinkRows(Exec(s, ws[0]).value);
      ExecAllExtendsSink(Exec(s, ws[0]).value, ws[1..]);
    }
  }

  /** The recipient's own first reading of this notification. */
  predicate MarkedBy(c: Command, row: Stored<N.Notification>, row': Stored<N.Notification>) {
    && c.ReadNote? && c.id == row.id && c.user == row.value.recipientUserID && row.value.readAt.None?
    && row' == row.(value := row.value.(readAt := Some(c.at)))
  }

  /** At every step of every run a notification stays as it is, but that its own
      recipient may mark it read, once. */
  lemma ReadMarksAreTheRecipients(w: World, c: Command, k: nat)
    requires k < |SinkRows(w.stores)|
    ensures var (rows, rows') := (SinkRows(w.stores), SinkRows(Step(w, c).stores));
            && k < |rows'|
            && (rows'[k] == rows[k] || MarkedBy(c, rows[k], rows'[k]))
  {
    hide TrimSpace, Numbered, MovePlan, AssignPlan, RespondPlan, UpdatePlan, ExecAll;
    match c
    case CreateItem(_, _, _) => assert SinkRows(Step(w, c).stores) == SinkRows(w.stores);
    case ReadNote(_, _, _) =>
    case ChangeTeams(_) =>
    case _ =>
      if PlanOf(w, c).Ok? {
        ExecAllExtendsSink(w.stores, PlanOf(w, c).value);
      }
  }

  // ----- Who did it -----

  /** The call number `n` of a run, and the world it met. */
  function Before(start: World, cs: seq<Command>, n: nat): World
    requires n <= |cs|
  {
    Run(start, cs[..n])
  }

  lemma {:induction false} StatusRowHasCall(start: World, cs: seq<Command>, e: StatusEntry) returns (n: nat)
    requires e in StatusesMade(start, cs)
    ensures n < |cs| && e in StatusMade(Before(start, cs, n), cs[n])
  {
    hide StatusMade, Run;
    var init := cs[..|cs| - 1];
    if e in StatusesMade(start, init) {
      n := StatusRowHasCall(start, init, e);
      assert cs[..n] == init[..n];
    } else {
      n := |init|;
    }
  }

  lemma {:induction false} EventHasCall(start: World, cs: seq<Command>, e: AssignmentEvent) returns (n: nat)
    requires e in EventsMade(start, cs)
    ensures n < |cs| && e in EventMade(Before(start, cs, n), cs[n])
  {
    hide EventMade, Run;
    var init := cs[..|cs| - 1];
    if e in EventsMade(start, init) {
      n := EventHasCall(start, init, e);
      assert cs[..n] == init[..n];
    } else {
      n := |init|;
    }
  }

  /** The call changed this item's status as recorded, and its caller was an
      administrator, or a supervisor in charge of the item at that moment. */
  ghost predicate MovedWithAuthority(w: World, c: Command, e: StatusEntry) {
    && c.MoveItem? && c.move.id == e.workItemID && c.move.actor == e.changedByUserID && c.move.toStatus == e.toStatus
    && c.move.id in w.stores.items.byID
    && (c.move.isAdmin
        || (c.move.isSupervisor && InCharge(Authority(w), c.move.actor, w.stores.items.byID[c.move.id])))
  }

  predicate IsVerdict(status: Status) {
    status == Verified || status == Flagged || status == Completed || status == Cancelled
  }

  /** In every run: whatever was verified, flagged, completed or cancelled was so
      by an administrator, or by a supervisor in charge of it at that moment. */
  lemma VerdictsTakeAuthority(hasSink: bool, hasAuthority: bool, cs: seq<Command>, i: nat)
    requires i < |After(hasSink, hasAuthority, cs).statusLog.rows|
    requires IsVerdict(After(hasSink, hasAuthority, cs).statusLog.rows[i].value.toStatus)
    ensures var e := After(hasSink, hasAuthority, cs).statusLog.rows[i].value;
            exists n :: 0 <= n < |cs|
                        && MovedWithAuthority(Before(Start(hasSink, hasAuthority), cs, n), cs[n], e)
  {
    var (start, rows) := (Start(hasSink, hasAuthority), After(hasSink, hasAuthority, cs).statusLog.rows);
    RecordsAreThePermittedCalls(hasSink, hasAuthority, cs);
    assert Values(rows)[i] == rows[i].value;
    var n := StatusRowHasCall(start, cs, rows[i].value);
    MadeWithAuthority(Before(start, cs, n), cs[n], rows[i].value);
  }

  lemma MadeWithAuthority(w: World, c: Command, e: StatusEntry)
    requires e in StatusMade(w, c) && IsVerdict(e.toStatus)
    ensures MovedWithAuthority(w, c, e)
  {
    hide InCharge, TrimSpace;
  }

  /** The call made this assignment, and its caller was an administrator, or a
      supervisor in charge of the item and of the user it went to. */
  ghost predicate HandedOverWithAuthority(w: World, c: Command, e: AssignmentEvent) {
    && c.AssignItem? && c.assign.id == e.workItemID && c.assign.assigner == e.actorUserID
    && TrimSpace(c.assign.target) == e.assignedToUserID
    && c.assign.id in w.stores.items.byID
    && (c.assign.isAdmin
        || (&& c.assign.isSupervisor
            && InCharge(Authority(w), c.assign.assigner, w.stores.items.byID[c.assign.id])
            && Runs(Authority(w), c.assign.assigner, e.assignedToUserID)))
  }

  /** The call is the assignee's own answer. */
  predicate AnsweredInPerson(c: Command, e: AssignmentEvent) {
    && c.RespondItem? && c.respond.id == e.workItemID && !c.respond.isRequester
    && c.respond.user == e.actorUserID == e.assignedToUserID && c.respond.accept == (e.action == Taken)
  }

  /** In every run: every assignment was made by an administrator, or by a
      supervisor then in charge of the item and of its new assignee; every answer
      is the assignee's own. */
  lemma AssignmentsTakeAuthority(hasSink: bool, hasAuthority: bool, cs: seq<Command>, i: nat)
    requires i < |After(hasSink, hasAuthority, cs).eventLog.rows|
    ensures var e := After(hasSink, hasAuthority, cs).eventLog.rows[i].value;
            exists n :: 0 <= n < |cs|
                        && (if e.action == Pending
                            then HandedOverWithAuthority(Before(Start(hasSink, hasAuthority), cs, n), cs[n], e)
                            else AnsweredInPerson(cs[n], e))
  {
    var (start, rows) := (Start(hasSink, hasAuthority), After(hasSink, hasAuthority, cs).eventLog.rows);
    RecordsAreThePermittedCalls(hasSink, hasAuthority, cs);
    assert Values(rows)[i] == rows[i].value;
    var n := EventHasCall(start, cs, rows[i].value);
    AssignedWithAuthority(Before(start, cs, n), cs[n], rows[i].value);
  }

  lemma AssignedWithAuthority(w: World, c: Command, e: AssignmentEvent)
    requires e in EventMade(w, c)
    ensures if e.action == Pending then HandedOverWithAuthority(w, c, e) else AnsweredInPerson(c, e)
  {
    if c.AssignItem? {
      TrimIdempotent(c.assign.target);
    }
    hide InCharge, TrimSpace;
  }
}
