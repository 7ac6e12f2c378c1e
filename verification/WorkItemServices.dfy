/** The work-item service over the in-memory stores: each method, write by
    write, against the plan of `WorkItemModel`. */
module WorkItemServices {
  import opened Wrappers
  import opened Text
  import opened Sequences
  import opened Records
  import opened WorkItemTypes
  import opened WorkItemModel
  import opened WorkItemStores
  import N = NotificationModel
  import NotificationServices
  import TeamModel
  import TeamServices

  class Service {
    const store: MemoryStore
    const historyStore: MemoryStatusHistoryStore
    const assignmentStore: MemoryAssignmentStore
    const assignmentHistoryStore: MemoryAssignmentHistoryStore
    const notifier: NotificationServices.NotificationService?
    const teamAuthority: TeamServices.TeamService?

    constructor (store: MemoryStore, historyStore: MemoryStatusHistoryStore,
                 assignmentStore: MemoryAssignmentStore, assignmentHistoryStore: MemoryAssignmentHistoryStore,
                 notifier: NotificationServices.NotificationService?, teamAuthority: TeamServices.TeamService?)
      ensures this.store == store && this.historyStore == historyStore
      ensures this.assignmentStore == assignmentStore && this.assignmentHistoryStore == assignmentHistoryStore
      ensures this.notifier == notifier && this.teamAuthority == teamAuthority
    {
      this.store := store;
      this.historyStore := historyStore;
      this.assignmentStore := assignmentStore;
      this.assignmentHistoryStore := assignmentHistoryStore;
      this.notifier := notifier;
      this.teamAuthority := teamAuthority;
    }

    ghost function SinkStore(): set<object> {
      if notifier == null then {} else {notifier.store}
    }

    ghost function TeamStores(): set<object> {
      if teamAuthority == null then {}
      else {teamAuthority.teamStore, teamAuthority.membershipStore, teamAuthority.supervisionStore}
    }

    ghost predicate Valid()
      reads store, SinkStore()
    {
      store.Valid() && (notifier != null ==> notifier.store.Valid())
    }

    ghost function View(): Stores
      reads store, historyStore, assignmentStore, assignmentHistoryStore, SinkStore()
    {
      Stores(store.View(), assignmentStore.View(), historyStore.View(), assignmentHistoryStore.View(),
             if notifier == null then None else Some(notifier.store.View()))
    }

    ghost function Authority(): Option<TeamModel.TeamState>
      reads TeamStores()
    {
      if teamAuthority == null then None else Some(teamAuthority.View())
    }

    // ----- Reading -----

    method SupervisorMayActOn(actorUserID: string, item: WorkItem) returns (allowed: bool)
      ensures allowed == WorkItemModel.SupervisorMayActOn(Authority(), actorUserID, item)
    {
      match item.assignedToUserID {
        case None => allowed := item.createdByUserID == actorUserID;
        case Some(user) =>
          if teamAuthority == null {
            return false;
          }
          allowed := teamAuthority.IsActiveSupervisorOf(actorUserID, user);
      }
    }

    method ListForSupervisor(callerUserID: string) returns (visible: seq<WorkItem>)
      requires Valid()
      ensures visible == Filter(ListItems(store.View()),
                                OnSupervisorsBoard(Supervised(Authority(), callerUserID), callerUserID))
    {
      var all := store.List();
      var supervisedIDs: seq<string> := [];
      if teamAuthority != null {
        supervisedIDs := teamAuthority.SupervisedAssigneeUserIDs(callerUserID);
      }
      var supervised: set<string> := {};
      for i := 0 to |supervisedIDs|
        invariant forall u :: u in supervised <==> u in supervisedIDs[..i]
      {
        supervised := supervised + {supervisedIDs[i]};
      }
      assert supervisedIDs[..|supervisedIDs|] == supervisedIDs;
      visible := [];
      ghost var board := OnSupervisorsBoard(supervisedIDs, callerUserID);
      for i := 0 to |all|
        invariant visible == Filter(all[..i], board)
      {
        var item := all[i];
        FilterSnoc(all[..i], item, board);
        assert all[..i + 1] == all[..i] + [item];
        if item.assignedToUserID.Some? {
          if item.assignedToUserID.value in supervised {
            visible := visible + [item];
          }
          continue;
        }
        if item.createdByUserID == callerUserID {
          visible := visible + [item];
        }
      }
      assert all[..|all|] == all;
    }

    method List(c: Caller) returns (r: Result<seq<WorkItem>, Error>)
      requires Valid()
      ensures r == WorkItemModel.List(View(), Authority(), c)
    {
      if c.isAdmin {
        var items := store.List();
        return Ok(items);
      }
      if TrimSpace(c.user) == "" {
        return Err(InvalidInput);
      }
      var items: seq<WorkItem>;
      if c.isSupervisor {
        items := ListForSupervisor(c.user);
      } else if c.isRequester {
        items := store.ListByCreatedByUserID(c.user);
      } else {
        items := store.ListByAssignedToUserID(c.user);
      }
      r := Ok(items);
    }

    method GetByID(id: string, c: Caller) returns (r: Result<WorkItem, Error>)
      ensures r == WorkItemModel.GetByID(View(), Authority(), id, c)
    {
      if TrimSpace(id) == "" {
        return Err(InvalidInput);
      }
      r := store.GetByID(id);
      if r.Err? || c.isAdmin {
        return;
      }
      var item := r.value;
      if c.isSupervisor {
        var allowed := SupervisorMayActOn(c.user, item);
        if !allowed {
          return Err(NotFound);
        }
      } else if c.isRequester {
        if item.createdByUserID != c.user {
          return Err(NotFound);
        }
      } else if item.assignedToUserID != Some(c.user) {
        return Err(NotFound);
      }
    }

    // ----- Creating and editing -----

    method MayView(item: WorkItem, c: Caller) returns (allowed: bool)
      ensures allowed == WorkItemModel.MayView(Authority(), item, c)
    {
      if c.isAdmin {
        return true;
      }
      if c.isSupervisor {
        allowed := SupervisorMayActOn(c.user, item);
        return;
      }
      allowed := item.assignedToUserID == Some(c.user);
    }

    /** The guard the three endpoints below share. */
    method Viewed(id: string, c: Caller) returns (r: Result<WorkItem, Error>)
      ensures r == ViewedItem(View(), Authority(), id, c)
    {
      if TrimSpace(id) == "" {
        return Err(InvalidInput);
      }
      r := store.GetByID(id);
      if r.Err? {
        return;
      }
      var allowed := MayView(r.value, c);
      if !allowed {
        return Err(NotFound);
      }
    }

    method ListStatusHistory(id: string, c: Caller) returns (r: Result<seq<Stored<StatusEntry>>, Error>)
      ensures r == WorkItemModel.ListStatusHistory(View(), Authority(), id, c)
    {
      var item := Viewed(id, c);
      match item {
        case Err(e) => return Err(e);
        case Ok(_) =>
          var rows := historyStore.ListByWorkItemID(id);
          r := Ok(rows);
      }
    }

    method ListAssignmentHistory(id: string, c: Caller) returns (r: Result<seq<Stored<AssignmentEvent>>, Error>)
      ensures r == WorkItemModel.ListAssignmentHistory(View(), Authority(), id, c)
    {
      var item := Viewed(id, c);
      match item {
        case Err(e) => return Err(e);
        case Ok(_) =>
          var rows := assignmentHistoryStore.ListByWorkItemID(id);
          r := Ok(rows);
      }
    }

    method GetAssignment(id: string, c: Caller) returns (r: Result<Stored<Assignment>, Error>)
      ensures r == WorkItemModel.GetAssignment(View(), Authority(), id, c)
    {
      var item := Viewed(id, c);
      match item {
        case Err(e) => return Err(e);
        case Ok(_) => r := assignmentStore.GetByWorkItemID(id);
      }
    }

    method Create(createdByUserID: string, input: CreateInput, now: int) returns (r: Result<WorkItem, Error>)
      requires Valid()
      modifies store
      ensures Valid() && (View(), r) == WorkItemModel.Create(old(View()), createdByUserID, input, now)
    {
      if TrimSpace(createdByUserID) == "" {
        return Err(InvalidInput);
      }
      var title, description := TrimSpace(input.title), TrimSpace(input.description);
      if title == "" || description == "" {
        return Err(InvalidInput);
      }
      if !input.priority.IsValid() {
        return Err(InvalidPriority);
      }
      var location: Option<string> := None;
      if input.locationText.Some? {
        var trimmed := TrimSpace(input.locationText.value);
        if trimmed != "" {
          location := Some(trimmed);
        }
      }
      var item := store.Create(WorkItem("", "", title, description, Created, input.priority, createdByUserID,
                                        None, location, input.dueAt, now, now));
      r := Ok(item);
    }

    method Update(q: UpdateRequest, now: int) returns (r: Result<WorkItem, Error>)
      requires Valid()
      modifies store
      ensures Valid()
      ensures (View(), Failure(r)) == Perform(old(View()), UpdatePlan(old(View()), old(Authority()), q, now))
      ensures r.Ok? ==> Edited(old(View()).items.byID[q.id], q.input, now) == r
    {
      if TrimSpace(q.id) == "" {
        return Err(InvalidInput);
      }
      var found := store.GetByID(q.id);
      if found.Err? {
        return found;
      }
      var item := found.value;
      if q.isAdmin {
      } else if q.isSupervisor {
        var allowed := SupervisorMayActOn(q.caller, item);
        if !allowed {
          return Err(NotFound);
        }
        if item.assignedToUserID.Some? {
          return Err(AlreadyAssigned);
        }
      } else {
        return Err(NotFound);
      }
      var edited := ApplyPatch(item, q.input, now);
      if edited.Err? {
        return edited;
      }
      LastWrite(View(), PutItem(edited.value));
      r := SaveItem(edited.value);
    }

    /** The field-by-field part of `Update`. */
    method ApplyPatch(original: WorkItem, input: UpdateInput, now: int) returns (r: Result<WorkItem, Error>)
      ensures r == Edited(original, input, now)
    {
      var item := original;
      if input.title.Some? {
        var title := TrimSpace(input.title.value);
        if title == "" {
          return Err(InvalidInput);
        }
        item := item.(title := title);
      }
      if input.description.Some? {
        var description := TrimSpace(input.description.value);
        if description == "" {
          return Err(InvalidInput);
        }
        item := item.(description := description);
      }
      if input.priority.Some? {
        if !input.priority.value.IsValid() {
          return Err(InvalidPriority);
        }
        item := item.(priority := input.priority.value);
      }
      if input.locationText.Some? {
        var location := TrimSpace(input.locationText.value);
        item := item.(locationText := if location == "" then None else Some(location));
      }
      if input.dueAt.Some? {
        item := item.(dueAt := input.dueAt);
      }
      r := Ok(item.(updatedAt := now));
    }

    // ----- One store write each -----

    method SaveItem(item: WorkItem) returns (r: Result<WorkItem, Error>)
      requires Valid()
      modifies store
      ensures Valid()
      ensures Wrote(old(View()), PutItem(item), View(), Failure(r)) && (r.Ok? ==> r.value == item)
    {
      r := store.Update(item);
    }

    method SaveNewAssignment(assignment: Assignment) returns (row: Stored<Assignment>)
      modifies assignmentStore
      ensures Exec(old(View()), NewAssignment(assignment)) == Ok(View())
      ensures assignment.workItemID in assignmentStore.byWorkItem
      ensures assignmentStore.byWorkItem[assignment.workItemID] == row
    {
      row := assignmentStore.Create(assignment);
    }

    method SaveAssignment(row: Stored<Assignment>) returns (r: Result<Stored<Assignment>, Error>)
      modifies assignmentStore
      ensures Wrote(old(View()), PutAssignment(row), View(), Failure(r)) && (r.Ok? ==> r.value == row)
    {
      r := assignmentStore.Update(row);
    }

    method RecordStatusChange(
      workItemID: string, from: Status, to: Status, actorUserID: string, rawReason: Option<string>, at: int)
      modifies historyStore
      ensures Exec(old(View()), AddStatus(StatusEntry(workItemID, Some(from), to, actorUserID, Clean(rawReason), at)))
              == Ok(View())
    {
      var reason: Option<string> := None;
      if rawReason.Some? {
        var trimmed := TrimSpace(rawReason.value);
        if trimmed != "" {
          reason := Some(trimmed);
        }
      }
      var _ := historyStore.Create(StatusEntry(workItemID, Some(from), to, actorUserID, reason, at));
    }

    method RecordAssignmentEvent(
      workItemID: string, action: AssignmentStatus, actorUserID: string, assignedToUserID: string,
      rawNote: Option<string>, at: int)
      modifies assignmentHistoryStore
      ensures Exec(old(View()), AddEvent(AssignmentEvent(workItemID, action, actorUserID, assignedToUserID,
                                                         Clean(rawNote), at))) == Ok(View())
    {
      var note: Option<string> := None;
      if rawNote.Some? {
        var trimmed := TrimSpace(rawNote.value);
        if trimmed != "" {
          note := Some(trimmed);
        }
      }
      var _ := assignmentHistoryStore.Create(
        AssignmentEvent(workItemID, action, actorUserID, assignedToUserID, note, at));
    }

    /** The two writes every move begins with: the item row, then its history row. */
    method Transition(
      changed: WorkItem, id: string, from: Status, actorUserID: string, rawReason: Option<string>, now: int)
      returns (failure: Option<Error>)
      requires Valid()
      modifies store, historyStore
      ensures Valid()
      ensures (View(), failure) ==
              ExecAll(old(View()),
                      [PutItem(changed),
                       AddStatus(StatusEntry(id, Some(from), changed.status, actorUserID, Clean(rawReason), now))])
    {
      ghost var record := AddStatus(StatusEntry(id, Some(from), changed.status, actorUserID, Clean(rawReason), now));
      assert [PutItem(changed), record] == [PutItem(changed)] + [record];
      NextWrite(View(), PutItem(changed), [record]);
      var updated := SaveItem(changed);
      match updated {
        case Err(e) => return Some(e);
        case Ok(_) =>
      }
      LastWrite(View(), record);
      RecordStatusChange(id, from, changed.status, actorUserID, rawReason, now);
      failure := None;
    }

    method Notify(recipientUserID: string, workItemID: string, kind: N.Kind, message: string, at: int)
      returns (failure: Option<Error>)
      requires Valid()
      modifies SinkStore()
      ensures Valid()
      ensures Wrote(old(View()), SendNote(recipientUserID, workItemID, kind, message, at), View(), failure)
    {
      hide TrimSpace, Numbered;
      if notifier == null {
        return None;
      }
      var refused := notifier.Notify(recipientUserID, workItemID, kind, message, at);
      match refused {
        case None => failure := None;
        case Some(e) => failure := Some(FromNotifications(e));
      }
    }

    // ----- Changing status -----

    method MoveRefused(q: MoveRequest, item: WorkItem) returns (refusal: Option<Error>)
      ensures refusal == WorkItemModel.MoveRefused(Authority(), q, item)
    {
      if q.isAdmin {
        if !IsValidTransition(item.status, q.toStatus) {
          return Some(InvalidTransition);
        }
      } else if q.isSupervisor {
        var allowed := SupervisorMayActOn(q.actor, item);
        if !allowed {
          return Some(NotFound);
        }
        if !IsValidTransition(item.status, q.toStatus) {
          return Some(InvalidTransition);
        }
      } else if q.isRequester {
        return Some(NotFound);
      } else {
        if item.assignedToUserID != Some(q.actor) {
          return Some(NotFound);
        }
        if !IsAssigneeAllowedTransition(item.status, q.toStatus) {
          return Some(InvalidTransition);
        }
      }
      refusal := None;
    }

    method ChangeStatus(q: MoveRequest, now: int, noteNow: int) returns (r: Result<WorkItem, Error>)
      requires Valid()
      modifies store, historyStore, SinkStore()
      ensures Valid()
      ensures (View(), Failure(r)) == Perform(old(View()), MovePlan(old(View()), old(Authority()), q, now, noteNow))
      ensures r.Ok? ==> r.value == old(View()).items.byID[q.id].(status := q.toStatus, updatedAt := now)
    {
      hide TrimSpace, Numbered;
      if TrimSpace(q.id) == "" || TrimSpace(q.actor) == "" {
        return Err(InvalidInput);
      }
      if !q.toStatus.IsValid() {
        return Err(InvalidStatus);
      }
      if q.toStatus == Flagged && (q.reason.None? || TrimSpace(q.reason.value) == "") {
        return Err(FeedbackRequired);
      }
      var found := store.GetByID(q.id);
      if found.Err? {
        return found;
      }
      var item := found.value;
      var refusal := MoveRefused(q, item);
      if refusal.Some? {
        return Err(refusal.value);
      }
      r := Move(item, q, now, noteNow);
    }

    /** The writes of a status change, in order. */
    method Move(item: WorkItem, q: MoveRequest, now: int, noteNow: int) returns (r: Result<WorkItem, Error>)
      requires Valid()
      modifies store, historyStore, SinkStore()
      ensures Valid()
      ensures (View(), Failure(r)) == Perform(old(View()), Ok(MoveWrites(item, q, now, noteNow)))
      ensures r.Ok? ==> r.value == item.(status := q.toStatus, updatedAt := now)
    {
      var moved := item.(status := q.toStatus, updatedAt := now);
      ghost var first, notes := MoveWrites(item, q, now, noteNow)[..2], NotesForStatus(q.id, moved, noteNow);
      assert MoveWrites(item, q, now, noteNow) == first + notes;
      ExecAllConcat(View(), first, notes);
      var failure := Transition(moved, q.id, item.status, q.actor, q.reason, now);
      if failure.Some? {
        return Err(failure.value);
      }
      var note := NotificationForStatusChange(q.id, moved, noteNow);
      if note.Some? {
        var SendNote(recipient, id, kind, message, at) := note.value;
        LastWrite(View(), note.value);
        failure := Notify(recipient, id, kind, message, at);
        if failure.Some? {
          return Err(failure.value);
        }
      }
      r := Ok(moved);
    }

    method NotificationForStatusChange(id: string, item: WorkItem, noteNow: int) returns (note: Option<Write>)
      ensures note.Some? ==> note.value.SendNote?
      ensures NotesForStatus(id, item, noteNow) == if note.Some? then [note.value] else []
    {
      match item.status {
        case SubmittedForReview =>
          note := Some(SendNote(item.createdByUserID, id, N.EvidenceSubmitted,
                                item.referenceCode + " was submitted for review", noteNow));
        case Flagged =>
          if item.assignedToUserID.None? { return None; }
          note := Some(SendNote(item.assignedToUserID.value, id, N.WorkFlagged,
                                item.referenceCode + " was flagged and needs rework", noteNow));
        case Verified =>
          if item.assignedToUserID.None? { return None; }
          note := Some(SendNote(item.assignedToUserID.value, id, N.WorkVerified,
                                item.referenceCode + " was verified", noteNow));
        case Completed =>
          if item.assignedToUserID.None? { return None; }
          note := Some(SendNote(item.assignedToUserID.value, id, N.WorkCompleted,
                                item.referenceCode + " was marked completed", noteNow));
        case _ => note := None;
      }
    }

    /** The row is the item's current assignment. */
    predicate Current(id: string, row: Stored<Assignment>)
      reads assignmentStore
    {
      id in assignmentStore.byWorkItem && row == assignmentStore.byWorkItem[id]
    }

    // ----- Assigning -----

    method AssignWorkItem(q: AssignRequest, now: int, noteNow: int) returns (r: Result<Stored<Assignment>, Error>)
      requires Valid()
      modifies store, historyStore, assignmentStore, assignmentHistoryStore, SinkStore()
      ensures Valid()
      ensures (View(), Failure(r)) == Perform(old(View()), AssignPlan(old(View()), old(Authority()), q, now, noteNow))
      ensures r.Ok? ==> Current(q.id, r.value)
    {
      hide TrimSpace, Numbered;
      var target := TrimSpace(q.target);
      if TrimSpace(q.id) == "" || TrimSpace(q.assigner) == "" || target == "" {
        return Err(InvalidInput);
      }
      var found := store.GetByID(q.id);
      match found {
        case Err(e) => return Err(e);
        case Ok(item) =>
          if q.isAdmin {
          } else if q.isSupervisor {
            var allowed := SupervisorMayActOn(q.assigner, item);
            if !allowed || teamAuthority == null {
              return Err(NotFound);
            }
            var destinationAllowed := teamAuthority.IsActiveSupervisorOf(q.assigner, target);
            if !destinationAllowed {
              return Err(NotFound);
            }
          } else {
            return Err(NotFound);
          }
          if !IsValidTransition(item.status, Assigned) {
            return Err(InvalidTransition);
          }
          r := Assign(item, q, now, noteNow);
      }
    }

    /** The five writes of an assignment, in order. */
    method Assign(item: WorkItem, q: AssignRequest, now: int, noteNow: int)
      returns (r: Result<Stored<Assignment>, Error>)
      requires Valid()
      modifies store, historyStore, assignmentStore, assignmentHistoryStore, SinkStore()
      ensures Valid()
      ensures (View(), Failure(r)) == Perform(old(View()), Ok(AssignWrites(item, q, now, noteNow)))
      ensures r.Ok? ==> Current(q.id, r.value)
    {
      var target := TrimSpace(q.target);
      var changed := item.(status := Assigned, assignedToUserID := Some(target), updatedAt := now);
      ghost var ws := AssignWrites(item, q, now, noteNow);
      ghost var first :=
        [PutItem(changed),
         AddStatus(StatusEntry(q.id, Some(item.status), changed.status, q.assigner, Clean(None), now))];
      assert ws == first + [ws[2], ws[3], ws[4]];
      ExecAllConcat(View(), first, [ws[2], ws[3], ws[4]]);
      var failure := Transition(changed, q.id, item.status, q.assigner, None, now);
      if failure.Some? {
        return Err(failure.value);
      }
      r := HandOver(Assignment(q.id, q.assigner, target, Pending, now, None, None),
                    item.referenceCode + " was assigned to you", now, noteNow);
    }

    /** The last three writes of an assignment: the row, its history row, the notification. */
    method HandOver(a: Assignment, message: string, now: int, noteNow: int)
      returns (r: Result<Stored<Assignment>, Error>)
      requires Valid() && a.status == Pending
      modifies assignmentStore, assignmentHistoryStore, SinkStore()
      ensures Valid()
      ensures (View(), Failure(r)) ==
              ExecAll(old(View()),
                      [NewAssignment(a),
                       AddEvent(AssignmentEvent(
                         a.workItemID, Pending, a.assignedByUserID, a.assignedToUserID, None, now)),
                       SendNote(a.assignedToUserID, a.workItemID, N.AssignmentCreated, message, noteNow)])
      ensures r.Ok? ==> Current(a.workItemID, r.value)
    {
      hide TrimSpace, Numbered;
      ghost var record :=
        AddEvent(AssignmentEvent(a.workItemID, Pending, a.assignedByUserID, a.assignedToUserID, None, now));
      ghost var note := SendNote(a.assignedToUserID, a.workItemID, N.AssignmentCreated, message, noteNow);
      assert [NewAssignment(a), record, note] == [NewAssignment(a)] + ([record] + [note]);
      NextWrite(View(), NewAssignment(a), [record] + [note]);
      var row := SaveNewAssignment(a);
      NextWrite(View(), record, [note]);
      RecordAssignmentEvent(a.workItemID, Pending, a.assignedByUserID, a.assignedToUserID, None, now);
      LastWrite(View(), note);
      var failure := Notify(a.assignedToUserID, a.workItemID, N.AssignmentCreated, message, noteNow);
      if failure.Some? {
        return Err(failure.value);
      }
      r := Ok(row);
    }

    // ----- Responding -----

    method RespondToAssignment(q: RespondRequest, now: int, noteNow: int) returns (r: Result<Stored<Assignment>, Error>)
      requires Valid()
      modifies store, historyStore, assignmentStore, assignmentHistoryStore, SinkStore()
      ensures Valid()
      ensures (View(), Failure(r)) == Perform(old(View()), RespondPlan(old(View()), q, now, noteNow))
      ensures r.Ok? ==>
                && q.id in old(assignmentStore.byWorkItem)
                && r.value == AnsweredRow(old(assignmentStore.byWorkItem)[q.id], q, now)
    {
      hide TrimSpace, Numbered;
      if TrimSpace(q.id) == "" || TrimSpace(q.user) == "" {
        return Err(InvalidInput);
      }
      if q.isRequester {
        return Err(NotFound);
      }
      var found := store.GetByID(q.id);
      match found {
        case Err(e) => return Err(e);
        case Ok(item) =>
          var current := assignmentStore.GetByWorkItemID(q.id);
          match current {
            case Err(e) => return Err(e);
            case Ok(row) =>
              if row.value.assignedToUserID != q.user {
                return Err(AssignmentNotOwned);
              }
              if row.value.status != Pending {
                return Err(AssignmentNotPending);
              }
              if !IsValidTransition(item.status, if q.accept then Accepted else Created) {
                return Err(InvalidTransition);
              }
              r := Respond(item, row, q, now, noteNow);
          }
      }
    }

    /** The four or five writes of a response, in order. */
    method Respond(item: WorkItem, row: Stored<Assignment>, q: RespondRequest, now: int, noteNow: int)
      returns (r: Result<Stored<Assignment>, Error>)
      requires Valid()
      modifies store, historyStore, assignmentStore, assignmentHistoryStore, SinkStore()
      ensures Valid()
      ensures (View(), Failure(r)) == Perform(old(View()), Ok(RespondWrites(item, row, q, now, noteNow)))
      ensures r.Ok? ==> r.value == AnsweredRow(row, q, now)
    {
      var toStatus, answer := Created, Declined;
      if q.accept {
        toStatus, answer := Accepted, Taken;
      }
      var changed := item.(status := toStatus, updatedAt := now);
      if !q.accept {
        changed := changed.(assignedToUserID := None);
      }
      ghost var ws := RespondWrites(item, row, q, now, noteNow);
      ghost var first :=
        [PutItem(changed), AddStatus(StatusEntry(q.id, Some(item.status), changed.status, q.user, Clean(q.note), now))];
      assert ws == first + ([ws[2], ws[3]] + ws[4..]);
      ExecAllConcat(View(), first, [ws[2], ws[3]] + ws[4..]);
      var failure := Transition(changed, q.id, item.status, q.user, q.note, now);
      if failure.Some? {
        return Err(failure.value);
      }
      ExecAllConcat(View(), [ws[2], ws[3]], ws[4..]);
      r := Answer(row, answer, q, now);
      if r.Err? {
        return;
      }
      if q.accept {
        LastWrite(View(), ws[4]);
        failure := Notify(row.value.assignedByUserID, q.id, N.AssignmentAccepted,
                          item.referenceCode + " was accepted by the assignee", noteNow);
        if failure.Some? {
          return Err(failure.value);
        }
      }
    }

    /** The answered row and its history row. */
    method Answer(row: Stored<Assignment>, answer: AssignmentStatus, q: RespondRequest, now: int)
      returns (r: Result<Stored<Assignment>, Error>)
      modifies assignmentStore, assignmentHistoryStore
      ensures (View(), Failure(r)) ==
              ExecAll(old(View()),
                      [PutAssignment(row.(value := row.value.(
                         status := answer, respondedAt := Some(now), responseNote := Clean(q.note)))),
                       AddEvent(AssignmentEvent(q.id, answer, q.user, row.value.assignedToUserID, Clean(q.note), now))])
      ensures r.Ok? ==>
                r.value == row.(value := row.value.(
                  status := answer, respondedAt := Some(now), responseNote := Clean(q.note)))
    {
      var note: Option<string> := None;
      if q.note.Some? {
        var trimmed := TrimSpace(q.note.value);
        if trimmed != "" {
          note := Some(trimmed);
        }
      }
      var answered := row.(value := row.value.(status := answer, respondedAt := Some(now), responseNote := note));
      ghost var record :=
        AddEvent(AssignmentEvent(q.id, answer, q.user, row.value.assignedToUserID, Clean(q.note), now));
      assert [PutAssignment(answered), record] == [PutAssignment(answered)] + [record];
      NextWrite(View(), PutAssignment(answered), [record]);
      r := SaveAssignment(answered);
      if r.Err? {
        return;
      }
      LastWrite(View(), record);
      RecordAssignmentEvent(q.id, answer, q.user, row.value.assignedToUserID, q.note, now);
    }
  }

  function Failure<T>(r: Result<T, Error>): Option<Error> {
    match r
    case Ok(_) => None
    case Err(e) => Some(e)
  }

  /** One write was made in full, or failed and changed nothing. */
  ghost predicate Wrote(s: Stores, w: Write, s': Stores, failure: Option<Error>) {
    match Exec(s, w)
    case Ok(after) => s' == after && failure.None?
    case Err(e) => s' == s && failure == Some(e)
  }
}
