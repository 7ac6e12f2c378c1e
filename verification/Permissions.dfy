/** Who may do what: for every call the exact condition under which its guards
    let it through, and which refusal is given otherwise, spelled out over the
    rows of the stores rather than over the guards. */
module Permissions {
  import opened Wrappers
  import opened Text
  import opened WorkItemTypes
  import opened WorkItemModel
  import TeamModel
  import TeamHistory

  // ----- The status graph -----

  /** The next status on the way to completion. */
  predicate Forward(from: Status, to: Status) {
    || (from == Created && to == Assigned) || (from == Assigned && to == Accepted)
    || (from == Accepted && to == InProgress) || (from == InProgress && to == SubmittedForReview)
    || (from == SubmittedForReview && to == Verified) || (from == Verified && to == Completed)
  }

  /** A decline, a flag, and the rework that follows it. */
  predicate Back(from: Status, to: Status) {
    || (from == Assigned && to == Created)
    || (from == SubmittedForReview && to == Flagged) || (from == Flagged && to == InProgress)
  }

  predicate Ended(status: Status) {
    status == Completed || status == Cancelled
  }

  /** Forward, back, or cancelled from any status that is not an end. */
  predicate Legal(from: Status, to: Status) {
    Forward(from, to) || Back(from, to) || (to == Cancelled && !Ended(from) && from.IsValid())
  }

  lemma TableIsLegal(from: Status, to: Status)
    ensures IsValidTransition(from, to) <==> Legal(from, to)
  {
  }

  /** What an assignee may do: start work, also after a flag, and submit it. */
  predicate Progress(from: Status, to: Status) {
    || (to == InProgress && (from == Accepted || from == Flagged))
    || (to == SubmittedForReview && from == InProgress)
  }

  lemma AssigneeTableIsProgress(from: Status, to: Status)
    ensures IsAssigneeAllowedTransition(from, to) <==> Progress(from, to)
  {
  }

  // ----- Authority over an item -----

  ghost predicate TeamsOk(authority: Option<TeamModel.TeamState>) {
    authority.Some? ==> TeamHistory.TeamInv(authority.value)
  }

  /** Right now some team has this supervisor among its open supervisions and
      this user among its open memberships. */
  ghost predicate Runs(authority: Option<TeamModel.TeamState>, supervisor: string, user: string) {
    authority.Some? && TeamHistory.OnSomeTeamOf(authority.value, TrimSpace(supervisor), TrimSpace(user))
  }

  lemma RunsIffActive(ts: TeamModel.TeamState, supervisor: string, user: string)
    requires TeamHistory.TeamInv(ts)
    ensures TeamModel.IsActiveSupervisorOf(ts, supervisor, user) <==> Runs(Some(ts), supervisor, user)
  {
    hide TrimSpace;
    if !Blank(supervisor) {
      TeamHistory.AuthorityMeaning(ts, supervisor, user);
    } else {
      forall i | 0 <= i < |ts.supervisions| ensures ts.supervisions[i].userID != "" {
        assert TeamHistory.CleanSupervision(ts.supervisions[i], ts.teams);
      }
    }
  }

  /** In charge of an item: of its assignee's team, or, while it has no assignee,
      as its creator. */
  ghost predicate InCharge(authority: Option<TeamModel.TeamState>, supervisor: string, item: WorkItem) {
    if item.assignedToUserID.None? then item.createdByUserID == supervisor
    else Runs(authority, supervisor, item.assignedToUserID.value)
  }

  lemma MayActIffInCharge(authority: Option<TeamModel.TeamState>, supervisor: string, item: WorkItem)
    requires TeamsOk(authority)
    ensures SupervisorMayActOn(authority, supervisor, item) <==> InCharge(authority, supervisor, item)
  {
    hide TrimSpace;
    if authority.Some? && item.assignedToUserID.Some? {
      RunsIffActive(authority.value, supervisor, item.assignedToUserID.value);
    }
  }

  // ----- Changing status -----

  /** An administrator on anything, a supervisor on what they are in charge of, a
      plain assignee on their own; a requester on nothing. */
  ghost predicate MayMove(authority: Option<TeamModel.TeamState>, q: MoveRequest, item: WorkItem) {
    || q.isAdmin
    || (q.isSupervisor && InCharge(authority, q.actor, item))
    || (!q.isSupervisor && !q.isRequester && item.assignedToUserID == Some(q.actor))
  }

  predicate MoveFits(q: MoveRequest, item: WorkItem) {
    if q.isAdmin || q.isSupervisor then Legal(item.status, q.toStatus) else Progress(item.status, q.toStatus)
  }

  predicate MoveWellFormed(q: MoveRequest) {
    && !Blank(q.id) && !Blank(q.actor) && q.toStatus.IsValid()
    && (q.toStatus == Flagged ==> q.reason.Some? && !Blank(q.reason.value))
  }

  lemma MoveAcceptedIff(s: Stores, authority: Option<TeamModel.TeamState>, q: MoveRequest, now: int, noteNow: int)
    requires TeamsOk(authority)
    ensures var plan := MovePlan(s, authority, q, now, noteNow);
            var found := MoveWellFormed(q) && q.id in s.items.byID;
            && (plan.Ok? <==> found && MayMove(authority, q, s.items.byID[q.id]) && MoveFits(q, s.items.byID[q.id]))
            && (plan == Err(NotFound) <==>
                  MoveWellFormed(q) && !(found && MayMove(authority, q, s.items.byID[q.id])))
            && (plan == Err(InvalidTransition) <==>
                  found && MayMove(authority, q, s.items.byID[q.id]) && !MoveFits(q, s.items.byID[q.id]))
            && (plan == Err(InvalidInput) <==> Blank(q.id) || Blank(q.actor))
            && (plan == Err(InvalidStatus) <==> !Blank(q.id) && !Blank(q.actor) && !q.toStatus.IsValid())
            && (plan == Err(FeedbackRequired) <==>
                  !Blank(q.id) && !Blank(q.actor) && q.toStatus == Flagged && !MoveWellFormed(q))
  {
    hide TrimSpace, Numbered, MoveWrites;
    if q.id in s.items.byID {
      var item := s.items.byID[q.id];
      MayActIffInCharge(authority, q.actor, item);
      TableIsLegal(item.status, q.toStatus);
      AssigneeTableIsProgress(item.status, q.toStatus);
    }
  }

  /** A plain assignee moves only their own item, and only on into progress or
      review; every verdict, completion and cancellation takes an administrator or
      a supervisor in charge. */
  lemma AssigneeOnlyWorksAndSubmits(
    s: Stores, authority: Option<TeamModel.TeamState>, q: MoveRequest, now: int, noteNow: int)
    requires TeamsOk(authority) && MovePlan(s, authority, q, now, noteNow).Ok?
    ensures q.id in s.items.byID
    ensures !q.isAdmin && !q.isSupervisor ==>
              && !q.isRequester && s.items.byID[q.id].assignedToUserID == Some(q.actor)
              && (q.toStatus == InProgress || q.toStatus == SubmittedForReview)
    ensures q.isAdmin || (q.isSupervisor && InCharge(authority, q.actor, s.items.byID[q.id]))
            || q.toStatus == InProgress || q.toStatus == SubmittedForReview
  {
    MoveAcceptedIff(s, authority, q, now, noteNow);
  }

  // ----- Assigning -----

  /** An administrator anything to anyone; a supervisor what they are in charge
      of, to a member of a team they run. */
  ghost predicate MayHandOver(authority: Option<TeamModel.TeamState>, q: AssignRequest, item: WorkItem) {
    q.isAdmin || (q.isSupervisor && InCharge(authority, q.assigner, item) && Runs(authority, q.assigner, q.target))
  }

  predicate AssignWellFormed(q: AssignRequest) {
    !Blank(q.id) && !Blank(q.assigner) && !Blank(q.target)
  }

  lemma AssignAcceptedIff(
    s: Stores, authority: Option<TeamModel.TeamState>, q: AssignRequest, now: int, noteNow: int)
    requires TeamsOk(authority)
    ensures var plan := AssignPlan(s, authority, q, now, noteNow);
            var found := AssignWellFormed(q) && q.id in s.items.byID;
            && (plan.Ok? <==>
                  found && MayHandOver(authority, q, s.items.byID[q.id]) && s.items.byID[q.id].status == Created)
            && (plan == Err(NotFound) <==>
                  AssignWellFormed(q) && !(found && MayHandOver(authority, q, s.items.byID[q.id])))
            && (plan == Err(InvalidTransition) <==>
                  found && MayHandOver(authority, q, s.items.byID[q.id]) && s.items.byID[q.id].status != Created)
            && (plan == Err(InvalidInput) <==> !AssignWellFormed(q))
  {
    TrimIdempotent(q.target);
    hide TrimSpace, Numbered, AssignWrites;
    if q.id in s.items.byID {
      var item := s.items.byID[q.id];
      MayActIffInCharge(authority, q.assigner, item);
      TableIsLegal(item.status, Assigned);
      if authority.Some? {
        RunsIffActive(authority.value, q.assigner, TrimSpace(q.target));
      }
    }
  }

  // ----- Answering -----

  predicate RespondWellFormed(q: RespondRequest) {
    !Blank(q.id) && !Blank(q.user)
  }

  /** The item has an assignment to this user. */
  predicate Holds(s: Stores, q: RespondRequest) {
    && !q.isRequester && q.id in s.items.byID && q.id in s.assignments.byWorkItem
    && s.assignments.byWorkItem[q.id].value.assignedToUserID == q.user
  }

  lemma RespondAcceptedIff(s: Stores, q: RespondRequest, now: int, noteNow: int)
    ensures var plan := RespondPlan(s, q, now, noteNow);
            var holds := RespondWellFormed(q) && Holds(s, q);
            var pending := holds && s.assignments.byWorkItem[q.id].value.status == Pending;
            var present := RespondWellFormed(q) && !q.isRequester && q.id in s.items.byID;
            && (plan.Ok? <==> pending && s.items.byID[q.id].status == Assigned)
            && (plan == Err(InvalidTransition) <==> pending && s.items.byID[q.id].status != Assigned)
            && (plan == Err(AssignmentNotPending) <==> holds && !pending)
            && (plan == Err(AssignmentNotOwned) <==> present && q.id in s.assignments.byWorkItem && !holds)
            && (plan == Err(AssignmentNotFound) <==> present && q.id !in s.assignments.byWorkItem)
            && (plan == Err(NotFound) <==> RespondWellFormed(q) && !present)
            && (plan == Err(InvalidInput) <==> !RespondWellFormed(q))
  {
    hide TrimSpace, Numbered, RespondWrites;
    if q.id in s.items.byID {
      TableIsLegal(s.items.byID[q.id].status, if q.accept then Accepted else Created);
    }
  }

  // ----- Editing -----

  predicate SetsBlank(input: UpdateInput) {
    || (input.title.Some? && Blank(input.title.value))
    || (input.description.Some? && Blank(input.description.value))
  }

  predicate PatchWellFormed(input: UpdateInput) {
    !SetsBlank(input) && (input.priority.Some? ==> input.priority.value.IsValid())
  }

  /** An administrator anything; a supervisor only what they created and nobody
      has yet. */
  predicate MayEdit(q: UpdateRequest, item: WorkItem) {
    q.isAdmin || (q.isSupervisor && item.assignedToUserID.None? && item.createdByUserID == q.caller)
  }

  lemma UpdateAcceptedIff(s: Stores, authority: Option<TeamModel.TeamState>, q: UpdateRequest, now: int)
    requires TeamsOk(authority)
    ensures var plan := UpdatePlan(s, authority, q, now);
            var found := !Blank(q.id) && q.id in s.items.byID;
            && (plan.Ok? <==> found && MayEdit(q, s.items.byID[q.id]) && PatchWellFormed(q.input))
            && (plan == Err(AlreadyAssigned) <==>
                  && found && !q.isAdmin && q.isSupervisor && s.items.byID[q.id].assignedToUserID.Some?
                  && InCharge(authority, q.caller, s.items.byID[q.id]))
            && (plan == Err(NotFound) <==>
                  && !Blank(q.id)
                  && !(found && (q.isAdmin || (q.isSupervisor && InCharge(authority, q.caller, s.items.byID[q.id])))))
            && (plan == Err(InvalidInput) <==>
                  Blank(q.id) || (found && MayEdit(q, s.items.byID[q.id]) && SetsBlank(q.input)))
            && (plan == Err(InvalidPriority) <==>
                  found && MayEdit(q, s.items.byID[q.id]) && !SetsBlank(q.input) && !PatchWellFormed(q.input))
  {
    hide TrimSpace, Numbered;
    if q.id in s.items.byID {
      MayActIffInCharge(authority, q.caller, s.items.byID[q.id]);
    }
  }

  // ----- Reading -----

  ghost predicate Sees(authority: Option<TeamModel.TeamState>, c: Caller, item: WorkItem) {
    if c.isAdmin then true
    else if c.isSupervisor then InCharge(authority, c.user, item)
    else if c.isRequester then item.createdByUserID == c.user
    else item.assignedToUserID == Some(c.user)
  }

  lemma FetchedIffSeen(s: Stores, authority: Option<TeamModel.TeamState>, id: string, c: Caller)
    requires TeamsOk(authority)
    ensures GetByID(s, authority, id, c).Ok? <==>
              !Blank(id) && id in s.items.byID && Sees(authority, c, s.items.byID[id])
    ensures GetByID(s, authority, id, c).Ok? ==> GetByID(s, authority, id, c).value == s.items.byID[id]
    ensures GetByID(s, authority, id, c).Err? ==>
              GetByID(s, authority, id, c) == Err(if Blank(id) then InvalidInput else NotFound)
  {
    hide TrimSpace;
    if id in s.items.byID {
      MayActIffInCharge(authority, c.user, s.items.byID[id]);
    }
  }

  /** The history endpoints: the same for everyone but requesters, whom they take
      for assignees. */
  lemma ViewedIffSeen(s: Stores, authority: Option<TeamModel.TeamState>, id: string, c: Caller)
    requires TeamsOk(authority)
    ensures ViewedItem(s, authority, id, c) == GetByID(s, authority, id, c.(isRequester := false))
    ensures ViewedItem(s, authority, id, c).Ok? <==>
              && !Blank(id) && id in s.items.byID
              && Sees(authority, c.(isRequester := false), s.items.byID[id])
  {
    FetchedIffSeen(s, authority, id, c.(isRequester := false));
  }
}
