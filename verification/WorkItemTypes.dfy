/** Work items, their status graph, and the records kept about them. */
module WorkItemTypes {
  import opened Wrappers
  import opened Text

  /** The status strings; `OtherStatus` is any text a caller sends that is not one of them. */
  datatype Status =
    | Created | Assigned | Accepted | InProgress | SubmittedForReview
    | Verified | Flagged | Completed | Cancelled | OtherStatus(text: string)
  {
    predicate IsValid() {
      !OtherStatus?
    }

    /** Before anyone has accepted: the only statuses assignment can still change in. */
    predicate Early() {
      Created? || Assigned?
    }
  }

  datatype Priority = Low | Medium | High | OtherPriority(text: string) {
    predicate IsValid() {
      !OtherPriority?
    }
  }

  /** "assigned", "accepted" and "declined" on an assignment. */
  datatype AssignmentStatus = Pending | Taken | Declined

  /** Every status a work item may move to; the end states have no entry. */
  function ValidStatusTransitions(from: Status): seq<Status> {
    match from
    case Created => [Assigned, Cancelled]
    case Assigned => [Accepted, Cancelled, Created]
    case Accepted => [InProgress, Cancelled]
    case InProgress => [SubmittedForReview, Cancelled]
    case SubmittedForReview => [Verified, Flagged, Cancelled]
    case Verified => [Completed, Cancelled]
    case Flagged => [InProgress, Cancelled]
    case _ => []
  }

  /** The moves an assignee may make on their own item. */
  function AssigneeAllowedTransitions(from: Status): seq<Status> {
    match from
    case Accepted => [InProgress]
    case InProgress => [SubmittedForReview]
    case Flagged => [InProgress]
    case _ => []
  }

  predicate IsValidTransition(from: Status, to: Status) {
    to in ValidStatusTransitions(from)
  }

  predicate IsAssigneeAllowedTransition(from: Status, to: Status) {
    to in AssigneeAllowedTransitions(from)
  }

  /** The assignee's table grants nothing the full table forbids, and never a
      move into or out of the assignment phase. */
  lemma AssigneeMovesAreValid(from: Status, to: Status)
    requires IsAssigneeAllowedTransition(from, to)
    ensures IsValidTransition(from, to) && !from.Early() && !to.Early()
  {
  }

  datatype WorkItem = WorkItem(
    id: string, referenceCode: string, title: string, description: string,
    status: Status, priority: Priority, createdByUserID: string,
    assignedToUserID: Option<string>, locationText: Option<string>, dueAt: Option<int>,
    createdAt: int, updatedAt: int)

  /** One status change, as handed to the history store. */
  datatype StatusEntry = StatusEntry(
    workItemID: string, fromStatus: Option<Status>, toStatus: Status,
    changedByUserID: string, reason: Option<string>, createdAt: int)

  /** The current assignment of one item. */
  datatype Assignment = Assignment(
    workItemID: string, assignedByUserID: string, assignedToUserID: string,
    status: AssignmentStatus, assignedAt: int, respondedAt: Option<int>, responseNote: Option<string>)

  /** One assignment event, as handed to the history store. */
  datatype AssignmentEvent = AssignmentEvent(
    workItemID: string, action: AssignmentStatus, actorUserID: string,
    assignedToUserID: string, note: Option<string>, createdAt: int)

  function ItemID(n: nat): string { Numbered("workitem-", n) }

  function ReferenceCode(n: nat): string { Numbered("WI-", n) }
}
