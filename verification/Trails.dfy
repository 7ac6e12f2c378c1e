/** The trail of one work item: its row, its current assignment, its two audit
    logs and the notifications about it. Every claim about a single item is an
    invariant of trails; `WorkItemRuns` lifts them to whole runs. */
module Trails {
  import opened Wrappers
  import opened Text
  import opened Records
  import opened WorkItemTypes
  import opened WorkItemModel
  import N = NotificationModel

  datatype Sent = Sent(kind: N.Kind, recipient: string)

  datatype Trail = Trail(
    item: WorkItem, row: Option<Assignment>,
    status: seq<StatusEntry>, events: seq<AssignmentEvent>,
    hasSink: bool, sent: seq<Sent>)

  function StatusFor(id: string): StatusEntry -> bool {
    (e: StatusEntry) => e.workItemID == id
  }

  function EventFor(id: string): AssignmentEvent -> bool {
    (e: AssignmentEvent) => e.workItemID == id
  }

  /** Who was told what about an item, in order, read or unread. */
  function SentAbout(rows: seq<Stored<N.Notification>>, id: string): seq<Sent> {
    if rows == [] then []
    else
      var n := rows[|rows| - 1].value;
      SentAbout(rows[..|rows| - 1], id) + (if n.workItemID == id then [Sent(n.kind, n.recipientUserID)] else [])
  }

  function SinkRows(s: Stores): seq<Stored<N.Notification>> {
    if s.sink.Some? then s.sink.value.rows else []
  }

  function RowOf(s: Stores, id: string): Option<Assignment> {
    if id in s.assignments.byWorkItem then Some(s.assignments.byWorkItem[id].value) else None
  }

  function TrailOf(s: Stores, id: string): Trail
    requires id in s.items.byID
  {
    Trail(s.items.byID[id], RowOf(s, id),
          Project(s.statusLog.rows, StatusFor(id)), Project(s.eventLog.rows, EventFor(id)),
          s.sink.Some?, SentAbout(SinkRows(s), id))
  }

  // ----- Reading a trail -----

  /** How often the item has entered a status. */
  function Entered(history: seq<StatusEntry>, status: Status): nat {
    if history == [] then 0
    else Entered(history[..|history| - 1], status) + (if history[|history| - 1].toStatus == status then 1 else 0)
  }

  /** The recipients of one kind of notification, in order. */
  function Recipients(sent: seq<Sent>, kind: N.Kind): seq<string> {
    if sent == [] then []
    else
      var last := sent[|sent| - 1];
      Recipients(sent[..|sent| - 1], kind) + (if last.kind == kind then [last.recipient] else [])
  }

  /** The users the item was handed to, in order. */
  function Targets(events: seq<AssignmentEvent>): seq<string> {
    if events == [] then []
    else
      var last := events[|events| - 1];
      Targets(events[..|events| - 1]) + (if last.action == Pending then [last.assignedToUserID] else [])
  }

  function Repeat(x: string, n: nat): seq<string> {
    seq(n, _ => x)
  }

  /** Rebuilds the current assignment from nothing but the event log. */
  function Replay(events: seq<AssignmentEvent>): Option<Assignment> {
    if events == [] then None
    else
      var e := events[|events| - 1];
      if e.action == Pending then
        Some(Assignment(e.workItemID, e.actorUserID, e.assignedToUserID, Pending, e.createdAt, None, None))
      else
        match Replay(events[..|events| - 1])
        case None => None
        case Some(a) => Some(a.(status := e.action, respondedAt := Some(e.createdAt), responseNote := e.note))
  }

  /** Who holds the item according to its assignment. */
  function Holder(row: Option<Assignment>): Option<string> {
    if row.Some? && row.value.status != Declined then Some(row.value.assignedToUserID) else None
  }

  /** Distance from creation along the status graph. */
  function Rank(status: Status): nat {
    match status
    case Created => 0
    case Assigned => 1
    case Accepted => 2
    case Flagged => 2
    case InProgress => 3
    case SubmittedForReview => 4
    case Verified => 5
    case Completed => 6
    case _ => 0
  }

  // ----- The invariants -----

  /** The history is a path of valid moves from created to the current status. */
  ghost predicate Chain(history: seq<StatusEntry>, status: Status) {
    && (history == [] ==> status == Created)
    && (history != [] ==> history[0].fromStatus == Some(Created) && history[|history| - 1].toStatus == status)
    && (forall k :: 0 <= k < |history| ==>
          history[k].fromStatus.Some? && IsValidTransition(history[k].fromStatus.value, history[k].toStatus))
    && (forall j, k :: 0 <= j && k == j + 1 && k < |history| ==> history[k].fromStatus == Some(history[j].toStatus))
  }

  /** Nothing is flagged without a reason that says something. */
  ghost predicate FlagsExplained(history: seq<StatusEntry>) {
    forall k :: 0 <= k < |history| && history[k].toStatus == Flagged ==>
      history[k].reason.Some? && Trimmed(history[k].reason.value) && history[k].reason.value != ""
  }

  ghost predicate LengthLaw(history: seq<StatusEntry>, status: Status) {
    status != Cancelled ==>
      |history| == Rank(status) + 2 * Entered(history, Created) + 3 * Entered(history, Flagged)
  }

  /** While the item is still being assigned, it never was anywhere else. */
  ghost predicate EarlyOnly(history: seq<StatusEntry>, status: Status) {
    status.Early() ==> forall k :: 0 <= k < |history| ==> history[k].toStatus.Early()
  }

  ghost predicate HistoryOk(t: Trail) {
    && Chain(t.status, t.item.status)
    && FlagsExplained(t.status)
    && LengthLaw(t.status, t.item.status)
    && EarlyOnly(t.status, t.item.status)
  }

  /** The item row and the assignment row tell the same story. */
  ghost predicate HolderOk(t: Trail) {
    && t.item.assignedToUserID == Holder(t.row)
    && (t.row.Some? ==>
          && Trimmed(t.row.value.assignedToUserID) && t.row.value.assignedToUserID != ""
          && !Blank(t.row.value.assignedByUserID)
          && t.row.value.workItemID == t.item.id
          && (t.row.value.status == Taken ==> !t.item.status.Early()))
  }

  /** A response directly follows the assignment it answers, by the user it was
      made to; an acceptance is final. */
  ghost predicate EventsOk(events: seq<AssignmentEvent>) {
    && (forall j, k :: 0 <= j && k == j + 1 && k < |events| && events[k].action != Pending ==>
          && events[j].action == Pending
          && events[j].assignedToUserID == events[k].assignedToUserID == events[k].actorUserID)
    && (events != [] ==> events[0].action == Pending)
    && (forall k :: 0 <= k < |events| && events[k].action == Taken ==> k == |events| - 1)
  }

  /** An assignment event and the status change made by the same call. */
  predicate SameCall(e: AssignmentEvent, h: StatusEntry) {
    && h.changedByUserID == e.actorUserID && h.createdAt == e.createdAt && h.reason == e.note
    && match e.action
       case Pending => h.fromStatus == Some(Created) && h.toStatus == Assigned
       case Taken => h.fromStatus == Some(Assigned) && h.toStatus == Accepted
       case Declined => h.fromStatus == Some(Assigned) && h.toStatus == Created
  }

  /** `at` places the events, in order, among the status changes. */
  ghost predicate Embeds(events: seq<AssignmentEvent>, history: seq<StatusEntry>, at: seq<nat>) {
    && |at| == |events|
    && (forall i :: 0 <= i < |at| ==> at[i] < |history| && SameCall(events[i], history[at[i]]))
    && (forall i, j :: 0 <= i < j < |at| ==> at[i] < at[j])
  }

  ghost predicate EventsInHistory(events: seq<AssignmentEvent>, history: seq<StatusEntry>) {
    exists at :: Embeds(events, history, at)
  }

  ghost predicate EventLogOk(t: Trail) {
    t.row == Replay(t.events) && EventsOk(t.events) && EventsInHistory(t.events, t.status)
  }

  /** The status-change kinds, with the status that raises them. */
  function Raises(status: Status): N.Kind {
    match status
    case Flagged => N.WorkFlagged
    case Verified => N.WorkVerified
    case Completed => N.WorkCompleted
    case _ => N.OtherKind("")
  }

  /** One notification per event that raises one, to the right person. */
  ghost predicate ToldAssignee(t: Trail, status: Status) {
    Recipients(t.sent, Raises(status)) ==
      match t.item.assignedToUserID
      case Some(user) => Repeat(user, Entered(t.status, status))
      case None => []
  }

  ghost predicate HandoversTold(t: Trail) {
    Recipients(t.sent, N.AssignmentCreated) == Targets(t.events)
  }

  ghost predicate AcceptanceTold(t: Trail) {
    Recipients(t.sent, N.AssignmentAccepted) ==
      if t.row.Some? && t.row.value.status == Taken then [TrimSpace(t.row.value.assignedByUserID)] else []
  }

  ghost predicate EvidenceTold(t: Trail) {
    Recipients(t.sent, N.EvidenceSubmitted) ==
      Repeat(TrimSpace(t.item.createdByUserID), Entered(t.status, SubmittedForReview))
  }

  ghost predicate KindsKnown(sent: seq<Sent>) {
    forall i :: 0 <= i < |sent| ==> !sent[i].kind.OtherKind?
  }

  ghost predicate SentOk(t: Trail) {
    && KindsKnown(t.sent)
    && (!t.hasSink ==> t.sent == [])
    && (t.hasSink ==>
          && HandoversTold(t) && AcceptanceTold(t) && EvidenceTold(t)
          && ToldAssignee(t, Flagged) && ToldAssignee(t, Verified) && ToldAssignee(t, Completed))
  }

  ghost predicate ItemOk(item: WorkItem) {
    && !Blank(item.createdByUserID)
    && exists n: nat :: item.id == ItemID(n) && item.referenceCode == ReferenceCode(n)
  }

  ghost predicate TrailInv(t: Trail) {
    ItemOk(t.item) && HistoryOk(t) && HolderOk(t) && EventLogOk(t) && SentOk(t)
  }

  // ----- One write, seen from the trail -----

  /** The item a write is about. */
  function About(w: Write): string {
    match w
    case PutItem(item) => item.id
    case AddStatus(entry) => entry.workItemID
    case NewAssignment(a) => a.workItemID
    case PutAssignment(row) => row.value.workItemID
    case AddEvent(event) => event.workItemID
    case SendNote(_, id, _, _, _) => TrimSpace(id)
  }

  function ApplyToTrail(t: Trail, w: Write): Trail {
    match w
    case PutItem(item) => t.(item := item)
    case AddStatus(entry) => t.(status := t.status + [entry])
    case NewAssignment(a) => t.(row := Some(a))
    case PutAssignment(row) => t.(row := Some(row.value))
    case AddEvent(event) => t.(events := t.events + [event])
    case SendNote(recipient, _, kind, _, _) =>
      if t.hasSink then t.(sent := t.sent + [Sent(kind, TrimSpace(recipient))]) else t
  }

  function Follow(t: Trail, ws: seq<Write>): Trail
    decreases |ws|
  {
    if ws == [] then t else Follow(ApplyToTrail(t, ws[0]), ws[1..])
  }

  lemma SentAboutSnoc(rows: seq<Stored<N.Notification>>, row: Stored<N.Notification>, id: string)
    ensures SentAbout(rows + [row], id) == SentAbout(rows, id) +
              (if row.value.workItemID == id then [Sent(row.value.kind, row.value.recipientUserID)] else [])
  {
    assert (rows + [row])[..|rows|] == rows;
  }

  /** A write changes the trail it is about, as `ApplyToTrail` says, and no other. */
  lemma ExecOnTrail(s: Stores, w: Write, id: string)
    requires id in s.items.byID && Exec(s, w).Ok?
    ensures Exec(s, w).value.items.byID.Keys == s.items.byID.Keys
    ensures TrailOf(Exec(s, w).value, id) ==
            if About(w) == id then ApplyToTrail(TrailOf(s, id), w) else TrailOf(s, id)
  {
    hide Numbered, TrimSpace, Project, SentAbout;
    var s' := Exec(s, w).value;
    match w
    case AddStatus(entry) =>
      ProjectSnoc(s.statusLog.rows, s'.statusLog.rows[|s.statusLog.rows|], StatusFor(id));
    case AddEvent(event) =>
      ProjectSnoc(s.eventLog.rows, s'.eventLog.rows[|s.eventLog.rows|], EventFor(id));
    case SendNote(_, _, _, _, _) =>
      if s.sink.Some? {
        SentAboutSnoc(SinkRows(s), SinkRows(s')[|SinkRows(s)|], id);
      }
    case _ =>
  }

  lemma {:induction false} ExecAllOnTrail(s: Stores, ws: seq<Write>, about: string, id: string)
    requires id in s.items.byID && ExecAll(s, ws).1.None?
    requires forall i :: 0 <= i < |ws| ==> About(ws[i]) == about
    ensures ExecAll(s, ws).0.items.byID.Keys == s.items.byID.Keys
    ensures TrailOf(ExecAll(s, ws).0, id) ==
            if about == id then Follow(TrailOf(s, id), ws) else TrailOf(s, id)
    decreases |ws|
  {
    if ws != [] {
      ExecOnTrail(s, ws[0], id);
      ExecAllOnTrail(Exec(s, ws[0]).value, ws[1..], about, id);
    }
  }

  lemma {:induction false} FollowConcat(t: Trail, ws: seq<Write>, vs: seq<Write>)
    ensures Follow(t, ws + vs) == Follow(Follow(t, ws), vs)
    decreases |ws|
  {
    if ws == [] {
      assert ws + vs == vs;
    } else {
      assert (ws + vs)[1..] == ws[1..] + vs;
      FollowConcat(ApplyToTrail(t, ws[0]), ws[1..], vs);
    }
  }

  lemma FollowOne(t: Trail, w: Write)
    ensures Follow(t, [w]) == ApplyToTrail(t, w)
  {
    assert [w][1..] == [];
  }

  lemma FollowTwo(t: Trail, a: Write, b: Write)
    ensures Follow(t, [a, b]) == ApplyToTrail(ApplyToTrail(t, a), b)
  {
    assert [a, b][1..] == [b];
    FollowOne(ApplyToTrail(t, a), b);
  }

  lemma FollowFour(t: Trail, a: Write, b: Write, c: Write, d: Write)
    ensures Follow(t, [a, b, c, d]) == ApplyToTrail(ApplyToTrail(ApplyToTrail(ApplyToTrail(t, a), b), c), d)
  {
    FollowConcat(t, [a, b], [c, d]);
    assert [a, b] + [c, d] == [a, b, c, d];
    FollowTwo(t, a, b);
    FollowTwo(Follow(t, [a, b]), c, d);
  }
}
