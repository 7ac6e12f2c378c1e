/** Whole runs of the platform: every workflow call on every item, notification
    reads and team changes, in any order, from empty stores. */
module WorkItemRuns {
  import opened Wrappers
  import opened Text
  import opened Records
  import opened WorkItemTypes
  import opened WorkItemModel
  import opened Trails
  import opened TrailSteps
  import TeamModel
  import TeamHistory
  import N = NotificationModel

  datatype World = World(stores: Stores, teams: TeamModel.TeamState, hasAuthority: bool)

  function Start(hasSink: bool, hasAuthority: bool): World {
    World(EmptyStores(hasSink), TeamModel.NO_TEAMS, hasAuthority)
  }

  function Authority(w: World): Option<TeamModel.TeamState> {
    if w.hasAuthority then Some(w.teams) else None
  }

  datatype Command =
    | CreateItem(createdBy: string, input: CreateInput, at: int)
    | EditItem(edit: UpdateRequest, at: int)
    | MoveItem(move: MoveRequest, at: int, noteAt: int)
    | AssignItem(assign: AssignRequest, at: int, noteAt: int)
    | RespondItem(respond: RespondRequest, at: int, noteAt: int)
    | ReadNote(id: string, user: string, at: int)
    | ChangeTeams(change: TeamModel.TeamCommand)

  function ReadNotification(s: Stores, id: string, user: string, at: int): Stores {
    match s.sink
    case None => s
    case Some(log) => s.(sink := Some(N.MarkAsRead(log, id, user, at).0))
  }

  /** The plan a workflow command makes in this world. */
  function PlanOf(w: World, c: Command): Result<seq<Write>, Error> {
    match c
    case EditItem(q, at) => UpdatePlan(w.stores, Authority(w), q, at)
    case MoveItem(q, at, noteAt) => MovePlan(w.stores, Authority(w), q, at, noteAt)
    case AssignItem(q, at, noteAt) => AssignPlan(w.stores, Authority(w), q, at, noteAt)
    case RespondItem(q, at, noteAt) => RespondPlan(w.stores, q, at, noteAt)
    case _ => Ok([])
  }

  function Step(w: World, c: Command): World {
    match c
    case CreateItem(createdBy, input, at) => w.(stores := Create(w.stores, createdBy, input, at).0)
    case ReadNote(id, user, at) => w.(stores := ReadNotification(w.stores, id, user, at))
    case ChangeTeams(change) => w.(teams := TeamModel.Apply(w.teams, change))
    case _ => w.(stores := Perform(w.stores, PlanOf(w, c)).0)
  }

  function Run(w: World, cs: seq<Command>): World {
    if cs == [] then w else Step(Run(w, cs[..|cs| - 1]), cs[|cs| - 1])
  }

  // ----- The state invariant -----

  /** The order list enumerates the keys in creation order, without repeats. */
  ghost predicate TableOk(t: ItemTable) {
    && |t.ordered| == t.counter
    && (forall i :: 0 <= i < |t.ordered| ==> t.ordered[i] == ItemID(i + 1) && t.ordered[i] in t.byID)
    && (forall id :: id in t.byID ==> id in t.ordered && t.byID[id].id == id)
  }

  /** Every row in every store is about an item that exists. */
  ghost predicate NoOrphans(s: Stores) {
    && (forall i :: 0 <= i < |s.statusLog.rows| ==> s.statusLog.rows[i].value.workItemID in s.items.byID)
    && (forall i :: 0 <= i < |s.eventLog.rows| ==> s.eventLog.rows[i].value.workItemID in s.items.byID)
    && (forall i :: 0 <= i < |SinkRows(s)| ==> SinkRows(s)[i].value.workItemID in s.items.byID)
    && (forall id :: id in s.assignments.byWorkItem ==> id in s.items.byID)
  }

  ghost predicate StoresInv(s: Stores) {
    && TableOk(s.items)
    && NoOrphans(s)
    && (forall id :: id in s.items.byID ==> TrailInv(TrailOf(s, id)))
  }

  ghost predicate WorldInv(w: World) {
    StoresInv(w.stores) && TeamHistory.TeamInv(w.teams)
  }

  lemma StartOk(hasSink: bool, hasAuthority: bool)
    ensures WorldInv(Start(hasSink, hasAuthority))
  {
    TeamHistory.RunKeepsInv([]);
  }

  // ----- Creating -----

  /** A new id is no key yet: creation never overwrites. */
  lemma NewIdIsFresh(t: ItemTable)
    requires TableOk(t)
    ensures ItemID(t.counter + 1) !in t.byID
  {
    hide Numbered;
    forall i | 0 <= i < |t.ordered| ensures t.ordered[i] != ItemID(t.counter + 1) {
      NumberedInjective("workitem-", i + 1, t.counter + 1);
    }
  }

  lemma InsertKeepsTable(t: ItemTable, item: WorkItem)
    requires TableOk(t)
    ensures TableOk(Insert(t, item).0)
  {
    hide Numbered;
    var t' := Insert(t, item).0;
    var id := ItemID(t.counter + 1);
    forall k | k in t'.byID ensures k in t'.ordered && t'.byID[k].id == k {
      if k == id {
        assert t'.ordered[|t.ordered|] == id;
      } else {
        var i :| 0 <= i < |t.ordered| && t.ordered[i] == k;
        assert t'.ordered[i] == k;
      }
    }
  }

  /** Nothing is on file about an item that does not exist. */
  lemma NothingOnFile(s: Stores, id: string)
    requires NoOrphans(s) && id !in s.items.byID
    ensures Project(s.statusLog.rows, StatusFor(id)) == [] && Project(s.eventLog.rows, EventFor(id)) == []
    ensures SentAbout(SinkRows(s), id) == [] && RowOf(s, id).None?
  {
    ProjectNothing(s.statusLog.rows, StatusFor(id));
    ProjectNothing(s.eventLog.rows, EventFor(id));
    NothingSent(SinkRows(s), id);
  }

  lemma {:induction false} NothingSent(rows: seq<Stored<N.Notification>>, id: string)
    requires forall i :: 0 <= i < |rows| ==> rows[i].value.workItemID != id
    ensures SentAbout(rows, id) == []
  {
    if rows != [] {
      NothingSent(rows[..|rows| - 1], id);
    }
  }

  lemma CreatedItem(s: Stores, createdBy: string, input: CreateInput, now: int)
    requires Create(s, createdBy, input, now).1.Ok?
    ensures var (s', r) := Create(s, createdBy, input, now);
            && r.value.id == ItemID(s.items.counter + 1)
            && s' == s.(items := s'.items) && s'.items.byID == s.items.byID[r.value.id := r.value]
            && ItemOk(r.value) && r.value.status == Created && r.value.assignedToUserID.None?
  {
    var n: nat := s.items.counter + 1;
    assert Create(s, createdBy, input, now).1.value.id == ItemID(n);
  }

  /** A trail depends on the item table only through its own row. */
  lemma SameRowSameTrail(s: Stores, s': Stores, id: string)
    requires s' == s.(items := s'.items)
    requires id in s.items.byID && id in s'.items.byID && s'.items.byID[id] == s.items.byID[id]
    ensures TrailOf(s', id) == TrailOf(s, id)
  {
    assert SinkRows(s') == SinkRows(s);
  }

  lemma CreatedTrail(s: Stores, createdBy: string, input: CreateInput, now: int)
    requires TableOk(s.items) && NoOrphans(s) && Create(s, createdBy, input, now).1.Ok?
    ensures var (s', r) := Create(s, createdBy, input, now);
            r.value.id in s'.items.byID && TrailInv(TrailOf(s', r.value.id))
  {
    var (s', r) := Create(s, createdBy, input, now);
    var item := r.value;
    CreatedItem(s, createdBy, input, now);
    NewIdIsFresh(s.items);
    NothingOnFile(s, item.id);
    FreshTrail(item, s.sink.Some?);
    assert TrailOf(s', item.id) == Trail(item, None, [], [], s.sink.Some?, []);
  }

  lemma CreateKeepsShape(s: Stores, createdBy: string, input: CreateInput, now: int)
    requires TableOk(s.items) && NoOrphans(s)
    ensures TableOk(Create(s, createdBy, input, now).0.items) && NoOrphans(Create(s, createdBy, input, now).0)
  {
    var (s', r) := Create(s, createdBy, input, now);
    if r.Ok? {
      InsertKeepsTable(s.items, r.value);
      assert s'.items == Insert(s.items, r.value).0;
      MoreItemsNoOrphans(s, s'.items);
    }
  }

  lemma MoreItemsNoOrphans(s: Stores, items: ItemTable)
    requires NoOrphans(s) && s.items.byID.Keys <= items.byID.Keys
    ensures NoOrphans(s.(items := items))
  {
    assert SinkRows(s.(items := items)) == SinkRows(s);
  }

  lemma CreateKeepsInv(s: Stores, createdBy: string, input: CreateInput, now: int)
    requires StoresInv(s)
    ensures StoresInv(Create(s, createdBy, input, now).0)
  {
    var (s', r) := Create(s, createdBy, input, now);
    if r.Ok? {
      CreateKeepsShape(s, createdBy, input, now);
      CreatedItem(s, createdBy, input, now);
      NewIdIsFresh(s.items);
      CreatedTrail(s, createdBy, input, now);
      forall id | id in s'.items.byID ensures TrailInv(TrailOf(s', id)) {
        if id != r.value.id {
          SameRowSameTrail(s, s', id);
        }
      }
    }
  }

  // ----- A list of writes about one item -----

  /** A write that cannot fail: what it updates exists, what it sends is not blank. */
  ghost predicate Doable(s: Stores, w: Write) {
    match w
    case PutItem(item) => item.id in s.items.byID
    case PutAssignment(row) => row.value.workItemID in s.assignments.byWorkItem
    case SendNote(recipient, id, kind, message, _) =>
      !Blank(recipient) && !Blank(id) && kind != N.OtherKind("") && !Blank(message)
    case _ => true
  }

  lemma ExecDoable(s: Stores, w: Write)
    requires Doable(s, w)
    ensures Exec(s, w).Ok?
    ensures forall v :: Doable(s, v) ==> Doable(Exec(s, w).value, v)
  {
  }

  lemma {:induction false} ExecAllDoable(s: Stores, ws: seq<Write>)
    requires forall i :: 0 <= i < |ws| ==> Doable(s, ws[i])
    ensures ExecAll(s, ws).1.None?
    decreases |ws|
  {
    if ws != [] {
      ExecDoable(s, ws[0]);
      ExecAllDoable(Exec(s, ws[0]).value, ws[1..]);
    }
  }

  lemma ExecKeepsTable(s: Stores, w: Write)
    requires TableOk(s.items) && Exec(s, w).Ok?
    ensures TableOk(Exec(s, w).value.items)
    ensures Exec(s, w).value.items.byID.Keys == s.items.byID.Keys
  {
    if w.PutItem? {
      var t, t' := s.items, Exec(s, w).value.items;
      forall id | id in t'.byID ensures id in t'.ordered && t'.byID[id].id == id {
        assert id in t.byID;
      }
    } else {
      assert Exec(s, w).value.items == s.items;
    }
  }

  lemma ExecKeepsNoOrphans(s: Stores, w: Write)
    requires NoOrphans(s) && About(w) in s.items.byID && Exec(s, w).Ok?
    ensures NoOrphans(Exec(s, w).value)
  {
    var s' := Exec(s, w).value;
    assert s'.items.byID.Keys == s.items.byID.Keys;
    match w
    case SendNote(_, _, _, _, _) =>
      if s.sink.Some? {
        assert SinkRows(s') == SinkRows(s) + [SinkRows(s')[|SinkRows(s)|]];
      }
    case _ =>
      assert SinkRows(s') == SinkRows(s);
  }

  lemma {:induction false} ExecAllKeepsShape(s: Stores, ws: seq<Write>, id: string)
    requires TableOk(s.items) && NoOrphans(s) && id in s.items.byID
    requires forall i :: 0 <= i < |ws| ==> About(ws[i]) == id
    ensures TableOk(ExecAll(s, ws).0.items) && NoOrphans(ExecAll(s, ws).0)
    decreases |ws|
  {
    if ws != [] && Exec(s, ws[0]).Ok? {
      ExecKeepsTable(s, ws[0]);
      ExecKeepsNoOrphans(s, ws[0]);
      ExecAllKeepsShape(Exec(s, ws[0]).value, ws[1..], id);
    }
  }

  /** Writes that succeed and keep one trail lawful keep the whole state lawful. */
  lemma ExecAllKeepsInv(s: Stores, ws: seq<Write>, id: string)
    requires StoresInv(s) && id in s.items.byID
    requires forall i :: 0 <= i < |ws| ==> About(ws[i]) == id
    requires ExecAll(s, ws).1.None? && TrailInv(Follow(TrailOf(s, id), ws))
    ensures StoresInv(ExecAll(s, ws).0)
  {
    var s' := ExecAll(s, ws).0;
    ExecAllKeepsShape(s, ws, id);
    ExecAllOnTrail(s, ws, id, id);
    forall k | k in s'.items.byID ensures TrailInv(TrailOf(s', k)) {
      ExecAllOnTrail(s, ws, id, k);
    }
  }

  // ----- The plans -----

  /** Messages start with the reference code and end with a word. */
  lemma MessageNotBlank(item: WorkItem, text: string)
    requires ItemOk(item) && text != "" && !IsSpace(text[|text| - 1])
    ensures !Blank(item.referenceCode + text)
  {
    TightIsTrimmed(item.referenceCode + text);
  }

  lemma ItemIdIsTight(item: WorkItem)
    requires ItemOk(item)
    ensures Trimmed(item.id) && !Blank(item.id)
  {
    var n: nat :| item.id == ItemID(n) && item.referenceCode == ReferenceCode(n);
    NumberedIsTight("workitem-", n);
  }

  lemma TrimmedNotBlank(s: string)
    requires Trimmed(s) && s != ""
    ensures !Blank(s)
  {
  }

  /** All writes concern one item, and none of them can fail. */
  ghost predicate SoundFor(s: Stores, ws: seq<Write>, id: string) {
    forall i :: 0 <= i < |ws| ==> About(ws[i]) == id && Doable(s, ws[i])
  }

  lemma SoundConcat(s: Stores, ws: seq<Write>, vs: seq<Write>, id: string)
    requires SoundFor(s, ws, id) && SoundFor(s, vs, id)
    ensures SoundFor(s, ws + vs, id)
  {
  }

  /** What the soundness of a plan needs to know about its item. */
  ghost predicate Sane(s: Stores, id: string) {
    && id in s.items.byID && s.items.byID[id].id == id
    && ItemOk(s.items.byID[id]) && HolderOk(TrailOf(s, id))
  }

  lemma LawfulIsSane(s: Stores, id: string)
    requires StoresInv(s) && id in s.items.byID
    ensures Sane(s, id)
  {
    assert TrailInv(TrailOf(s, id));
  }

  /** What the guards of a status change let through fits the trail... */
  lemma MovePlanIsAllowed(s: Stores, authority: Option<TeamModel.TeamState>, q: MoveRequest, now: int, noteNow: int)
    requires TableOk(s.items) && MovePlan(s, authority, q, now, noteNow).Ok?
    ensures q.id in s.items.byID && MoveAllowed(TrailOf(s, q.id), q)
    ensures MovePlan(s, authority, q, now, noteNow).value == MoveWrites(s.items.byID[q.id], q, now, noteNow)
  {
    var item := s.items.byID[q.id];
    assert item.id == q.id;
    if IsAssigneeAllowedTransition(item.status, q.toStatus) {
      AssigneeMovesAreValid(item.status, q.toStatus);
    }
  }

  /** ...concerns the one item, and cannot fail. */
  lemma MoveWritesAreSound(s: Stores, q: MoveRequest, now: int, noteNow: int)
    requires Sane(s, q.id)
    ensures SoundFor(s, MoveWrites(s.items.byID[q.id], q, now, noteNow), q.id)
  {
    var item := s.items.byID[q.id];
    var moved := item.(status := q.toStatus, updatedAt := now);
    var first := [PutItem(moved),
                  AddStatus(StatusEntry(q.id, Some(item.status), q.toStatus, q.actor, Clean(q.reason), now))];
    assert SoundFor(s, first, q.id);
    MoveNotesAreSound(s, TrailOf(s, q.id), moved, noteNow);
    SoundConcat(s, first, NotesForStatus(q.id, moved, noteNow), q.id);
  }

  lemma NoteIsSound(s: Stores, item: WorkItem, recipient: string, kind: N.Kind, text: string, noteNow: int)
    requires ItemOk(item) && !Blank(recipient) && kind != N.OtherKind("")
    requires text != "" && !IsSpace(text[|text| - 1])
    ensures SoundFor(s, [SendNote(recipient, item.id, kind, item.referenceCode + text, noteNow)], item.id)
  {
    hide TrimSpace, Numbered, IsSpace, ItemOk;
    ItemIdIsTight(item);
    MessageNotBlank(item, text);
  }

  lemma MoveNotesAreSound(s: Stores, t: Trail, moved: WorkItem, noteNow: int)
    requires ItemOk(t.item) && HolderOk(t)
    requires moved == t.item.(status := moved.status, updatedAt := moved.updatedAt)
    ensures SoundFor(s, NotesForStatus(moved.id, moved, noteNow), moved.id)
  {
    hide Numbered, TrimSpace;
    MovedItemOk(t.item, moved);
    if moved.status == SubmittedForReview {
      NoteIsSound(s, moved, moved.createdByUserID, N.EvidenceSubmitted, " was submitted for review", noteNow);
    } else if moved.assignedToUserID.Some? {
      var user := moved.assignedToUserID.value;
      TrimmedNotBlank(user);
      if moved.status == Flagged {
        NoteIsSound(s, moved, user, N.WorkFlagged, " was flagged and needs rework", noteNow);
      } else if moved.status == Verified {
        NoteIsSound(s, moved, user, N.WorkVerified, " was verified", noteNow);
      } else if moved.status == Completed {
        NoteIsSound(s, moved, user, N.WorkCompleted, " was marked completed", noteNow);
      }
    }
  }

  lemma MovedItemOk(item: WorkItem, moved: WorkItem)
    requires ItemOk(item) && moved == item.(status := moved.status, updatedAt := moved.updatedAt)
    ensures ItemOk(moved)
  {
    var n: nat :| item.id == ItemID(n) && item.referenceCode == ReferenceCode(n);
    assert moved.id == ItemID(n);
  }

  lemma AssignPlanIsAllowed(s: Stores, authority: Option<TeamModel.TeamState>, q: AssignRequest, now: int, noteNow: int)
    requires TableOk(s.items) && AssignPlan(s, authority, q, now, noteNow).Ok?
    ensures q.id in s.items.byID && AssignAllowed(TrailOf(s, q.id), q)
    ensures AssignPlan(s, authority, q, now, noteNow).value == AssignWrites(s.items.byID[q.id], q, now, noteNow)
  {
    assert s.items.byID[q.id].id == q.id;
  }

  lemma AssignWritesAreSound(s: Stores, q: AssignRequest, now: int, noteNow: int)
    requires Sane(s, q.id) && !Blank(q.target)
    ensures SoundFor(s, AssignWrites(s.items.byID[q.id], q, now, noteNow), q.id)
  {
    hide TrimSpace, Numbered;
    var item := s.items.byID[q.id];
    TrimIdempotent(q.target);
    TrimmedNotBlank(TrimSpace(q.target));
    NoteIsSound(s, item, TrimSpace(q.target), N.AssignmentCreated, " was assigned to you", noteNow);
    var ws := AssignWrites(item, q, now, noteNow);
    assert SoundFor(s, ws[..4], q.id);
    SoundConcat(s, ws[..4], [ws[4]], q.id);
    assert ws == ws[..4] + [ws[4]];
  }

  lemma RespondPlanIsAllowed(s: Stores, q: RespondRequest, now: int, noteNow: int)
    requires TableOk(s.items) && RespondPlan(s, q, now, noteNow).Ok?
    ensures q.id in s.items.byID && RespondAllowed(TrailOf(s, q.id), q) && q.id in s.assignments.byWorkItem
    ensures RespondPlan(s, q, now, noteNow).value ==
            RespondWrites(s.items.byID[q.id], s.assignments.byWorkItem[q.id], q, now, noteNow)
  {
    assert s.items.byID[q.id].id == q.id;
  }

  lemma RespondWritesAreSound(s: Stores, q: RespondRequest, now: int, noteNow: int)
    requires Sane(s, q.id) && q.id in s.assignments.byWorkItem
    ensures SoundFor(s, RespondWrites(s.items.byID[q.id], s.assignments.byWorkItem[q.id], q, now, noteNow), q.id)
  {
    hide TrimSpace, Numbered;
    var item, row := s.items.byID[q.id], s.assignments.byWorkItem[q.id];
    assert row.value.workItemID == q.id && !Blank(row.value.assignedByUserID);
    NoteIsSound(s, item, row.value.assignedByUserID, N.AssignmentAccepted, " was accepted by the assignee", noteNow);
    var ws := RespondWrites(item, row, q, now, noteNow);
    assert SoundFor(s, ws[..4], q.id);
    SoundConcat(s, ws[..4], ws[4..], q.id);
    assert ws == ws[..4] + ws[4..];
  }

  lemma UpdatePlanIsSound(s: Stores, authority: Option<TeamModel.TeamState>, q: UpdateRequest, now: int)
    requires TableOk(s.items) && UpdatePlan(s, authority, q, now).Ok?
    ensures q.id in s.items.byID
    ensures Edited(s.items.byID[q.id], q.input, now).Ok?
    ensures var edited := Edited(s.items.byID[q.id], q.input, now).value;
            UpdatePlan(s, authority, q, now).value == [PutItem(edited)] && edited.id == q.id
  {
    assert s.items.byID[q.id].id == q.id;
  }

  /** Editing never touches what the trail invariant is about. */
  lemma EditKeepsTrail(t: Trail, input: UpdateInput, now: int)
    requires TrailInv(t) && Edited(t.item, input, now).Ok?
    ensures TrailInv(t.(item := Edited(t.item, input, now).value))
  {
    var t' := t.(item := Edited(t.item, input, now).value);
    assert ItemOk(t'.item) by {
      var n: nat :| t.item.id == ItemID(n) && t.item.referenceCode == ReferenceCode(n);
      assert t'.item.id == ItemID(n);
    }
    assert HistoryOk(t') && HolderOk(t') && EventLogOk(t');
    assert SentOk(t') by {
      assert ToldAssignee(t', Flagged) == ToldAssignee(t, Flagged);
      assert ToldAssignee(t', Verified) == ToldAssignee(t, Verified);
      assert ToldAssignee(t', Completed) == ToldAssignee(t, Completed);
    }
  }

  /** A plan made in a lawful state succeeds completely and leaves a lawful state. */
  ghost predicate Succeeds(s: Stores, plan: Result<seq<Write>, Error>) {
    Perform(s, plan).1.None? && StoresInv(Perform(s, plan).0)
  }

  lemma EditFollows(s: Stores, authority: Option<TeamModel.TeamState>, q: UpdateRequest, now: int)
    requires TableOk(s.items) && UpdatePlan(s, authority, q, now).Ok?
    requires q.id in s.items.byID && TrailInv(TrailOf(s, q.id))
    ensures var ws := UpdatePlan(s, authority, q, now).value;
            SoundFor(s, ws, q.id) && TrailInv(Follow(TrailOf(s, q.id), ws))
  {
    hide TrimSpace, Numbered;
    UpdatePlanIsSound(s, authority, q, now);
    FollowOne(TrailOf(s, q.id), PutItem(Edited(s.items.byID[q.id], q.input, now).value));
    EditKeepsTrail(TrailOf(s, q.id), q.input, now);
  }

  lemma EditSucceeds(s: Stores, authority: Option<TeamModel.TeamState>, q: UpdateRequest, now: int)
    requires StoresInv(s) && UpdatePlan(s, authority, q, now).Ok?
    ensures Succeeds(s, UpdatePlan(s, authority, q, now))
  {
    UpdatePlanIsSound(s, authority, q, now);
    EditFollows(s, authority, q, now);
    ExecAllDoable(s, UpdatePlan(s, authority, q, now).value);
    ExecAllKeepsInv(s, UpdatePlan(s, authority, q, now).value, q.id);
  }

  lemma MoveSucceeds(s: Stores, authority: Option<TeamModel.TeamState>, q: MoveRequest, now: int, noteNow: int)
    requires StoresInv(s) && MovePlan(s, authority, q, now, noteNow).Ok?
    ensures Succeeds(s, MovePlan(s, authority, q, now, noteNow))
  {
    MovePlanIsAllowed(s, authority, q, now, noteNow);
    LawfulIsSane(s, q.id);
    MoveWritesAreSound(s, q, now, noteNow);
    var ws := MovePlan(s, authority, q, now, noteNow).value;
    ExecAllDoable(s, ws);
    MoveEffect(TrailOf(s, q.id), q, now, noteNow);
    MoveKeepsTrail(TrailOf(s, q.id), q, now);
    ExecAllKeepsInv(s, ws, q.id);
  }

  lemma AssignSucceeds(s: Stores, authority: Option<TeamModel.TeamState>, q: AssignRequest, now: int, noteNow: int)
    requires StoresInv(s) && AssignPlan(s, authority, q, now, noteNow).Ok?
    ensures Succeeds(s, AssignPlan(s, authority, q, now, noteNow))
  {
    AssignPlanIsAllowed(s, authority, q, now, noteNow);
    LawfulIsSane(s, q.id);
    AssignWritesAreSound(s, q, now, noteNow);
    var ws := AssignPlan(s, authority, q, now, noteNow).value;
    ExecAllDoable(s, ws);
    AssignEffect(TrailOf(s, q.id), q, now, noteNow);
    AssignKeepsTrail(TrailOf(s, q.id), q, now);
    ExecAllKeepsInv(s, ws, q.id);
  }

  lemma RespondSucceeds(s: Stores, q: RespondRequest, now: int, noteNow: int)
    requires StoresInv(s) && RespondPlan(s, q, now, noteNow).Ok?
    ensures Succeeds(s, RespondPlan(s, q, now, noteNow))
  {
    RespondPlanIsAllowed(s, q, now, noteNow);
    LawfulIsSane(s, q.id);
    RespondWritesAreSound(s, q, now, noteNow);
    var ws := RespondPlan(s, q, now, noteNow).value;
    ExecAllDoable(s, ws);
    RespondEffect(TrailOf(s, q.id), s.assignments.byWorkItem[q.id], q, now, noteNow);
    RespondKeepsTrail(TrailOf(s, q.id), q, now);
    ExecAllKeepsInv(s, ws, q.id);
  }

  lemma PlansSucceed(w: World, c: Command)
    requires WorldInv(w) && PlanOf(w, c).Ok?
    ensures Succeeds(w.stores, PlanOf(w, c))
  {
    match c
    case EditItem(q, at) => EditSucceeds(w.stores, Authority(w), q, at);
    case MoveItem(q, at, noteAt) => MoveSucceeds(w.stores, Authority(w), q, at, noteAt);
    case AssignItem(q, at, noteAt) => AssignSucceeds(w.stores, Authority(w), q, at, noteAt);
    case RespondItem(q, at, noteAt) => RespondSucceeds(w.stores, q, at, noteAt);
    case _ =>
  }

  // ----- Reading notifications -----

  lemma {:induction false} RereadSentAbout(
    rows: seq<Stored<N.Notification>>, i: nat, row: Stored<N.Notification>, id: string)
    requires i < |rows|
    requires row.value.workItemID == rows[i].value.workItemID && row.value.kind == rows[i].value.kind
    requires row.value.recipientUserID == rows[i].value.recipientUserID
    ensures SentAbout(rows[i := row], id) == SentAbout(rows, id)
  {
    var n := |rows| - 1;
    if i < n {
      RereadSentAbout(rows[..n], i, row, id);
      assert rows[i := row][..n] == rows[..n][i := row];
    } else {
      assert rows[i := row][..n] == rows[..n];
    }
  }

  lemma ReadingKeepsTrails(s: Stores, id: string, user: string, at: int, k: string)
    requires k in s.items.byID
    ensures var s' := ReadNotification(s, id, user, at);
            s' == s.(sink := s'.sink) && TrailOf(s', k) == TrailOf(s, k)
  {
    var s' := ReadNotification(s, id, user, at);
    if s' != s {
      var i := N.RowIndex(SinkRows(s), id);
      RereadSentAbout(SinkRows(s), i, SinkRows(s')[i], k);
    }
  }

  lemma ReadingKeepsNoOrphans(s: Stores, id: string, user: string, at: int)
    requires NoOrphans(s)
    ensures NoOrphans(ReadNotification(s, id, user, at))
  {
    var s' := ReadNotification(s, id, user, at);
    assert |SinkRows(s')| == |SinkRows(s)|;
    assert forall i :: 0 <= i < |SinkRows(s')| ==> SinkRows(s')[i].value.workItemID == SinkRows(s)[i].value.workItemID;
  }

  lemma ReadingKeepsInv(s: Stores, id: string, user: string, at: int)
    requires StoresInv(s)
    ensures StoresInv(ReadNotification(s, id, user, at))
  {
    var s' := ReadNotification(s, id, user, at);
    ReadingKeepsNoOrphans(s, id, user, at);
    assert s'.items == s.items;
    forall k | k in s'.items.byID ensures TrailInv(TrailOf(s', k)) {
      ReadingKeepsTrails(s, id, user, at, k);
    }
  }

  // ----- Every run -----

  lemma StepKeepsInv(w: World, c: Command)
    requires WorldInv(w)
    ensures WorldInv(Step(w, c))
  {
    hide StoresInv, TrimSpace, Numbered;
    match c
    case CreateItem(createdBy, input, at) => CreateKeepsInv(w.stores, createdBy, input, at);
    case ReadNote(id, user, at) => ReadingKeepsInv(w.stores, id, user, at);
    case ChangeTeams(change) => TeamHistory.ApplyKeepsInv(w.teams, change);
    case _ =>
      if PlanOf(w, c).Ok? {
        PlansSucceed(w, c);
      }
  }

  lemma {:induction false} RunKeepsInv(w: World, cs: seq<Command>)
    requires WorldInv(w)
    ensures WorldInv(Run(w, cs))
  {
    if cs != [] {
      RunKeepsInv(w, cs[..|cs| - 1]);
      StepKeepsInv(Run(w, cs[..|cs| - 1]), cs[|cs| - 1]);
    }
  }
}
