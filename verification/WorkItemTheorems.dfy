/** What holds of every item after every run of commands. */
module WorkItemTheorems {
  import opened Wrappers
  import opened Text
  import opened Sequences
  import opened Records
  import opened WorkItemTypes
  import opened WorkItemModel
  import opened Trails
  import opened TrailSteps
  import opened WorkItemRuns
  import TeamModel
  import N = NotificationModel

  function After(hasSink: bool, hasAuthority: bool, cs: seq<Command>): Stores {
    Run(Start(hasSink, hasAuthority), cs).stores
  }

  function HistoryOf(s: Stores, id: string): seq<StatusEntry> {
    Project(s.statusLog.rows, StatusFor(id))
  }

  function EventsOf(s: Stores, id: string): seq<AssignmentEvent> {
    Project(s.eventLog.rows, EventFor(id))
  }

  lemma AfterOk(hasSink: bool, hasAuthority: bool, cs: seq<Command>)
    ensures WorldInv(Run(Start(hasSink, hasAuthority), cs))
    ensures StoresInv(After(hasSink, hasAuthority, cs))
  {
    StartOk(hasSink, hasAuthority);
    RunKeepsInv(Start(hasSink, hasAuthority), cs);
  }

  // ----- The audit logs explain the state -----

  /** Replaying the event log from nothing gives the current assignment row,
      and there is no row exactly when there is nothing to replay. */
  lemma AssignmentRebuilt(hasSink: bool, hasAuthority: bool, cs: seq<Command>, id: string)
    ensures var s := After(hasSink, hasAuthority, cs);
            && RowOf(s, id) == Replay(EventsOf(s, id))
            && (id !in s.assignments.byWorkItem <==> EventsOf(s, id) == [])
  {
    AfterOk(hasSink, hasAuthority, cs);
    var s := After(hasSink, hasAuthority, cs);
    if id in s.items.byID {
      assert TrailInv(TrailOf(s, id));
      if EventsOf(s, id) != [] {
        ReplayReadsLast(EventsOf(s, id));
      }
    } else {
      NothingOnFile(s, id);
    }
  }

  /** The status history is a path of valid moves ending at the item's status,
      its length is fixed by the status and the number of declines and flags,
      and no flag is unexplained. */
  lemma HistoryExplainsStatus(hasSink: bool, hasAuthority: bool, cs: seq<Command>, id: string)
    requires id in After(hasSink, hasAuthority, cs).items.byID
    ensures var s := After(hasSink, hasAuthority, cs);
            var status := s.items.byID[id].status;
            && Chain(HistoryOf(s, id), status)
            && FlagsExplained(HistoryOf(s, id))
            && LengthLaw(HistoryOf(s, id), status)
  {
    AfterOk(hasSink, hasAuthority, cs);
    assert TrailInv(TrailOf(After(hasSink, hasAuthority, cs), id));
  }

  /** Every assignment event is one status change made by the same call; answers
      directly follow the assignment they answer; an acceptance ends the log. */
  lemma EventsEmbedInHistory(hasSink: bool, hasAuthority: bool, cs: seq<Command>, id: string)
    requires id in After(hasSink, hasAuthority, cs).items.byID
    ensures var s := After(hasSink, hasAuthority, cs);
            EventsInHistory(EventsOf(s, id), HistoryOf(s, id)) && EventsOk(EventsOf(s, id))
  {
    AfterOk(hasSink, hasAuthority, cs);
    assert TrailInv(TrailOf(After(hasSink, hasAuthority, cs), id));
  }

  lemma ChainInit(history: seq<StatusEntry>, status: Status)
    requires Chain(history, status) && history != []
    ensures history[|history| - 1].fromStatus.Some?
    ensures Chain(history[..|history| - 1], history[|history| - 1].fromStatus.value)
  {
    hide IsValidTransition;
    var init, last := history[..|history| - 1], history[|history| - 1];
    if init != [] {
      assert history[|init|].fromStatus == Some(history[|init| - 1].toStatus);
    }
    assert forall k :: 0 <= k < |init| ==> init[k] == history[k];
  }

  lemma {:induction false} VerdictsWhileLive(history: seq<StatusEntry>, status: Status)
    requires Chain(history, status) && status != Cancelled
    ensures Entered(history, SubmittedForReview) ==
            Entered(history, Verified) + Entered(history, Flagged) + (if status == SubmittedForReview then 1 else 0)
    ensures Entered(history, Verified) == if status == Verified || status == Completed then 1 else 0
  {
    if history != [] {
      ChainInit(history, status);
      VerdictsWhileLive(history[..|history| - 1], history[|history| - 1].fromStatus.value);
    }
  }

  /** The status the item has, or had when it was cancelled. */
  function LiveStatus(history: seq<StatusEntry>, status: Status): Option<Status> {
    if status == Cancelled && history != [] then history[|history| - 1].fromStatus else Some(status)
  }

  /** Each submission is answered by one verdict, except the one now pending or
      pending when the item was cancelled; at most one verdict is a verification. */
  lemma VerdictsAnswerSubmissions(history: seq<StatusEntry>, status: Status)
    requires Chain(history, status)
    ensures var live := LiveStatus(history, status);
            && Entered(history, SubmittedForReview) ==
                 Entered(history, Verified) + Entered(history, Flagged)
                 + (if live == Some(SubmittedForReview) then 1 else 0)
            && Entered(history, Verified) == if live == Some(Verified) || live == Some(Completed) then 1 else 0
  {
    if status == Cancelled {
      ChainInit(history, status);
      VerdictsWhileLive(history[..|history| - 1], history[|history| - 1].fromStatus.value);
    } else {
      VerdictsWhileLive(history, status);
    }
  }

  lemma {:induction false} LengthWhileLive(history: seq<StatusEntry>, status: Status)
    requires Chain(history, status)
    ensures LengthLaw(history, status)
  {
    if history != [] && status != Cancelled {
      ChainInit(history, status);
      LengthWhileLive(history[..|history| - 1], history[|history| - 1].fromStatus.value);
    }
  }

  /** Cancelling adds one row to the length the live status accounts for. */
  lemma CancelledLength(history: seq<StatusEntry>)
    requires Chain(history, Cancelled)
    ensures history != [] && history[|history| - 1].fromStatus.Some?
    ensures |history| == 1 + Rank(history[|history| - 1].fromStatus.value)
                           + 2 * Entered(history, Created) + 3 * Entered(history, Flagged)
  {
    ChainInit(history, Cancelled);
    LengthWhileLive(history[..|history| - 1], history[|history| - 1].fromStatus.value);
  }

  /** Nothing is verified, flagged or completed that was not submitted first. */
  lemma ReviewedMeansSubmitted(history: seq<StatusEntry>, status: Status)
    requires Chain(history, status)
    requires status == Verified || status == Flagged || status == Completed || status == SubmittedForReview
    ensures Entered(history, SubmittedForReview) >= 1
  {
    VerdictsAnswerSubmissions(history, status);
    if status == Flagged {
      assert history[|history| - 1].toStatus == Flagged;
    }
  }

  // ----- Who holds the item -----

  lemma HolderMeaning(t: Trail, user: string)
    requires HolderOk(t)
    ensures t.item.assignedToUserID == Some(user) <==>
              t.row.Some? && t.row.value.assignedToUserID == user
              && (t.row.value.status == Pending || t.row.value.status == Taken)
    ensures t.item.assignedToUserID.None? <==> t.row.None? || t.row.value.status == Declined
  {
  }

  /** The item row and the assignment row never disagree about the assignee. */
  lemma AssigneeAgrees(hasSink: bool, hasAuthority: bool, cs: seq<Command>, id: string, user: string)
    requires id in After(hasSink, hasAuthority, cs).items.byID
    ensures var s := After(hasSink, hasAuthority, cs);
            var (assignee, row) := (s.items.byID[id].assignedToUserID, RowOf(s, id));
            && (assignee == Some(user) <==>
                  row.Some? && row.value.assignedToUserID == user
                  && (row.value.status == Pending || row.value.status == Taken))
            && (assignee.None? <==> row.None? || row.value.status == Declined)
  {
    AfterOk(hasSink, hasAuthority, cs);
    LawfulIsSane(After(hasSink, hasAuthority, cs), id);
    HolderMeaning(TrailOf(After(hasSink, hasAuthority, cs), id), user);
  }

  lemma MoveWritesKeepAssignee(s: Stores, q: MoveRequest, now: int, noteNow: int)
    requires Sane(s, q.id)
    ensures var s' := ExecAll(s, MoveWrites(s.items.byID[q.id], q, now, noteNow)).0;
            && q.id in s'.items.byID && s'.items.byID[q.id].status == q.toStatus
            && s'.items.byID[q.id].assignedToUserID == s.items.byID[q.id].assignedToUserID
  {
    var ws := MoveWrites(s.items.byID[q.id], q, now, noteNow);
    MoveWritesAreSound(s, q, now, noteNow);
    ExecAllDoable(s, ws);
    ExecAllOnTrail(s, ws, q.id, q.id);
    MoveEffect(TrailOf(s, q.id), q, now, noteNow);
    assert TrailOf(ExecAll(s, ws).0, q.id).item == ExecAll(s, ws).0.items.byID[q.id];
  }

  /** What a status change leaves: the requested status, and the assignee there
      was. So a move to assigned yields an assigned item with an assignee exactly
      when the item had one before the call. */
  lemma MoveKeepsAssignee(
    s: Stores, authority: Option<TeamModel.TeamState>, q: MoveRequest, now: int, noteNow: int)
    requires StoresInv(s) && MovePlan(s, authority, q, now, noteNow).Ok?
    ensures var s' := Perform(s, MovePlan(s, authority, q, now, noteNow)).0;
            && q.id in s.items.byID && q.id in s'.items.byID
            && s'.items.byID[q.id].status == q.toStatus
            && s'.items.byID[q.id].assignedToUserID == s.items.byID[q.id].assignedToUserID
  {
    MovePlanIsAllowed(s, authority, q, now, noteNow);
    LawfulIsSane(s, q.id);
    MoveWritesKeepAssignee(s, q, now, noteNow);
  }

  const FIRST_INPUT := CreateInput("t", "d", Low, None, None)

  const ADMIN_ASSIGNS := MoveRequest(ItemID(1), "a", true, false, false, Assigned, None)

  function FirstCreated(): Stores {
    Create(EmptyStores(false), "r", FIRST_INPUT, 0).0
  }

  lemma FirstItemStored()
    ensures StoresInv(FirstCreated()) && ItemID(1) in FirstCreated().items.byID
    ensures var item := FirstCreated().items.byID[ItemID(1)];
            item.status == Created && item.createdByUserID == "r" && item.assignedToUserID.None?
  {
    hide TrailInv, Numbered, NoOrphans, TableOk;
    StartOk(false, false);
    CreateKeepsInv(EmptyStores(false), "r", FIRST_INPUT, 0);
    var r := Create(EmptyStores(false), "r", FIRST_INPUT, 0).1;
    assert !Blank("r") && !Blank("t") && !Blank("d");
    assert r.Ok? && r.value.id == ItemID(1);
    CreatedItem(EmptyStores(false), "r", FIRST_INPUT, 0);
  }

  lemma AdminMayMove(s: Stores)
    requires ItemID(1) in s.items.byID && s.items.byID[ItemID(1)].status == Created
    ensures MovePlan(s, None, ADMIN_ASSIGNS, 0, 0).Ok?
  {
    NumberedIsTight("workitem-", 1);
    assert !Blank("a");
    assert IsValidTransition(Created, Assigned);
  }

  /** The status alone promises no assignee: an administrator may move the first
      item to assigned without assigning it to anyone. */
  lemma AssignedWithoutAssignee()
    ensures var s := Perform(FirstCreated(), MovePlan(FirstCreated(), None, ADMIN_ASSIGNS, 0, 0)).0;
            && ItemID(1) in s.items.byID && s.items.byID[ItemID(1)].status == Assigned
            && s.items.byID[ItemID(1)].assignedToUserID.None?
  {
    FirstItemStored();
    AdminMayMove(FirstCreated());
    MoveKeepsAssignee(FirstCreated(), None, ADMIN_ASSIGNS, 0, 0);
  }

  /** In every reachable state an item has an assignee exactly when someone was
      assigned and has not declined since. */
  lemma AssigneeIffLastEventStands(hasSink: bool, hasAuthority: bool, cs: seq<Command>, id: string)
    requires id in After(hasSink, hasAuthority, cs).items.byID
    ensures var s := After(hasSink, hasAuthority, cs);
            var events := EventsOf(s, id);
            s.items.byID[id].assignedToUserID.Some? <==> events != [] && events[|events| - 1].action != Declined
  {
    AssigneeAgrees(hasSink, hasAuthority, cs, id, "");
    AssignmentRebuilt(hasSink, hasAuthority, cs, id);
    var s := After(hasSink, hasAuthority, cs);
    var events := EventsOf(s, id);
    EventsEmbedInHistory(hasSink, hasAuthority, cs, id);
    if events != [] {
      ReplayReadsLast(events);
    }
  }

  function StoredRow(s: Stores, id: string): Option<Stored<Assignment>> {
    if id in s.assignments.byWorkItem then Some(s.assignments.byWorkItem[id]) else None
  }

  /** The item has left the assignment phase, held by `holder` under `row`. */
  ghost predicate Settled(s: Stores, id: string, holder: Option<string>, row: Option<Stored<Assignment>>) {
    && id in s.items.byID
    && !s.items.byID[id].status.Early()
    && s.items.byID[id].assignedToUserID == holder
    && StoredRow(s, id) == row
  }

  predicate TouchesAssignment(w: Write, id: string) {
    (w.NewAssignment? || w.PutAssignment?) && About(w) == id
  }

  lemma {:induction false} ExecAllKeepsRow(s: Stores, ws: seq<Write>, id: string)
    requires forall i :: 0 <= i < |ws| ==> !TouchesAssignment(ws[i], id)
    ensures StoredRow(ExecAll(s, ws).0, id) == StoredRow(s, id)
    decreases |ws|
  {
    if ws != [] && Exec(s, ws[0]).Ok? {
      assert StoredRow(Exec(s, ws[0]).value, id) == StoredRow(s, id);
      ExecAllKeepsRow(Exec(s, ws[0]).value, ws[1..], id);
    }
  }

  /** Writes about another item leave a settled item settled; so do writes about
      it that move it forward and touch neither assignee nor assignment. */
  lemma WritesKeepSettled(
    s: Stores, ws: seq<Write>, about: string, id: string, holder: Option<string>, row: Option<Stored<Assignment>>)
    requires Settled(s, id, holder, row) && SoundFor(s, ws, about)
    requires about == id ==> forall i :: 0 <= i < |ws| ==> !TouchesAssignment(ws[i], id)
    requires about == id ==> var item := Follow(TrailOf(s, id), ws).item;
                             item.assignedToUserID == holder && !item.status.Early()
    ensures Settled(ExecAll(s, ws).0, id, holder, row)
  {
    ExecAllDoable(s, ws);
    ExecAllOnTrail(s, ws, about, id);
    ExecAllKeepsRow(s, ws, id);
    var s' := ExecAll(s, ws).0;
    assert s'.items.byID[id] == TrailOf(s', id).item;
  }

  lemma EditKeepsSettled(
    s: Stores, authority: Option<TeamModel.TeamState>, q: UpdateRequest, now: int,
    id: string, holder: Option<string>, row: Option<Stored<Assignment>>)
    requires TableOk(s.items) && Settled(s, id, holder, row) && UpdatePlan(s, authority, q, now).Ok?
    ensures Settled(ExecAll(s, UpdatePlan(s, authority, q, now).value).0, id, holder, row)
  {
    UpdatePlanIsSound(s, authority, q, now);
    var edited := Edited(s.items.byID[q.id], q.input, now).value;
    assert SoundFor(s, [PutItem(edited)], q.id);
    FollowOne(TrailOf(s, q.id), PutItem(edited));
    WritesKeepSettled(s, [PutItem(edited)], q.id, id, holder, row);
  }

  lemma MoveTouchesNoAssignment(item: WorkItem, q: MoveRequest, now: int, noteNow: int)
    ensures var ws := MoveWrites(item, q, now, noteNow);
            forall i :: 0 <= i < |ws| ==> !TouchesAssignment(ws[i], q.id)
  {
    var ws := MoveWrites(item, q, now, noteNow);
    assert forall i :: 0 <= i < |ws| ==> ws[i].PutItem? || ws[i].AddStatus? || ws[i].SendNote?;
  }

  lemma MoveKeepsSettled(
    s: Stores, q: MoveRequest, now: int, noteNow: int,
    id: string, holder: Option<string>, row: Option<Stored<Assignment>>)
    requires Sane(s, q.id) && MoveAllowed(TrailOf(s, q.id), q) && Settled(s, id, holder, row)
    ensures Settled(ExecAll(s, MoveWrites(s.items.byID[q.id], q, now, noteNow)).0, id, holder, row)
  {
    hide TrimSpace, Numbered, MoveWrites;
    MoveWritesAreSound(s, q, now, noteNow);
    MoveTouchesNoAssignment(s.items.byID[q.id], q, now, noteNow);
    MoveEffect(TrailOf(s, q.id), q, now, noteNow);
    assert q.id == id ==> !q.toStatus.Early();
    WritesKeepSettled(s, MoveWrites(s.items.byID[q.id], q, now, noteNow), q.id, id, holder, row);
  }

  lemma AssignKeepsSettled(
    s: Stores, q: AssignRequest, now: int, noteNow: int,
    id: string, holder: Option<string>, row: Option<Stored<Assignment>>)
    requires Sane(s, q.id) && AssignAllowed(TrailOf(s, q.id), q) && Settled(s, id, holder, row)
    ensures Settled(ExecAll(s, AssignWrites(s.items.byID[q.id], q, now, noteNow)).0, id, holder, row)
  {
    AssignWritesAreSound(s, q, now, noteNow);
    assert s.items.byID[q.id].status == Created;
    WritesKeepSettled(s, AssignWrites(s.items.byID[q.id], q, now, noteNow), q.id, id, holder, row);
  }

  lemma RespondKeepsSettled(
    s: Stores, q: RespondRequest, now: int, noteNow: int,
    id: string, holder: Option<string>, row: Option<Stored<Assignment>>)
    requires Sane(s, q.id) && RespondAllowed(TrailOf(s, q.id), q) && Settled(s, id, holder, row)
    requires q.id in s.assignments.byWorkItem
    ensures Settled(ExecAll(s, RespondWrites(s.items.byID[q.id], s.assignments.byWorkItem[q.id], q, now, noteNow)).0,
                    id, holder, row)
  {
    RespondWritesAreSound(s, q, now, noteNow);
    assert s.items.byID[q.id].status == Assigned;
    WritesKeepSettled(s, RespondWrites(s.items.byID[q.id], s.assignments.byWorkItem[q.id], q, now, noteNow),
                      q.id, id, holder, row);
  }

  lemma CreateKeepsSettled(
    s: Stores, s': Stores, item: WorkItem, id: string, holder: Option<string>, row: Option<Stored<Assignment>>)
    requires TableOk(s.items) && Settled(s, id, holder, row)
    requires s' == s.(items := s'.items) && s'.items.byID == s.items.byID[item.id := item]
    requires item.id == ItemID(s.items.counter + 1)
    ensures Settled(s', id, holder, row)
  {
    NewIdIsFresh(s.items);
  }

  lemma CreatingKeepsSettled(
    s: Stores, createdBy: string, input: CreateInput, now: int,
    id: string, holder: Option<string>, row: Option<Stored<Assignment>>)
    requires TableOk(s.items) && Settled(s, id, holder, row)
    ensures Settled(Create(s, createdBy, input, now).0, id, holder, row)
  {
    var (s', r) := Create(s, createdBy, input, now);
    if r.Ok? {
      CreatedItem(s, createdBy, input, now);
      CreateKeepsSettled(s, s', r.value, id, holder, row);
    }
  }

  lemma MovingKeepsSettled(
    w: World, c: Command, id: string, holder: Option<string>, row: Option<Stored<Assignment>>)
    requires c.MoveItem? && WorldInv(w) && Settled(w.stores, id, holder, row)
    ensures Settled(Step(w, c).stores, id, holder, row)
  {
    hide TrailInv, Settled, NoOrphans, MoveWrites, AssignWrites, RespondWrites, ExecAll;
    if PlanOf(w, c).Ok? {
      MovePlanIsAllowed(w.stores, Authority(w), c.move, c.at, c.noteAt);
      LawfulIsSane(w.stores, c.move.id);
      MoveKeepsSettled(w.stores, c.move, c.at, c.noteAt, id, holder, row);
    }
  }

  lemma AssigningKeepsSettled(
    w: World, c: Command, id: string, holder: Option<string>, row: Option<Stored<Assignment>>)
    requires c.AssignItem? && WorldInv(w) && Settled(w.stores, id, holder, row)
    ensures Settled(Step(w, c).stores, id, holder, row)
  {
    hide TrailInv, Settled, NoOrphans, MoveWrites, AssignWrites, RespondWrites, ExecAll;
    if PlanOf(w, c).Ok? {
      AssignPlanIsAllowed(w.stores, Authority(w), c.assign, c.at, c.noteAt);
      LawfulIsSane(w.stores, c.assign.id);
      AssignKeepsSettled(w.stores, c.assign, c.at, c.noteAt, id, holder, row);
    }
  }

  lemma RespondingKeepsSettled(
    w: World, c: Command, id: string, holder: Option<string>, row: Option<Stored<Assignment>>)
    requires c.RespondItem? && WorldInv(w) && Settled(w.stores, id, holder, row)
    ensures Settled(Step(w, c).stores, id, holder, row)
  {
    hide TrailInv, Settled, NoOrphans, MoveWrites, AssignWrites, RespondWrites, ExecAll;
    if PlanOf(w, c).Ok? {
      RespondPlanIsAllowed(w.stores, c.respond, c.at, c.noteAt);
      LawfulIsSane(w.stores, c.respond.id);
      RespondKeepsSettled(w.stores, c.respond, c.at, c.noteAt, id, holder, row);
    }
  }

  lemma EditingKeepsSettled(
    w: World, c: Command, id: string, holder: Option<string>, row: Option<Stored<Assignment>>)
    requires c.EditItem? && WorldInv(w) && Settled(w.stores, id, holder, row)
    ensures Settled(Step(w, c).stores, id, holder, row)
  {
    hide TrailInv, Settled, NoOrphans, TableOk, ExecAll, UpdatePlan;
    if PlanOf(w, c).Ok? {
      EditKeepsSettled(w.stores, Authority(w), c.edit, c.at, id, holder, row);
    }
  }

  lemma MakingKeepsSettled(
    w: World, c: Command, id: string, holder: Option<string>, row: Option<Stored<Assignment>>)
    requires c.CreateItem? && WorldInv(w) && Settled(w.stores, id, holder, row)
    ensures Settled(Step(w, c).stores, id, holder, row)
  {
    hide TrailInv, Settled, NoOrphans, TableOk, Create;
    CreatingKeepsSettled(w.stores, c.createdBy, c.input, c.at, id, holder, row);
  }

  lemma ReadingKeepsSettled(
    w: World, c: Command, id: string, holder: Option<string>, row: Option<Stored<Assignment>>)
    requires c.ReadNote? && Settled(w.stores, id, holder, row)
    ensures Settled(Step(w, c).stores, id, holder, row)
  {
  }

  lemma StepKeepsSettled(w: World, c: Command, id: string, holder: Option<string>, row: Option<Stored<Assignment>>)
    requires WorldInv(w) && Settled(w.stores, id, holder, row)
    ensures Settled(Step(w, c).stores, id, holder, row)
  {
    hide StoresInv, Settled, PlanOf, Perform;
    match c
    case CreateItem(_, _, _) => MakingKeepsSettled(w, c, id, holder, row);
    case MoveItem(_, _, _) => MovingKeepsSettled(w, c, id, holder, row);
    case AssignItem(_, _, _) => AssigningKeepsSettled(w, c, id, holder, row);
    case RespondItem(_, _, _) => RespondingKeepsSettled(w, c, id, holder, row);
    case EditItem(_, _) => EditingKeepsSettled(w, c, id, holder, row);
    case ReadNote(_, _, _) => ReadingKeepsSettled(w, c, id, holder, row);
    case ChangeTeams(_) =>
  }

  /** Once an item has left created/assigned, neither its assignee nor its
      assignment row (generated id included) ever changes again. */
  lemma {:induction false} SettledForGood(
    w: World, cs: seq<Command>, id: string, holder: Option<string>, row: Option<Stored<Assignment>>)
    requires WorldInv(w) && Settled(w.stores, id, holder, row)
    ensures Settled(Run(w, cs).stores, id, holder, row)
  {
    if cs != [] {
      var init := cs[..|cs| - 1];
      SettledForGood(w, init, id, holder, row);
      RunKeepsInv(w, init);
      StepKeepsSettled(Run(w, init), cs[|cs| - 1], id, holder, row);
    }
  }

  // ----- Append-only logs, final statuses -----

  ghost predicate LogsExtend(s: Stores, s': Stores) {
    && s.statusLog.rows <= s'.statusLog.rows
    && s.eventLog.rows <= s'.eventLog.rows
    && s.items.byID.Keys <= s'.items.byID.Keys
  }

  lemma {:induction false} ExecAllExtends(s: Stores, ws: seq<Write>)
    ensures LogsExtend(s, ExecAll(s, ws).0)
    decreases |ws|
  {
    if ws != [] && Exec(s, ws[0]).Ok? {
      assert LogsExtend(s, Exec(s, ws[0]).value);
      ExecAllExtends(Exec(s, ws[0]).value, ws[1..]);
    }
  }

  /** Nothing is ever edited in or removed from either audit log. */
  lemma {:induction false} LogsOnlyGrow(w: World, cs: seq<Command>)
    ensures LogsExtend(w.stores, Run(w, cs).stores)
  {
    if cs != [] {
      var before := Run(w, cs[..|cs| - 1]);
      LogsOnlyGrow(w, cs[..|cs| - 1]);
      match cs[|cs| - 1]
      case CreateItem(_, _, _) =>
      case ReadNote(_, _, _) =>
      case ChangeTeams(_) =>
      case _ =>
        var plan := PlanOf(before, cs[|cs| - 1]);
        if plan.Ok? {
          ExecAllExtends(before.stores, plan.value);
        }
    }
  }

  lemma {:induction false} ProjectExtends<T>(rows: seq<Stored<T>>, more: seq<Stored<T>>, p: T -> bool)
    requires rows <= more
    ensures Project(rows, p) <= Project(more, p)
    decreases |more|
  {
    if |rows| < |more| {
      ProjectExtends(rows, more[..|more| - 1], p);
    } else {
      assert rows == more;
    }
  }

  /** Whatever is appended to a history starts with a valid move from its status. */
  lemma NextMoveIsValid(h: seq<StatusEntry>, status: Status, h': seq<StatusEntry>, status': Status)
    requires Chain(h, status) && Chain(h', status') && h <= h'
    ensures |h'| > |h| ==> IsValidTransition(status, h'[|h|].toStatus)
    ensures |h'| == |h| ==> status' == status
  {
    if |h'| > |h| > 0 {
      assert h'[|h| - 1] == h[|h| - 1];
      assert h'[|h|].fromStatus == Some(h'[|h| - 1].toStatus);
    }
  }

  /** So a chain that has reached an end status cannot be extended. */
  lemma EndOfChain(h: seq<StatusEntry>, status: Status, h': seq<StatusEntry>, status': Status)
    requires Chain(h, status) && Chain(h', status') && h <= h'
    requires status == Completed || status == Cancelled
    ensures h' == h && status' == status
  {
    NextMoveIsValid(h, status, h', status');
  }

  /** Completed and cancelled are final, whatever anyone calls. */
  lemma EndStatusIsFinal(w: World, cs: seq<Command>, id: string)
    requires WorldInv(w) && id in w.stores.items.byID
    requires w.stores.items.byID[id].status == Completed || w.stores.items.byID[id].status == Cancelled
    ensures id in Run(w, cs).stores.items.byID
    ensures Run(w, cs).stores.items.byID[id].status == w.stores.items.byID[id].status
    ensures HistoryOf(Run(w, cs).stores, id) == HistoryOf(w.stores, id)
  {
    LogsOnlyGrow(w, cs);
    RunKeepsInv(w, cs);
    HistoryIsChain(w.stores, id);
    HistoryIsChain(Run(w, cs).stores, id);
    ProjectExtends(w.stores.statusLog.rows, Run(w, cs).stores.statusLog.rows, StatusFor(id));
    EndOfChain(HistoryOf(w.stores, id), w.stores.items.byID[id].status,
               HistoryOf(Run(w, cs).stores, id), Run(w, cs).stores.items.byID[id].status);
  }

  lemma HistoryIsChain(s: Stores, id: string)
    requires StoresInv(s) && id in s.items.byID
    ensures Chain(HistoryOf(s, id), s.items.byID[id].status)
  {
    assert TrailInv(TrailOf(s, id));
  }

  // ----- Notifications -----

  /** The conservation law for one item, read off its logs. */
  ghost predicate Conserved(item: WorkItem, history: seq<StatusEntry>, events: seq<AssignmentEvent>, sent: seq<Sent>) {
    && KindsKnown(sent)
    && Recipients(sent, N.AssignmentCreated) == Targets(events)
    && Recipients(sent, N.EvidenceSubmitted) ==
         Repeat(TrimSpace(item.createdByUserID), Entered(history, SubmittedForReview))
    && (match item.assignedToUserID
        case Some(user) =>
          && Recipients(sent, N.WorkFlagged) == Repeat(user, Entered(history, Flagged))
          && Recipients(sent, N.WorkVerified) == Repeat(user, Entered(history, Verified))
          && Recipients(sent, N.WorkCompleted) == Repeat(user, Entered(history, Completed))
        case None =>
          && Recipients(sent, N.WorkFlagged) == [] && Recipients(sent, N.WorkVerified) == []
          && Recipients(sent, N.WorkCompleted) == [])
  }

  lemma SentConserves(t: Trail)
    requires SentOk(t) && t.hasSink
    ensures Conserved(t.item, t.status, t.events, t.sent)
  {
    assert ToldAssignee(t, Flagged) && ToldAssignee(t, Verified) && ToldAssignee(t, Completed);
  }

  /** With a sink wired in, every assignment, submission, flag, verification and
      completion on record was notified exactly once, in order, to the person
      the event concerns, and nothing else was sent. */
  lemma NotificationsConserved(hasAuthority: bool, cs: seq<Command>, id: string)
    requires id in After(true, hasAuthority, cs).items.byID
    ensures var s := After(true, hasAuthority, cs);
            Conserved(s.items.byID[id], HistoryOf(s, id), EventsOf(s, id), SentAbout(SinkRows(s), id))
  {
    hide SentOk, HistoryOk, HolderOk, ItemOk, TableOk, NoOrphans, Conserved;
    AfterOk(true, hasAuthority, cs);
    SinkStays(true, hasAuthority, cs);
    assert TrailInv(TrailOf(After(true, hasAuthority, cs), id));
    SentConserves(TrailOf(After(true, hasAuthority, cs), id));
  }

  lemma AcceptanceTellsAssigner(t: Trail)
    requires t.hasSink && SentOk(t) && EventLogOk(t)
    ensures Recipients(t.sent, N.AssignmentAccepted) ==
            if t.events != [] && t.events[|t.events| - 1].action == Taken
            then [TrimSpace(t.events[|t.events| - 2].actorUserID)] else []
  {
    var n := |t.events|;
    if n > 0 {
      ReplayReadsLast(t.events);
      if t.events[n - 1].action == Taken {
        assert t.events[n - 2].action == Pending;
        assert t.events[..n - 1][n - 2] == t.events[n - 2];
      }
    }
  }

  /** The acceptance on record, if any, was told to whoever made the assignment
      it answers, once. */
  lemma AcceptanceNotified(hasAuthority: bool, cs: seq<Command>, id: string)
    requires id in After(true, hasAuthority, cs).items.byID
    ensures var s := After(true, hasAuthority, cs);
            var events := EventsOf(s, id);
            EventsOk(events)
            && Recipients(SentAbout(SinkRows(s), id), N.AssignmentAccepted) ==
                 if events != [] && events[|events| - 1].action == Taken
                 then [TrimSpace(events[|events| - 2].actorUserID)] else []
  {
    hide TrimSpace, Replay, Recipients, Numbered, SentOk, HistoryOk, HolderOk, ItemOk, TableOk, NoOrphans;
    AfterOk(true, hasAuthority, cs);
    SinkStays(true, hasAuthority, cs);
    assert TrailInv(TrailOf(After(true, hasAuthority, cs), id));
    AcceptanceTellsAssigner(TrailOf(After(true, hasAuthority, cs), id));
  }

  lemma {:induction false} ExecAllKeepsSink(s: Stores, ws: seq<Write>)
    ensures ExecAll(s, ws).0.sink.Some? == s.sink.Some?
    decreases |ws|
  {
    if ws != [] && Exec(s, ws[0]).Ok? {
      assert Exec(s, ws[0]).value.sink.Some? == s.sink.Some?;
      ExecAllKeepsSink(Exec(s, ws[0]).value, ws[1..]);
    }
  }

  lemma {:induction false} SinkStays(hasSink: bool, hasAuthority: bool, cs: seq<Command>)
    ensures After(hasSink, hasAuthority, cs).sink.Some? == hasSink
  {
    if cs != [] {
      var before := Run(Start(hasSink, hasAuthority), cs[..|cs| - 1]);
      SinkStays(hasSink, hasAuthority, cs[..|cs| - 1]);
      match cs[|cs| - 1]
      case CreateItem(_, _, _) =>
      case ReadNote(_, _, _) =>
      case ChangeTeams(_) =>
      case _ =>
        var plan := PlanOf(before, cs[|cs| - 1]);
        if plan.Ok? {
          ExecAllKeepsSink(before.stores, plan.value);
        }
    }
  }

  // ----- All or nothing -----

  /** Without a transaction runner a workflow call is still all or nothing: it
      fails exactly when its guards refuse it, and then no store has changed. */
  lemma InMemoryCallsAreAllOrNothing(hasSink: bool, hasAuthority: bool, cs: seq<Command>, c: Command)
    ensures var w := Run(Start(hasSink, hasAuthority), cs);
            var (s', error) := Perform(w.stores, PlanOf(w, c));
            && (error.Some? <==> PlanOf(w, c).Err?)
            && (error.Some? ==> s' == w.stores)
  {
    AfterOk(hasSink, hasAuthority, cs);
    var w := Run(Start(hasSink, hasAuthority), cs);
    if PlanOf(w, c).Ok? {
      PlansSucceed(w, c);
    }
  }

  // ----- Ids -----

  /** The order list enumerates exactly the stored ids, once each, every row
      sits under its own id, and the next id is not taken. */
  ghost predicate EnumeratesKeys(t: ItemTable) {
    && NoDuplicates(t.ordered)
    && (forall id :: id in t.ordered <==> id in t.byID)
    && (forall id :: id in t.byID ==> t.byID[id].id == id)
    && Insert(t, WorkItem("", "", "", "", Created, Low, "", None, None, None, 0, 0)).1.id !in t.byID
  }

  lemma TableEnumerates(t: ItemTable)
    requires TableOk(t)
    ensures EnumeratesKeys(t)
  {
    hide Numbered;
    forall i, j | 0 <= i < j < |t.ordered| ensures t.ordered[i] != t.ordered[j] {
      NumberedInjective("workitem-", i + 1, j + 1);
    }
    NewIdIsFresh(t);
  }

  /** So no creation ever overwrites another item. */
  lemma CreationNeverOverwrites(hasSink: bool, hasAuthority: bool, cs: seq<Command>)
    ensures EnumeratesKeys(After(hasSink, hasAuthority, cs).items)
  {
    AfterOk(hasSink, hasAuthority, cs);
    TableEnumerates(After(hasSink, hasAuthority, cs).items);
  }
}
