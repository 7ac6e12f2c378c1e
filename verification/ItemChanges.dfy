/** What becomes of an item's own row: the row a creation makes, and what every
    later step of a run leaves of it. */
module ItemChanges {
  import opened Wrappers
  import opened Text
  import opened WorkItemTypes
  import opened WorkItemModel
  import opened Trails
  import opened TrailSteps
  import opened WorkItemRuns
  import opened WorkItemTheorems
  import opened Permissions
  import opened Provenance
  import TeamHistory
  import TeamModel

  // ----- Creating -----

  predicate CreateWellFormed(createdBy: string, input: CreateInput) {
    !Blank(createdBy) && !Blank(input.title) && !Blank(input.description) && input.priority.IsValid()
  }

  /** A creation is refused exactly for a blank creator, title or description or an
      unknown priority; otherwise the row says what was asked for, trimmed. */
  lemma CreatedAsAsked(s: Stores, createdBy: string, input: CreateInput, now: int)
    ensures var (s', r) := Create(s, createdBy, input, now);
            && (r.Ok? <==> CreateWellFormed(createdBy, input))
            && (r == Err(InvalidPriority) <==>
                  !Blank(createdBy) && !Blank(input.title) && !Blank(input.description) && !input.priority.IsValid())
            && (r.Err? ==> s' == s)
            && (r.Ok? ==>
                  && s'.items.byID == s.items.byID[r.value.id := r.value]
                  && r.value.title == TrimSpace(input.title) && r.value.description == TrimSpace(input.description)
                  && r.value.priority == input.priority && r.value.dueAt == input.dueAt
                  && r.value.locationText == Kept(input.locationText)
                  && r.value.createdByUserID == createdBy && r.value.assignedToUserID.None?
                  && r.value.status == Created && r.value.createdAt == now == r.value.updatedAt)
  {
    hide TrimSpace, Numbered;
  }

  // ----- Editing -----

  function Given<T>(patch: Option<T>, kept: T): T {
    if patch.Some? then patch.value else kept
  }

  function TrimmedText(text: Option<string>): Option<string> {
    match text
    case None => None
    case Some(t) => Some(TrimSpace(t))
  }

  /** Fields the patch gives are set, a blank location is cleared, all others stay. */
  function Patched(item: WorkItem, input: UpdateInput, now: int): WorkItem {
    item.(
      title := Given(TrimmedText(input.title), item.title),
      description := Given(TrimmedText(input.description), item.description),
      priority := Given(input.priority, item.priority),
      dueAt := match input.dueAt case None => item.dueAt case Some(_) => input.dueAt,
      locationText := match input.locationText case None => item.locationText case Some(_) => Kept(input.locationText),
      updatedAt := now)
  }

  lemma EditedIsPatched(item: WorkItem, input: UpdateInput, now: int)
    ensures Edited(item, input, now) ==
            if PatchWellFormed(input) then Ok(Patched(item, input, now))
            else if SetsBlank(input) then Err(InvalidInput)
            else Err(InvalidPriority)
  {
    hide TrimSpace;
  }

  /** Two patches in one: the later one where it says something. */
  function Merged(first: UpdateInput, second: UpdateInput): UpdateInput {
    UpdateInput(
      if second.title.Some? then second.title else first.title,
      if second.description.Some? then second.description else first.description,
      if second.priority.Some? then second.priority else first.priority,
      if second.locationText.Some? then second.locationText else first.locationText,
      if second.dueAt.Some? then second.dueAt else first.dueAt)
  }

  /** Patching twice is patching once with both. */
  lemma EditsMerge(item: WorkItem, first: UpdateInput, second: UpdateInput, t1: int, t2: int)
    requires Edited(item, first, t1).Ok? && Edited(Edited(item, first, t1).value, second, t2).Ok?
    ensures Edited(item, Merged(first, second), t2) == Edited(Edited(item, first, t1).value, second, t2)
  {
    hide TrimSpace;
  }

  // ----- Steps -----

  /** The item's row after one step, from its row before. */
  ghost function ItemMade(w: World, c: Command, id: string): WorkItem
    requires id in w.stores.items.byID
  {
    var item := w.stores.items.byID[id];
    if !Permitted(w, c) then item
    else
      match c
      case MoveItem(q, at, _) => if q.id == id then item.(status := q.toStatus, updatedAt := at) else item
      case AssignItem(q, at, _) =>
        if q.id == id then
          item.(status := Assigned, assignedToUserID := Some(TrimSpace(q.target)), updatedAt := at)
        else item
      case RespondItem(q, at, _) =>
        if q.id != id then item
        else if q.accept then item.(status := Accepted, updatedAt := at)
        else item.(status := Created, assignedToUserID := None, updatedAt := at)
      case EditItem(q, at) => if q.id == id then Patched(item, q.input, at) else item
      case _ => item
  }

  lemma WritesMakeItem(s: Stores, ws: seq<Write>, about: string, id: string)
    requires id in s.items.byID && ExecAll(s, ws).1.None?
    requires forall i :: 0 <= i < |ws| ==> About(ws[i]) == about
    ensures id in ExecAll(s, ws).0.items.byID
    ensures ExecAll(s, ws).0.items.byID[id] ==
            if about == id then Follow(TrailOf(s, id), ws).item else s.items.byID[id]
  {
    ExecAllOnTrail(s, ws, about, id);
    assert TrailOf(ExecAll(s, ws).0, id).item == ExecAll(s, ws).0.items.byID[id];
  }

  lemma SoundWritesMakeItem(s: Stores, ws: seq<Write>, about: string, id: string)
    requires id in s.items.byID && SoundFor(s, ws, about)
    ensures ExecAll(s, ws).1.None? && id in ExecAll(s, ws).0.items.byID
    ensures ExecAll(s, ws).0.items.byID[id] ==
            if about == id then Follow(TrailOf(s, id), ws).item else s.items.byID[id]
  {
    hide ExecAll, Exec, Follow;
    ExecAllDoable(s, ws);
    WritesMakeItem(s, ws, about, id);
  }

  lemma TrailReads(s: Stores, id: string)
    requires id in s.items.byID
    ensures TrailOf(s, id).item == s.items.byID[id]
    ensures TrailOf(s, id).row.Some? <==> id in s.assignments.byWorkItem
    ensures id in s.assignments.byWorkItem ==> TrailOf(s, id).row.value == s.assignments.byWorkItem[id].value
  {
  }

  lemma MoveOnStores(s: Stores, q: MoveRequest, now: int, noteNow: int, id: string)
    requires Sane(s, q.id) && id in s.items.byID
    ensures var s' := ExecAll(s, MoveWrites(s.items.byID[q.id], q, now, noteNow)).0;
            && id in s'.items.byID
            && s'.items.byID[id] ==
                 if q.id == id then s.items.byID[id].(status := q.toStatus, updatedAt := now) else s.items.byID[id]
  {
    hide TrimSpace, ExecAll, Follow, TrailOf, MoveWrites;
    MoveWritesAreSound(s, q, now, noteNow);
    SoundWritesMakeItem(s, MoveWrites(s.items.byID[q.id], q, now, noteNow), q.id, id);
    TrailReads(s, id);
    MoveEffect(TrailOf(s, q.id), q, now, noteNow);
  }

  lemma AssignOnStores(s: Stores, q: AssignRequest, now: int, noteNow: int, id: string)
    requires Sane(s, q.id) && !Blank(q.target) && id in s.items.byID
    ensures var s' := ExecAll(s, AssignWrites(s.items.byID[q.id], q, now, noteNow)).0;
            && id in s'.items.byID
            && s'.items.byID[id] ==
                 if q.id == id then
                   s.items.byID[id].(
                     status := Assigned, assignedToUserID := Some(TrimSpace(q.target)), updatedAt := now)
                 else s.items.byID[id]
  {
    hide TrimSpace, ExecAll, Follow, TrailOf, AssignWrites;
    AssignWritesAreSound(s, q, now, noteNow);
    SoundWritesMakeItem(s, AssignWrites(s.items.byID[q.id], q, now, noteNow), q.id, id);
    TrailReads(s, id);
    AssignEffect(TrailOf(s, q.id), q, now, noteNow);
  }

  lemma RespondOnStores(s: Stores, q: RespondRequest, now: int, noteNow: int, id: string)
    requires Sane(s, q.id) && q.id in s.assignments.byWorkItem && id in s.items.byID
    ensures var s' := ExecAll(s, RespondWrites(s.items.byID[q.id], s.assignments.byWorkItem[q.id], q, now, noteNow)).0;
            var item := s.items.byID[id];
            && id in s'.items.byID
            && s'.items.byID[id] ==
                 if q.id != id then item
                 else if q.accept then item.(status := Accepted, updatedAt := now)
                 else item.(status := Created, assignedToUserID := None, updatedAt := now)
  {
    hide TrimSpace, ExecAll, Follow, TrailOf, RespondWrites;
    var row := s.assignments.byWorkItem[q.id];
    RespondWritesAreSound(s, q, now, noteNow);
    SoundWritesMakeItem(s, RespondWrites(s.items.byID[q.id], row, q, now, noteNow), q.id, id);
    TrailReads(s, id);
    RespondEffect(TrailOf(s, q.id), row, q, now, noteNow);
  }

  lemma MoveOnWorld(w: World, c: Command, id: string)
    requires c.MoveItem? && PlanOf(w, c).Ok? && Permitted(w, c) && Sane(w.stores, c.move.id)
    requires id in w.stores.items.byID
    ensures id in Step(w, c).stores.items.byID && Step(w, c).stores.items.byID[id] == ItemMade(w, c, id)
  {
    hide TrimSpace, Sane, ExecAll, MovePlan, MoveWrites, MovePermitted;
    MovePlanReads(w.stores, Authority(w), c.move, c.at, c.noteAt);
    MoveOnStores(w.stores, c.move, c.at, c.noteAt, id);
  }

  lemma AssignOnWorld(w: World, c: Command, id: string)
    requires c.AssignItem? && PlanOf(w, c).Ok? && Permitted(w, c) && Sane(w.stores, c.assign.id)
    requires id in w.stores.items.byID
    ensures id in Step(w, c).stores.items.byID && Step(w, c).stores.items.byID[id] == ItemMade(w, c, id)
  {
    hide TrimSpace, Sane, ExecAll, AssignPlan, AssignWrites, MayHandOver;
    AssignPlanReads(w.stores, Authority(w), c.assign, c.at, c.noteAt);
    AssignOnStores(w.stores, c.assign, c.at, c.noteAt, id);
  }

  lemma RespondOnWorld(w: World, c: Command, id: string)
    requires c.RespondItem? && PlanOf(w, c).Ok? && Permitted(w, c) && Sane(w.stores, c.respond.id)
    requires id in w.stores.items.byID
    ensures id in Step(w, c).stores.items.byID && Step(w, c).stores.items.byID[id] == ItemMade(w, c, id)
  {
    hide TrimSpace, Sane, ExecAll, RespondPlan, RespondWrites, RespondPermitted;
    RespondPlanReads(w.stores, c.respond, c.at, c.noteAt);
    RespondOnStores(w.stores, c.respond, c.at, c.noteAt, id);
  }

  lemma CallMakesItem(w: World, c: Command, id: string)
    requires (c.MoveItem? || c.AssignItem? || c.RespondItem?) && WorldInv(w) && Permitted(w, c)
    requires id in w.stores.items.byID
    ensures id in Step(w, c).stores.items.byID && Step(w, c).stores.items.byID[id] == ItemMade(w, c, id)
  {
    hide Permitted, Step, ItemMade, StoresInv, Sane;
    PlannedIffPermitted(w, c);
    SaneSubject(w, c);
    match c
    case MoveItem(_, _, _) => MoveOnWorld(w, c, id);
    case AssignItem(_, _, _) => AssignOnWorld(w, c, id);
    case RespondItem(_, _, _) => RespondOnWorld(w, c, id);
    case _ =>
  }

  lemma OneItemPut(s: Stores, item: WorkItem)
    requires item.id in s.items.byID
    ensures ExecAll(s, [PutItem(item)]).0.items.byID == s.items.byID[item.id := item]
  {
    LastWrite(s, PutItem(item));
  }

  lemma EditOnStores(s: Stores, authority: Option<TeamModel.TeamState>, q: UpdateRequest, now: int)
    requires UpdatePlan(s, authority, q, now).Ok? && q.id in s.items.byID && s.items.byID[q.id].id == q.id
    ensures Perform(s, UpdatePlan(s, authority, q, now)).0.items.byID ==
            s.items.byID[q.id := Patched(s.items.byID[q.id], q.input, now)]
  {
    hide TrimSpace, UpdatePlan, Edited, Patched, ExecAll;
    EditPlanReads(s, authority, q, now);
    EditedIsPatched(s.items.byID[q.id], q.input, now);
    PatchKeepsID(s.items.byID[q.id], q.input, now);
    OneItemPut(s, Patched(s.items.byID[q.id], q.input, now));
  }

  lemma EditItemMade(w: World, c: Command, id: string)
    requires c.EditItem? && Permitted(w, c) && id in w.stores.items.byID
    ensures ItemMade(w, c, id) ==
            if c.edit.id == id then Patched(w.stores.items.byID[id], c.edit.input, c.at) else w.stores.items.byID[id]
  {
    hide Permitted, Patched;
  }

  lemma EditOnWorld(w: World, c: Command, id: string)
    requires c.EditItem? && PlanOf(w, c).Ok? && Permitted(w, c) && id in w.stores.items.byID
    requires forall k :: k in w.stores.items.byID ==> w.stores.items.byID[k].id == k
    ensures id in Step(w, c).stores.items.byID && Step(w, c).stores.items.byID[id] == ItemMade(w, c, id)
  {
    EditItemMade(w, c, id);
    hide TrimSpace, UpdatePlan, Patched, Perform, Permitted, ItemMade;
    EditPlanReads(w.stores, Authority(w), c.edit, c.at);
    EditOnStores(w.stores, Authority(w), c.edit, c.at);
  }

  lemma EditMakesItem(w: World, c: Command, id: string)
    requires c.EditItem? && WorldInv(w) && Permitted(w, c) && id in w.stores.items.byID
    ensures id in Step(w, c).stores.items.byID && Step(w, c).stores.items.byID[id] == ItemMade(w, c, id)
  {
    hide Permitted, PlanOf, Step, ItemMade, TrailInv, NoOrphans;
    PlannedIffPermitted(w, c);
    EditOnWorld(w, c, id);
  }

  lemma PatchKeepsID(item: WorkItem, input: UpdateInput, now: int)
    ensures Patched(item, input, now).id == item.id
  {
  }

  lemma RefusedKeepsItem(w: World, c: Command, id: string)
    requires WorldInv(w) && !Permitted(w, c) && id in w.stores.items.byID
    ensures id in Step(w, c).stores.items.byID && Step(w, c).stores.items.byID[id] == ItemMade(w, c, id)
  {
    hide StoresInv, Step, Permitted;
    RefusedAdds(w, c);
  }

  lemma OthersKeepItem(w: World, c: Command, id: string)
    requires (c.ReadNote? || c.ChangeTeams?) && id in w.stores.items.byID
    ensures id in Step(w, c).stores.items.byID && Step(w, c).stores.items.byID[id] == ItemMade(w, c, id)
  {
    hide TrimSpace;
  }

  /** At every step of every run an item's row is what it was, but for the fields a
      permitted call on that very item sets. */
  lemma ItemsChangeOnlySo(w: World, c: Command, id: string)
    requires WorldInv(w) && id in w.stores.items.byID
    ensures id in Step(w, c).stores.items.byID && Step(w, c).stores.items.byID[id] == ItemMade(w, c, id)
  {
    hide StoresInv, Step, ItemMade, Permitted, TrimSpace;
    if !Permitted(w, c) {
      RefusedKeepsItem(w, c, id);
    } else {
      match c
      case MoveItem(_, _, _) => CallMakesItem(w, c, id);
      case AssignItem(_, _, _) => CallMakesItem(w, c, id);
      case RespondItem(_, _, _) => CallMakesItem(w, c, id);
      case EditItem(_, _) => EditMakesItem(w, c, id);
      case CreateItem(_, _, _) => CreatingKeepsItems(w, c, id);
      case ReadNote(_, _, _) => OthersKeepItem(w, c, id);
      case ChangeTeams(_) => OthersKeepItem(w, c, id);
    }
  }

  lemma CreatingKeepsItems(w: World, c: Command, id: string)
    requires c.CreateItem? && WorldInv(w) && id in w.stores.items.byID
    ensures id in Step(w, c).stores.items.byID && Step(w, c).stores.items.byID[id] == ItemMade(w, c, id)
  {
    hide TrimSpace, Numbered, TrailInv, NoOrphans;
    if Create(w.stores, c.createdBy, c.input, c.at).1.Ok? {
      CreatedItem(w.stores, c.createdBy, c.input, c.at);
      NewIdIsFresh(w.stores.items);
    }
  }

  /** The fields that say what the work is. */
  predicate SameContent(a: WorkItem, b: WorkItem) {
    && a.title == b.title && a.description == b.description && a.priority == b.priority
    && a.locationText == b.locationText && a.dueAt == b.dueAt
  }

  /** The fields a creation fixes for good. */
  predicate SameOrigin(a: WorkItem, b: WorkItem) {
    && a.id == b.id && a.referenceCode == b.referenceCode
    && a.createdByUserID == b.createdByUserID && a.createdAt == b.createdAt
  }

  /** In every run: what the work is changes only by an edit, made by an
      administrator, or by the supervisor who created it while nobody has it; its
      identity, creator and time of creation never change. */
  lemma ContentChangesOnlyByPermittedEdits(hasSink: bool, hasAuthority: bool, cs: seq<Command>, c: Command, id: string)
    requires id in After(hasSink, hasAuthority, cs).items.byID
    ensures var w := Run(Start(hasSink, hasAuthority), cs);
            var (item, s') := (w.stores.items.byID[id], Step(w, c).stores);
            && id in s'.items.byID && SameOrigin(item, s'.items.byID[id])
            && (!SameContent(item, s'.items.byID[id]) ==>
                  c.EditItem? && c.edit.id == id && MayEdit(c.edit, item) && PatchWellFormed(c.edit.input))
  {
    hide TrimSpace, StoresInv, Run;
    AfterOk(hasSink, hasAuthority, cs);
    ItemsChangeOnlySo(Run(Start(hasSink, hasAuthority), cs), c, id);
  }

  // ----- Which items a supervisor hands over -----

  /** An item a supervisor assigns is their own and not yet assigned exactly when it
      has no assignee; when it has one, they run a team of that user. */
  lemma HandedOverItemIsOwnIff(w: World, q: AssignRequest)
    requires AssignPermitted(w, q) && !q.isAdmin
    ensures var item := w.stores.items.byID[q.id];
            && (item.assignedToUserID.None? && item.createdByUserID == q.assigner <==> item.assignedToUserID.None?)
            && (item.assignedToUserID.Some? ==> Runs(Authority(w), q.assigner, item.assignedToUserID.value))
  {
    hide Runs;
  }

  lemma RunSnoc(w: World, cs: seq<Command>, c: Command)
    ensures Run(w, cs + [c]) == Step(Run(w, cs), c)
  {
    hide Step;
    assert (cs + [c])[..|cs|] == cs;
  }

  const TEAM := TeamModel.TeamID(1)

  /** A team with one assignee and one supervisor, and an item by somebody else. */
  const SETTING: seq<Command> := [
    ChangeTeams(TeamModel.NewTeam("t", 0)),
    ChangeTeams(TeamModel.NewAssignee(TEAM, "u", "a", 0)),
    ChangeTeams(TeamModel.NewSupervisor(TEAM, "s", "a", 0)),
    CreateItem("r", FIRST_INPUT, 0)]

  /** An administrator assigns it and then moves it back, which clears no assignee. */
  const ADMIN_ASSIGNS_TO_U := AssignItem(AssignRequest(ItemID(1), "a", true, false, "u"), 0, 0)

  const ADMIN_MOVES_BACK := MoveItem(MoveRequest(ItemID(1), "a", true, false, false, Created, None), 0, 0)

  const SUPERVISOR_ASSIGNS := AssignRequest(ItemID(1), "s", false, true, "u")

  function Staged(): World {
    World(FirstCreated(), StagedTeams(), true)
  }

  function StagedTeams(): TeamModel.TeamState {
    var ts := TeamModel.CreateTeam(TeamModel.NO_TEAMS, "t", 0).0;
    TeamModel.AddSupervisor(TeamModel.AddAssignee(ts, TEAM, "u", "a", 0).0, TEAM, "s", "a", 0).0
  }

  lemma SettingStages()
    ensures Run(Start(false, true), SETTING) == Staged()
  {
    hide TeamModel.CreateTeam, TeamModel.AddAssignee, TeamModel.AddSupervisor, Create;
    var start := Start(false, true);
    assert SETTING == ((([] + [SETTING[0]]) + [SETTING[1]]) + [SETTING[2]]) + [SETTING[3]];
    RunSnoc(start, [], SETTING[0]);
    RunSnoc(start, [] + [SETTING[0]], SETTING[1]);
    RunSnoc(start, ([] + [SETTING[0]]) + [SETTING[1]], SETTING[2]);
    RunSnoc(start, (([] + [SETTING[0]]) + [SETTING[1]]) + [SETTING[2]], SETTING[3]);
  }

  lemma StagedTeamsWork()
    ensures TeamHistory.TeamInv(StagedTeams()) && Runs(Some(StagedTeams()), "s", "u")
  {
    var ts := TeamModel.CreateTeam(TeamModel.NO_TEAMS, "t", 0).0;
    var ts1 := TeamModel.AddAssignee(ts, TEAM, "u", "a", 0).0;
    ShortNames();
    hide TrimSpace, Numbered;
    NumberedIsTight("team-", 1);
    TeamHistory.RunKeepsInv([]);
    TeamHistory.CreateTeamKeepsInv(TeamModel.NO_TEAMS, "t", 0);
    TeamHistory.CreatedTeamIsThere(TeamModel.NO_TEAMS, "t", 0);
    hide TeamModel.AddAssignee, TeamModel.AddSupervisor, TeamHistory.TeamInv, TeamModel.IsActiveSupervisorOf;
    TeamHistory.AddAssigneeKeepsInv(ts, TEAM, "u", "a", 0);
    TeamHistory.SupervisionsKeepInv(ts1, TEAM, "s", "a", 0);
    TeamHistory.JoiningGivesAuthority(ts, TEAM, "u", "s", "a", 0, 0);
    RunsIffActive(StagedTeams(), "s", "u");
  }

  lemma ShortNames()
    ensures !Blank("a") && !Blank("s") && !Blank("t") && !Blank("u") && TrimSpace("u") == "u"
  {
    TightIsTrimmed("u");
  }

  /** The first item, in this status, by "r" and held by this user, or by nobody. */
  predicate FirstItemIs(w: World, status: Status, holder: Option<string>) {
    && ItemID(1) in w.stores.items.byID
    && var item := w.stores.items.byID[ItemID(1)];
       item.status == status && item.createdByUserID == "r" && item.assignedToUserID == holder
  }

  lemma AdminAssignPermitted(w: World)
    requires FirstItemIs(w, Created, None)
    ensures Permitted(w, ADMIN_ASSIGNS_TO_U)
    ensures var item := ItemMade(w, ADMIN_ASSIGNS_TO_U, ItemID(1));
            item.status == Assigned && item.createdByUserID == "r" && item.assignedToUserID == Some("u")
  {
    ShortNames();
    NumberedIsTight("workitem-", 1);
    hide TrimSpace, Numbered, InCharge, Runs, Patched;
  }

  lemma AdminMovePermitted(w: World)
    requires FirstItemIs(w, Assigned, Some("u"))
    ensures Permitted(w, ADMIN_MOVES_BACK)
    ensures var item := ItemMade(w, ADMIN_MOVES_BACK, ItemID(1));
            item.status == Created && item.createdByUserID == "r" && item.assignedToUserID == Some("u")
  {
    ShortNames();
    NumberedIsTight("workitem-", 1);
    hide TrimSpace, Numbered, InCharge, Runs, Patched;
  }

  lemma AdminAssignsToU(w: World)
    requires WorldInv(w) && FirstItemIs(w, Created, None)
    ensures FirstItemIs(Step(w, ADMIN_ASSIGNS_TO_U), Assigned, Some("u"))
  {
    hide Permitted, ItemMade, Step, WorldInv, Numbered;
    AdminAssignPermitted(w);
    ItemsChangeOnlySo(w, ADMIN_ASSIGNS_TO_U, ItemID(1));
  }

  lemma AdminMovesBack(w: World)
    requires WorldInv(w) && FirstItemIs(w, Assigned, Some("u"))
    ensures FirstItemIs(Step(w, ADMIN_MOVES_BACK), Created, Some("u"))
  {
    hide Permitted, ItemMade, Step, WorldInv, Numbered;
    AdminMovePermitted(w);
    ItemsChangeOnlySo(w, ADMIN_MOVES_BACK, ItemID(1));
  }

  lemma SupervisorMayAssign(w: World)
    requires FirstItemIs(w, Created, Some("u")) && Runs(Authority(w), "s", "u")
    ensures AssignPermitted(w, SUPERVISOR_ASSIGNS)
  {
    ShortNames();
    NumberedIsTight("workitem-", 1);
    hide TrimSpace, Numbered, Runs;
  }

  /** So it is not always the supervisor's own: here one assigns an item that
      somebody else created and that still has an assignee. */
  lemma SupervisorAssignsAnothersItem()
    ensures var w := Run(Start(false, true), SETTING + [ADMIN_ASSIGNS_TO_U] + [ADMIN_MOVES_BACK]);
            && AssignPermitted(w, SUPERVISOR_ASSIGNS) && !SUPERVISOR_ASSIGNS.isAdmin
            && w.stores.items.byID[ItemID(1)].createdByUserID == "r"
            && w.stores.items.byID[ItemID(1)].assignedToUserID == Some("u")
  {
    var start := Start(false, true);
    var (w, w1) := (Run(start, SETTING), Run(start, SETTING + [ADMIN_ASSIGNS_TO_U]));
    SettingStages();
    StagedTeamsWork();
    FirstItemStored();
    RunSnoc(start, SETTING, ADMIN_ASSIGNS_TO_U);
    RunSnoc(start, SETTING + [ADMIN_ASSIGNS_TO_U], ADMIN_MOVES_BACK);
    StagedStepsKeepTeams();
    hide Run, Step, WorldInv, Runs, FirstCreated, StagedTeams, TrimSpace, Numbered;
    AfterOk(false, true, SETTING);
    AfterOk(false, true, SETTING + [ADMIN_ASSIGNS_TO_U]);
    AdminAssignsToU(w);
    AdminMovesBack(w1);
    SupervisorMayAssign(Step(w1, ADMIN_MOVES_BACK));
  }

  lemma StagedStepsKeepTeams()
    ensures forall w :: Authority(Step(w, ADMIN_ASSIGNS_TO_U)) == Authority(w)
    ensures forall w :: Authority(Step(w, ADMIN_MOVES_BACK)) == Authority(w)
  {
  }
}
