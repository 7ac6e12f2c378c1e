/** Reading: the list and the single-item lookup show a caller the same items,
    every list is the same ordered sequence filtered, and the history views
    return rows in the order they were written. */
module Visibility {
  import opened Wrappers
  import opened Text
  import opened Sequences
  import opened Records
  import opened WorkItemTypes
  import opened WorkItemModel
  import opened Trails
  import opened WorkItemRuns
  import opened WorkItemTheorems
  import TeamModel
  import TeamHistory

  /** The single-item lookup, asked about an item in hand. */
  function Fetchable(s: Stores, authority: Option<TeamModel.TeamState>, c: Caller): WorkItem -> bool {
    (item: WorkItem) => GetByID(s, authority, item.id, c).Ok?
  }

  /** What reading relies on: rows under their own, non-blank ids; trimmed
      assignees; creators that are not blank; lawful teams. */
  ghost predicate Readable(s: Stores, authority: Option<TeamModel.TeamState>) {
    && TableOk(s.items)
    && (forall id :: id in s.items.byID ==> Tidy(s.items.byID[id]))
    && (authority.Some? ==> TeamHistory.TeamInv(authority.value))
  }

  ghost predicate Tidy(item: WorkItem) {
    && !Blank(item.id) && !Blank(item.createdByUserID)
    && (item.assignedToUserID.Some? ==> Trimmed(item.assignedToUserID.value) && item.assignedToUserID.value != "")
  }

  lemma SaneIsTidy(s: Stores, id: string)
    requires Sane(s, id)
    ensures Tidy(s.items.byID[id])
  {
    ItemIdIsTight(s.items.byID[id]);
  }

  lemma LawfulIsReadable(w: World)
    requires WorldInv(w)
    ensures Readable(w.stores, Authority(w))
  {
    forall id | id in w.stores.items.byID ensures Tidy(w.stores.items.byID[id]) {
      LawfulIsSane(w.stores, id);
      SaneIsTidy(w.stores, id);
    }
  }

  /** The supervisor's board (one query) and the per-item check (the other)
      agree, because a user is never on two teams at once. */
  lemma BoardAgrees(authority: Option<TeamModel.TeamState>, caller: string, item: WorkItem)
    requires authority.Some? ==> TeamHistory.TeamInv(authority.value)
    requires Tidy(item)
    ensures OnSupervisorsBoard(Supervised(authority, caller), caller)(item)
            <==> SupervisorMayActOn(authority, caller, item)
  {
    if authority.Some? && item.assignedToUserID.Some? {
      TeamHistory.QueriesAgree(authority.value, caller, item.assignedToUserID.value);
    }
  }

  lemma ListedItem(t: ItemTable, item: WorkItem)
    requires TableOk(t) && item in ListItems(t)
    ensures item.id in t.byID && t.byID[item.id] == item
  {
    hide StableSort, Numbered;
    StableSortMeaning(AllItems(t), NewestFirst);
    assert item in multiset(ListItems(t));
    assert item in AllItems(t);
  }

  lemma StoredItemIsListed(t: ItemTable, id: string)
    requires TableOk(t) && id in t.byID
    ensures t.byID[id] in ListItems(t)
  {
    hide StableSort, Numbered;
    var i :| 0 <= i < |t.ordered| && t.ordered[i] == id;
    assert AllItems(t)[i] == t.byID[id];
    StableSortMeaning(AllItems(t), NewestFirst);
    assert t.byID[id] in multiset(AllItems(t));
  }

  /** For every caller and every combination of role flags, the list is the
      whole list, in order, filtered by what the lookup would let them fetch. */
  lemma ListShowsWhatGetByIDFetches(s: Stores, authority: Option<TeamModel.TeamState>, c: Caller)
    requires Readable(s, authority) && (c.isAdmin || !Blank(c.user))
    ensures List(s, authority, c) == Ok(Filter(ListItems(s.items), Fetchable(s, authority, c)))
  {
    var all := ListItems(s.items);
    FilterSortCommute(AllItems(s.items), CreatedBy(c.user), NewestFirst);
    FilterSortCommute(AllItems(s.items), AssignedTo(c.user), NewestFirst);
    var board := OnSupervisorsBoard(Supervised(authority, c.user), c.user);
    forall item | item in all
      ensures c.isAdmin ==> Fetchable(s, authority, c)(item)
      ensures !c.isAdmin && c.isSupervisor ==> board(item) == Fetchable(s, authority, c)(item)
      ensures !c.isAdmin && !c.isSupervisor && c.isRequester ==>
                CreatedBy(c.user)(item) == Fetchable(s, authority, c)(item)
      ensures !c.isAdmin && !c.isSupervisor && !c.isRequester ==>
                AssignedTo(c.user)(item) == Fetchable(s, authority, c)(item)
    {
      ListedItem(s.items, item);
      BoardAgrees(authority, c.user, item);
    }
    if c.isAdmin {
      FilterAll(all, Fetchable(s, authority, c));
    } else if c.isSupervisor {
      FilterAgree(all, board, Fetchable(s, authority, c));
    } else if c.isRequester {
      FilterAgree(all, CreatedBy(c.user), Fetchable(s, authority, c));
    } else {
      FilterAgree(all, AssignedTo(c.user), Fetchable(s, authority, c));
    }
  }

  // ----- The order of the lists -----

  function MadeAt(t: int): WorkItem -> bool {
    (item: WorkItem) => item.createdAt == t
  }

  /** Later creations come first; items of one creation time come in the order the
      table has them. */
  ghost predicate NewestFirstOf(items: seq<WorkItem>, table: seq<WorkItem>) {
    && (forall i, j :: 0 <= i < j < |items| ==> items[i].createdAt >= items[j].createdAt)
    && (forall t :: Filter(items, MadeAt(t)) == Filter(table, MadeAt(t)))
  }

  lemma SortedNewestFirst(items: seq<WorkItem>)
    ensures NewestFirstOf(StableSort(items, NewestFirst), items)
  {
    hide StableSort;
    var sorted := StableSort(items, NewestFirst);
    StableSortMeaning(items, NewestFirst);
    forall i, j | 0 <= i < j < |sorted| ensures sorted[i].createdAt >= sorted[j].createdAt {
      assert NewestFirst(sorted[i]) <= NewestFirst(sorted[j]);
    }
    forall t ensures Filter(sorted, MadeAt(t)) == Filter(items, MadeAt(t)) {
      FilterAgree(sorted, MadeAt(t), HasKey(NewestFirst, -t));
      FilterAgree(items, MadeAt(t), HasKey(NewestFirst, -t));
    }
  }

  /** The three store lists. */
  lemma StoreListsNewestFirst(t: ItemTable, user: string)
    requires Listable(t)
    ensures NewestFirstOf(ListItems(t), AllItems(t))
    ensures NewestFirstOf(StableSort(Filter(AllItems(t), AssignedTo(user)), NewestFirst),
                          Filter(AllItems(t), AssignedTo(user)))
    ensures NewestFirstOf(StableSort(Filter(AllItems(t), CreatedBy(user)), NewestFirst),
                          Filter(AllItems(t), CreatedBy(user)))
  {
    SortedNewestFirst(AllItems(t));
    SortedNewestFirst(Filter(AllItems(t), AssignedTo(user)));
    SortedNewestFirst(Filter(AllItems(t), CreatedBy(user)));
  }

  lemma FilterKeepsNewestFirst(items: seq<WorkItem>, table: seq<WorkItem>, p: WorkItem -> bool)
    requires NewestFirstOf(items, table)
    ensures NewestFirstOf(Filter(items, p), Filter(table, p))
  {
    forall i, j | 0 <= i < j < |items| ensures NewestFirst(items[i]) <= NewestFirst(items[j]) {
    }
    FilterKeepsSorted(items, p, NewestFirst);
    var kept := Filter(items, p);
    forall i, j | 0 <= i < j < |kept| ensures kept[i].createdAt >= kept[j].createdAt {
      assert NewestFirst(kept[i]) <= NewestFirst(kept[j]);
    }
    forall t ensures Filter(kept, MadeAt(t)) == Filter(Filter(table, p), MadeAt(t)) {
      FilterCommutes(items, p, MadeAt(t));
      FilterCommutes(table, p, MadeAt(t));
    }
  }

  /** In every reachable state every caller's list has the newest items first, ties
      in creation order, and is exactly what they may fetch. */
  lemma ListsAreNewestFirst(hasSink: bool, hasAuthority: bool, cs: seq<Command>, c: Caller)
    requires c.isAdmin || !Blank(c.user)
    ensures var w := Run(Start(hasSink, hasAuthority), cs);
            && Listable(w.stores.items)
            && List(w.stores, Authority(w), c).Ok?
            && NewestFirstOf(List(w.stores, Authority(w), c).value,
                             Filter(AllItems(w.stores.items), Fetchable(w.stores, Authority(w), c)))
  {
    AfterOk(hasSink, hasAuthority, cs);
    var w := Run(Start(hasSink, hasAuthority), cs);
    LawfulIsReadable(w);
    ListShowsWhatGetByIDFetches(w.stores, Authority(w), c);
    StoreListsNewestFirst(w.stores.items, c.user);
    FilterKeepsNewestFirst(
      ListItems(w.stores.items), AllItems(w.stores.items), Fetchable(w.stores, Authority(w), c));
  }

  /** Who is refused a list: whoever has no identity and is no administrator. */
  lemma ListRefusedIff(s: Stores, authority: Option<TeamModel.TeamState>, c: Caller)
    requires Listable(s.items)
    ensures List(s, authority, c).Err? <==> !c.isAdmin && Blank(c.user)
    ensures List(s, authority, c).Err? ==> List(s, authority, c) == Err(InvalidInput)
  {
    hide TrimSpace;
  }

  /** The items a caller's list contains; a refused list contains none. */
  function Shown(s: Stores, authority: Option<TeamModel.TeamState>, c: Caller): seq<WorkItem>
    requires Listable(s.items)
  {
    match List(s, authority, c)
    case Ok(items) => items
    case Err(_) => []
  }

  /** A caller without an identity, and not an admin, can fetch nothing either. */
  lemma BlankCallerFetchesNothing(s: Stores, authority: Option<TeamModel.TeamState>, id: string, c: Caller)
    requires Readable(s, authority) && !c.isAdmin && Blank(c.user)
    ensures GetByID(s, authority, id, c).Err?
  {
    if id in s.items.byID {
      var item := s.items.byID[id];
      assert Tidy(item);
      assert item.assignedToUserID != Some(c.user);
    }
  }

  lemma ShownIffFetched(s: Stores, authority: Option<TeamModel.TeamState>, c: Caller, id: string)
    requires Readable(s, authority)
    ensures (exists item :: item in Shown(s, authority, c) && item.id == id) <==> GetByID(s, authority, id, c).Ok?
    ensures forall item :: item in Shown(s, authority, c) && item.id == id ==>
              GetByID(s, authority, id, c) == Ok(item)
  {
    if !c.isAdmin && Blank(c.user) {
      BlankCallerFetchesNothing(s, authority, id, c);
    } else {
      ListShowsWhatGetByIDFetches(s, authority, c);
      var all, p := ListItems(s.items), Fetchable(s, authority, c);
      forall item ensures item in Filter(all, p) <==> item in all && p(item) {
        FilterMembers(all, p, item);
      }
      forall item | item in all && item.id == id ensures id in s.items.byID && s.items.byID[id] == item {
        ListedItem(s.items, item);
      }
      if GetByID(s, authority, id, c).Ok? {
        StoredItemIsListed(s.items, id);
        assert s.items.byID[id].id == id;
        assert p(s.items.byID[id]);
      }
    }
  }

  /** In every reachable state of teams and work items, for every caller and
      every combination of role flags: an item is on the list exactly when its
      id can be fetched, and the two show the same row. */
  lemma ListAndLookupAgree(hasSink: bool, hasAuthority: bool, cs: seq<Command>, c: Caller, id: string)
    ensures var w := Run(Start(hasSink, hasAuthority), cs);
            && Listable(w.stores.items)
            && ((exists item :: item in Shown(w.stores, Authority(w), c) && item.id == id)
                  <==> GetByID(w.stores, Authority(w), id, c).Ok?)
            && (forall item :: item in Shown(w.stores, Authority(w), c) && item.id == id ==>
                  GetByID(w.stores, Authority(w), id, c) == Ok(item))
  {
    AfterOk(hasSink, hasAuthority, cs);
    var w := Run(Start(hasSink, hasAuthority), cs);
    LawfulIsReadable(w);
    ShownIffFetched(w.stores, Authority(w), c, id);
  }

  // ----- Lookup and history -----

  /** The lookup and the history rule come to the same for this caller: only a
      plain requester is treated differently, as creator by the one and as
      assignee by the other. */
  predicate SameRule(item: WorkItem, c: Caller) {
    || c.isAdmin || c.isSupervisor || !c.isRequester
    || (item.createdByUserID == c.user <==> item.assignedToUserID == Some(c.user))
  }

  /** Whoever may fetch an item may read its histories, and the other way round,
      exactly when the two rules come to the same. */
  lemma HistoryOpensIffSameRule(s: Stores, authority: Option<TeamModel.TeamState>, c: Caller, id: string)
    ensures (GetByID(s, authority, id, c).Ok? <==> ListStatusHistory(s, authority, id, c).Ok?) <==>
              Blank(id) || id !in s.items.byID || SameRule(s.items.byID[id], c)
    ensures ListAssignmentHistory(s, authority, id, c).Ok? <==> ListStatusHistory(s, authority, id, c).Ok?
    ensures GetAssignment(s, authority, id, c).Ok? <==>
              ListStatusHistory(s, authority, id, c).Ok? && id in s.assignments.byWorkItem
  {
    hide TrimSpace;
    if !Blank(id) && id in s.items.byID {
      assert GetByID(s, authority, id, c).Ok? <==>
               if !c.isAdmin && !c.isSupervisor && c.isRequester
               then s.items.byID[id].createdByUserID == c.user
               else MayView(authority, s.items.byID[id], c);
    }
  }

  /** For everyone but plain requesters, in every reachable state, the list, the
      lookup and the histories open the same items; a history then is complete. */
  lemma ListedMeansHistoryOpens(hasSink: bool, hasAuthority: bool, cs: seq<Command>, c: Caller, id: string)
    requires c.isAdmin || c.isSupervisor || !c.isRequester
    ensures var w := Run(Start(hasSink, hasAuthority), cs);
            && Listable(w.stores.items)
            && ((exists item :: item in Shown(w.stores, Authority(w), c) && item.id == id)
                  <==> ListStatusHistory(w.stores, Authority(w), id, c) == Ok(ListStatusRows(w.stores.statusLog, id)))
  {
    hide ListStatusRows;
    var w := Run(Start(hasSink, hasAuthority), cs);
    ListAndLookupAgree(hasSink, hasAuthority, cs, c, id);
    HistoryOpensIffSameRule(w.stores, Authority(w), c, id);
  }

  /** A requester may fetch the item they have just created and is told that its
      history does not exist. */
  lemma RequesterCannotReadOwnHistory()
    ensures var (s, c) := (FirstCreated(), Caller("r", false, false, true));
            && GetByID(s, None, ItemID(1), c).Ok?
            && ListStatusHistory(s, None, ItemID(1), c) == Err(NotFound)
  {
    hide FirstCreated, Numbered, TrimSpace;
    FirstItemStored();
    NumberedIsTight("workitem-", 1);
  }

  // ----- History views -----

  /** The commands' own clock readings, in order of execution. */
  ghost predicate ClockForward(cs: seq<Command>) {
    forall i, j :: 0 <= i < j < |cs| ==> TimeOf(cs[i]) <= TimeOf(cs[j])
  }

  function TimeOf(c: Command): int {
    match c
    case CreateItem(_, _, at) => at
    case EditItem(_, at) => at
    case MoveItem(_, at, _) => at
    case AssignItem(_, at, _) => at
    case RespondItem(_, at, _) => at
    case ReadNote(_, _, at) => at
    case ChangeTeams(change) => change.at
  }

  /** Both logs are in time order and nothing in them is later than `t`. */
  ghost predicate LogsInOrder(s: Stores, t: int) {
    && SortedBy(s.statusLog.rows, StatusTime) && SortedBy(s.eventLog.rows, EventTime)
    && (forall i :: 0 <= i < |s.statusLog.rows| ==> StatusTime(s.statusLog.rows[i]) <= t)
    && (forall i :: 0 <= i < |s.eventLog.rows| ==> EventTime(s.eventLog.rows[i]) <= t)
  }

  predicate StampedAt(w: Write, t: int) {
    match w
    case AddStatus(entry) => entry.createdAt == t
    case AddEvent(event) => event.createdAt == t
    case _ => true
  }

  lemma {:induction false} ExecAllKeepsOrder(s: Stores, ws: seq<Write>, t: int)
    requires LogsInOrder(s, t) && forall i :: 0 <= i < |ws| ==> StampedAt(ws[i], t)
    ensures LogsInOrder(ExecAll(s, ws).0, t)
    decreases |ws|
  {
    if ws != [] && Exec(s, ws[0]).Ok? {
      assert StampedAt(ws[0], t);
      assert LogsInOrder(Exec(s, ws[0]).value, t);
      ExecAllKeepsOrder(Exec(s, ws[0]).value, ws[1..], t);
    }
  }

  lemma PlansAreStamped(w: World, c: Command)
    requires PlanOf(w, c).Ok?
    ensures forall i :: 0 <= i < |PlanOf(w, c).value| ==> StampedAt(PlanOf(w, c).value[i], TimeOf(c))
  {
    hide TrimSpace, Numbered;
  }

  lemma LogsInOrderLater(s: Stores, t: int, t': int)
    requires LogsInOrder(s, t) && t <= t'
    ensures LogsInOrder(s, t')
  {
  }

  lemma StepKeepsOrder(w: World, c: Command)
    requires LogsInOrder(w.stores, TimeOf(c))
    ensures LogsInOrder(Step(w, c).stores, TimeOf(c))
  {
    match c
    case CreateItem(_, _, _) =>
    case ReadNote(_, _, _) =>
    case ChangeTeams(_) =>
    case _ =>
      if PlanOf(w, c).Ok? {
        PlansAreStamped(w, c);
        ExecAllKeepsOrder(w.stores, PlanOf(w, c).value, TimeOf(c));
      }
  }

  lemma {:induction false} LogsStayInOrder(hasSink: bool, hasAuthority: bool, cs: seq<Command>, t: int)
    requires ClockForward(cs) && (cs != [] ==> TimeOf(cs[|cs| - 1]) <= t)
    ensures LogsInOrder(After(hasSink, hasAuthority, cs), t)
  {
    if cs != [] {
      var init, last := cs[..|cs| - 1], cs[|cs| - 1];
      if init != [] {
        assert init[|init| - 1] == cs[|cs| - 2];
      }
      LogsStayInOrder(hasSink, hasAuthority, init, TimeOf(last));
      StepKeepsOrder(Run(Start(hasSink, hasAuthority), init), last);
      LogsInOrderLater(After(hasSink, hasAuthority, cs), TimeOf(last), t);
    }
  }

  function WrittenAt(t: int): Stored<StatusEntry> -> bool {
    (row: Stored<StatusEntry>) => row.value.createdAt == t
  }

  function HappenedAt(t: int): Stored<AssignmentEvent> -> bool {
    (row: Stored<AssignmentEvent>) => row.value.createdAt == t
  }

  /** Whatever the clock did, both history views run from oldest to newest, rows of
      one time in append order. */
  lemma HistoryViewsAreOldestFirst(s: Stores, id: string)
    ensures var (all, view) := (Filter(s.statusLog.rows, StatusRowsOf(id)), ListStatusRows(s.statusLog, id));
            && (forall i, j :: 0 <= i < j < |view| ==> view[i].value.createdAt <= view[j].value.createdAt)
            && (forall t :: Filter(view, WrittenAt(t)) == Filter(all, WrittenAt(t)))
    ensures var (all, view) := (Filter(s.eventLog.rows, EventRowsOf(id)), ListEventRows(s.eventLog, id));
            && (forall i, j :: 0 <= i < j < |view| ==> view[i].value.createdAt <= view[j].value.createdAt)
            && (forall t :: Filter(view, HappenedAt(t)) == Filter(all, HappenedAt(t)))
  {
    hide StableSort;
    var statuses, events := Filter(s.statusLog.rows, StatusRowsOf(id)), Filter(s.eventLog.rows, EventRowsOf(id));
    var (view, seen) := (ListStatusRows(s.statusLog, id), ListEventRows(s.eventLog, id));
    StableSortMeaning(statuses, StatusTime);
    StableSortMeaning(events, EventTime);
    forall i, j | 0 <= i < j < |view| ensures view[i].value.createdAt <= view[j].value.createdAt {
      assert StatusTime(view[i]) <= StatusTime(view[j]);
    }
    forall i, j | 0 <= i < j < |seen| ensures seen[i].value.createdAt <= seen[j].value.createdAt {
      assert EventTime(seen[i]) <= EventTime(seen[j]);
    }
    forall t ensures Filter(view, WrittenAt(t)) == Filter(statuses, WrittenAt(t)) {
      FilterAgree(view, WrittenAt(t), HasKey(StatusTime, t));
      FilterAgree(statuses, WrittenAt(t), HasKey(StatusTime, t));
    }
    forall t ensures Filter(seen, HappenedAt(t)) == Filter(events, HappenedAt(t)) {
      FilterAgree(seen, HappenedAt(t), HasKey(EventTime, t));
      FilterAgree(events, HappenedAt(t), HasKey(EventTime, t));
    }
  }

  /** With a clock that never runs backwards, both history views list one item's
      entries exactly as they were appended. */
  lemma HistoryViewsAreAppendOrder(hasSink: bool, hasAuthority: bool, cs: seq<Command>, id: string)
    requires ClockForward(cs)
    ensures var s := After(hasSink, hasAuthority, cs);
            && Values(ListStatusRows(s.statusLog, id)) == HistoryOf(s, id)
            && Values(ListEventRows(s.eventLog, id)) == EventsOf(s, id)
  {
    LogsStayInOrder(hasSink, hasAuthority, cs, if cs == [] then 0 else TimeOf(cs[|cs| - 1]));
    ViewsOfOrderedLogs(After(hasSink, hasAuthority, cs), if cs == [] then 0 else TimeOf(cs[|cs| - 1]), id);
  }

  lemma ViewsOfOrderedLogs(s: Stores, t: int, id: string)
    requires LogsInOrder(s, t)
    ensures Values(ListStatusRows(s.statusLog, id)) == HistoryOf(s, id)
    ensures Values(ListEventRows(s.eventLog, id)) == EventsOf(s, id)
  {
    FilterKeepsSorted(s.statusLog.rows, StatusRowsOf(id), StatusTime);
    SortedIsFixed(Filter(s.statusLog.rows, StatusRowsOf(id)), StatusTime);
    FilterAgree(s.statusLog.rows, StatusRowsOf(id), Holding(StatusFor(id)));
    FilterProject(s.statusLog.rows, StatusFor(id));
    FilterKeepsSorted(s.eventLog.rows, EventRowsOf(id), EventTime);
    SortedIsFixed(Filter(s.eventLog.rows, EventRowsOf(id)), EventTime);
    FilterAgree(s.eventLog.rows, EventRowsOf(id), Holding(EventFor(id)));
    FilterProject(s.eventLog.rows, EventFor(id));
  }

  lemma EventViewIsWhole(s: Stores, id: string)
    ensures ListEventRows(s.eventLog, id) == [] <==> EventsOf(s, id) == []
  {
    hide StableSort;
    var rows := Filter(s.eventLog.rows, EventRowsOf(id));
    StableSortMeaning(rows, EventTime);
    assert |StableSort(rows, EventTime)| == |multiset(rows)| == |rows|;
    FilterAgree(s.eventLog.rows, EventRowsOf(id), Holding(EventFor(id)));
    FilterProject(s.eventLog.rows, EventFor(id));
  }

  /** In every run, for every caller: the current assignment and its history open
      together, there is one exactly when the history has an entry, and it is what
      replaying the history gives. */
  lemma AssignmentShownIsReplay(hasSink: bool, hasAuthority: bool, cs: seq<Command>, c: Caller, id: string)
    ensures var w := Run(Start(hasSink, hasAuthority), cs);
            var shown := GetAssignment(w.stores, Authority(w), id, c);
            match ListAssignmentHistory(w.stores, Authority(w), id, c)
            case Err(e) => shown == Err(e)
            case Ok(view) =>
              && (view == [] <==> shown == Err(AssignmentNotFound))
              && (view != [] ==> shown.Ok? && Replay(EventsOf(w.stores, id)) == Some(shown.value.value))
  {
    hide ListEventRows, Replay, ViewedItem, Run;
    AssignmentRebuilt(hasSink, hasAuthority, cs, id);
    EventViewIsWhole(Run(Start(hasSink, hasAuthority), cs).stores, id);
  }
}
