/** Multi-store calls inside a database transaction: one store write after
    another, any of which may fail, then commit or rollback. Ids come from
    database sequences, which a rollback does not rewind. */
module Transactions {
  import opened Wrappers
  import opened Text
  import opened Records
  import opened WorkItemTypes
  import opened WorkItemModel
  import TeamModel
  import N = NotificationModel

  /** What happens to one statement: it works, it fails before anything, or it
      fails after having drawn an id. */
  datatype StatementFault = Works | Fails | FailsAfterDrawing

  /** Which parts of one transaction break. */
  datatype Faults = Faults(begin: bool, statement: nat -> StatementFault, commit: bool)

  predicate NoFaults(f: Faults, n: nat) {
    !f.begin && !f.commit && forall i :: 0 <= i < n ==> f.statement(i) == Works
  }

  /** Drawing an id without using it. */
  function Draw(s: Stores, w: Write): Stores {
    match w
    case AddStatus(_) => s.(statusLog := s.statusLog.(counter := s.statusLog.counter + 1))
    case NewAssignment(_) => s.(assignments := s.assignments.(counter := s.assignments.counter + 1))
    case AddEvent(_) => s.(eventLog := s.eventLog.(counter := s.eventLog.counter + 1))
    case SendNote(_, _, _, _, _) =>
      (match s.sink
       case Some(log) => s.(sink := Some(log.(counter := log.counter + 1)))
       case None => s)
    case _ => s
  }

  function SinkCounter(s: Stores): nat {
    if s.sink.Some? then s.sink.value.counter else 0
  }

  /** The rows of one state with the sequences of another. */
  function WithSequencesOf(rows: Stores, later: Stores): Stores {
    rows.(assignments := rows.assignments.(counter := later.assignments.counter),
          statusLog := rows.statusLog.(counter := later.statusLog.counter),
          eventLog := rows.eventLog.(counter := later.eventLog.counter),
          sink := if rows.sink.Some? then Some(rows.sink.value.(counter := SinkCounter(later))) else None)
  }

  /** Every store is as before; only unused ids may have been skipped. */
  ghost predicate SameRows(s: Stores, s': Stores) {
    && s' == WithSequencesOf(s, s')
    && s.assignments.counter <= s'.assignments.counter
    && s.statusLog.counter <= s'.statusLog.counter
    && s.eventLog.counter <= s'.eventLog.counter
    && SinkCounter(s) <= SinkCounter(s')
  }

  ghost predicate SequencesAdvance(s: Stores, s': Stores) {
    && s.assignments.counter <= s'.assignments.counter
    && s.statusLog.counter <= s'.statusLog.counter
    && s.eventLog.counter <= s'.eventLog.counter
    && s.sink.Some? == s'.sink.Some?
    && SinkCounter(s) <= SinkCounter(s')
  }

  lemma {:induction false} ExecAllAdvances(s: Stores, ws: seq<Write>)
    ensures SequencesAdvance(s, ExecAll(s, ws).0)
    decreases |ws|
  {
    if ws != [] && Exec(s, ws[0]).Ok? {
      assert SequencesAdvance(s, Exec(s, ws[0]).value);
      ExecAllAdvances(Exec(s, ws[0]).value, ws[1..]);
    }
  }

  lemma DrawAdvances(s: Stores, w: Write)
    ensures SequencesAdvance(s, Draw(s, w))
  {
  }

  lemma RollbackKeepsRows(s: Stores, later: Stores)
    requires SequencesAdvance(s, later)
    ensures SameRows(s, WithSequencesOf(s, later))
  {
  }

  class Database {
    var committed: Stores

    constructor (stores: Stores)
      ensures committed == stores
    {
      committed := stores;
    }

    /** Begin, run the call's writes one by one, then commit, or roll back on any
        error. `fn` is the call: its guards read the transaction's own state. */
    method WithTx(fn: Stores -> Result<seq<Write>, Error>, faults: Faults) returns (failure: Option<Error>)
      modifies this
      ensures failure.Some? ==> SameRows(old(committed), committed)
      ensures failure.None? ==>
                fn(old(committed)).Ok? && (committed, None) == ExecAll(old(committed), fn(old(committed)).value)
      ensures fn(old(committed)).Err? && !faults.begin ==>
                failure == Some(fn(old(committed)).error) && committed == old(committed)
      ensures fn(old(committed)).Ok? && NoFaults(faults, |fn(old(committed)).value|) ==>
                failure == ExecAll(old(committed), fn(old(committed)).value).1
    {
      if faults.begin {
        return Some(StorageFailure);
      }
      var working := committed;
      match fn(working) {
        case Err(e) => return Some(e);
        case Ok(ws) =>
          failure, working := RunStatements(working, ws, faults);
          if failure.Some? {
            committed := WithSequencesOf(committed, working);
            RollbackKeepsRows(old(committed), working);
            return;
          }
          if faults.commit {
            committed := WithSequencesOf(committed, working);
            RollbackKeepsRows(old(committed), working);
            return Some(StorageFailure);
          }
          committed := working;
      }
    }

    /** The statements of one call, up to the first that fails. */
    static method RunStatements(begun: Stores, ws: seq<Write>, faults: Faults)
      returns (failure: Option<Error>, working: Stores)
      ensures SequencesAdvance(begun, working)
      ensures failure.None? ==> (working, None) == ExecAll(begun, ws)
      ensures (forall i :: 0 <= i < |ws| ==> faults.statement(i) == Works) ==> failure == ExecAll(begun, ws).1
    {
      working := begun;
      for i := 0 to |ws|
        invariant (working, None) == ExecAll(begun, ws[..i])
      {
        ExecAllAdvances(begun, ws[..i]);
        StatementByStatement(begun, ws, i);
        match faults.statement(i) {
          case Fails => return Some(StorageFailure), working;
          case FailsAfterDrawing =>
            DrawAdvances(working, ws[i]);
            return Some(StorageFailure), Draw(working, ws[i]);
          case Works =>
        }
        match Exec(working, ws[i]) {
          case Err(e) => return Some(e), working;
          case Ok(next) => working := next;
        }
      }
      assert ws[..|ws|] == ws;
      ExecAllAdvances(begun, ws);
      failure := None;
    }
  }

  lemma StatementByStatement(begun: Stores, ws: seq<Write>, i: nat)
    requires i < |ws| && ExecAll(begun, ws[..i]).1.None?
    ensures var working := ExecAll(begun, ws[..i]).0;
            && (Exec(working, ws[i]).Ok? ==> ExecAll(begun, ws[..i + 1]) == (Exec(working, ws[i]).value, None))
            && (Exec(working, ws[i]).Err? ==> ExecAll(begun, ws).1 == Some(Exec(working, ws[i]).error))
  {
    var working := ExecAll(begun, ws[..i]).0;
    assert ws[..i + 1] == ws[..i] + [ws[i]];
    ExecAllConcat(begun, ws[..i], [ws[i]]);
    LastWrite(working, ws[i]);
    assert ws == ws[..i] + ([ws[i]] + ws[i + 1..]);
    ExecAllConcat(begun, ws[..i], [ws[i]] + ws[i + 1..]);
    NextWrite(working, ws[i], ws[i + 1..]);
  }

  // ----- Retrying -----

  /** Equal up to the time of the call that wrote them. */
  predicate AlikeItem(a: WorkItem, b: WorkItem) {
    a.(updatedAt := 0) == b.(updatedAt := 0)
  }

  predicate AlikeAssignment(a: Assignment, b: Assignment) {
    a.respondedAt.Some? == b.respondedAt.Some?
    && a.(assignedAt := 0, respondedAt := None) == b.(assignedAt := 0, respondedAt := None)
  }

  predicate AlikeStatus(a: StatusEntry, b: StatusEntry) {
    a.(createdAt := 0) == b.(createdAt := 0)
  }

  predicate AlikeEvent(a: AssignmentEvent, b: AssignmentEvent) {
    a.(createdAt := 0) == b.(createdAt := 0)
  }

  predicate AlikeNote(a: N.Notification, b: N.Notification) {
    a.(createdAt := 0) == b.(createdAt := 0)
  }

  ghost predicate AlikeRows<T(!new)>(xs: seq<Stored<T>>, ys: seq<Stored<T>>, alike: (T, T) -> bool) {
    |xs| == |ys| && forall i :: 0 <= i < |xs| ==> alike(xs[i].value, ys[i].value)
  }

  ghost predicate AlikeItems(a: ItemTable, b: ItemTable) {
    && a.ordered == b.ordered && a.byID.Keys == b.byID.Keys
    && forall id :: id in a.byID ==> AlikeItem(a.byID[id], b.byID[id])
  }

  ghost predicate AlikeAssignments(a: AssignmentTable, b: AssignmentTable) {
    && a.byWorkItem.Keys == b.byWorkItem.Keys
    && forall id :: id in a.byWorkItem ==> AlikeAssignment(a.byWorkItem[id].value, b.byWorkItem[id].value)
  }

  ghost predicate AlikeSinks(a: Option<Log<N.Notification>>, b: Option<Log<N.Notification>>) {
    && a.Some? == b.Some?
    && (a.Some? ==> AlikeRows(a.value.rows, b.value.rows, AlikeNote))
  }

  /** Two states that differ only in generated ids and in the times of calls. */
  ghost predicate Alike(a: Stores, b: Stores) {
    && AlikeItems(a.items, b.items)
    && AlikeAssignments(a.assignments, b.assignments)
    && AlikeRows(a.statusLog.rows, b.statusLog.rows, AlikeStatus)
    && AlikeRows(a.eventLog.rows, b.eventLog.rows, AlikeEvent)
    && AlikeSinks(a.sink, b.sink)
  }

  predicate AlikeWrite(v: Write, w: Write) {
    match v
    case PutItem(a) => w.PutItem? && AlikeItem(a, w.item)
    case AddStatus(a) => w.AddStatus? && AlikeStatus(a, w.entry)
    case NewAssignment(a) => w.NewAssignment? && AlikeAssignment(a, w.assignment)
    case PutAssignment(a) => w.PutAssignment? && AlikeAssignment(a.value, w.row.value)
    case AddEvent(a) => w.AddEvent? && AlikeEvent(a, w.event)
    case SendNote(r, id, k, m, _) =>
      w.SendNote? && r == w.recipient && id == w.workItemID && k == w.kind && m == w.message
  }

  lemma ExecAlike(a: Stores, b: Stores, v: Write, w: Write)
    requires Alike(a, b) && AlikeWrite(v, w)
    ensures Exec(a, v).Ok? == Exec(b, w).Ok?
    ensures Exec(a, v).Ok? ==> Alike(Exec(a, v).value, Exec(b, w).value)
    ensures Exec(a, v).Err? ==> Exec(a, v).error == Exec(b, w).error
  {
    hide TrimSpace, Numbered;
    match v
    case PutItem(item) =>
      assert item.id == w.item.id;
      if item.id in a.items.byID {
        assert AlikeItems(Exec(a, v).value.items, Exec(b, w).value.items);
      }
    case NewAssignment(x) =>
      assert x.workItemID == w.assignment.workItemID;
      assert AlikeAssignments(Exec(a, v).value.assignments, Exec(b, w).value.assignments);
    case PutAssignment(x) =>
      assert x.value.workItemID == w.row.value.workItemID;
      if x.value.workItemID in a.assignments.byWorkItem {
        assert AlikeAssignments(Exec(a, v).value.assignments, Exec(b, w).value.assignments);
      }
    case _ =>
  }

  ghost predicate AlikeWrites(vs: seq<Write>, ws: seq<Write>) {
    |vs| == |ws| && forall i :: 0 <= i < |vs| ==> AlikeWrite(vs[i], ws[i])
  }

  lemma {:induction false} ExecAllAlike(a: Stores, b: Stores, vs: seq<Write>, ws: seq<Write>)
    requires Alike(a, b) && AlikeWrites(vs, ws)
    ensures Alike(ExecAll(a, vs).0, ExecAll(b, ws).0) && ExecAll(a, vs).1 == ExecAll(b, ws).1
    decreases |vs|
  {
    if vs != [] {
      ExecAlike(a, b, vs[0], ws[0]);
      if Exec(a, vs[0]).Ok? {
        ExecAllAlike(Exec(a, vs[0]).value, Exec(b, ws[0]).value, vs[1..], ws[1..]);
      }
    }
  }

  ghost predicate AlikePlans(p: Result<seq<Write>, Error>, q: Result<seq<Write>, Error>) {
    match p
    case Err(e) => q == Err(e)
    case Ok(vs) => q.Ok? && AlikeWrites(vs, q.value)
  }

  lemma MoveGuardsAlike(authority: Option<TeamModel.TeamState>, q: MoveRequest, x: WorkItem, y: WorkItem)
    requires AlikeItem(x, y)
    ensures MoveRefused(authority, q, x) == MoveRefused(authority, q, y)
  {
    hide TeamModel.IsActiveSupervisorOf, IsValidTransition, IsAssigneeAllowedTransition;
    assert x.status == y.status && x.assignedToUserID == y.assignedToUserID;
  }

  lemma MoveWritesAlike(q: MoveRequest, x: WorkItem, y: WorkItem, now: int, noteNow: int, now': int, noteNow': int)
    requires AlikeItem(x, y)
    ensures AlikeWrites(MoveWrites(x, q, now, noteNow), MoveWrites(y, q, now', noteNow'))
  {
    hide TrimSpace, Numbered;
  }

  lemma MovePlansAlike(
    a: Stores, b: Stores, authority: Option<TeamModel.TeamState>, q: MoveRequest,
    now: int, noteNow: int, now': int, noteNow': int)
    requires Alike(a, b)
    ensures AlikePlans(MovePlan(a, authority, q, now, noteNow), MovePlan(b, authority, q, now', noteNow'))
  {
    hide TrimSpace, Numbered, MoveRefused, MoveWrites, AlikeWrites;
    if q.id in a.items.byID {
      var (x, y) := (a.items.byID[q.id], b.items.byID[q.id]);
      assert AlikeItem(x, y);
      MoveGuardsAlike(authority, q, x, y);
      MoveWritesAlike(q, x, y, now, noteNow, now', noteNow');
    }
  }

  lemma AssignPlansAlike(
    a: Stores, b: Stores, authority: Option<TeamModel.TeamState>, q: AssignRequest,
    now: int, noteNow: int, now': int, noteNow': int)
    requires Alike(a, b)
    ensures AlikePlans(AssignPlan(a, authority, q, now, noteNow), AssignPlan(b, authority, q, now', noteNow'))
  {
    hide TrimSpace, Numbered, TeamModel.IsActiveSupervisorOf, IsValidTransition;
    if q.id in a.items.byID {
      assert AlikeItem(a.items.byID[q.id], b.items.byID[q.id]);
    }
  }

  lemma RespondPlansAlike(
    a: Stores, b: Stores, q: RespondRequest, now: int, noteNow: int, now': int, noteNow': int)
    requires Alike(a, b)
    ensures AlikePlans(RespondPlan(a, q, now, noteNow), RespondPlan(b, q, now', noteNow'))
  {
    hide TrimSpace, Numbered;
    if q.id in a.items.byID {
      assert AlikeItem(a.items.byID[q.id], b.items.byID[q.id]);
    }
    if q.id in a.assignments.byWorkItem {
      assert AlikeAssignment(a.assignments.byWorkItem[q.id].value, b.assignments.byWorkItem[q.id].value);
    }
  }

  lemma SameRowsAreAlike(s: Stores, s': Stores)
    requires SameRows(s, s')
    ensures Alike(s, s')
  {
  }

  lemma PerformAlike(a: Stores, b: Stores, p: Result<seq<Write>, Error>, q: Result<seq<Write>, Error>)
    requires Alike(a, b) && AlikePlans(p, q)
    ensures Alike(Perform(a, p).0, Perform(b, q).0) && Perform(a, p).1 == Perform(b, q).1
  {
    if p.Ok? {
      ExecAllAlike(a, b, p.value, q.value);
    }
  }

  /** Whatever was rolled back, a later fault-free retry does what the first call
      would have done: same outcome, same rows up to generated ids and times. */
  lemma MoveRetryIsAFirstCall(
    s: Stores, s': Stores, authority: Option<TeamModel.TeamState>, q: MoveRequest,
    now: int, noteNow: int, now': int, noteNow': int)
    requires SameRows(s, s')
    ensures var (first, retry) := (Perform(s, MovePlan(s, authority, q, now, noteNow)),
                                   Perform(s', MovePlan(s', authority, q, now', noteNow')));
            Alike(first.0, retry.0) && first.1 == retry.1
  {
    SameRowsAreAlike(s, s');
    MovePlansAlike(s, s', authority, q, now, noteNow, now', noteNow');
    PerformAlike(s, s', MovePlan(s, authority, q, now, noteNow), MovePlan(s', authority, q, now', noteNow'));
  }

  lemma AssignRetryIsAFirstCall(
    s: Stores, s': Stores, authority: Option<TeamModel.TeamState>, q: AssignRequest,
    now: int, noteNow: int, now': int, noteNow': int)
    requires SameRows(s, s')
    ensures var (first, retry) := (Perform(s, AssignPlan(s, authority, q, now, noteNow)),
                                   Perform(s', AssignPlan(s', authority, q, now', noteNow')));
            Alike(first.0, retry.0) && first.1 == retry.1
  {
    SameRowsAreAlike(s, s');
    AssignPlansAlike(s, s', authority, q, now, noteNow, now', noteNow');
    PerformAlike(s, s', AssignPlan(s, authority, q, now, noteNow), AssignPlan(s', authority, q, now', noteNow'));
  }

  lemma RespondRetryIsAFirstCall(
    s: Stores, s': Stores, q: RespondRequest, now: int, noteNow: int, now': int, noteNow': int)
    requires SameRows(s, s')
    ensures var (first, retry) := (Perform(s, RespondPlan(s, q, now, noteNow)),
                                   Perform(s', RespondPlan(s', q, now', noteNow')));
            Alike(first.0, retry.0) && first.1 == retry.1
  {
    SameRowsAreAlike(s, s');
    RespondPlansAlike(s, s', q, now, noteNow, now', noteNow');
    PerformAlike(s, s', RespondPlan(s, q, now, noteNow), RespondPlan(s', q, now', noteNow'));
  }

  // ----- Why the transaction is needed -----

  lemma {:induction false} ExecAllKeepsStatus(s: Stores, ws: seq<Write>, id: string)
    requires id in s.items.byID && forall i :: 0 <= i < |ws| ==> !ws[i].PutItem?
    ensures ExecAll(s, ws).0.items == s.items
    decreases |ws|
  {
    if ws != [] && Exec(s, ws[0]).Ok? {
      ExecAllKeepsStatus(Exec(s, ws[0]).value, ws[1..], id);
    }
  }

  /** An assignment that stops after any of its first four writes without a
      rollback can never be completed by retrying it: the item already reads as
      assigned, and the retry is refused. */
  lemma HalfAssignedIsStuck(
    s: Stores, authority: Option<TeamModel.TeamState>, q: AssignRequest, now: int, noteNow: int,
    k: nat, now': int, noteNow': int)
    requires AssignPlan(s, authority, q, now, noteNow).Ok? && s.items.byID[q.id].id == q.id
    requires 1 <= k <= 4
    ensures var partial := ExecAll(s, AssignPlan(s, authority, q, now, noteNow).value[..k]).0;
            AssignPlan(partial, authority, q, now', noteNow').Err?
  {
    var ws := AssignPlan(s, authority, q, now, noteNow).value;
    var s1 := Exec(s, ws[0]).value;
    assert ws[..k] == [ws[0]] + ws[1..k];
    NextWrite(s, ws[0], ws[1..k]);
    ExecAllKeepsStatus(s1, ws[1..k], q.id);
    assert s1.items.byID[q.id].status == Assigned;
  }
}
