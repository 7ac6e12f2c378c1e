/** The in-memory notification store and service, refining `NotificationModel`. */
module NotificationServices {
  import opened Wrappers
  import opened Text
  import opened Records
  import opened NotificationModel

  ghost predicate InSequence(rows: seq<Stored<Notification>>) {
    forall i :: 0 <= i < |rows| ==> rows[i].id == NotificationID(i + 1)
  }

  ghost predicate HasRow(rows: seq<Stored<Notification>>, id: string) {
    exists i :: 0 <= i < |rows| && rows[i].id == id
  }

  /** The map holds exactly the rows, each under its id. */
  ghost predicate Indexes(entries: map<string, Stored<Notification>>, rows: seq<Stored<Notification>>) {
    && (forall i :: 0 <= i < |rows| ==> rows[i].id in entries && entries[rows[i].id] == rows[i])
    && (forall id :: id in entries ==> HasRow(rows, id))
  }

  lemma OnlyRowWithId(rows: seq<Stored<Notification>>, i: nat, id: string)
    requires InSequence(rows) && i < |rows| && rows[i].id == id
    ensures RowIndex(rows, id) == i
  {
    NumberedInjective("notification-", RowIndex(rows, id) + 1, i + 1);
  }

  lemma OtherIds(rows: seq<Stored<Notification>>, i: nat)
    requires InSequence(rows)
    ensures forall j :: 0 <= j < |rows| && j != i ==> rows[j].id != NotificationID(i + 1)
  {
    forall j | 0 <= j < |rows| && j != i ensures rows[j].id != NotificationID(i + 1) {
      NumberedInjective("notification-", i + 1, j + 1);
    }
  }

  lemma HasRowLater(rows: seq<Stored<Notification>>, more: seq<Stored<Notification>>, id: string)
    requires HasRow(rows, id) && |rows| <= |more|
    requires forall i :: 0 <= i < |rows| ==> more[i].id == rows[i].id
    ensures HasRow(more, id)
  {
    var i :| 0 <= i < |rows| && rows[i].id == id;
    assert more[i].id == id;
  }

  lemma IndexAppend(
    entries: map<string, Stored<Notification>>, rows: seq<Stored<Notification>>, row: Stored<Notification>)
    requires InSequence(rows) && Indexes(entries, rows) && row.id == NotificationID(|rows| + 1)
    ensures InSequence(rows + [row]) && Indexes(entries[row.id := row], rows + [row])
  {
    hide Numbered;
    var (index, more) := (entries[row.id := row], rows + [row]);
    OtherIds(rows, |rows|);
    assert more[|rows|].id == row.id;
    forall id | id in index ensures HasRow(more, id) {
      if id != row.id {
        HasRowLater(rows, more, id);
      }
    }
  }

  lemma IndexUpdate(
    entries: map<string, Stored<Notification>>, rows: seq<Stored<Notification>>, i: nat, row: Stored<Notification>)
    requires InSequence(rows) && Indexes(entries, rows) && i < |rows| && rows[i].id == row.id
    ensures InSequence(rows[i := row]) && Indexes(entries[row.id := row], rows[i := row])
  {
    hide Numbered;
    var (index, changed) := (entries[row.id := row], rows[i := row]);
    OtherIds(rows, i);
    forall j | 0 <= j < |changed| ensures changed[j].id in index && index[changed[j].id] == changed[j] {
      if j != i {
        assert rows[j].id != row.id;
      }
    }
    assert forall j :: 0 <= j < |rows| ==> changed[j].id == rows[j].id;
    forall id | id in index ensures HasRow(changed, id) {
      HasRowLater(rows, changed, id);
    }
  }

  /** The store keeps a map; `rows` is its contents in creation order. */
  class MemoryNotificationStore {
    var counter: nat
    var entries: map<string, Stored<Notification>>
    ghost var rows: seq<Stored<Notification>>

    ghost predicate Valid()
      reads this
    {
      counter == |rows| && InSequence(rows) && Indexes(entries, rows)
    }

    ghost function View(): Log<Notification>
      reads this
    {
      Log(counter, rows)
    }

    constructor ()
      ensures Valid() && View() == EMPTY_SINK
    {
      counter, entries, rows := 0, map[], [];
    }

    method Create(notification: Notification) returns (row: Stored<Notification>)
      requires Valid()
      modifies this
      ensures Valid() && View() == Append(old(View()), "notification-", notification)
      ensures row == rows[|rows| - 1]
    {
      counter := counter + 1;
      row := Stored(NotificationID(counter), notification);
      IndexAppend(entries, rows, row);
      entries := entries[row.id := row];
      rows := rows + [row];
    }

    method GetByID(id: string) returns (r: Result<Stored<Notification>, NotificationError>)
      requires Valid()
      ensures var i := RowIndex(rows, id);
              r == if i < |rows| then Ok(rows[i]) else Err(NotFound)
    {
      if id !in entries {
        return Err(NotFound);
      }
      ghost var i :| 0 <= i < |rows| && rows[i].id == id;
      OnlyRowWithId(rows, i, id);
      r := Ok(entries[id]);
    }

    method Update(row: Stored<Notification>) returns (r: Result<Stored<Notification>, NotificationError>)
      requires Valid()
      modifies this
      ensures Valid()
      ensures var i := RowIndex(old(rows), row.id);
              if i < |old(rows)| then r == Ok(row) && View() == old(View()).(rows := old(rows)[i := row])
              else r == Err(NotFound) && View() == old(View())
    {
      if row.id !in entries {
        return Err(NotFound);
      }
      ghost var i :| 0 <= i < |rows| && rows[i].id == row.id;
      OnlyRowWithId(rows, i, row.id);
      IndexUpdate(entries, rows, i, row);
      entries := entries[row.id := row];
      rows := rows[i := row];
      r := Ok(row);
    }
  }

  /** The log has become what was asked for, or the refusal is reported and nothing changed. */
  ghost predicate Settles(
    wanted: Result<Log<Notification>, NotificationError>, was: Log<Notification>, becomes: Log<Notification>,
    failure: Option<NotificationError>)
  {
    match wanted
    case Ok(log) => becomes == log && failure.None?
    case Err(e) => becomes == was && failure == Some(e)
  }

  class NotificationService {
    const store: MemoryNotificationStore

    constructor (store: MemoryNotificationStore)
      ensures this.store == store
    {
      this.store := store;
    }

    method Notify(recipientUserID: string, workItemID: string, kind: Kind, message: string, now: int)
      returns (failure: Option<NotificationError>)
      requires store.Valid()
      modifies store
      ensures store.Valid()
      ensures Settles(NotificationModel.Notify(old(store.View()), recipientUserID, workItemID, kind, message, now),
                      old(store.View()), store.View(), failure)
    {
      var recipient, item, text := TrimSpace(recipientUserID), TrimSpace(workItemID), TrimSpace(message);
      if recipient == "" || item == "" || kind == OtherKind("") || text == "" {
        return Some(InvalidInput);
      }
      var _ := store.Create(Notification(recipient, item, kind, text, None, now));
      failure := None;
    }

    method MarkAsRead(id: string, recipientUserID: string, now: int)
      returns (r: Result<Stored<Notification>, NotificationError>)
      requires store.Valid()
      modifies store
      ensures store.Valid()
      ensures (store.View(), r) == NotificationModel.MarkAsRead(old(store.View()), id, recipientUserID, now)
    {
      if TrimSpace(id) == "" || TrimSpace(recipientUserID) == "" {
        return Err(InvalidInput);
      }
      var found := store.GetByID(id);
      match found {
        case Err(e) => return Err(e);
        case Ok(row) =>
          if row.value.recipientUserID != recipientUserID {
            return Err(NotOwned);
          }
          if row.value.readAt.None? {
            r := store.Update(row.(value := row.value.(readAt := Some(now))));
            return;
          }
          r := Ok(row);
      }
    }
  }
}
