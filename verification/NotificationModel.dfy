/** Notifications as values: the service's validation and its append-and-mark log. */
module NotificationModel {
  import opened Wrappers
  import opened Text
  import opened Sequences
  import opened Records

  datatype NotificationError = InvalidInput | NotFound | NotOwned

  /** The six event kinds; `OtherKind` is any other text, `OtherKind("")` the empty one. */
  datatype Kind =
    | AssignmentCreated | AssignmentAccepted | EvidenceSubmitted
    | WorkFlagged | WorkVerified | WorkCompleted | OtherKind(text: string)

  datatype Notification = Notification(
    recipientUserID: string, workItemID: string, kind: Kind, message: string,
    readAt: Option<int>, createdAt: int)

  const EMPTY_SINK: Log<Notification> := Log(0, [])

  function NotificationID(n: nat): string { Numbered("notification-", n) }

  function Notify(
    sink: Log<Notification>, recipient: string, workItemID: string, kind: Kind, message: string, now: int)
    : Result<Log<Notification>, NotificationError>
  {
    if Blank(recipient) || Blank(workItemID) || kind == OtherKind("") || Blank(message) then Err(InvalidInput)
    else
      Ok(Append(sink, "notification-",
                Notification(TrimSpace(recipient), TrimSpace(workItemID), kind, TrimSpace(message), None, now)))
  }

  function HasID(id: string): Stored<Notification> -> bool {
    (row: Stored<Notification>) => row.id == id
  }

  /** Where a row with this id is, or the list's length. */
  function RowIndex(rows: seq<Stored<Notification>>, id: string): nat {
    FirstIndex(rows, HasID(id))
  }

  /** Sets `readAt` once; reading again changes nothing. */
  function MarkAsRead(sink: Log<Notification>, id: string, user: string, now: int)
    : (Log<Notification>, Result<Stored<Notification>, NotificationError>)
  {
    if Blank(id) || Blank(user) then (sink, Err(InvalidInput))
    else
      var i := RowIndex(sink.rows, id);
      if i == |sink.rows| then (sink, Err(NotFound))
      else
        var row := sink.rows[i];
        if row.value.recipientUserID != user then (sink, Err(NotOwned))
        else if row.value.readAt.Some? then (sink, Ok(row))
        else
          var read := row.(value := row.value.(readAt := Some(now)));
          (sink.(rows := sink.rows[i := read]), Ok(read))
  }

  /** A notification is stored exactly if none of its parts is blank, trimmed, unread
      and at the end. */
  lemma NotifyAcceptedIff(
    sink: Log<Notification>, recipient: string, workItemID: string, kind: Kind, message: string, now: int)
    ensures var r := Notify(sink, recipient, workItemID, kind, message, now);
            && (r.Ok? <==>
                  !Blank(recipient) && !Blank(workItemID) && kind != OtherKind("") && !Blank(message))
            && (r.Err? ==> r == Err(InvalidInput))
            && (r.Ok? ==>
                  && |r.value.rows| == |sink.rows| + 1 && r.value.rows[..|sink.rows|] == sink.rows
                  && var n := r.value.rows[|sink.rows|].value;
                     && n.recipientUserID == TrimSpace(recipient) && n.workItemID == TrimSpace(workItemID)
                     && n.kind == kind && n.message == TrimSpace(message) && n.readAt.None? && n.createdAt == now)
  {
    hide TrimSpace, Numbered;
  }

  /** Whose mark it is: the row `i` under this id (the first, should there be more)
      is marked for its recipient and for nobody else, once, at the time of the
      call; every other row stays. */
  lemma MarkedByRecipientOnly(sink: Log<Notification>, id: string, user: string, now: int, i: nat)
    requires i < |sink.rows| && sink.rows[i].id == id && forall j :: 0 <= j < i ==> sink.rows[j].id != id
    requires !Blank(id) && !Blank(user)
    ensures var (sink', r) := MarkAsRead(sink, id, user, now);
            var row := sink.rows[i];
            && sink'.counter == sink.counter && |sink'.rows| == |sink.rows|
            && (forall k :: 0 <= k < |sink.rows| && k != i ==> sink'.rows[k] == sink.rows[k])
            && (if row.value.recipientUserID != user then sink' == sink && r == Err(NotOwned)
                else
                  && r == Ok(sink'.rows[i])
                  && sink'.rows[i] == row.(value := row.value.(
                       readAt := if row.value.readAt.Some? then row.value.readAt else Some(now))))
  {
    hide TrimSpace;
    assert RowIndex(sink.rows, id) == i;
  }

  /** Nothing else marks anything. */
  lemma UnknownRowsAreNotMarked(sink: Log<Notification>, id: string, user: string, now: int)
    requires Blank(id) || Blank(user) || forall j :: 0 <= j < |sink.rows| ==> sink.rows[j].id != id
    ensures MarkAsRead(sink, id, user, now) ==
            (sink, Err(if Blank(id) || Blank(user) then InvalidInput else NotFound))
  {
    hide TrimSpace;
  }
}
