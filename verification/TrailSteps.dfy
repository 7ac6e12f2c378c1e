/** Each workflow call keeps the trail invariant of the item it is about. */
module TrailSteps {
  import opened Wrappers
  import opened Text
  import opened Records
  import opened WorkItemTypes
  import opened WorkItemModel
  import opened Trails
  import N = NotificationModel

  // ----- What the calls do to a trail, in one go -----

  function NoteFor(item: WorkItem): seq<Sent> {
    match item.status
    case SubmittedForReview => [Sent(N.EvidenceSubmitted, TrimSpace(item.createdByUserID))]
    case Flagged => ToHolder(item)
    case Verified => ToHolder(item)
    case Completed => ToHolder(item)
    case _ => []
  }

  function ToHolder(item: WorkItem): seq<Sent> {
    if item.assignedToUserID.Some? then [Sent(Raises(item.status), TrimSpace(item.assignedToUserID.value))] else []
  }

  function Heard(t: Trail, news: seq<Sent>): seq<Sent> {
    if t.hasSink then t.sent + news else t.sent
  }

  function Moved(t: Trail, q: MoveRequest, now: int): Trail {
    var item := t.item.(status := q.toStatus, updatedAt := now);
    t.(item := item,
       status := t.status + [StatusEntry(q.id, Some(t.item.status), q.toStatus, q.actor, Clean(q.reason), now)],
       sent := Heard(t, NoteFor(item)))
  }

  function HandedOver(t: Trail, q: AssignRequest, now: int): Trail {
    var target := TrimSpace(q.target);
    t.(item := t.item.(status := Assigned, assignedToUserID := Some(target), updatedAt := now),
       status := t.status + [StatusEntry(q.id, Some(t.item.status), Assigned, q.assigner, None, now)],
       row := Some(Assignment(q.id, q.assigner, target, Pending, now, None, None)),
       events := t.events + [AssignmentEvent(q.id, Pending, q.assigner, target, None, now)],
       sent := Heard(t, [Sent(N.AssignmentCreated, TrimSpace(target))]))
  }

  function Answered(t: Trail, a: Assignment, q: RespondRequest, now: int): Trail {
    var toStatus := if q.accept then Accepted else Created;
    var answer := if q.accept then Taken else Declined;
    var assignee := if q.accept then t.item.assignedToUserID else None;
    t.(item := t.item.(status := toStatus, assignedToUserID := assignee, updatedAt := now),
       status := t.status + [StatusEntry(q.id, Some(t.item.status), toStatus, q.user, Clean(q.note), now)],
       row := Some(a.(status := answer, respondedAt := Some(now), responseNote := Clean(q.note))),
       events := t.events + [AssignmentEvent(q.id, answer, q.user, a.assignedToUserID, Clean(q.note), now)],
       sent := Heard(t, if q.accept then [Sent(N.AssignmentAccepted, TrimSpace(a.assignedByUserID))] else []))
  }

  lemma MoveEffect(t: Trail, q: MoveRequest, now: int, noteNow: int)
    ensures Follow(t, MoveWrites(t.item, q, now, noteNow)) == Moved(t, q, now)
  {
    hide TrimSpace, Numbered, Clean;
    var ws := MoveWrites(t.item, q, now, noteNow);
    FollowTwo(t, ws[0], ws[1]);
    var moved := t.item.(status := q.toStatus, updatedAt := now);
    var notes := NotesForStatus(q.id, moved, noteNow);
    assert ws == [ws[0], ws[1]] + notes;
    FollowConcat(t, [ws[0], ws[1]], notes);
    if notes != [] {
      FollowOne(Follow(t, [ws[0], ws[1]]), notes[0]);
      assert notes == [notes[0]];
    } else {
      assert t.sent + [] == t.sent;
    }
  }

  lemma AssignEffect(t: Trail, q: AssignRequest, now: int, noteNow: int)
    ensures Follow(t, AssignWrites(t.item, q, now, noteNow)) == HandedOver(t, q, now)
  {
    hide TrimSpace, Numbered;
    var ws := AssignWrites(t.item, q, now, noteNow);
    FollowFour(t, ws[0], ws[1], ws[2], ws[3]);
    assert ws == [ws[0], ws[1], ws[2], ws[3]] + [ws[4]];
    FollowConcat(t, [ws[0], ws[1], ws[2], ws[3]], [ws[4]]);
    FollowOne(Follow(t, [ws[0], ws[1], ws[2], ws[3]]), ws[4]);
  }

  lemma RespondEffect(t: Trail, row: Stored<Assignment>, q: RespondRequest, now: int, noteNow: int)
    ensures Follow(t, RespondWrites(t.item, row, q, now, noteNow)) == Answered(t, row.value, q, now)
  {
    hide TrimSpace, Numbered;
    var ws := RespondWrites(t.item, row, q, now, noteNow);
    FollowFour(t, ws[0], ws[1], ws[2], ws[3]);
    if q.accept {
      assert ws == [ws[0], ws[1], ws[2], ws[3]] + [ws[4]];
      FollowConcat(t, [ws[0], ws[1], ws[2], ws[3]], [ws[4]]);
      FollowOne(Follow(t, [ws[0], ws[1], ws[2], ws[3]]), ws[4]);
    } else {
      assert ws == [ws[0], ws[1], ws[2], ws[3]];
      assert t.sent + [] == t.sent;
    }
  }

  // ----- One more element -----

  lemma EnteredSnoc(history: seq<StatusEntry>, e: StatusEntry, status: Status)
    ensures Entered(history + [e], status) == Entered(history, status) + (if e.toStatus == status then 1 else 0)
  {
    assert (history + [e])[..|history|] == history;
  }

  lemma RecipientsSnoc(sent: seq<Sent>, x: Sent, kind: N.Kind)
    ensures Recipients(sent + [x], kind) == Recipients(sent, kind) + (if x.kind == kind then [x.recipient] else [])
  {
    assert (sent + [x])[..|sent|] == sent;
  }

  lemma TargetsSnoc(events: seq<AssignmentEvent>, e: AssignmentEvent)
    ensures Targets(events + [e]) == Targets(events) + (if e.action == Pending then [e.assignedToUserID] else [])
  {
    assert (events + [e])[..|events|] == events;
  }

  lemma {:induction false} NeverEntered(history: seq<StatusEntry>, status: Status)
    requires forall k :: 0 <= k < |history| ==> history[k].toStatus != status
    ensures Entered(history, status) == 0
  {
    if history != [] {
      NeverEntered(history[..|history| - 1], status);
    }
  }

  // ----- The history half -----

  lemma ChainGrows(history: seq<StatusEntry>, status: Status, e: StatusEntry)
    requires Chain(history, status) && e.fromStatus == Some(status) && IsValidTransition(status, e.toStatus)
    ensures Chain(history + [e], e.toStatus)
  {
    hide IsValidTransition;
    var longer := history + [e];
    forall j, k | 0 <= j && k == j + 1 && k < |longer|
      ensures longer[k].fromStatus == Some(longer[j].toStatus)
    {
      if k < |history| {
        assert history[k].fromStatus == Some(history[j].toStatus);
      }
    }
  }

  /** Any valid move from the current status extends a lawful history lawfully. */
  lemma HistoryGrows(history: seq<StatusEntry>, status: Status, e: StatusEntry)
    requires Chain(history, status) && FlagsExplained(history)
    requires LengthLaw(history, status) && EarlyOnly(history, status)
    requires e.fromStatus == Some(status) && IsValidTransition(status, e.toStatus)
    requires e.toStatus == Flagged ==> e.reason.Some? && Trimmed(e.reason.value) && e.reason.value != ""
    ensures Chain(history + [e], e.toStatus) && FlagsExplained(history + [e])
    ensures LengthLaw(history + [e], e.toStatus) && EarlyOnly(history + [e], e.toStatus)
  {
    hide Chain, Entered, TrimSpace;
    ChainGrows(history, status, e);
    EnteredSnoc(history, e, Created);
    EnteredSnoc(history, e, Flagged);
  }

  /** Adding a status change loses no place for the events. */
  lemma PlacesKept(events: seq<AssignmentEvent>, history: seq<StatusEntry>, h: StatusEntry)
    requires EventsInHistory(events, history)
    ensures EventsInHistory(events, history + [h])
  {
    var at :| Embeds(events, history, at);
    assert Embeds(events, history + [h], at);
  }

  /** A new event is placed at the new status change. */
  lemma PlaceAdded(events: seq<AssignmentEvent>, history: seq<StatusEntry>, e: AssignmentEvent, h: StatusEntry)
    requires EventsInHistory(events, history) && SameCall(e, h)
    ensures EventsInHistory(events + [e], history + [h])
  {
    var at :| Embeds(events, history, at);
    var here: nat := |history|;
    var longer: seq<nat> := at + [here];
    assert Embeds(events + [e], history + [h], longer);
  }

  // ----- The event half -----

  /** What the last event says, the replayed assignment says. */
  lemma ReplayReadsLast(events: seq<AssignmentEvent>)
    requires EventsOk(events) && events != []
    ensures Replay(events).Some?
    ensures Replay(events).value.status == events[|events| - 1].action
    ensures Replay(events).value.assignedToUserID == events[|events| - 1].assignedToUserID
  {
    var n := |events|;
    if events[n - 1].action != Pending {
      assert events[n - 2].action == Pending;
      assert events[..n - 1][n - 2] == events[n - 2];
    }
  }

  lemma ReplaySnoc(events: seq<AssignmentEvent>, e: AssignmentEvent)
    ensures Replay(events + [e]) ==
            if e.action == Pending then
              Some(Assignment(e.workItemID, e.actorUserID, e.assignedToUserID, Pending, e.createdAt, None, None))
            else match Replay(events)
                 case None => None
                 case Some(a) => Some(a.(status := e.action, respondedAt := Some(e.createdAt), responseNote := e.note))
  {
    assert (events + [e])[..|events|] == events;
  }

  /** Before acceptance, no event is an acceptance. */
  lemma NotYetTaken(t: Trail)
    requires EventsOk(t.events) && t.row == Replay(t.events) && HolderOk(t)
    requires t.item.status.Early() || (t.row.Some? && t.row.value.status == Pending)
    ensures forall k :: 0 <= k < |t.events| ==> t.events[k].action != Taken
  {
    if t.events != [] {
      ReplayReadsLast(t.events);
    }
  }

  // ----- The three calls -----

  /** What the guards of a status change have established. */
  ghost predicate MoveAllowed(t: Trail, q: MoveRequest) {
    && q.id == t.item.id
    && IsValidTransition(t.item.status, q.toStatus)
    && (q.toStatus == Flagged ==> Clean(q.reason).Some?)
  }

  lemma CleanIsTrimmed(raw: Option<string>)
    ensures Clean(raw).Some? ==> Trimmed(Clean(raw).value) && Clean(raw).value != ""
  {
    if raw.Some? {
      TrimIdempotent(raw.value);
    }
  }

  lemma MoveKeepsRecords(t: Trail, q: MoveRequest, now: int)
    requires HistoryOk(t) && HolderOk(t) && EventLogOk(t) && MoveAllowed(t, q)
    ensures HistoryOk(Moved(t, q, now)) && HolderOk(Moved(t, q, now)) && EventLogOk(Moved(t, q, now))
  {
    hide Chain, FlagsExplained, LengthLaw, EarlyOnly, TrimSpace;
    CleanIsTrimmed(q.reason);
    var e := StatusEntry(q.id, Some(t.item.status), q.toStatus, q.actor, Clean(q.reason), now);
    HistoryGrows(t.status, t.item.status, e);
    PlacesKept(t.events, t.status, e);
  }

  /** One more notification reaches exactly the list of its own kind. */
  lemma HeardByKind(t: Trail, news: seq<Sent>, kind: N.Kind)
    requires |news| <= 1
    ensures Recipients(Heard(t, news), kind) == Recipients(t.sent, kind) +
              (if t.hasSink && news != [] && news[0].kind == kind then [news[0].recipient] else [])
  {
    if news != [] {
      assert news == [news[0]];
      RecipientsSnoc(t.sent, news[0], kind);
    } else {
      assert t.sent + [] == t.sent;
    }
  }

  lemma RepeatMore(x: string, n: nat)
    ensures Repeat(x, n + 1) == Repeat(x, n) + [x]
  {
  }

  lemma MoveTellsAssignee(t: Trail, q: MoveRequest, now: int, status: Status)
    requires status == Flagged || status == Verified || status == Completed
    requires t.hasSink && HolderOk(t) && ToldAssignee(t, status)
    ensures ToldAssignee(Moved(t, q, now), status)
  {
    hide TrimSpace, Numbered, Entered, Recipients, Repeat;
    var t' := Moved(t, q, now);
    EnteredSnoc(t.status, t'.status[|t.status|], status);
    HeardByKind(t, NoteFor(t'.item), Raises(status));
    if t.item.assignedToUserID.Some? {
      RepeatMore(t.item.assignedToUserID.value, Entered(t.status, status));
    }
  }

  lemma MoveTellsCreator(t: Trail, q: MoveRequest, now: int)
    requires t.hasSink && EvidenceTold(t)
    ensures EvidenceTold(Moved(t, q, now))
  {
    hide Entered, Recipients, Repeat, TrimSpace;
    var t' := Moved(t, q, now);
    EnteredSnoc(t.status, t'.status[|t.status|], SubmittedForReview);
    HeardByKind(t, NoteFor(t'.item), N.EvidenceSubmitted);
    RepeatMore(TrimSpace(t.item.createdByUserID), Entered(t.status, SubmittedForReview));
  }

  lemma MoveIsNoAssignment(t: Trail, q: MoveRequest, now: int)
    requires t.hasSink && HandoversTold(t) && AcceptanceTold(t)
    ensures HandoversTold(Moved(t, q, now)) && AcceptanceTold(Moved(t, q, now))
  {
    hide Recipients, TrimSpace;
    var item := Moved(t, q, now).item;
    HeardByKind(t, NoteFor(item), N.AssignmentCreated);
    HeardByKind(t, NoteFor(item), N.AssignmentAccepted);
  }

  lemma KindsStayKnown(t: Trail, news: seq<Sent>)
    requires KindsKnown(t.sent) && KindsKnown(news)
    ensures KindsKnown(Heard(t, news))
  {
  }

  lemma MoveKeepsSent(t: Trail, q: MoveRequest, now: int)
    requires HolderOk(t) && SentOk(t) && MoveAllowed(t, q)
    ensures SentOk(Moved(t, q, now))
  {
    hide TrimSpace, Numbered, ToldAssignee, EvidenceTold, HandoversTold, AcceptanceTold, HolderOk;
    KindsStayKnown(t, NoteFor(Moved(t, q, now).item));
    if t.hasSink {
      MoveTellsCreator(t, q, now);
      MoveTellsAssignee(t, q, now, Flagged);
      MoveTellsAssignee(t, q, now, Verified);
      MoveTellsAssignee(t, q, now, Completed);
      MoveIsNoAssignment(t, q, now);
    }
  }

  ghost predicate AssignAllowed(t: Trail, q: AssignRequest) {
    && q.id == t.item.id && !Blank(q.assigner) && !Blank(q.target)
    && IsValidTransition(t.item.status, Assigned)
  }

  lemma AssignKeepsHistory(t: Trail, q: AssignRequest, now: int)
    requires HistoryOk(t) && AssignAllowed(t, q)
    ensures HistoryOk(HandedOver(t, q, now))
  {
    HistoryGrows(t.status, t.item.status, HandedOver(t, q, now).status[|t.status|]);
  }

  lemma AssignKeepsHolder(t: Trail, q: AssignRequest, now: int)
    requires AssignAllowed(t, q)
    ensures HolderOk(HandedOver(t, q, now))
  {
    TrimIdempotent(q.target);
  }

  lemma AssignKeepsEvents(t: Trail, q: AssignRequest, now: int)
    requires HolderOk(t) && EventLogOk(t) && AssignAllowed(t, q)
    ensures EventLogOk(HandedOver(t, q, now))
  {
    var t' := HandedOver(t, q, now);
    var h, e := t'.status[|t.status|], t'.events[|t.events|];
    assert t.item.status == Created;
    NotYetTaken(t);
    PlaceAdded(t.events, t.status, e, h);
    ReplaySnoc(t.events, e);
    EventsGrow(t.events, e);
  }

  /** An assignment may follow anything but an acceptance; a response only the
      assignment it answers. */
  lemma EventsGrow(events: seq<AssignmentEvent>, e: AssignmentEvent)
    requires EventsOk(events) && forall k :: 0 <= k < |events| ==> events[k].action != Taken
    requires e.action != Pending ==>
               && events != [] && events[|events| - 1].action == Pending
               && events[|events| - 1].assignedToUserID == e.assignedToUserID == e.actorUserID
    ensures EventsOk(events + [e])
  {
    var longer := events + [e];
    forall j, k | 0 <= j && k == j + 1 && k < |longer| && longer[k].action != Pending
      ensures longer[j].action == Pending
      ensures longer[j].assignedToUserID == longer[k].assignedToUserID == longer[k].actorUserID
    {
      if k < |events| {
        assert events[k].action != Pending && events[j].action == Pending;
      }
    }
  }

  /** Where nothing late has happened, no late status was ever entered. */
  lemma NothingLate(t: Trail, status: Status)
    requires EarlyOnly(t.status, t.item.status) && t.item.status.Early() && !status.Early()
    ensures Entered(t.status, status) == 0
  {
    NeverEntered(t.status, status);
  }

  /** While nothing late has happened, the assignee may change freely: there is
      no late notification to disagree with. */
  lemma NothingToldYet(t: Trail, t': Trail, e: StatusEntry, news: seq<Sent>, status: Status)
    requires status == Flagged || status == Verified || status == Completed
    requires t.hasSink && EarlyOnly(t.status, t.item.status) && t.item.status.Early() && ToldAssignee(t, status)
    requires t'.sent == Heard(t, news) && |news| <= 1 && (news != [] ==> news[0].kind != Raises(status))
    requires t'.status == t.status + [e] && e.toStatus != status
    ensures ToldAssignee(t', status)
  {
    NothingLate(t, status);
    EnteredSnoc(t.status, e, status);
    HeardByKind(t, news, Raises(status));
  }

  lemma HandoverIsTold(t: Trail, q: AssignRequest, now: int)
    requires t.hasSink && HandoversTold(t)
    ensures HandoversTold(HandedOver(t, q, now))
  {
    TrimIdempotent(q.target);
    TargetsSnoc(t.events, HandedOver(t, q, now).events[|t.events|]);
    HeardByKind(t, [Sent(N.AssignmentCreated, TrimSpace(TrimSpace(q.target)))], N.AssignmentCreated);
  }

  lemma HandoverTellsNobodyElse(t: Trail, q: AssignRequest, now: int)
    requires t.hasSink && HolderOk(t) && AssignAllowed(t, q) && AcceptanceTold(t) && EvidenceTold(t)
    ensures AcceptanceTold(HandedOver(t, q, now)) && EvidenceTold(HandedOver(t, q, now))
  {
    hide TrimSpace, Recipients, Numbered;
    var news := [Sent(N.AssignmentCreated, TrimSpace(TrimSpace(q.target)))];
    EnteredSnoc(t.status, HandedOver(t, q, now).status[|t.status|], SubmittedForReview);
    HeardByKind(t, news, N.AssignmentAccepted);
    HeardByKind(t, news, N.EvidenceSubmitted);
  }

  lemma HandoverTellsNothingLate(t: Trail, q: AssignRequest, now: int, status: Status)
    requires status == Flagged || status == Verified || status == Completed
    requires t.hasSink && HistoryOk(t) && AssignAllowed(t, q) && ToldAssignee(t, status)
    ensures ToldAssignee(HandedOver(t, q, now), status)
  {
    var news := [Sent(N.AssignmentCreated, TrimSpace(TrimSpace(q.target)))];
    var e := StatusEntry(q.id, Some(t.item.status), Assigned, q.assigner, None, now);
    NothingToldYet(t, HandedOver(t, q, now), e, news, status);
  }

  lemma AssignKeepsSent(t: Trail, q: AssignRequest, now: int)
    requires HistoryOk(t) && HolderOk(t) && SentOk(t) && AssignAllowed(t, q)
    ensures SentOk(HandedOver(t, q, now))
  {
    KindsStayKnown(t, [Sent(N.AssignmentCreated, TrimSpace(TrimSpace(q.target)))]);
    if t.hasSink {
      HandoverIsTold(t, q, now);
      HandoverTellsNobodyElse(t, q, now);
      HandoverTellsNothingLate(t, q, now, Flagged);
      HandoverTellsNothingLate(t, q, now, Verified);
      HandoverTellsNothingLate(t, q, now, Completed);
    }
  }

  ghost predicate RespondAllowed(t: Trail, q: RespondRequest) {
    && q.id == t.item.id
    && t.row.Some? && t.row.value.assignedToUserID == q.user && t.row.value.status == Pending
    && IsValidTransition(t.item.status, if q.accept then Accepted else Created)
  }

  lemma RespondKeepsHistory(t: Trail, q: RespondRequest, now: int)
    requires HistoryOk(t) && RespondAllowed(t, q)
    ensures HistoryOk(Answered(t, t.row.value, q, now))
  {
    HistoryGrows(t.status, t.item.status, Answered(t, t.row.value, q, now).status[|t.status|]);
  }

  lemma RespondKeepsHolder(t: Trail, q: RespondRequest, now: int)
    requires HolderOk(t) && RespondAllowed(t, q)
    ensures HolderOk(Answered(t, t.row.value, q, now))
  {
  }

  lemma RespondKeepsEvents(t: Trail, q: RespondRequest, now: int)
    requires HolderOk(t) && EventLogOk(t) && RespondAllowed(t, q)
    ensures EventLogOk(Answered(t, t.row.value, q, now))
  {
    hide TrimSpace, EventsInHistory;
    var t' := Answered(t, t.row.value, q, now);
    var h, e := t'.status[|t.status|], t'.events[|t.events|];
    assert t.item.status == Assigned;
    NotYetTaken(t);
    ReplayReadsLast(t.events);
    PlaceAdded(t.events, t.status, e, h);
    ReplaySnoc(t.events, e);
    EventsGrow(t.events, e);
  }

  function AnswerNews(a: Assignment, q: RespondRequest): seq<Sent> {
    if q.accept then [Sent(N.AssignmentAccepted, TrimSpace(a.assignedByUserID))] else []
  }

  lemma AcceptanceIsTold(t: Trail, q: RespondRequest, now: int)
    requires t.hasSink && RespondAllowed(t, q)
    requires HandoversTold(t) && AcceptanceTold(t) && EvidenceTold(t)
    ensures var t' := Answered(t, t.row.value, q, now); HandoversTold(t') && AcceptanceTold(t') && EvidenceTold(t')
  {
    var t' := Answered(t, t.row.value, q, now);
    var news := AnswerNews(t.row.value, q);
    TargetsSnoc(t.events, t'.events[|t.events|]);
    EnteredSnoc(t.status, t'.status[|t.status|], SubmittedForReview);
    HeardByKind(t, news, N.AssignmentCreated);
    HeardByKind(t, news, N.AssignmentAccepted);
    HeardByKind(t, news, N.EvidenceSubmitted);
  }

  lemma AnswerTellsNothingLate(t: Trail, q: RespondRequest, now: int, status: Status)
    requires status == Flagged || status == Verified || status == Completed
    requires t.hasSink && HistoryOk(t) && RespondAllowed(t, q) && ToldAssignee(t, status)
    ensures ToldAssignee(Answered(t, t.row.value, q, now), status)
  {
    var toStatus := if q.accept then Accepted else Created;
    var e := StatusEntry(q.id, Some(t.item.status), toStatus, q.user, Clean(q.note), now);
    NothingToldYet(t, Answered(t, t.row.value, q, now), e, AnswerNews(t.row.value, q), status);
  }

  lemma RespondKeepsSent(t: Trail, q: RespondRequest, now: int)
    requires HistoryOk(t) && HolderOk(t) && SentOk(t) && RespondAllowed(t, q)
    ensures SentOk(Answered(t, t.row.value, q, now))
  {
    KindsStayKnown(t, AnswerNews(t.row.value, q));
    if t.hasSink {
      AcceptanceIsTold(t, q, now);
      AnswerTellsNothingLate(t, q, now, Flagged);
      AnswerTellsNothingLate(t, q, now, Verified);
      AnswerTellsNothingLate(t, q, now, Completed);
    }
  }

  // ----- The invariant, call by call -----

  lemma MoveKeepsTrail(t: Trail, q: MoveRequest, now: int)
    requires TrailInv(t) && MoveAllowed(t, q)
    ensures TrailInv(Moved(t, q, now))
  {
    MoveKeepsRecords(t, q, now);
    MoveKeepsSent(t, q, now);
  }

  lemma AssignKeepsTrail(t: Trail, q: AssignRequest, now: int)
    requires TrailInv(t) && AssignAllowed(t, q)
    ensures TrailInv(HandedOver(t, q, now))
  {
    AssignKeepsHistory(t, q, now);
    AssignKeepsHolder(t, q, now);
    AssignKeepsEvents(t, q, now);
    AssignKeepsSent(t, q, now);
  }

  lemma RespondKeepsTrail(t: Trail, q: RespondRequest, now: int)
    requires TrailInv(t) && RespondAllowed(t, q)
    ensures TrailInv(Answered(t, t.row.value, q, now))
  {
    RespondKeepsHistory(t, q, now);
    RespondKeepsHolder(t, q, now);
    RespondKeepsEvents(t, q, now);
    RespondKeepsSent(t, q, now);
  }

  /** A fresh item's trail. */
  lemma FreshTrail(item: WorkItem, hasSink: bool)
    requires ItemOk(item) && item.status == Created && item.assignedToUserID.None?
    ensures TrailInv(Trail(item, None, [], [], hasSink, []))
  {
    var nowhere: seq<nat> := [];
    assert Embeds([], [], nowhere);
  }
}
