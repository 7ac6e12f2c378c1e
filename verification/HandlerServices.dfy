/** The status and attachment endpoints: guards with early returns around service
    calls. */
module HandlerServices {
  import opened Wrappers
  import opened Text
  import opened Records
  import opened WorkItemTypes
  import opened WorkItemModel
  import WorkItemServices
  import A = Attachments
  import Evidence
  import TeamModel

  /** Why a request was turned down. */
  datatype Refusal = NoAccess(error: Error) | CannotCheck | NoEvidence | NoteRequired | ByService(error: Error)

  /** Why the gate turns a submission down, if it does. */
  function GateRefusal(s: Stores, authority: Option<TeamModel.TeamState>, files: Log<A.Attachment>, q: MoveRequest)
    : Option<Refusal>
  {
    if q.toStatus != SubmittedForReview then None
    else
      match GetByID(s, authority, q.id, Caller(q.actor, q.isAdmin, q.isSupervisor, false))
      case Err(e) => Some(NoAccess(e))
      case Ok(_) =>
        match A.List(files, q.id)
        case Err(_) => Some(CannotCheck)
        case Ok(rows) => if rows == [] then Some(NoEvidence) else None
  }

  /** The service's answer to a status change, handed on: its error, or the item
      with its new status. */
  predicate HandsOn(before: Stores, failure: Option<Error>, q: MoveRequest, now: int, r: Result<WorkItem, Refusal>) {
    match failure
    case Some(e) => r == Err(ByService(e))
    case None => q.id in before.items.byID && r == Ok(before.items.byID[q.id].(status := q.toStatus, updatedAt := now))
  }

  /** The gate refuses exactly what it does not open for. */
  lemma GateRefusesIffShut(s: Stores, authority: Option<TeamModel.TeamState>, files: Log<A.Attachment>, q: MoveRequest)
    requires q.toStatus == SubmittedForReview
    ensures GateRefusal(s, authority, files, q).None? <==> Evidence.GateOpen(s, authority, files, q)
  {
  }

  class WorkItemHandler {
    const service: WorkItemServices.Service
    const attachmentService: A.Service

    constructor (service: WorkItemServices.Service, attachmentService: A.Service)
      ensures this.service == service && this.attachmentService == attachmentService
    {
      this.service := service;
      this.attachmentService := attachmentService;
    }

    method ChangeStatus(q: MoveRequest, now: int, noteNow: int) returns (r: Result<WorkItem, Refusal>)
      requires service.Valid()
      modifies service.store, service.historyStore, service.SinkStore()
      ensures service.Valid()
      ensures var (before, authority) := old((service.View(), service.Authority()));
              var files := old(attachmentService.store.View());
              var result := Perform(before, MovePlan(before, authority, q, now, noteNow));
              var refusal := GateRefusal(before, authority, files, q);
              && service.View() == Evidence.ChangeStatus(before, authority, files, q, now, noteNow)
              && (if refusal.Some? then r == Err(refusal.value) else HandsOn(before, result.1, q, now, r))
    {
      if q.toStatus == SubmittedForReview {
        var item := service.GetByID(q.id, Caller(q.actor, q.isAdmin, q.isSupervisor, false));
        match item {
          case Err(e) => return Err(NoAccess(e));
          case Ok(_) =>
        }
        var existing := attachmentService.ListFiles(q.id);
        match existing {
          case Err(_) => return Err(CannotCheck);
          case Ok(rows) =>
            if |rows| == 0 {
              return Err(NoEvidence);
            }
        }
      }
      var moved := service.ChangeStatus(q, now, noteNow);
      match moved {
        case Err(e) => r := Err(ByService(e));
        case Ok(item) => r := Ok(item);
      }
    }

    /** A fixed-target entry: verification skips the gate, as its target is past it. */
    method Verify(id: string, caller: Caller, note: Option<string>, now: int, noteNow: int)
      returns (r: Result<WorkItem, Refusal>)
      requires service.Valid()
      modifies service.store, service.historyStore, service.SinkStore()
      ensures service.Valid()
      ensures var (before, authority) := old((service.View(), service.Authority()));
              var q := MoveRequest(
                id, caller.user, caller.isAdmin, caller.isSupervisor, caller.isRequester, Verified, note);
              var result := Perform(before, MovePlan(before, authority, q, now, noteNow));
              service.View() == result.0 && HandsOn(before, result.1, q, now, r)
    {
      var moved := service.ChangeStatus(Evidence.Mover(id, caller, Verified, note), now, noteNow);
      match moved {
        case Err(e) => r := Err(ByService(e));
        case Ok(item) => r := Ok(item);
      }
    }

    /** Rejection needs a note before the service is asked. */
    method Flag(id: string, caller: Caller, feedback: string, now: int, noteNow: int)
      returns (r: Result<WorkItem, Refusal>)
      requires service.Valid()
      modifies service.store, service.historyStore, service.SinkStore()
      ensures service.Valid()
      ensures var (before, authority) := old((service.View(), service.Authority()));
              var q := MoveRequest(
                id, caller.user, caller.isAdmin, caller.isSupervisor, caller.isRequester,
                Flagged, Some(TrimSpace(feedback)));
              if Blank(feedback) then r == Err(NoteRequired) && service.View() == before
              else
                var result := Perform(before, MovePlan(before, authority, q, now, noteNow));
                service.View() == result.0 && HandsOn(before, result.1, q, now, r)
    {
      var note := TrimSpace(feedback);
      if note == "" {
        return Err(NoteRequired);
      }
      var moved := service.ChangeStatus(Evidence.Mover(id, caller, Flagged, Some(note)), now, noteNow);
      match moved {
        case Err(e) => r := Err(ByService(e));
        case Ok(item) => r := Ok(item);
      }
    }
  }

  /** Why an attachment request was turned down. */
  datatype FileRefusal = HiddenItem(error: Error) | NotStored(cause: A.AttachmentError)

  class AttachmentHandler {
    const workItemService: WorkItemServices.Service
    const attachmentService: A.Service

    constructor (workItemService: WorkItemServices.Service, attachmentService: A.Service)
      ensures this.workItemService == workItemService && this.attachmentService == attachmentService
    {
      this.workItemService := workItemService;
      this.attachmentService := attachmentService;
    }

    /** The lookup is asked without the requester flag, and before the file is. */
    method UploadFile(
      id: string, caller: Caller, kind: A.Kind, mimeType: string, saved: Option<A.SavedFile>, now: int)
      returns (refusal: Option<FileRefusal>)
      requires workItemService.Valid()
      modifies attachmentService.store
      ensures workItemService.Valid()
      ensures var (s, authority) := old((workItemService.View(), workItemService.Authority()));
              var files := old(attachmentService.store.View());
              var uploaded := A.Upload(files, id, caller.user, kind, mimeType, saved, now);
              match GetByID(s, authority, id, caller.(isRequester := false))
              case Err(e) => refusal == Some(HiddenItem(e)) && attachmentService.store.View() == files
              case Ok(_) =>
                && attachmentService.store.View() == uploaded.0
                && refusal == (if uploaded.1.Some? then Some(NotStored(uploaded.1.value)) else None)
    {
      var item := workItemService.GetByID(id, caller.(isRequester := false));
      match item {
        case Err(e) => return Some(HiddenItem(e));
        case Ok(_) =>
      }
      var failure := attachmentService.UploadFile(id, caller.user, kind, mimeType, saved, now);
      refusal := match failure case None => None case Some(e) => Some(NotStored(e));
    }

    method ListFiles(id: string, caller: Caller) returns (r: Result<seq<Stored<A.Attachment>>, FileRefusal>)
      requires workItemService.Valid()
      ensures match GetByID(workItemService.View(), workItemService.Authority(), id, caller.(isRequester := false))
              case Err(e) => r == Err(HiddenItem(e))
              case Ok(_) => r.Ok? && A.List(attachmentService.store.View(), id) == Ok(r.value)
    {
      var item := workItemService.GetByID(id, caller.(isRequester := false));
      match item {
        case Err(e) => return Err(HiddenItem(e));
        case Ok(_) =>
      }
      var list := attachmentService.ListFiles(id);
      match list {
        case Err(e) => r := Err(NotStored(e));
        case Ok(rows) => r := Ok(rows);
      }
    }
  }
}
