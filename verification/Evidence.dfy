/** The evidence gate of the HTTP handlers: no item gets into review without an
    attachment, even when other requests run between the gate's check and the
    status change it lets through. */
module Evidence {
  import opened Wrappers
  import opened Text
  import opened Records
  import opened WorkItemTypes
  import opened WorkItemModel
  import opened Trails
  import opened TrailSteps
  import opened WorkItemRuns
  import opened WorkItemTheorems
  import opened Permissions
  import A = Attachments
  import TeamModel

  /** `cleared` holds the status requests whose check has passed and whose
      service call is still to come. */
  datatype Site = Site(world: World, files: Log<A.Attachment>, cleared: multiset<MoveRequest>)

  datatype Request =
    | CheckEvidence(q: MoveRequest)
    | PatchStatus(q: MoveRequest, at: int, noteAt: int)
    | Verify(id: string, caller: Caller, note: Option<string>, at: int, noteAt: int)
    | Flag(id: string, caller: Caller, feedback: string, at: int, noteAt: int)
    | UploadFile(id: string, caller: Caller, kind: A.Kind, mimeType: string, saved: Option<A.SavedFile>, at: int)
    | Elsewhere(c: Command)

  function Mover(id: string, caller: Caller, toStatus: Status, reason: Option<string>): MoveRequest {
    MoveRequest(id, caller.user, caller.isAdmin, caller.isSupervisor, caller.isRequester, toStatus, reason)
  }

  /** The handler's access check never passes the requester flag. */
  predicate MayLook(site: Site, id: string, caller: Caller) {
    GetByID(site.world.stores, Authority(site.world), id, caller.(isRequester := false)).Ok?
  }

  /** The check before a submission: the caller may see the item, and the item
      has an attachment. */
  predicate GateOpen(s: Stores, authority: Option<TeamModel.TeamState>, files: Log<A.Attachment>, q: MoveRequest) {
    && GetByID(s, authority, q.id, Caller(q.actor, q.isAdmin, q.isSupervisor, false)).Ok?
    && A.List(files, q.id).Ok? && A.List(files, q.id).value != []
  }

  /** The gate opens for whoever sees the item, an administrator, a supervisor in
      charge or its assignee, once a file is on it. */
  lemma GateOpensIff(
    s: Stores, authority: Option<TeamModel.TeamState>, files: Log<A.Attachment>, q: MoveRequest)
    requires TeamsOk(authority)
    ensures GateOpen(s, authority, files, q) <==>
              && !Blank(q.id) && q.id in s.items.byID
              && (q.isAdmin
                  || (if q.isSupervisor then InCharge(authority, q.actor, s.items.byID[q.id])
                      else s.items.byID[q.id].assignedToUserID == Some(q.actor)))
              && exists i :: 0 <= i < |files.rows| && files.rows[i].value.workItemID == q.id
  {
    hide TrimSpace;
    FetchedIffSeen(s, authority, q.id, Caller(q.actor, q.isAdmin, q.isSupervisor, false));
    if !Blank(q.id) {
      A.ListedIffPresent(files, q.id);
    }
  }

  predicate PassesGate(site: Site, q: MoveRequest) {
    GateOpen(site.world.stores, Authority(site.world), site.files, q)
  }

  /** What a status request comes to when nothing runs between its check and its
      service call. */
  function ChangeStatus(
    s: Stores, authority: Option<TeamModel.TeamState>, files: Log<A.Attachment>, q: MoveRequest, now: int, noteNow: int)
    : Stores
  {
    if q.toStatus == SubmittedForReview && !GateOpen(s, authority, files, q) then s
    else Perform(s, MovePlan(s, authority, q, now, noteNow)).0
  }

  function Serve(site: Site, c: Command): Site {
    site.(world := Step(site.world, c))
  }

  function Handle(site: Site, r: Request): Site {
    match r
    case CheckEvidence(q) =>
      if q.toStatus == SubmittedForReview && PassesGate(site, q)
      then site.(cleared := site.cleared + multiset{q})
      else site
    case PatchStatus(q, at, noteAt) =>
      if q.toStatus == SubmittedForReview && q !in site.cleared then site
      else Serve(site, MoveItem(q, at, noteAt)).(cleared := site.cleared - multiset{q})
    case Verify(id, caller, note, at, noteAt) => Serve(site, MoveItem(Mover(id, caller, Verified, note), at, noteAt))
    case Flag(id, caller, feedback, at, noteAt) =>
      if Blank(feedback) then site
      else Serve(site, MoveItem(Mover(id, caller, Flagged, Some(TrimSpace(feedback))), at, noteAt))
    case UploadFile(id, caller, kind, mimeType, saved, at) =>
      if MayLook(site, id, caller)
      then site.(files := A.Upload(site.files, id, caller.user, kind, mimeType, saved, at).0)
      else site
    case Elsewhere(c) => if c.MoveItem? then site else Serve(site, c)
  }

  function Visit(site: Site, rs: seq<Request>): Site {
    if rs == [] then site else Handle(Visit(site, rs[..|rs| - 1]), rs[|rs| - 1])
  }

  function Opening(hasSink: bool, hasAuthority: bool): Site {
    Site(Start(hasSink, hasAuthority), Log(0, []), multiset{})
  }

  /** The two steps of a status request, taken back to back, are the handler. */
  lemma UninterruptedRequest(site: Site, q: MoveRequest, at: int, noteAt: int)
    requires q !in site.cleared
    ensures var site' := Handle(Handle(site, CheckEvidence(q)), PatchStatus(q, at, noteAt));
            && site'.world.stores == ChangeStatus(site.world.stores, Authority(site.world), site.files, q, at, noteAt)
            && site'.cleared == site.cleared
  {
  }

  // ----- The invariant -----

  predicate GoodFile(a: A.Attachment, id: string) {
    a.workItemID == id && a.kind.IsValid() && a.fileSize > 0
  }

  ghost predicate HasEvidence(files: Log<A.Attachment>, id: string) {
    exists i :: 0 <= i < |files.rows| && GoodFile(files.rows[i].value, id)
  }

  ghost predicate FilesGood(files: Log<A.Attachment>) {
    forall i :: 0 <= i < |files.rows| ==> GoodFile(files.rows[i].value, files.rows[i].value.workItemID)
  }

  /** Every submission on record is of an item with evidence. */
  ghost predicate SubmissionsBacked(rows: seq<Stored<StatusEntry>>, files: Log<A.Attachment>) {
    forall i :: 0 <= i < |rows| && rows[i].value.toStatus == SubmittedForReview ==>
      HasEvidence(files, rows[i].value.workItemID)
  }

  ghost predicate ClearedBacked(cleared: multiset<MoveRequest>, files: Log<A.Attachment>) {
    forall q :: q in cleared ==> HasEvidence(files, q.id)
  }

  ghost predicate SiteInv(site: Site) {
    && WorldInv(site.world)
    && FilesGood(site.files)
    && ClearedBacked(site.cleared, site.files)
    && SubmissionsBacked(site.world.stores.statusLog.rows, site.files)
  }

  /** Files are never taken away, so evidence, once there, stays. */
  lemma EvidenceStays(files: Log<A.Attachment>, more: Log<A.Attachment>, id: string)
    requires HasEvidence(files, id) && files.rows <= more.rows
    ensures HasEvidence(more, id)
  {
    var i :| 0 <= i < |files.rows| && GoodFile(files.rows[i].value, id);
    assert GoodFile(more.rows[i].value, id);
  }

  lemma BackingStays(
    cleared: multiset<MoveRequest>, rows: seq<Stored<StatusEntry>>, files: Log<A.Attachment>, more: Log<A.Attachment>)
    requires ClearedBacked(cleared, files) && SubmissionsBacked(rows, files) && files.rows <= more.rows
    ensures ClearedBacked(cleared, more) && SubmissionsBacked(rows, more)
  {
    forall q | q in cleared ensures HasEvidence(more, q.id) {
      EvidenceStays(files, more, q.id);
    }
    forall i | 0 <= i < |rows| && rows[i].value.toStatus == SubmittedForReview
      ensures HasEvidence(more, rows[i].value.workItemID)
    {
      EvidenceStays(files, more, rows[i].value.workItemID);
    }
  }

  lemma UploadIsGood(
    files: Log<A.Attachment>, id: string, user: string, kind: A.Kind, mimeType: string,
    saved: Option<A.SavedFile>, at: int)
    requires FilesGood(files)
    ensures var more := A.Upload(files, id, user, kind, mimeType, saved, at).0;
            FilesGood(more) && files.rows <= more.rows
  {
  }

  lemma GateFindsEvidence(site: Site, q: MoveRequest)
    requires FilesGood(site.files) && PassesGate(site, q)
    ensures HasEvidence(site.files, q.id)
  {
    A.ListedIffPresent(site.files, q.id);
    var i :| 0 <= i < |site.files.rows| && site.files.rows[i].value.workItemID == q.id;
    assert GoodFile(site.files.rows[i].value, q.id);
  }

  /** A submission among these writes concerns an item with evidence. */
  ghost predicate WritesBacked(ws: seq<Write>, files: Log<A.Attachment>) {
    forall i :: 0 <= i < |ws| && ws[i].AddStatus? && ws[i].entry.toStatus == SubmittedForReview ==>
      HasEvidence(files, ws[i].entry.workItemID)
  }

  lemma {:induction false} ExecAllKeepsBacked(s: Stores, ws: seq<Write>, files: Log<A.Attachment>)
    requires SubmissionsBacked(s.statusLog.rows, files) && WritesBacked(ws, files)
    ensures SubmissionsBacked(ExecAll(s, ws).0.statusLog.rows, files)
    decreases |ws|
  {
    if ws != [] && Exec(s, ws[0]).Ok? {
      if ws[0].AddStatus? && ws[0].entry.toStatus == SubmittedForReview {
        assert HasEvidence(files, ws[0].entry.workItemID);
      }
      assert SubmissionsBacked(Exec(s, ws[0]).value.statusLog.rows, files);
      ExecAllKeepsBacked(Exec(s, ws[0]).value, ws[1..], files);
    }
  }

  /** Which commands can record a submission, and of what. */
  predicate Submits(c: Command, id: string) {
    c.MoveItem? && c.move.toStatus == SubmittedForReview && c.move.id == id
  }

  lemma PlansSubmitOnlyWhatTheySay(w: World, c: Command, i: nat)
    requires PlanOf(w, c).Ok? && i < |PlanOf(w, c).value|
    requires PlanOf(w, c).value[i].AddStatus? && PlanOf(w, c).value[i].entry.toStatus == SubmittedForReview
    ensures Submits(c, PlanOf(w, c).value[i].entry.workItemID)
  {
    hide TrimSpace, Numbered;
  }

  lemma ServeKeepsBacked(w: World, c: Command, files: Log<A.Attachment>)
    requires SubmissionsBacked(w.stores.statusLog.rows, files)
    requires forall id :: Submits(c, id) ==> HasEvidence(files, id)
    ensures SubmissionsBacked(Step(w, c).stores.statusLog.rows, files)
  {
    match c
    case CreateItem(_, _, _) =>
    case ReadNote(_, _, _) =>
    case ChangeTeams(_) =>
    case _ =>
      if PlanOf(w, c).Ok? {
        PlansAreBacked(w, c, files);
        ExecAllKeepsBacked(w.stores, PlanOf(w, c).value, files);
      }
  }

  lemma PlansAreBacked(w: World, c: Command, files: Log<A.Attachment>)
    requires PlanOf(w, c).Ok?
    requires forall id :: Submits(c, id) ==> HasEvidence(files, id)
    ensures WritesBacked(PlanOf(w, c).value, files)
  {
    var ws := PlanOf(w, c).value;
    forall i | 0 <= i < |ws| && ws[i].AddStatus? && ws[i].entry.toStatus == SubmittedForReview
      ensures HasEvidence(files, ws[i].entry.workItemID)
    {
      PlansSubmitOnlyWhatTheySay(w, c, i);
    }
  }

  lemma ServeKeepsInv(site: Site, c: Command)
    requires SiteInv(site)
    requires forall id :: Submits(c, id) ==> HasEvidence(site.files, id)
    ensures SiteInv(Serve(site, c))
  {
    StepKeepsInv(site.world, c);
    ServeKeepsBacked(site.world, c, site.files);
  }

  lemma PatchKeepsInv(site: Site, q: MoveRequest, at: int, noteAt: int)
    requires SiteInv(site)
    ensures SiteInv(Handle(site, PatchStatus(q, at, noteAt)))
  {
    hide TrimSpace, Numbered, WorldInv, FilesGood, SubmissionsBacked;
    if q.toStatus != SubmittedForReview || q in site.cleared {
      ServeKeepsInv(site, MoveItem(q, at, noteAt));
    }
  }

  lemma ClearingKeepsInv(site: Site, q: MoveRequest)
    requires SiteInv(site) && HasEvidence(site.files, q.id)
    ensures SiteInv(site.(cleared := site.cleared + multiset{q}))
  {
  }

  lemma CheckKeepsInv(site: Site, q: MoveRequest)
    requires SiteInv(site)
    ensures SiteInv(Handle(site, CheckEvidence(q)))
  {
    if PassesGate(site, q) {
      GateFindsEvidence(site, q);
      ClearingKeepsInv(site, q);
    }
  }

  lemma UploadKeepsInv(site: Site, r: Request)
    requires SiteInv(site) && r.UploadFile?
    ensures SiteInv(Handle(site, r))
  {
    UploadIsGood(site.files, r.id, r.caller.user, r.kind, r.mimeType, r.saved, r.at);
    var more := A.Upload(site.files, r.id, r.caller.user, r.kind, r.mimeType, r.saved, r.at).0;
    BackingStays(site.cleared, site.world.stores.statusLog.rows, site.files, more);
  }

  lemma HandleKeepsInv(site: Site, r: Request)
    requires SiteInv(site)
    ensures SiteInv(Handle(site, r))
  {
    hide TrimSpace, Numbered, SiteInv;
    match r
    case CheckEvidence(q) => CheckKeepsInv(site, q);
    case PatchStatus(q, at, noteAt) => PatchKeepsInv(site, q, at, noteAt);
    case UploadFile(_, _, _, _, _, _) => UploadKeepsInv(site, r);
    case Verify(id, caller, note, at, noteAt) =>
      ServeKeepsInv(site, MoveItem(Mover(id, caller, Verified, note), at, noteAt));
    case Flag(id, caller, feedback, at, noteAt) =>
      ServeKeepsInv(site, MoveItem(Mover(id, caller, Flagged, Some(TrimSpace(feedback))), at, noteAt));
    case Elsewhere(c) =>
      if !c.MoveItem? { ServeKeepsInv(site, c); }
  }

  lemma {:induction false} VisitKeepsInv(hasSink: bool, hasAuthority: bool, rs: seq<Request>)
    ensures SiteInv(Visit(Opening(hasSink, hasAuthority), rs))
  {
    if rs == [] {
      StartOk(hasSink, hasAuthority);
    } else {
      VisitKeepsInv(hasSink, hasAuthority, rs[..|rs| - 1]);
      HandleKeepsInv(Visit(Opening(hasSink, hasAuthority), rs[..|rs| - 1]), rs[|rs| - 1]);
    }
  }

  // ----- The theorem -----

  lemma {:induction false} EnteredMeansRow(rows: seq<Stored<StatusEntry>>, id: string, status: Status)
    requires Entered(Project(rows, StatusFor(id)), status) >= 1
    ensures exists i :: 0 <= i < |rows| && rows[i].value.workItemID == id && rows[i].value.toStatus == status
  {
    var init, last := rows[..|rows| - 1], rows[|rows| - 1];
    if last.value.workItemID != id || last.value.toStatus != status {
      if last.value.workItemID == id {
        EnteredSnoc(Project(init, StatusFor(id)), last.value, status);
      }
      assert Project(init, StatusFor(id)) + [] == Project(init, StatusFor(id));
      EnteredMeansRow(init, id, status);
      var i :| 0 <= i < |init| && init[i].value.workItemID == id && init[i].value.toStatus == status;
      assert rows[i] == init[i];
    }
  }

  lemma BackedItemHasEvidence(site: Site, id: string)
    requires SiteInv(site) && Entered(HistoryOf(site.world.stores, id), SubmittedForReview) >= 1
    ensures HasEvidence(site.files, id)
  {
    EnteredMeansRow(site.world.stores.statusLog.rows, id, SubmittedForReview);
  }

  /** Over every sequence of requests: whatever has ever been submitted for
      review, and so everything verified, flagged or completed, has a stored
      attachment of a valid kind and positive size. */
  lemma NothingReviewedWithoutEvidence(hasSink: bool, hasAuthority: bool, rs: seq<Request>, id: string)
    requires id in Visit(Opening(hasSink, hasAuthority), rs).world.stores.items.byID
    ensures var site := Visit(Opening(hasSink, hasAuthority), rs);
            var (history, status) := (HistoryOf(site.world.stores, id), site.world.stores.items.byID[id].status);
            && (Entered(history, SubmittedForReview) >= 1 ==> HasEvidence(site.files, id))
            && (status == SubmittedForReview || status == Verified || status == Flagged || status == Completed ==>
                  HasEvidence(site.files, id))
  {
    VisitKeepsInv(hasSink, hasAuthority, rs);
    var site := Visit(Opening(hasSink, hasAuthority), rs);
    var (history, status) := (HistoryOf(site.world.stores, id), site.world.stores.items.byID[id].status);
    HistoryIsChain(site.world.stores, id);
    if status == SubmittedForReview || status == Verified || status == Flagged || status == Completed {
      ReviewedMeansSubmitted(history, status);
    }
    if Entered(history, SubmittedForReview) >= 1 {
      BackedItemHasEvidence(site, id);
    }
  }
}
