/** What a request comes to once it has been through gate, guards and writes: the
    exact condition under which it leaves its mark, and the mark. */
module Requests {
  import opened Wrappers
  import opened Text
  import opened Records
  import opened WorkItemTypes
  import opened WorkItemModel
  import opened WorkItemRuns
  import opened Permissions
  import opened Provenance
  import opened ItemChanges
  import opened Evidence
  import A = Attachments

  // ----- The three status requests -----

  /** A named caller and a known item. */
  predicate Addressed(site: Site, id: string, user: string) {
    !Blank(id) && !Blank(user) && id in site.world.stores.items.byID
  }

  /** An administrator, or a supervisor in charge of the item. */
  ghost predicate MayJudge(site: Site, id: string, caller: Caller)
    requires id in site.world.stores.items.byID
  {
    || caller.isAdmin
    || (caller.isSupervisor && InCharge(Authority(site.world), caller.user, site.world.stores.items.byID[id]))
  }

  /** The item was awaiting its verdict. */
  ghost predicate VerdictLands(site: Site, id: string, caller: Caller) {
    && Addressed(site, id, caller.user) && MayJudge(site, id, caller)
    && site.world.stores.items.byID[id].status == SubmittedForReview
  }

  /** Either the one status row is appended and the item moves, or neither. */
  ghost predicate Leaves(site: Site, site': Site, id: string, lands: bool, row: StatusEntry) {
    && Values(site'.world.stores.statusLog.rows) ==
         Values(site.world.stores.statusLog.rows) + (if lands then [row] else [])
    && site'.files == site.files && site'.world.teams == site.world.teams
    && (!lands ==> site'.world == site.world)
    && (lands ==>
          && id in site.world.stores.items.byID && id in site'.world.stores.items.byID
          && site'.world.stores.items.byID[id] ==
               site.world.stores.items.byID[id].(status := row.toStatus, updatedAt := row.createdAt))
  }

  lemma MoveLeaves(site: Site, q: MoveRequest, at: int, noteAt: int, from: Status)
    requires WorldInv(site.world)
    requires MovePermitted(site.world, q) ==> site.world.stores.items.byID[q.id].status == from
    ensures Leaves(site, Serve(site, MoveItem(q, at, noteAt)), q.id, MovePermitted(site.world, q),
                   StatusEntry(q.id, Some(from), q.toStatus, q.actor, Kept(q.reason), at))
  {
    hide TrimSpace, StoresInv, MayMove, MoveFits, MoveWellFormed, Step;
    var c := MoveItem(q, at, noteAt);
    StepAdds(site.world, c);
    StepKeepsTeams(site.world, c);
    if MovePermitted(site.world, q) {
      ItemsChangeOnlySo(site.world, c, q.id);
    } else {
      RefusedAdds(site.world, c);
    }
  }

  lemma StepKeepsTeams(w: World, c: Command)
    requires c.MoveItem?
    ensures Step(w, c).teams == w.teams
  {
    hide TrimSpace;
  }

  /** A verification goes through exactly for an administrator, or a supervisor in
      charge, on an item awaiting review; then the item is verified and the row says
      by whom, when and with what note. */
  lemma VerifyLandsIff(site: Site, id: string, caller: Caller, note: Option<string>, at: int, noteAt: int)
    requires WorldInv(site.world)
    ensures Leaves(site, Handle(site, Verify(id, caller, note, at, noteAt)), id, VerdictLands(site, id, caller),
                   StatusEntry(id, Some(SubmittedForReview), Verified, caller.user, Kept(note), at))
  {
    hide TrimSpace, WorldInv, InCharge, Leaves, Serve, Kept;
    MoveLeaves(site, Mover(id, caller, Verified, note), at, noteAt, SubmittedForReview);
  }

  /** A rejection likewise, and only with a note. */
  lemma FlagLandsIff(site: Site, id: string, caller: Caller, feedback: string, at: int, noteAt: int)
    requires WorldInv(site.world)
    ensures Leaves(site, Handle(site, Flag(id, caller, feedback, at, noteAt)), id,
                   !Blank(feedback) && VerdictLands(site, id, caller),
                   StatusEntry(id, Some(SubmittedForReview), Flagged, caller.user, Some(TrimSpace(feedback)), at))
  {
    TrimIdempotent(feedback);
    hide TrimSpace, WorldInv, InCharge, Serve;
    if !Blank(feedback) {
      MoveLeaves(site, Mover(id, caller, Flagged, Some(TrimSpace(feedback))), at, noteAt, SubmittedForReview);
    } else {
      assert Values(site.world.stores.statusLog.rows) + [] == Values(site.world.stores.statusLog.rows);
    }
  }

  /** A submission, its check and its service call in one, goes through exactly on
      an item in progress that has a file, for its assignee or those in charge. */
  lemma SubmissionLandsIff(site: Site, q: MoveRequest, at: int, noteAt: int)
    requires WorldInv(site.world) && q.toStatus == SubmittedForReview && q !in site.cleared
    ensures var lands :=
              && Addressed(site, q.id, q.actor) && MayMove(Authority(site.world), q, site.world.stores.items.byID[q.id])
              && site.world.stores.items.byID[q.id].status == InProgress
              && exists i :: 0 <= i < |site.files.rows| && site.files.rows[i].value.workItemID == q.id;
            Leaves(site, Handle(Handle(site, CheckEvidence(q)), PatchStatus(q, at, noteAt)), q.id, lands,
                   StatusEntry(q.id, Some(InProgress), SubmittedForReview, q.actor, Kept(q.reason), at))
  {
    hide TrimSpace, StoresInv, InCharge, Step, Kept;
    GateOpensIff(site.world.stores, Authority(site.world), site.files, q);
    var site' := Handle(site, CheckEvidence(q));
    if PassesGate(site, q) {
      MoveLeaves(site', q, at, noteAt, InProgress);
    } else {
      assert Values(site.world.stores.statusLog.rows) + [] == Values(site.world.stores.statusLog.rows);
    }
  }

  // ----- Uploads -----

  /** A caller who sees the item, a requester as an assignee would, and a file of a
      known kind that is not empty. */
  ghost predicate UploadLands(site: Site, r: Request)
    requires r.UploadFile?
  {
    && Addressed(site, r.id, r.caller.user)
    && Sees(Authority(site.world), r.caller.(isRequester := false), site.world.stores.items.byID[r.id])
    && r.kind.IsValid() && r.saved.Some? && r.saved.value.size > 0
  }

  /** The attachments a request adds. */
  ghost function FilesMade(site: Site, r: Request): seq<A.Attachment> {
    match r
    case UploadFile(id, caller, kind, mimeType, saved, at) =>
      if !UploadLands(site, r) then []
      else [A.Attachment(id, caller.user, saved.value.storageURL, mimeType, saved.value.size, kind, at)]
    case _ => []
  }

  lemma RequestAddsFiles(site: Site, r: Request)
    requires WorldInv(site.world)
    ensures Values(Handle(site, r).files.rows) == Values(site.files.rows) + FilesMade(site, r)
  {
    hide TrimSpace, StoresInv, InCharge, Step, Numbered;
    assert Values(site.files.rows) + [] == Values(site.files.rows);
    if r.UploadFile? {
      FetchedIffSeen(site.world.stores, Authority(site.world), r.id, r.caller.(isRequester := false));
      A.UploadAcceptedIff(site.files, r.id, r.caller.user, r.kind, r.mimeType, r.saved, r.at);
    }
  }

  ghost function AllFilesMade(site: Site, rs: seq<Request>): seq<A.Attachment> {
    if rs == [] then []
    else AllFilesMade(site, rs[..|rs| - 1]) + FilesMade(Visit(site, rs[..|rs| - 1]), rs[|rs| - 1])
  }

  /** Over every sequence of requests the attachments on record are exactly those
      uploaded by callers who saw the item at that moment, in order. */
  lemma {:induction false} FilesAreThePermittedUploads(hasSink: bool, hasAuthority: bool, rs: seq<Request>)
    ensures var opening := Opening(hasSink, hasAuthority);
            Values(Visit(opening, rs).files.rows) == AllFilesMade(opening, rs)
  {
    hide Handle, FilesMade, SiteInv;
    if rs != [] {
      var init := rs[..|rs| - 1];
      FilesAreThePermittedUploads(hasSink, hasAuthority, init);
      VisitKeepsInv(hasSink, hasAuthority, init);
      SiteWorldIsOk(Visit(Opening(hasSink, hasAuthority), init));
      RequestAddsFiles(Visit(Opening(hasSink, hasAuthority), init), rs[|rs| - 1]);
    }
  }

  lemma SiteWorldIsOk(site: Site)
    requires SiteInv(site)
    ensures WorldInv(site.world)
  {
    hide WorldInv;
  }
}
