/** Attachment records: the upload guards, and rows that are only ever added. */
module Attachments {
  import opened Wrappers
  import opened Text
  import opened Sequences
  import opened Records

  datatype AttachmentError = InvalidInput | InvalidKind | EmptyFile | SaveFailed

  datatype Kind =
    | SupportingDocument | SitePhoto | EvidencePhoto | QuoteDocument | VerificationDocument
    | OtherKind(text: string)
  {
    predicate IsValid() {
      !OtherKind?
    }
  }

  datatype Attachment = Attachment(
    workItemID: string, uploadedByUserID: string, storageURL: string, mimeType: string,
    fileSize: nat, kind: Kind, createdAt: int)

  /** Where the bytes went and how many there were. */
  datatype SavedFile = SavedFile(storageURL: string, size: nat)

  function OnItem(id: string): Stored<Attachment> -> bool {
    (row: Stored<Attachment>) => row.value.workItemID == id
  }

  function UploadTime(row: Stored<Attachment>): int { row.value.createdAt }

  /** `saved` is what the file storage answered, if it is asked. */
  function Upload(
    log: Log<Attachment>, workItemID: string, user: string, kind: Kind, mimeType: string,
    saved: Option<SavedFile>, now: int)
    : (Log<Attachment>, Option<AttachmentError>)
  {
    if Blank(workItemID) || Blank(user) then (log, Some(InvalidInput))
    else if !kind.IsValid() then (log, Some(InvalidKind))
    else if saved.None? then (log, Some(SaveFailed))
    else if saved.value.size == 0 then (log, Some(EmptyFile))
    else
      (Append(log, "attachment-",
              Attachment(workItemID, user, saved.value.storageURL, mimeType, saved.value.size, kind, now)), None)
  }

  function List(log: Log<Attachment>, workItemID: string): Result<seq<Stored<Attachment>>, AttachmentError> {
    if Blank(workItemID) then Err(InvalidInput)
    else Ok(StableSort(Filter(log.rows, OnItem(workItemID)), UploadTime))
  }

  /** A listing has something in it exactly when some row is on the item. */
  lemma ListedIffPresent(log: Log<Attachment>, id: string)
    requires !Blank(id)
    ensures List(log, id).value != [] <==> exists i :: 0 <= i < |log.rows| && log.rows[i].value.workItemID == id
  {
    var found := Filter(log.rows, OnItem(id));
    StableSortMeaning(found, UploadTime);
    assert |StableSort(found, UploadTime)| == |multiset(found)| == |found|;
    if found != [] {
      FilterMembers(log.rows, OnItem(id), found[0]);
    }
    if i :| 0 <= i < |log.rows| && log.rows[i].value.workItemID == id {
      FilterMembers(log.rows, OnItem(id), log.rows[i]);
    }
  }

  /** An upload is stored exactly if item and user are named, the kind is known and
      the file was saved and is not empty; the row then says whose and what it is. */
  lemma UploadAcceptedIff(
    log: Log<Attachment>, workItemID: string, user: string, kind: Kind, mimeType: string,
    saved: Option<SavedFile>, now: int)
    ensures var (log', failure) := Upload(log, workItemID, user, kind, mimeType, saved, now);
            && (failure.None? <==>
                  !Blank(workItemID) && !Blank(user) && !kind.OtherKind? && saved.Some? && saved.value.size > 0)
            && (failure.Some? ==> log' == log)
            && (failure == Some(EmptyFile) <==>
                  !Blank(workItemID) && !Blank(user) && !kind.OtherKind? && saved.Some? && saved.value.size == 0)
            && (failure.None? ==>
                  && |log'.rows| == |log.rows| + 1 && log'.rows[..|log.rows|] == log.rows
                  && var a := log'.rows[|log.rows|].value;
                     && a.workItemID == workItemID && a.uploadedByUserID == user && a.kind == kind
                     && a.storageURL == saved.value.storageURL && a.fileSize == saved.value.size
                     && a.mimeType == mimeType && a.createdAt == now)
  {
    hide TrimSpace, Numbered;
  }

  /** Listings run from oldest to newest. */
  lemma ListedOldestFirst(log: Log<Attachment>, id: string)
    requires !Blank(id)
    ensures var rows := List(log, id).value;
            forall i, j :: 0 <= i < j < |rows| ==> rows[i].value.createdAt <= rows[j].value.createdAt
  {
    hide StableSort, TrimSpace;
    var rows := List(log, id).value;
    StableSortMeaning(Filter(log.rows, OnItem(id)), UploadTime);
    forall i, j | 0 <= i < j < |rows| ensures rows[i].value.createdAt <= rows[j].value.createdAt {
      assert UploadTime(rows[i]) <= UploadTime(rows[j]);
    }
  }

  class MemoryStore {
    var counter: nat
    var entries: seq<Stored<Attachment>>

    function View(): Log<Attachment>
      reads this
    {
      Log(counter, entries)
    }

    constructor ()
      ensures View() == Log(0, [])
    {
      counter, entries := 0, [];
    }

    method Create(attachment: Attachment) returns (row: Stored<Attachment>)
      modifies this
      ensures View() == Append(old(View()), "attachment-", attachment) && row == entries[|entries| - 1]
    {
      counter := counter + 1;
      row := Stored(Numbered("attachment-", counter), attachment);
      entries := entries + [row];
    }

    method ListByWorkItemID(workItemID: string) returns (matches: seq<Stored<Attachment>>)
      ensures matches == StableSort(Filter(entries, OnItem(workItemID)), UploadTime)
    {
      matches := [];
      for i := 0 to |entries|
        invariant matches == Filter(entries[..i], OnItem(workItemID))
      {
        FilterSnoc(entries[..i], entries[i], OnItem(workItemID));
        assert entries[..i + 1] == entries[..i] + [entries[i]];
        if entries[i].value.workItemID == workItemID {
          matches := matches + [entries[i]];
        }
      }
      assert entries[..|entries|] == entries;
      matches := StableSort(matches, UploadTime);
    }
  }

  class Service {
    const store: MemoryStore

    constructor (store: MemoryStore)
      ensures this.store == store
    {
      this.store := store;
    }

    method UploadFile(
      workItemID: string, user: string, kind: Kind, mimeType: string, saved: Option<SavedFile>, now: int)
      returns (failure: Option<AttachmentError>)
      modifies store
      ensures (store.View(), failure) == Upload(old(store.View()), workItemID, user, kind, mimeType, saved, now)
    {
      if TrimSpace(workItemID) == "" || TrimSpace(user) == "" {
        return Some(InvalidInput);
      }
      if !kind.IsValid() {
        return Some(InvalidKind);
      }
      match saved {
        case None => return Some(SaveFailed);
        case Some(file) =>
          if file.size == 0 {
            return Some(EmptyFile);
          }
          var _ := store.Create(Attachment(workItemID, user, file.storageURL, mimeType, file.size, kind, now));
      }
      failure := None;
    }

    method ListFiles(workItemID: string) returns (r: Result<seq<Stored<Attachment>>, AttachmentError>)
      ensures r == List(store.View(), workItemID)
    {
      if TrimSpace(workItemID) == "" {
        return Err(InvalidInput);
      }
      var matches := store.ListByWorkItemID(workItemID);
      r := Ok(matches);
    }
  }
}
