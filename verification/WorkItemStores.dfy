/** The engine's in-memory stores, refining the tables of `WorkItemModel`. */
module WorkItemStores {
  import opened Wrappers
  import opened Text
  import opened Sequences
  import opened Records
  import opened WorkItemTypes
  import opened WorkItemModel
  import opened WorkItemRuns

  class MemoryStore {
    var counter: nat
    var byID: map<string, WorkItem>
    var ordered: seq<string>

    function View(): ItemTable
      reads this
    {
      ItemTable(counter, byID, ordered)
    }

    ghost predicate Valid()
      reads this
    {
      Listable(View())
    }

    constructor ()
      ensures View() == ItemTable(0, map[], []) && Valid()
    {
      counter, byID, ordered := 0, map[], [];
    }

    method Create(item: WorkItem) returns (row: WorkItem)
      requires Valid()
      modifies this
      ensures Valid() && (View(), row) == Insert(old(View()), item)
      ensures old(TableOk(View())) ==> TableOk(View()) && row.id !in old(byID)
    {
      ghost var before := View();
      if TableOk(before) {
        NewIdIsFresh(before);
        InsertKeepsTable(before, item);
      }
      counter := counter + 1;
      row := item.(id := ItemID(counter), referenceCode := ReferenceCode(counter));
      byID := byID[row.id := row];
      ordered := ordered + [row.id];
    }

    method List() returns (items: seq<WorkItem>)
      requires Valid()
      ensures items == ListItems(View())
    {
      items := [];
      for i := 0 to |ordered|
        invariant items == AllItems(View())[..i]
      {
        items := items + [byID[ordered[i]]];
      }
      assert AllItems(View())[..|ordered|] == AllItems(View());
      items := StableSort(items, NewestFirst);
    }

    method ListByAssignedToUserID(userID: string) returns (items: seq<WorkItem>)
      requires Valid()
      ensures items == StableSort(Filter(AllItems(View()), AssignedTo(userID)), NewestFirst)
    {
      items := [];
      ghost var all := AllItems(View());
      for i := 0 to |ordered|
        invariant items == Filter(all[..i], AssignedTo(userID))
      {
        var item := byID[ordered[i]];
        FilterSnoc(all[..i], item, AssignedTo(userID));
        assert all[..i + 1] == all[..i] + [item];
        if item.assignedToUserID == Some(userID) {
          items := items + [item];
        }
      }
      assert all[..|ordered|] == all;
      items := StableSort(items, NewestFirst);
    }

    method ListByCreatedByUserID(userID: string) returns (items: seq<WorkItem>)
      requires Valid()
      ensures items == StableSort(Filter(AllItems(View()), CreatedBy(userID)), NewestFirst)
    {
      items := [];
      ghost var all := AllItems(View());
      for i := 0 to |ordered|
        invariant items == Filter(all[..i], CreatedBy(userID))
      {
        var item := byID[ordered[i]];
        FilterSnoc(all[..i], item, CreatedBy(userID));
        assert all[..i + 1] == all[..i] + [item];
        if item.createdByUserID == userID {
          items := items + [item];
        }
      }
      assert all[..|ordered|] == all;
      items := StableSort(items, NewestFirst);
    }

    method GetByID(id: string) returns (r: Result<WorkItem, Error>)
      ensures r == if id in byID then Ok(byID[id]) else Err(NotFound)
    {
      if id in byID {
        return Ok(byID[id]);
      }
      r := Err(NotFound);
    }

    method Update(item: WorkItem) returns (r: Result<WorkItem, Error>)
      modifies this
      ensures if item.id in old(byID) then r == Ok(item) && View() == old(View()).(byID := old(byID)[item.id := item])
              else r == Err(NotFound) && View() == old(View())
      ensures old(Valid()) ==> Valid()
    {
      if item.id !in byID {
        return Err(NotFound);
      }
      byID := byID[item.id := item];
      r := Ok(item);
    }
  }

  class MemoryStatusHistoryStore {
    var counter: nat
    var entries: seq<Stored<StatusEntry>>

    function View(): Log<StatusEntry>
      reads this
    {
      Log(counter, entries)
    }

    constructor ()
      ensures View() == Log(0, [])
    {
      counter, entries := 0, [];
    }

    method Create(entry: StatusEntry) returns (row: Stored<StatusEntry>)
      modifies this
      ensures View() == Append(old(View()), "statushistory-", entry) && row == entries[|entries| - 1]
    {
      counter := counter + 1;
      row := Stored(Numbered("statushistory-", counter), entry);
      entries := entries + [row];
    }

    method ListByWorkItemID(workItemID: string) returns (matches: seq<Stored<StatusEntry>>)
      ensures matches == ListStatusRows(View(), workItemID)
    {
      matches := [];
      for i := 0 to |entries|
        invariant matches == Filter(entries[..i], StatusRowsOf(workItemID))
      {
        FilterSnoc(entries[..i], entries[i], StatusRowsOf(workItemID));
        assert entries[..i + 1] == entries[..i] + [entries[i]];
        if entries[i].value.workItemID == workItemID {
          matches := matches + [entries[i]];
        }
      }
      assert entries[..|entries|] == entries;
      matches := StableSort(matches, StatusTime);
    }
  }

  class MemoryAssignmentHistoryStore {
    var counter: nat
    var entries: seq<Stored<AssignmentEvent>>

    function View(): Log<AssignmentEvent>
      reads this
    {
      Log(counter, entries)
    }

    constructor ()
      ensures View() == Log(0, [])
    {
      counter, entries := 0, [];
    }

    method Create(entry: AssignmentEvent) returns (row: Stored<AssignmentEvent>)
      modifies this
      ensures View() == Append(old(View()), "assignmenthistory-", entry) && row == entries[|entries| - 1]
    {
      counter := counter + 1;
      row := Stored(Numbered("assignmenthistory-", counter), entry);
      entries := entries + [row];
    }

    method ListByWorkItemID(workItemID: string) returns (matches: seq<Stored<AssignmentEvent>>)
      ensures matches == ListEventRows(View(), workItemID)
    {
      matches := [];
      for i := 0 to |entries|
        invariant matches == Filter(entries[..i], EventRowsOf(workItemID))
      {
        FilterSnoc(entries[..i], entries[i], EventRowsOf(workItemID));
        assert entries[..i + 1] == entries[..i] + [entries[i]];
        if entries[i].value.workItemID == workItemID {
          matches := matches + [entries[i]];
        }
      }
      assert entries[..|entries|] == entries;
      matches := StableSort(matches, EventTime);
    }
  }

  class MemoryAssignmentStore {
    var counter: nat
    var byWorkItem: map<string, Stored<Assignment>>

    function View(): AssignmentTable
      reads this
    {
      AssignmentTable(counter, byWorkItem)
    }

    constructor ()
      ensures View() == AssignmentTable(0, map[])
    {
      counter, byWorkItem := 0, map[];
    }

    method Create(assignment: Assignment) returns (row: Stored<Assignment>)
      modifies this
      ensures row == Stored(AssignmentID(old(counter) + 1), assignment)
      ensures View() == AssignmentTable(old(counter) + 1, old(byWorkItem)[assignment.workItemID := row])
    {
      counter := counter + 1;
      row := Stored(AssignmentID(counter), assignment);
      byWorkItem := byWorkItem[assignment.workItemID := row];
    }

    method GetByWorkItemID(workItemID: string) returns (r: Result<Stored<Assignment>, Error>)
      ensures r == if workItemID in byWorkItem then Ok(byWorkItem[workItemID]) else Err(AssignmentNotFound)
    {
      if workItemID in byWorkItem {
        return Ok(byWorkItem[workItemID]);
      }
      r := Err(AssignmentNotFound);
    }

    method Update(row: Stored<Assignment>) returns (r: Result<Stored<Assignment>, Error>)
      modifies this
      ensures if row.value.workItemID in old(byWorkItem) then
                r == Ok(row) && View() == old(View()).(byWorkItem := old(byWorkItem)[row.value.workItemID := row])
              else r == Err(AssignmentNotFound) && View() == old(View())
    {
      if row.value.workItemID !in byWorkItem {
        return Err(AssignmentNotFound);
      }
      byWorkItem := byWorkItem[row.value.workItemID := row];
      r := Ok(row);
    }
  }
}
