/** The in-memory team stores and the team service, refining `TeamModel`. */
module TeamServices {
  import opened Wrappers
  import opened Text
  import opened Sequences
  import opened TeamModel

  class MemoryTeamStore {
    var counter: nat
    var teams: seq<Team>

    ghost predicate Valid()
      reads this
    {
      counter == |teams| && forall i :: 0 <= i < |teams| ==> teams[i].id == TeamID(i + 1)
    }

    constructor ()
      ensures Valid() && teams == []
    {
      counter, teams := 0, [];
    }

    method Create(team: Team) returns (r: Team)
      requires Valid()
      modifies this
      ensures Valid() && r == team.(id := TeamID(|old(teams)| + 1)) && teams == old(teams) + [r]
    {
      hide Numbered;
      counter := counter + 1;
      r := team.(id := TeamID(counter));
      teams := teams + [r];
    }

    method GetByID(id: string) returns (r: Result<Team, TeamError>)
      ensures r.Ok? <==> HasTeam(teams, id)
      ensures r.Ok? ==> r.value in teams && r.value.id == id
      ensures r.Err? ==> r.error == NotFound
    {
      for i := 0 to |teams|
        invariant forall j :: 0 <= j < i ==> teams[j].id != id
      {
        if teams[i].id == id {
          return Ok(teams[i]);
        }
      }
      r := Err(NotFound);
    }
  }

  class MemoryMembershipStore {
    var counter: nat
    var entries: seq<Membership>

    ghost predicate Valid()
      reads this
    {
      counter == |entries| && forall i :: 0 <= i < |entries| ==> entries[i].id == MembershipID(i + 1)
    }

    constructor ()
      ensures Valid() && entries == []
    {
      counter, entries := 0, [];
    }

    method Create(membership: Membership) returns (r: Membership)
      requires Valid()
      modifies this
      ensures Valid() && r == membership.(id := MembershipID(|old(entries)| + 1)) && entries == old(entries) + [r]
    {
      hide Numbered;
      counter := counter + 1;
      r := membership.(id := MembershipID(counter));
      entries := entries + [r];
    }

    method Update(membership: Membership) returns (r: Result<Membership, TeamError>)
      requires Valid()
      modifies this
      ensures Valid()
      ensures forall i :: 0 <= i < |old(entries)| && old(entries)[i].id == membership.id ==>
                r == Ok(membership) && entries == old(entries)[i := membership]
      ensures (forall i :: 0 <= i < |old(entries)| ==> old(entries)[i].id != membership.id) ==>
                r == Err(NotFound) && entries == old(entries)
    {
      hide Numbered;
      for i := 0 to |entries|
        invariant entries == old(entries)
        invariant forall j :: 0 <= j < i ==> entries[j].id != membership.id
      {
        if entries[i].id == membership.id {
          forall j | 0 <= j < |entries| && entries[j].id == membership.id ensures j == i {
            NumberedInjective("teammembership-", i + 1, j + 1);
          }
          entries := entries[i := membership];
          return Ok(membership);
        }
      }
      r := Err(NotFound);
    }

    method GetActiveByUserID(userID: string) returns (found: Option<Membership>)
      ensures var i := ActiveIndex(entries, userID);
              found == if i < |entries| then Some(entries[i]) else None
    {
      for i := 0 to |entries|
        invariant forall j :: 0 <= j < i ==> !ActiveMember(entries[j], userID)
      {
        if entries[i].userID == userID && entries[i].removedAt.None? {
          return Some(entries[i]);
        }
      }
      found := None;
    }

    method ListActiveByTeamID(teamID: string) returns (matches: seq<Membership>)
      ensures matches == Filter(entries, MembersOn(teamID))
    {
      matches := [];
      for i := 0 to |entries|
        invariant matches == Filter(entries[..i], MembersOn(teamID))
      {
        FilterSnoc(entries[..i], entries[i], MembersOn(teamID));
        assert entries[..i + 1] == entries[..i] + [entries[i]];
        if entries[i].teamID == teamID && entries[i].removedAt.None? {
          matches := matches + [entries[i]];
        }
      }
      assert entries[..|entries|] == entries;
    }
  }

  class MemorySupervisionStore {
    var counter: nat
    var entries: seq<Supervision>

    ghost predicate Valid()
      reads this
    {
      counter == |entries| && forall i :: 0 <= i < |entries| ==> entries[i].id == SupervisionID(i + 1)
    }

    constructor ()
      ensures Valid() && entries == []
    {
      counter, entries := 0, [];
    }

    method Create(supervision: Supervision) returns (r: Supervision)
      requires Valid()
      modifies this
      ensures Valid() && r == supervision.(id := SupervisionID(|old(entries)| + 1)) && entries == old(entries) + [r]
    {
      hide Numbered;
      counter := counter + 1;
      r := supervision.(id := SupervisionID(counter));
      entries := entries + [r];
    }

    method Update(supervision: Supervision) returns (r: Result<Supervision, TeamError>)
      requires Valid()
      modifies this
      ensures Valid()
      ensures forall i :: 0 <= i < |old(entries)| && old(entries)[i].id == supervision.id ==>
                r == Ok(supervision) && entries == old(entries)[i := supervision]
      ensures (forall i :: 0 <= i < |old(entries)| ==> old(entries)[i].id != supervision.id) ==>
                r == Err(NotFound) && entries == old(entries)
    {
      hide Numbered;
      for i := 0 to |entries|
        invariant entries == old(entries)
        invariant forall j :: 0 <= j < i ==> entries[j].id != supervision.id
      {
        if entries[i].id == supervision.id {
          forall j | 0 <= j < |entries| && entries[j].id == supervision.id ensures j == i {
            NumberedInjective("teamsupervision-", i + 1, j + 1);
          }
          entries := entries[i := supervision];
          return Ok(supervision);
        }
      }
      r := Err(NotFound);
    }

    method ListActiveByTeamID(teamID: string) returns (matches: seq<Supervision>)
      ensures matches == Filter(entries, OpenOn(teamID))
    {
      matches := [];
      for i := 0 to |entries|
        invariant matches == Filter(entries[..i], OpenOn(teamID))
      {
        FilterSnoc(entries[..i], entries[i], OpenOn(teamID));
        assert entries[..i + 1] == entries[..i] + [entries[i]];
        if entries[i].teamID == teamID && entries[i].removedAt.None? {
          matches := matches + [entries[i]];
        }
      }
      assert entries[..|entries|] == entries;
    }

    method ListActiveByUserID(userID: string) returns (matches: seq<Supervision>)
      ensures matches == Filter(entries, OpenFor(userID))
    {
      matches := [];
      for i := 0 to |entries|
        invariant matches == Filter(entries[..i], OpenFor(userID))
      {
        FilterSnoc(entries[..i], entries[i], OpenFor(userID));
        assert entries[..i + 1] == entries[..i] + [entries[i]];
        if entries[i].userID == userID && entries[i].removedAt.None? {
          matches := matches + [entries[i]];
        }
      }
      assert entries[..|entries|] == entries;
    }
  }

  class TeamService {
    const teamStore: MemoryTeamStore
    const membershipStore: MemoryMembershipStore
    const supervisionStore: MemorySupervisionStore

    constructor (teamStore: MemoryTeamStore, membershipStore: MemoryMembershipStore,
                 supervisionStore: MemorySupervisionStore)
      ensures this.teamStore == teamStore && this.membershipStore == membershipStore
      ensures this.supervisionStore == supervisionStore
    {
      this.teamStore := teamStore;
      this.membershipStore := membershipStore;
      this.supervisionStore := supervisionStore;
    }

    ghost predicate Valid()
      reads teamStore, membershipStore, supervisionStore
    {
      teamStore.Valid() && membershipStore.Valid() && supervisionStore.Valid()
    }

    ghost function View(): TeamState
      reads teamStore, membershipStore, supervisionStore
    {
      TeamState(teamStore.teams, membershipStore.entries, supervisionStore.entries)
    }

    method CreateTeam(name: string, now: int) returns (r: Result<Team, TeamError>)
      requires Valid()
      modifies teamStore
      ensures Valid() && (View(), r) == TeamModel.CreateTeam(old(View()), name, now)
    {
      var trimmed := TrimSpace(name);
      if trimmed == "" {
        return Err(InvalidInput);
      }
      var team := teamStore.Create(Team("", trimmed, now));
      r := Ok(team);
    }

    method AddAssignee(teamID: string, userID: string, addedByUserID: string, now: int)
      returns (r: Result<Membership, TeamError>)
      requires Valid()
      modifies membershipStore
      ensures Valid() && (View(), r) == TeamModel.AddAssignee(old(View()), teamID, userID, addedByUserID, now)
    {
      hide Numbered, TrimSpace;
      var team, user, adder := TrimSpace(teamID), TrimSpace(userID), TrimSpace(addedByUserID);
      if team == "" || user == "" || adder == "" {
        return Err(InvalidInput);
      }
      var known := teamStore.GetByID(team);
      if known.Err? {
        return Err(known.error);
      }
      var existing := membershipStore.GetActiveByUserID(user);
      if existing.Some? {
        if existing.value.teamID == team {
          return Ok(existing.value);
        }
        var closed := existing.value.(removedAt := Some(now));
        ghost var i := ActiveIndex(membershipStore.entries, user);
        assert membershipStore.entries[i].id == closed.id;
        var updated := membershipStore.Update(closed);
        match updated {
          case Err(e) => return Err(e);
          case Ok(_) =>
        }
      }
      var row := membershipStore.Create(Membership("", team, user, adder, now, None));
      r := Ok(row);
    }

    method AddSupervisor(teamID: string, userID: string, addedByUserID: string, now: int)
      returns (r: Result<Supervision, TeamError>)
      requires Valid()
      modifies supervisionStore
      ensures Valid() && (View(), r) == TeamModel.AddSupervisor(old(View()), teamID, userID, addedByUserID, now)
    {
      var team, user, adder := TrimSpace(teamID), TrimSpace(userID), TrimSpace(addedByUserID);
      if team == "" || user == "" || adder == "" {
        return Err(InvalidInput);
      }
      var known := teamStore.GetByID(team);
      if known.Err? {
        return Err(known.error);
      }
      var row := supervisionStore.Create(Supervision("", team, user, adder, now, None));
      r := Ok(row);
    }

    /** One pass over the team's open rows closes every one of the pair. */
    method RemoveSupervisor(teamID: string, userID: string, now: int) returns (r: Result<(), TeamError>)
      requires Valid()
      modifies supervisionStore
      ensures Valid() && (View(), r) == TeamModel.RemoveSupervisor(old(View()), teamID, userID, now)
    {
      var team, user := TrimSpace(teamID), TrimSpace(userID);
      ghost var was := supervisionStore.entries;
      var active := supervisionStore.ListActiveByTeamID(team);
      var found := false;
      for k := 0 to |active|
        invariant Valid()
        invariant ClosedSoFar(was, supervisionStore.entries, active[..k], team, user, now)
        invariant found == NamesUser(active[..k], user)
      {
        var supervision := active[k];
        ghost var i := RowOf(was, team, active, k);
        ghost var before := supervisionStore.entries;
        ClosingStep(was, before, active, k, i, team, user, now);
        if supervision.userID == user {
          found := true;
          var updated := supervisionStore.Update(supervision.(removedAt := Some(now)));
          match updated {
            case Err(e) => return Err(e);
            case Ok(_) =>
          }
          assert supervisionStore.entries == before[i := supervision.(removedAt := Some(now))];
        }
      }
      assert active[..|active|] == active;
      ClosesExactlyThePair(was, supervisionStore.entries, active, team, user, now);
      if !found {
        return Err(NotSupervisor);
      }
      r := Ok(());
    }

    method IsActiveSupervisorOf(supervisorUserID: string, assigneeUserID: string) returns (yes: bool)
      ensures yes == TeamModel.IsActiveSupervisorOf(View(), supervisorUserID, assigneeUserID)
    {
      var sup, user := TrimSpace(supervisorUserID), TrimSpace(assigneeUserID);
      if sup == "" || user == "" {
        return false;
      }
      var membership := membershipStore.GetActiveByUserID(user);
      if membership.None? {
        return false;
      }
      var team := membership.value.teamID;
      var supervisions := supervisionStore.ListActiveByTeamID(team);
      for k := 0 to |supervisions|
        invariant forall m :: 0 <= m < k ==> supervisions[m].userID != sup
      {
        if supervisions[k].userID == sup {
          FilterMembers(supervisionStore.entries, OpenOn(team), supervisions[k]);
          ghost var i :| 0 <= i < |supervisionStore.entries| && supervisionStore.entries[i] == supervisions[k];
          assert ActiveSupervisor(supervisionStore.entries[i], team, sup);
          return true;
        }
      }
      forall i | 0 <= i < |supervisionStore.entries| ensures !ActiveSupervisor(supervisionStore.entries[i], team, sup) {
        FilterMembers(supervisionStore.entries, OpenOn(team), supervisionStore.entries[i]);
      }
      yes := false;
    }

    /** The nested scan with its `seen` set, against the deduplicated list. */
    method SupervisedAssigneeUserIDs(supervisorUserID: string) returns (userIDs: seq<string>)
      ensures userIDs == TeamModel.SupervisedAssigneeUserIDs(View(), supervisorUserID)
    {
      var sup := TrimSpace(supervisorUserID);
      if sup == "" {
        return [];
      }
      var supervisions := supervisionStore.ListActiveByUserID(sup);
      userIDs := [];
      var seen: set<string> := {};
      ghost var ms := membershipStore.entries;
      for k := 0 to |supervisions|
        invariant userIDs == Dedup(MembersUnder(supervisions[..k], ms))
        invariant forall u :: u in seen <==> u in userIDs
      {
        var members := membershipStore.ListActiveByTeamID(supervisions[k].teamID);
        ghost var before := MembersUnder(supervisions[..k], ms);
        assert UserIDs(members[..0]) == [];
        assert before + [] == before;
        for j := 0 to |members|
          invariant userIDs == Dedup(before + UserIDs(members[..j]))
          invariant forall u :: u in seen <==> u in userIDs
        {
          ScanStep(before, members, j);
          if members[j].userID in seen {
            continue;
          }
          seen := seen + {members[j].userID};
          userIDs := userIDs + [members[j].userID];
        }
        assert members[..|members|] == members;
        assert supervisions[..k + 1][..k] == supervisions[..k];
      }
      assert supervisions[..|supervisions|] == supervisions;
    }
  }

  /** One more member scanned: appended unless already seen. */
  lemma ScanStep(before: seq<string>, members: seq<Membership>, j: nat)
    requires j < |members|
    ensures var known, u := Dedup(before + UserIDs(members[..j])), members[j].userID;
            Dedup(before + UserIDs(members[..j + 1])) == if u in known then known else known + [u]
  {
    var soFar := before + UserIDs(members[..j]);
    assert before + UserIDs(members[..j + 1]) == soFar + [members[j].userID];
    DedupSnoc(soFar, members[j].userID);
    DedupMeaning(soFar);
  }

  /** The rows already visited are closed, the others untouched. */
  ghost predicate ClosedSoFar(
    was: seq<Supervision>, becomes: seq<Supervision>, visited: seq<Supervision>, team: string, user: string, now: int)
  {
    && |becomes| == |was|
    && forall j :: 0 <= j < |was| ==>
         becomes[j] == if was[j] in visited then Closed(was[j], team, user, now) else was[j]
  }

  ghost predicate NamesUser(vs: seq<Supervision>, user: string) {
    exists m :: 0 <= m < |vs| && vs[m].userID == user
  }

  /** Where an active row sits in the store. */
  lemma RowOf(was: seq<Supervision>, team: string, active: seq<Supervision>, k: nat) returns (i: nat)
    requires active == Filter(was, OpenOn(team)) && k < |active|
    ensures i < |was| && was[i] == active[k] && OpenOn(team)(was[i])
  {
    FilterMembers(was, OpenOn(team), active[k]);
    i :| 0 <= i < |was| && was[i] == active[k];
  }

  lemma ClosingStep(
    was: seq<Supervision>, becomes: seq<Supervision>, active: seq<Supervision>, k: nat, i: nat,
    team: string, user: string, now: int)
    requires k < |active| && i < |was| && was[i] == active[k] && OpenOn(team)(was[i])
    requires forall j :: 0 <= j < |was| ==> was[j].id == SupervisionID(j + 1)
    requires ClosedSoFar(was, becomes, active[..k], team, user, now)
    ensures becomes[i].id == active[k].id
    ensures NamesUser(active[..k + 1], user) <==> NamesUser(active[..k], user) || active[k].userID == user
    ensures active[k].userID == user ==>
              ClosedSoFar(was, becomes[i := active[k].(removedAt := Some(now))], active[..k + 1], team, user, now)
    ensures active[k].userID != user ==> ClosedSoFar(was, becomes, active[..k + 1], team, user, now)
  {
    assert active[..k + 1] == active[..k] + [active[k]];
    forall j | 0 <= j < |was| && was[j] == was[i] ensures j == i {
      NumberedInjective("teamsupervision-", i + 1, j + 1);
    }
    assert active[..k + 1][k] == active[k];
    assert forall m :: 0 <= m < k ==> active[..k + 1][m] == active[..k][m];
  }

  /** After the pass, the list reads as if every row had been closed in one go. */
  lemma ClosesExactlyThePair(
    was: seq<Supervision>, becomes: seq<Supervision>, active: seq<Supervision>, team: string, user: string, now: int)
    requires active == Filter(was, OpenOn(team)) && ClosedSoFar(was, becomes, active, team, user, now)
    ensures becomes == seq(|was|, i requires 0 <= i < |was| => Closed(was[i], team, user, now))
    ensures (exists i :: 0 <= i < |was| && ActiveSupervisor(was[i], team, user)) <==>
            NamesUser(active, user)
    ensures !NamesUser(active, user) ==> becomes == was
  {
    hide Filter;
    forall j | 0 <= j < |was| ensures becomes[j] == Closed(was[j], team, user, now) {
      FilterMembers(was, OpenOn(team), was[j]);
    }
    if i :| 0 <= i < |was| && ActiveSupervisor(was[i], team, user) {
      FilterMembers(was, OpenOn(team), was[i]);
      var m :| 0 <= m < |active| && active[m] == was[i];
      assert active[m].userID == user;
    }
    if m :| 0 <= m < |active| && active[m].userID == user {
      FilterMembers(was, OpenOn(team), active[m]);
      var i :| 0 <= i < |was| && was[i] == active[m];
      assert ActiveSupervisor(was[i], team, user);
    }
  }
}
