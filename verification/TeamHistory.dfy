/** What every run of team commands keeps: membership timelines tile, and the
    two authority queries give the same answer. */
module TeamHistory {
  import opened Wrappers
  import opened Text
  import opened Sequences
  import opened TeamModel

  function OfUser(user: string): Membership -> bool {
    (m: Membership) => m.userID == user
  }

  /** One user's rows in creation order. */
  function Timeline(ms: seq<Membership>, user: string): seq<Membership> {
    Filter(ms, OfUser(user))
  }

  /** Each row ends when the next begins, on a different team, and only the
      last row is open. */
  ghost predicate Tiles(tl: seq<Membership>) {
    && (forall k :: 0 <= k < |tl| - 1 ==>
          tl[k].removedAt == Some(tl[k + 1].addedAt) && tl[k].teamID != tl[k + 1].teamID)
    && (tl != [] ==> tl[|tl| - 1].removedAt.None?)
  }

  ghost predicate RowsNumbered(ts: TeamState) {
    && (forall i :: 0 <= i < |ts.teams| ==> ts.teams[i].id == TeamID(i + 1))
    && (forall i :: 0 <= i < |ts.memberships| ==> ts.memberships[i].id == MembershipID(i + 1))
    && (forall i :: 0 <= i < |ts.supervisions| ==> ts.supervisions[i].id == SupervisionID(i + 1))
  }

  ghost predicate CleanMember(m: Membership, teams: seq<Team>) {
    Trimmed(m.userID) && m.userID != "" && HasTeam(teams, m.teamID)
  }

  ghost predicate CleanSupervision(v: Supervision, teams: seq<Team>) {
    Trimmed(v.userID) && v.userID != "" && HasTeam(teams, v.teamID)
  }

  ghost predicate TeamInv(ts: TeamState) {
    && RowsNumbered(ts)
    && (forall i :: 0 <= i < |ts.memberships| ==> CleanMember(ts.memberships[i], ts.teams))
    && (forall i :: 0 <= i < |ts.supervisions| ==> CleanSupervision(ts.supervisions[i], ts.teams))
    && (forall user :: Tiles(Timeline(ts.memberships, user)))
  }

  // ----- Timelines -----

  lemma EarlierRowsAreClosed(tl: seq<Membership>, k: nat)
    requires Tiles(tl)
    ensures k < |tl| - 1 ==> tl[k].removedAt.Some?
  {
    if k < |tl| - 1 {
      assert tl[k].removedAt == Some(tl[k + 1].addedAt);
    }
  }

  /** An open row of a tiled timeline is its user's last row. */
  lemma OpenRowIsLast(ms: seq<Membership>, i: nat)
    requires i < |ms| && ms[i].removedAt.None? && Tiles(Timeline(ms, ms[i].userID))
    ensures Filter(ms[i + 1..], OfUser(ms[i].userID)) == []
  {
    var p := OfUser(ms[i].userID);
    FilterSplit(ms, i, ms[i], p);
    var before, after := Filter(ms[..i], p), Filter(ms[i + 1..], p);
    var tl := Filter(ms, p);
    assert tl[|before|] == ms[i];
    EarlierRowsAreClosed(tl, |before|);
  }

  /** At most one open row per user. */
  lemma OneOpenRow(ms: seq<Membership>, i: nat, j: nat)
    requires i < |ms| && j < |ms| && ms[i].userID == ms[j].userID
    requires ms[i].removedAt.None? && ms[j].removedAt.None?
    requires Tiles(Timeline(ms, ms[i].userID))
    ensures i == j
  {
    var p := OfUser(ms[i].userID);
    if i < j {
      OpenRowIsLast(ms, i);
      assert ms[j] == ms[i + 1..][j - i - 1];
      FilterMembers(ms[i + 1..], p, ms[j]);
    } else if j < i {
      OpenRowIsLast(ms, j);
      assert ms[i] == ms[j + 1..][i - j - 1];
      FilterMembers(ms[j + 1..], p, ms[i]);
    }
  }

  /** Without an open row, a tiled timeline is empty. */
  lemma NoOpenRow(ms: seq<Membership>, user: string)
    requires Tiles(Timeline(ms, user)) && ActiveIndex(ms, user) == |ms|
    ensures Timeline(ms, user) == []
  {
    var tl := Timeline(ms, user);
    if tl != [] {
      FilterMembers(ms, OfUser(user), tl[|tl| - 1]);
    }
  }

  /** Adding or moving someone extends their timeline by one tile... */
  lemma MoveTiles(ts: TeamState, teamID: string, userID: string, addedBy: string, now: int)
    requires Tiles(Timeline(ts.memberships, TrimSpace(userID)))
    ensures Tiles(Timeline(AddAssignee(ts, teamID, userID, addedBy, now).0.memberships, TrimSpace(userID)))
  {
    hide Numbered, TrimSpace, Filter;
    var ms, ms' := ts.memberships, AddAssignee(ts, teamID, userID, addedBy, now).0.memberships;
    var user := TrimSpace(userID);
    var p := OfUser(user);
    var i := ActiveIndex(ms, user);
    if ms' != ms {
      if i < |ms| {
        var shut := ms[i].(removedAt := Some(now));
        FilterSplit(ms, i, shut, p);
        OpenRowIsLast(ms, i);
        FilterSnoc(ms[i := shut], ms'[|ms|], p);
        var before := Filter(ms[..i], p);
        assert Timeline(ms, user) == before + [ms[i]];
        assert Timeline(ms', user) == before + [shut, ms'[|ms|]];
        TileSnoc(before, ms[i], shut, ms'[|ms|]);
      } else {
        NoOpenRow(ms, user);
        FilterSnoc(ms, ms'[|ms|], p);
        assert Timeline(ms', user) == [ms'[|ms|]];
      }
    }
  }

  lemma TileSnoc(before: seq<Membership>, open: Membership, shut: Membership, next: Membership)
    requires Tiles(before + [open])
    requires shut == open.(removedAt := Some(next.addedAt)) && open.teamID != next.teamID && next.removedAt.None?
    ensures Tiles(before + [shut, next])
  {
    var tiled, longer := before + [open], before + [shut, next];
    forall k | 0 <= k < |longer| - 1
      ensures longer[k].removedAt == Some(longer[k + 1].addedAt) && longer[k].teamID != longer[k + 1].teamID
    {
      if k < |before| {
        assert tiled[k].removedAt == Some(tiled[k + 1].addedAt) && tiled[k].teamID != tiled[k + 1].teamID;
      }
    }
  }

  /** ...and leaves everyone else's alone. */
  lemma MoveKeepsOthers(ts: TeamState, teamID: string, userID: string, addedBy: string, now: int, other: string)
    requires other != TrimSpace(userID)
    ensures Timeline(AddAssignee(ts, teamID, userID, addedBy, now).0.memberships, other)
         == Timeline(ts.memberships, other)
  {
    var ms, ms' := ts.memberships, AddAssignee(ts, teamID, userID, addedBy, now).0.memberships;
    var p := OfUser(other);
    var i := ActiveIndex(ms, TrimSpace(userID));
    if ms' != ms {
      if i < |ms| {
        var shut := ms[i].(removedAt := Some(now));
        FilterSplit(ms, i, shut, p);
        FilterSnoc(ms[i := shut], ms'[|ms|], p);
      } else {
        FilterSnoc(ms, ms'[|ms|], p);
      }
    }
  }

  // ----- The invariant -----

  lemma HasTeamGrows(teams: seq<Team>, team: Team, id: string)
    requires HasTeam(teams, id)
    ensures HasTeam(teams + [team], id)
  {
    var i :| 0 <= i < |teams| && teams[i].id == id;
    assert (teams + [team])[i].id == id;
  }

  lemma CreateTeamKeepsInv(ts: TeamState, name: string, now: int)
    requires TeamInv(ts)
    ensures TeamInv(CreateTeam(ts, name, now).0)
  {
    hide Numbered, TrimSpace;
    var ts' := CreateTeam(ts, name, now).0;
    if ts' != ts {
      var team := ts'.teams[|ts.teams|];
      forall i | 0 <= i < |ts.memberships| ensures CleanMember(ts.memberships[i], ts'.teams) {
        assert CleanMember(ts.memberships[i], ts.teams);
        HasTeamGrows(ts.teams, team, ts.memberships[i].teamID);
      }
      forall i | 0 <= i < |ts.supervisions| ensures CleanSupervision(ts.supervisions[i], ts'.teams) {
        assert CleanSupervision(ts.supervisions[i], ts.teams);
        HasTeamGrows(ts.teams, team, ts.supervisions[i].teamID);
      }
    }
  }

  lemma NewRowIsClean(ts: TeamState, teamID: string, userID: string, addedBy: string, now: int)
    ensures var ms, ms' := ts.memberships, AddAssignee(ts, teamID, userID, addedBy, now).0.memberships;
            |ms'| > |ms| ==> CleanMember(ms'[|ms|], ts.teams)
  {
    TrimIdempotent(userID);
  }

  lemma AddAssigneeEditsInPlace(ts: TeamState, teamID: string, userID: string, addedBy: string, now: int)
    ensures var ms, ms' := ts.memberships, AddAssignee(ts, teamID, userID, addedBy, now).0.memberships;
            && |ms| <= |ms'| <= |ms| + 1
            && (|ms'| > |ms| ==> ms'[|ms|].id == MembershipID(|ms| + 1))
            && forall i :: 0 <= i < |ms| ==> ms'[i] == ms[i] || ms'[i] == ms[i].(removedAt := Some(now))
  {
  }

  lemma AddAssigneeKeepsRows(ts: TeamState, teamID: string, userID: string, addedBy: string, now: int)
    requires TeamInv(ts)
    ensures var ts' := AddAssignee(ts, teamID, userID, addedBy, now).0;
            forall i :: 0 <= i < |ts'.memberships| ==>
              CleanMember(ts'.memberships[i], ts.teams) && ts'.memberships[i].id == MembershipID(i + 1)
  {
    hide Numbered, TrimSpace;
    NewRowIsClean(ts, teamID, userID, addedBy, now);
    AddAssigneeEditsInPlace(ts, teamID, userID, addedBy, now);
    var ms, ms' := ts.memberships, AddAssignee(ts, teamID, userID, addedBy, now).0.memberships;
    forall i | 0 <= i < |ms'|
      ensures CleanMember(ms'[i], ts.teams) && ms'[i].id == MembershipID(i + 1)
    {
      if i < |ms| {
        assert CleanMember(ms[i], ts.teams);
        assert ms[i].id == MembershipID(i + 1);
      }
    }
  }

  lemma AddAssigneeKeepsInv(ts: TeamState, teamID: string, userID: string, addedBy: string, now: int)
    requires TeamInv(ts)
    ensures TeamInv(AddAssignee(ts, teamID, userID, addedBy, now).0)
  {
    hide Numbered, TrimSpace;
    var ts' := AddAssignee(ts, teamID, userID, addedBy, now).0;
    AddAssigneeKeepsRows(ts, teamID, userID, addedBy, now);
    assert ts'.teams == ts.teams && ts'.supervisions == ts.supervisions;
    forall user: string ensures Tiles(Timeline(ts'.memberships, user)) {
      if user == TrimSpace(userID) {
        MoveTiles(ts, teamID, userID, addedBy, now);
      } else {
        MoveKeepsOthers(ts, teamID, userID, addedBy, now, user);
      }
    }
  }

  lemma SupervisionsKeepInv(ts: TeamState, teamID: string, userID: string, addedBy: string, now: int)
    requires TeamInv(ts)
    ensures TeamInv(AddSupervisor(ts, teamID, userID, addedBy, now).0)
    ensures TeamInv(RemoveSupervisor(ts, teamID, userID, now).0)
  {
    hide Numbered, TrimSpace;
    TrimIdempotent(userID);
    var ts' := RemoveSupervisor(ts, teamID, userID, now).0;
    forall i | 0 <= i < |ts'.supervisions|
      ensures CleanSupervision(ts'.supervisions[i], ts.teams) && ts'.supervisions[i].id == SupervisionID(i + 1)
    {
      assert CleanSupervision(ts.supervisions[i], ts.teams);
    }
  }

  lemma ApplyKeepsInv(ts: TeamState, c: TeamCommand)
    requires TeamInv(ts)
    ensures TeamInv(Apply(ts, c))
  {
    match c
    case NewTeam(name, at) => CreateTeamKeepsInv(ts, name, at);
    case NewAssignee(team, user, adder, at) => AddAssigneeKeepsInv(ts, team, user, adder, at);
    case NewSupervisor(team, user, adder, at) => SupervisionsKeepInv(ts, team, user, adder, at);
    case DropSupervisor(team, user, at) => SupervisionsKeepInv(ts, team, user, "", at);
  }

  /** In every run, whatever the commands and clock readings. */
  lemma {:induction false} RunKeepsInv(cs: seq<TeamCommand>)
    ensures TeamInv(RunTeams(NO_TEAMS, cs))
  {
    if cs != [] {
      RunKeepsInv(cs[..|cs| - 1]);
      ApplyKeepsInv(RunTeams(NO_TEAMS, cs[..|cs| - 1]), cs[|cs| - 1]);
    }
  }

  // ----- Exactly one team at every instant -----

  predicate Covers(m: Membership, t: int) {
    m.addedAt <= t && (m.removedAt.Some? ==> t < m.removedAt.value)
  }

  ghost predicate ClockForward(cs: seq<TeamCommand>) {
    forall i, j :: 0 <= i < j < |cs| ==> cs[i].at <= cs[j].at
  }

  function AddedAt(m: Membership): int { m.addedAt }

  /** A command keeps every row's start and appends at most one, stamped with its own time. */
  lemma StartsAreKept(ts: TeamState, c: TeamCommand)
    ensures var ms, ms' := ts.memberships, Apply(ts, c).memberships;
            && |ms| <= |ms'| <= |ms| + 1
            && (forall i :: 0 <= i < |ms| ==> ms'[i].addedAt == ms[i].addedAt)
            && (|ms'| > |ms| ==> ms'[|ms|].addedAt == c.at)
  {
  }

  ghost predicate StartOrder(ms: seq<Membership>) {
    forall i, j :: 0 <= i < j < |ms| ==> ms[i].addedAt <= ms[j].addedAt
  }

  ghost predicate StartedBy(ms: seq<Membership>, t: int) {
    forall i :: 0 <= i < |ms| ==> ms[i].addedAt <= t
  }

  /** With a clock that never runs backwards, rows are created in time order. */
  lemma {:induction false} RowsInTimeOrder(cs: seq<TeamCommand>)
    requires ClockForward(cs)
    ensures StartOrder(RunTeams(NO_TEAMS, cs).memberships)
    ensures forall t :: (forall c :: c in cs ==> c.at <= t) ==> StartedBy(RunTeams(NO_TEAMS, cs).memberships, t)
  {
    if cs != [] {
      var init, last := cs[..|cs| - 1], cs[|cs| - 1];
      RowsInTimeOrder(init);
      StartsAreKept(RunTeams(NO_TEAMS, init), last);
      var ms, ms' := RunTeams(NO_TEAMS, init).memberships, RunTeams(NO_TEAMS, cs).memberships;
      assert forall c :: c in init ==> exists i :: 0 <= i < |init| && cs[i] == c;
      assert StartedBy(ms, last.at);
    }
  }

  /** A user who was ever added is on exactly one team at every later instant. */
  lemma ExactlyOneTeam(cs: seq<TeamCommand>, user: string, t: int) returns (k: nat)
    requires ClockForward(cs)
    requires Timeline(RunTeams(NO_TEAMS, cs).memberships, user) != []
    requires Timeline(RunTeams(NO_TEAMS, cs).memberships, user)[0].addedAt <= t
    ensures var tl := Timeline(RunTeams(NO_TEAMS, cs).memberships, user);
            k < |tl| && forall j :: 0 <= j < |tl| ==> (Covers(tl[j], t) <==> j == k)
  {
    hide Numbered, TrimSpace;
    RunKeepsInv(cs);
    RowsInTimeOrder(cs);
    var ms := RunTeams(NO_TEAMS, cs).memberships;
    var tl := Timeline(ms, user);
    FilterKeepsSorted(ms, OfUser(user), AddedAt);
    assert forall i, j :: 0 <= i < j < |tl| ==> AddedAt(tl[i]) <= AddedAt(tl[j]);
    k := |tl| - 1;
    while tl[k].addedAt > t
      invariant k < |tl|
      invariant forall j :: k < j < |tl| ==> tl[j].addedAt > t
      decreases k
    {
      k := k - 1;
    }
    forall j | 0 <= j < |tl| ensures Covers(tl[j], t) <==> j == k {
      if j < k {
        assert tl[j].removedAt == Some(tl[j + 1].addedAt);
        assert AddedAt(tl[j + 1]) <= AddedAt(tl[k]);
      } else if j == k && k < |tl| - 1 {
        assert tl[k].removedAt == Some(tl[k + 1].addedAt);
      }
    }
  }

  // ----- The two authority queries -----

  lemma {:induction false} MembersUnderMeaning(vs: seq<Supervision>, ms: seq<Membership>, user: string)
    ensures user in MembersUnder(vs, ms) <==>
            exists i, j :: 0 <= i < |vs| && 0 <= j < |ms| && MembersOn(vs[i].teamID)(ms[j]) && ms[j].userID == user
  {
    hide Filter, TrimSpace;
    if vs != [] {
      var init, last := vs[..|vs| - 1], vs[|vs| - 1];
      MembersUnderMeaning(init, ms, user);
      var on := Filter(ms, MembersOn(last.teamID));
      if user in UserIDs(on) {
        var k :| 0 <= k < |on| && on[k].userID == user;
        FilterMembers(ms, MembersOn(last.teamID), on[k]);
        var j :| 0 <= j < |ms| && ms[j] == on[k];
        assert MembersOn(vs[|vs| - 1].teamID)(ms[j]);
      }
      if user in MembersUnder(init, ms) {
        var i, j :| 0 <= i < |init| && 0 <= j < |ms| && MembersOn(init[i].teamID)(ms[j]) && ms[j].userID == user;
        assert MembersOn(vs[i].teamID)(ms[j]);
      }
      if i, j :| 0 <= i < |vs| && 0 <= j < |ms| && MembersOn(vs[i].teamID)(ms[j]) && ms[j].userID == user {
        if i < |init| {
          assert MembersOn(init[i].teamID)(ms[j]);
        } else {
          FilterMembers(ms, MembersOn(last.teamID), ms[j]);
          var k :| 0 <= k < |on| && on[k] == ms[j];
          assert UserIDs(on)[k] == user;
        }
      }
    }
  }

  /** What the per-supervisor list holds, spelled out over the rows. */
  ghost predicate OnSomeTeamOf(ts: TeamState, sup: string, user: string) {
    exists i, j :: 0 <= i < |ts.supervisions| && 0 <= j < |ts.memberships|
      && OpenFor(sup)(ts.supervisions[i])
      && MembersOn(ts.supervisions[i].teamID)(ts.memberships[j]) && ts.memberships[j].userID == user
  }

  lemma SupervisedMeaning(ts: TeamState, supervisor: string, user: string)
    requires !Blank(supervisor)
    ensures user in SupervisedAssigneeUserIDs(ts, supervisor) <==> OnSomeTeamOf(ts, TrimSpace(supervisor), user)
  {
    hide Numbered, TrimSpace, Filter, Dedup, MembersUnder;
    var sup, ms := TrimSpace(supervisor), ts.memberships;
    var mine := Filter(ts.supervisions, OpenFor(sup));
    DedupMeaning(MembersUnder(mine, ms));
    MembersUnderMeaning(mine, ms, user);
    if i, j :| 0 <= i < |mine| && 0 <= j < |ms| && MembersOn(mine[i].teamID)(ms[j]) && ms[j].userID == user {
      FilterMembers(ts.supervisions, OpenFor(sup), mine[i]);
      var v :| 0 <= v < |ts.supervisions| && ts.supervisions[v] == mine[i];
      assert MembersOn(ts.supervisions[v].teamID)(ms[j]);
    }
    if OnSomeTeamOf(ts, sup, user) {
      var v, j :| 0 <= v < |ts.supervisions| && 0 <= j < |ms| && OpenFor(sup)(ts.supervisions[v])
                  && MembersOn(ts.supervisions[v].teamID)(ms[j]) && ms[j].userID == user;
      FilterMembers(ts.supervisions, OpenFor(sup), ts.supervisions[v]);
      var i :| 0 <= i < |mine| && mine[i] == ts.supervisions[v];
      assert MembersOn(mine[i].teamID)(ms[j]);
    }
  }

  lemma AuthorityMeaning(ts: TeamState, supervisor: string, user: string)
    requires TeamInv(ts) && !Blank(supervisor)
    ensures IsActiveSupervisorOf(ts, supervisor, user) <==> OnSomeTeamOf(ts, TrimSpace(supervisor), TrimSpace(user))
  {
    hide Filter, TrimSpace, Numbered;
    var sup, u, ms := TrimSpace(supervisor), TrimSpace(user), ts.memberships;
    if IsActiveSupervisorOf(ts, supervisor, user) {
      var j := ActiveIndex(ms, u);
      var v :| 0 <= v < |ts.supervisions| && ActiveSupervisor(ts.supervisions[v], ms[j].teamID, sup);
      assert OpenFor(sup)(ts.supervisions[v]) && MembersOn(ts.supervisions[v].teamID)(ms[j]);
    }
    if OnSomeTeamOf(ts, sup, u) {
      var v, j :| 0 <= v < |ts.supervisions| && 0 <= j < |ms| && OpenFor(sup)(ts.supervisions[v])
                  && MembersOn(ts.supervisions[v].teamID)(ms[j]) && ms[j].userID == u;
      assert CleanMember(ms[j], ts.teams);
      assert ActiveMember(ms[j], u);
      OneOpenRow(ms, ActiveIndex(ms, u), j);
      assert ActiveSupervisor(ts.supervisions[v], ms[j].teamID, sup);
    }
  }

  /** In every state the invariant admits the list holds exactly the (trimmed)
      users the per-assignee check says yes to, each once. */
  lemma QueriesAgree(ts: TeamState, supervisor: string, user: string)
    requires TeamInv(ts)
    ensures IsActiveSupervisorOf(ts, supervisor, user) <==> TrimSpace(user) in SupervisedAssigneeUserIDs(ts, supervisor)
    ensures NoDuplicates(SupervisedAssigneeUserIDs(ts, supervisor))
  {
    if !Blank(supervisor) {
      AuthorityMeaning(ts, supervisor, user);
      SupervisedMeaning(ts, supervisor, TrimSpace(user));
      DedupMeaning(MembersUnder(Filter(ts.supervisions, OpenFor(TrimSpace(supervisor))), ts.memberships));
    }
  }

  /** In every run of team commands. */
  lemma QueriesAgreeInEveryRun(cs: seq<TeamCommand>, supervisor: string, user: string)
    ensures var ts := RunTeams(NO_TEAMS, cs);
            && (IsActiveSupervisorOf(ts, supervisor, user) <==>
                  TrimSpace(user) in SupervisedAssigneeUserIDs(ts, supervisor))
            && NoDuplicates(SupervisedAssigneeUserIDs(ts, supervisor))
  {
    RunKeepsInv(cs);
    QueriesAgree(RunTeams(NO_TEAMS, cs), supervisor, user);
  }

  // ----- What the commands do to authority -----

  /** Stepping down ends every open row of that pair and no other pair's authority. */
  lemma RemoveSupervisorEndsOnlyThatAuthority(
    ts: TeamState, teamID: string, userID: string, now: int, supervisor: string, assignee: string)
    ensures var ts' := RemoveSupervisor(ts, teamID, userID, now).0;
            IsActiveSupervisorOf(ts', supervisor, assignee) <==>
              && IsActiveSupervisorOf(ts, supervisor, assignee)
              && !(TrimSpace(supervisor) == TrimSpace(userID)
                   && TeamOf(ts.memberships, TrimSpace(assignee)) == Some(TrimSpace(teamID)))
  {
    var ts' := RemoveSupervisor(ts, teamID, userID, now).0;
    var sup := TrimSpace(supervisor);
    var i := ActiveIndex(ts.memberships, TrimSpace(assignee));
    if i < |ts.memberships| {
      var team := ts.memberships[i].teamID;
      assert |ts'.supervisions| == |ts.supervisions|;
      if v :| 0 <= v < |ts.supervisions| && ActiveSupervisor(ts.supervisions[v], team, sup) {
        if team != TrimSpace(teamID) || sup != TrimSpace(userID) {
          assert ActiveSupervisor(ts'.supervisions[v], team, sup);
        }
      }
      if v :| 0 <= v < |ts'.supervisions| && ActiveSupervisor(ts'.supervisions[v], team, sup) {
        assert ActiveSupervisor(ts.supervisions[v], team, sup);
      }
    }
  }

  /** A successful move puts the user under the new team's supervisors, and
      under nobody else; everyone else's authority is as before. */
  lemma AddAssigneeMovesAuthority(
    ts: TeamState, teamID: string, userID: string, addedBy: string, now: int, supervisor: string, assignee: string)
    requires TeamInv(ts) && AddAssignee(ts, teamID, userID, addedBy, now).1.Ok?
    ensures var ts' := AddAssignee(ts, teamID, userID, addedBy, now).0;
            IsActiveSupervisorOf(ts', supervisor, assignee) <==>
              if TrimSpace(assignee) == TrimSpace(userID)
              then !Blank(supervisor) && Supervises(ts.supervisions, TrimSpace(teamID), TrimSpace(supervisor))
              else IsActiveSupervisorOf(ts, supervisor, assignee)
  {
    hide Numbered, TrimSpace;
    var ts' := AddAssignee(ts, teamID, userID, addedBy, now).0;
    var ms, ms', a := ts.memberships, ts'.memberships, TrimSpace(assignee);
    if a == TrimSpace(userID) {
      if ms' != ms {
        AddAssigneeKeepsInv(ts, teamID, userID, addedBy, now);
        assert ActiveMember(ms'[|ms|], a);
        OneOpenRow(ms', ActiveIndex(ms', a), |ms|);
      }
    } else {
      assert forall j :: 0 <= j < |ms| ==> (ActiveMember(ms[j], a) <==> ActiveMember(ms'[j], a));
      assert forall j :: |ms| <= j < |ms'| ==> !ActiveMember(ms'[j], a);
      var i, i' := ActiveIndex(ms, a), ActiveIndex(ms', a);
      assert i < |ms| ==> i' == i && ms'[i] == ms[i];
      assert i == |ms| ==> i' == |ms'|;
    }
  }

  /** A new supervisor gains authority over the team's present members, and nobody
      else's authority changes. */
  lemma AddSupervisorGrantsExactly(
    ts: TeamState, teamID: string, userID: string, addedBy: string, now: int, supervisor: string, assignee: string)
    requires AddSupervisor(ts, teamID, userID, addedBy, now).1.Ok?
    ensures var ts' := AddSupervisor(ts, teamID, userID, addedBy, now).0;
            IsActiveSupervisorOf(ts', supervisor, assignee) <==>
              || IsActiveSupervisorOf(ts, supervisor, assignee)
              || (&& TrimSpace(supervisor) == TrimSpace(userID) && !Blank(assignee)
                  && TeamOf(ts.memberships, TrimSpace(assignee)) == Some(TrimSpace(teamID)))
  {
    hide TrimSpace, Numbered;
    var ts' := AddSupervisor(ts, teamID, userID, addedBy, now).0;
    var (vs, vs') := (ts.supervisions, ts'.supervisions);
    assert vs'[..|vs|] == vs && |vs'| == |vs| + 1;
    var i := ActiveIndex(ts.memberships, TrimSpace(assignee));
    if i < |ts.memberships| {
      var (team, sup) := (ts.memberships[i].teamID, TrimSpace(supervisor));
      assert Supervises(vs', team, sup) <==> Supervises(vs, team, sup) || ActiveSupervisor(vs'[|vs|], team, sup) by {
        if v :| 0 <= v < |vs| && ActiveSupervisor(vs[v], team, sup) {
          assert ActiveSupervisor(vs'[v], team, sup);
        }
        if v :| 0 <= v < |vs'| && ActiveSupervisor(vs'[v], team, sup) {
          assert v == |vs| || ActiveSupervisor(vs[v], team, sup);
        }
      }
    }
  }

  // ----- What the commands accept -----

  /** A refused command changes nothing; a team can be made from any name that is
      not blank, and members and supervisors can join any team there is. */
  lemma CommandsAcceptedIff(ts: TeamState, teamID: string, userID: string, addedBy: string, name: string, now: int)
    ensures CreateTeam(ts, name, now).1.Ok? <==> !Blank(name)
    ensures AddAssignee(ts, teamID, userID, addedBy, now).1.Ok? <==>
              !Blank(userID) && !Blank(addedBy) && !Blank(teamID) && HasTeam(ts.teams, TrimSpace(teamID))
    ensures AddSupervisor(ts, teamID, userID, addedBy, now).1.Ok? <==>
              !Blank(userID) && !Blank(addedBy) && !Blank(teamID) && HasTeam(ts.teams, TrimSpace(teamID))
    ensures RemoveSupervisor(ts, teamID, userID, now).1.Ok? <==>
              Supervises(ts.supervisions, TrimSpace(teamID), TrimSpace(userID))
    ensures AddAssignee(ts, teamID, userID, addedBy, now).1 == Err(NotFound) <==>
              !Blank(userID) && !Blank(addedBy) && !Blank(teamID) && !HasTeam(ts.teams, TrimSpace(teamID))
    ensures CreateTeam(ts, name, now).1.Err? ==> CreateTeam(ts, name, now).0 == ts
    ensures AddAssignee(ts, teamID, userID, addedBy, now).1.Err? ==>
              AddAssignee(ts, teamID, userID, addedBy, now).0 == ts
    ensures AddSupervisor(ts, teamID, userID, addedBy, now).1.Err? ==>
              AddSupervisor(ts, teamID, userID, addedBy, now).0 == ts
    ensures RemoveSupervisor(ts, teamID, userID, now).1.Err? ==> RemoveSupervisor(ts, teamID, userID, now).0 == ts
  {
    hide TrimSpace, Numbered;
  }

  /** A team just created is there, under its own name. */
  lemma CreatedTeamIsThere(ts: TeamState, name: string, now: int)
    requires !Blank(name)
    ensures var (ts', r) := CreateTeam(ts, name, now);
            && r.Ok? && HasTeam(ts'.teams, r.value.id) && r.value.name == TrimSpace(name) && r.value.createdAt == now
            && forall id :: HasTeam(ts.teams, id) ==> HasTeam(ts'.teams, id)
  {
    hide TrimSpace, Numbered;
    var (ts', r) := CreateTeam(ts, name, now);
    assert ts'.teams[|ts.teams|] == r.value;
    forall id | HasTeam(ts.teams, id) ensures HasTeam(ts'.teams, id) {
      HasTeamGrows(ts.teams, r.value, id);
    }
  }

  /** The whole way: a user put on a team and a supervisor put in charge of it, in
      this order, from any state, and the supervisor is active over the user. */
  lemma JoiningGivesAuthority(
    ts: TeamState, team: string, user: string, supervisor: string, addedBy: string, t1: int, t2: int)
    requires TeamInv(ts) && HasTeam(ts.teams, TrimSpace(team))
    requires !Blank(team) && !Blank(user) && !Blank(supervisor) && !Blank(addedBy)
    ensures var ts1 := AddAssignee(ts, team, user, addedBy, t1).0;
            var ts2 := AddSupervisor(ts1, team, supervisor, addedBy, t2).0;
            IsActiveSupervisorOf(ts2, supervisor, user)
            && TrimSpace(user) in SupervisedAssigneeUserIDs(ts2, supervisor)
  {
    hide TrimSpace, Numbered, Tiles;
    var ts1 := AddAssignee(ts, team, user, addedBy, t1).0;
    CommandsAcceptedIff(ts, team, user, addedBy, "", t1);
    CommandsAcceptedIff(ts1, team, supervisor, addedBy, "", t2);
    AddAssigneeKeepsInv(ts, team, user, addedBy, t1);
    JoinedTeam(ts, team, user, addedBy, t1);
    AddSupervisorGrantsExactly(ts1, team, supervisor, addedBy, t2, supervisor, user);
    SupervisionsKeepInv(ts1, team, supervisor, addedBy, t2);
    QueriesAgree(AddSupervisor(ts1, team, supervisor, addedBy, t2).0, supervisor, user);
  }

  lemma JoinedTeam(ts: TeamState, team: string, user: string, addedBy: string, now: int)
    requires TeamInv(ts) && AddAssignee(ts, team, user, addedBy, now).1.Ok?
    ensures TeamOf(AddAssignee(ts, team, user, addedBy, now).0.memberships, TrimSpace(user)) == Some(TrimSpace(team))
    ensures AddAssignee(ts, team, user, addedBy, now).0.teams == ts.teams
  {
    var ts' := AddAssignee(ts, team, user, addedBy, now).0;
    var (ms, ms', u) := (ts.memberships, ts'.memberships, TrimSpace(user));
    AddAssigneeKeepsInv(ts, team, user, addedBy, now);
    hide TrimSpace, Numbered, Tiles;
    if ms' != ms {
      assert ActiveMember(ms'[|ms|], u);
      OneOpenRow(ms', ActiveIndex(ms', u), |ms|);
    }
  }

  /** Stepping down stamps the pair's open rows with the time of the call and
      touches no other row. */
  lemma SteppingDownStampsRows(ts: TeamState, teamID: string, userID: string, now: int, i: nat)
    requires i < |ts.supervisions|
    ensures var vs' := RemoveSupervisor(ts, teamID, userID, now).0.supervisions;
            var (v, team, user) := (ts.supervisions[i], TrimSpace(teamID), TrimSpace(userID));
            && |vs'| == |ts.supervisions| && vs'[i].(removedAt := None) == v.(removedAt := None)
            && vs'[i].removedAt ==
                 if v.teamID == team && v.userID == user && v.removedAt.None? then Some(now) else v.removedAt
  {
    hide TrimSpace;
    if ActiveSupervisor(ts.supervisions[i], TrimSpace(teamID), TrimSpace(userID)) {
      assert Supervises(ts.supervisions, TrimSpace(teamID), TrimSpace(userID));
    }
  }

  /** New rows say who joined what, when, and by whose hand; joining the team one is
      on already makes none. */
  lemma JoiningRowsSay(ts: TeamState, teamID: string, userID: string, addedBy: string, now: int)
    ensures var (ts', r) := AddAssignee(ts, teamID, userID, addedBy, now);
            var moved := TeamOf(ts.memberships, TrimSpace(userID)) != Some(TrimSpace(teamID));
            r.Ok? ==>
              && r.value.teamID == TrimSpace(teamID) && r.value.userID == TrimSpace(userID) && r.value.removedAt.None?
              && (if moved then
                    && ts'.memberships != [] && ts'.memberships[|ts'.memberships| - 1] == r.value
                    && r.value.addedByUserID == TrimSpace(addedBy) && r.value.addedAt == now
                  else ts' == ts && r.value in ts.memberships)
    ensures var (ts', r) := AddSupervisor(ts, teamID, userID, addedBy, now);
            r.Ok? ==>
              && ts'.supervisions == ts.supervisions + [r.value] && ts'.memberships == ts.memberships
              && r.value.teamID == TrimSpace(teamID) && r.value.userID == TrimSpace(userID)
              && r.value.addedByUserID == TrimSpace(addedBy) && r.value.addedAt == now && r.value.removedAt.None?
  {
    hide TrimSpace, Numbered;
  }
}
