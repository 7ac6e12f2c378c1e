/** Team authority as values: teams, and the membership and supervision rows
    that are closed (never deleted) when someone moves or steps down. */
module TeamModel {
  import opened Wrappers
  import opened Text
  import opened Sequences

  datatype TeamError = InvalidInput | NotFound | NotSupervisor

  datatype Team = Team(id: string, name: string, createdAt: int)

  datatype Membership = Membership(
    id: string, teamID: string, userID: string, addedByUserID: string,
    addedAt: int, removedAt: Option<int>)

  datatype Supervision = Supervision(
    id: string, teamID: string, userID: string, addedByUserID: string,
    addedAt: int, removedAt: Option<int>)

  datatype TeamState = TeamState(
    teams: seq<Team>, memberships: seq<Membership>, supervisions: seq<Supervision>)

  const NO_TEAMS := TeamState([], [], [])

  function TeamID(n: nat): string { Numbered("team-", n) }

  function MembershipID(n: nat): string { Numbered("teammembership-", n) }

  function SupervisionID(n: nat): string { Numbered("teamsupervision-", n) }

  predicate HasTeam(teams: seq<Team>, id: string) {
    exists i :: 0 <= i < |teams| && teams[i].id == id
  }

  predicate ActiveMember(m: Membership, user: string) {
    m.userID == user && m.removedAt.None?
  }

  predicate ActiveSupervisor(v: Supervision, team: string, user: string) {
    v.teamID == team && v.userID == user && v.removedAt.None?
  }

  /** The first open membership of a user, or the list's length if there is none. */
  function ActiveIndex(ms: seq<Membership>, user: string): (i: nat)
    ensures i <= |ms|
    ensures i < |ms| ==> ActiveMember(ms[i], user)
    ensures forall j :: 0 <= j < i ==> !ActiveMember(ms[j], user)
  {
    FirstIndex(ms, (m: Membership) => ActiveMember(m, user))
  }

  /** The team a user is on now. */
  function TeamOf(ms: seq<Membership>, user: string): Option<string> {
    var i := ActiveIndex(ms, user);
    if i < |ms| then Some(ms[i].teamID) else None
  }

  // ----- Commands -----

  function CreateTeam(ts: TeamState, name: string, now: int): (TeamState, Result<Team, TeamError>) {
    if Blank(name) then (ts, Err(InvalidInput))
    else
      var team := Team(TeamID(|ts.teams| + 1), TrimSpace(name), now);
      (ts.(teams := ts.teams + [team]), Ok(team))
  }

  /** Puts a user on a team, closing the membership they move away from. */
  function AddAssignee(ts: TeamState, teamID: string, userID: string, addedBy: string, now: int)
    : (TeamState, Result<Membership, TeamError>)
  {
    var team, user := TrimSpace(teamID), TrimSpace(userID);
    if team == "" || user == "" || Blank(addedBy) then (ts, Err(InvalidInput))
    else if !HasTeam(ts.teams, team) then (ts, Err(NotFound))
    else
      var ms := ts.memberships;
      var i := ActiveIndex(ms, user);
      if i < |ms| && ms[i].teamID == team then (ts, Ok(ms[i]))
      else
        var closed := if i < |ms| then ms[i := ms[i].(removedAt := Some(now))] else ms;
        var row := Membership(MembershipID(|ms| + 1), team, user, TrimSpace(addedBy), now, None);
        (ts.(memberships := closed + [row]), Ok(row))
  }

  function AddSupervisor(ts: TeamState, teamID: string, userID: string, addedBy: string, now: int)
    : (TeamState, Result<Supervision, TeamError>)
  {
    var team, user := TrimSpace(teamID), TrimSpace(userID);
    if team == "" || user == "" || Blank(addedBy) then (ts, Err(InvalidInput))
    else if !HasTeam(ts.teams, team) then (ts, Err(NotFound))
    else
      var row := Supervision(SupervisionID(|ts.supervisions| + 1), team, user, TrimSpace(addedBy), now, None);
      (ts.(supervisions := ts.supervisions + [row]), Ok(row))
  }

  function Closed(v: Supervision, team: string, user: string, now: int): Supervision {
    if ActiveSupervisor(v, team, user) then v.(removedAt := Some(now)) else v
  }

  function RemoveSupervisor(ts: TeamState, teamID: string, userID: string, now: int)
    : (TeamState, Result<(), TeamError>)
  {
    var team, user := TrimSpace(teamID), TrimSpace(userID);
    var vs := ts.supervisions;
    if exists i :: 0 <= i < |vs| && ActiveSupervisor(vs[i], team, user) then
      (ts.(supervisions := seq(|vs|, i requires 0 <= i < |vs| => Closed(vs[i], team, user, now))), Ok(()))
    else (ts, Err(NotSupervisor))
  }

  // ----- Queries -----

  /** Some open supervision row puts this user in charge of this team. */
  predicate Supervises(vs: seq<Supervision>, team: string, user: string) {
    exists i :: 0 <= i < |vs| && ActiveSupervisor(vs[i], team, user)
  }

  /** The per-assignee question: does the supervisor run the assignee's current team? */
  predicate IsActiveSupervisorOf(ts: TeamState, supervisor: string, assignee: string) {
    var sup, user := TrimSpace(supervisor), TrimSpace(assignee);
    && sup != "" && user != ""
    && var i := ActiveIndex(ts.memberships, user);
       i < |ts.memberships| && Supervises(ts.supervisions, ts.memberships[i].teamID, sup)
  }

  function OpenFor(user: string): Supervision -> bool {
    (v: Supervision) => v.userID == user && v.removedAt.None?
  }

  function OpenOn(team: string): Supervision -> bool {
    (v: Supervision) => v.teamID == team && v.removedAt.None?
  }

  function MembersOn(team: string): Membership -> bool {
    (m: Membership) => m.teamID == team && m.removedAt.None?
  }

  function UserIDs(ms: seq<Membership>): seq<string> {
    seq(|ms|, i requires 0 <= i < |ms| => ms[i].userID)
  }

  /** The members of every listed supervision's team, in scan order, with repeats. */
  function MembersUnder(vs: seq<Supervision>, ms: seq<Membership>): seq<string> {
    if vs == [] then []
    else MembersUnder(vs[..|vs| - 1], ms) + UserIDs(Filter(ms, MembersOn(vs[|vs| - 1].teamID)))
  }

  /** The per-supervisor question: everyone on any team the supervisor runs. */
  function SupervisedAssigneeUserIDs(ts: TeamState, supervisor: string): seq<string> {
    var sup := TrimSpace(supervisor);
    if sup == "" then [] else Dedup(MembersUnder(Filter(ts.supervisions, OpenFor(sup)), ts.memberships))
  }

  // ----- Runs -----

  datatype TeamCommand =
    | NewTeam(name: string, at: int)
    | NewAssignee(team: string, user: string, addedBy: string, at: int)
    | NewSupervisor(team: string, user: string, addedBy: string, at: int)
    | DropSupervisor(team: string, user: string, at: int)

  function Apply(ts: TeamState, c: TeamCommand): TeamState {
    match c
    case NewTeam(name, at) => CreateTeam(ts, name, at).0
    case NewAssignee(team, user, adder, at) => AddAssignee(ts, team, user, adder, at).0
    case NewSupervisor(team, user, adder, at) => AddSupervisor(ts, team, user, adder, at).0
    case DropSupervisor(team, user, at) => RemoveSupervisor(ts, team, user, at).0
  }

  function RunTeams(ts: TeamState, cs: seq<TeamCommand>): TeamState {
    if cs == [] then ts else Apply(RunTeams(ts, cs[..|cs| - 1]), cs[|cs| - 1])
  }
}
