/** The team request handlers: list, get, create, update, delete, assign and unassign. */
module TeamController {
  import opened Wrappers
  import opened Js
  import opened Seqs
  import opened Schema
  import opened Models
  import opened Http

  /** A team as listTeams returns it: the row, its member count and its members. */
  datatype TeamListing = TeamListing(team: Team, employeeCount: int, employees: seq<Employee>)

  /** A team as getTeam returns it: the row and its members. */
  datatype TeamDetails = TeamDetails(team: Team, employees: seq<Employee>)

  /** One entry of assignEmployee's `results`. */
  datatype AssignResult = AssignResult(employeeId: Option<int>, success: bool, message: Option<string>)

  /** `${first_name} ${last_name}`: a NULL column prints as "null". */
  function FullName(e: Employee): string {
    e.firstName.GetOr("null") + " " + e.lastName.GetOr("null")
  }

  /** listTeams: every team of the caller's organisation, each with its members and their count. */
  function ListTeams(store: Store, caller: Identity): (r: seq<TeamListing>)
    reads store
    ensures |r| == |FindTeams(store.teams, caller.orgId)|
    ensures forall i :: 0 <= i < |r| ==>
      && r[i].team == FindTeams(store.teams, caller.orgId)[i]
      && (forall e :: e in r[i].employees <==>
            e in store.employees && e.organisationId == caller.orgId && (e.id, r[i].team.id) in Pairs(store.memberships))
      && r[i].employeeCount == |r[i].employees|
  {
    var ts := FindTeams(store.teams, caller.orgId);
    var es := store.employees;
    var ms := store.memberships;
    seq(|ts|, i requires 0 <= i < |ts| =>
      var members := TeamMembers(es, ms, ts[i].id, caller.orgId);
      TeamListing(ts[i], |members|, members))
  }

  /** getTeam: 404 unless the team is in the caller's organisation; otherwise the team and its members. */
  function GetTeam(store: Store, caller: Identity, id: int): (r: Reply<TeamDetails>)
    reads store
    ensures r.status == 404 <==> FindTeam(store.teams, id, caller.orgId).None?
    ensures r.status == 404 ==> r == Reply(404, "Team not found", None)
    ensures r.status != 404 ==>
      && r.status == 200 && r.data.Some?
      && r.data.value.team in store.teams
      && r.data.value.team.id == id && r.data.value.team.organisationId == caller.orgId
      && forall e :: e in r.data.value.employees <==>
           e in store.employees && e.organisationId == caller.orgId && (e.id, id) in Pairs(store.memberships)
  {
    match FindTeam(store.teams, id, caller.orgId)
    case None => Reply(404, "Team not found", None)
    case Some(team) => Reply(200, "", Some(TeamDetails(team, TeamMembers(store.employees, store.memberships, id, caller.orgId))))
  }

  /** createTeam. */
  method CreateTeam(store: Store, caller: Identity, name: JsValue, description: JsValue) returns (reply: Reply<Team>)
    requires store.Valid()
    modifies store`teams, store`nextTeamId, store`logs, store`nextLogId, store`clock
    ensures store.Valid()
    ensures !Truthy(name) ==>
      reply == Reply(400, "Team name is required", None) && store.teams == old(store.teams) && store.logs == old(store.logs)
    ensures Truthy(name) && caller.orgId !in OrganisationIds(store.organisations) ==>
      reply.status == 500 && store.teams == old(store.teams) && store.logs == old(store.logs)
    ensures Truthy(name) && caller.orgId in OrganisationIds(store.organisations) ==>
      var team := Team(old(store.nextTeamId), caller.orgId, name.s, Column(description));
      && reply == Reply(201, "Team created successfully", Some(team))
      && store.teams == old(store.teams) + [team]
      && Appended(old(store.logs), store.logs,
           LogRecord(Some(caller.orgId), Some(caller.userId), "team_created", Some(TeamCreated(team.id, name.s))))
  {
    if !Truthy(name) {
      return Reply(400, "Team name is required", None);
    }
    var created := store.CreateTeam(caller.orgId, name.s, Column(description));
    if created.Failure? {
      return Reply(500, "Internal server error", None);
    }
    var team := created.value;
    store.CreateLog(Some(caller.orgId), Some(caller.userId), "team_created", Some(TeamCreated(team.id, name.s)));
    reply := Reply(201, "Team created successfully", Some(team));
  }

  /**
   * The row updateTeam writes: a falsy name keeps the stored name, while a description that is
   * present at all replaces the stored one, so `""` stores an empty string and `null` clears it.
   */
  function UpdatedTeam(existing: Team, name: JsValue, description: JsValue): (t: Team)
    ensures t.id == existing.id && t.organisationId == existing.organisationId
    ensures t.name == if Truthy(name) then name.s else existing.name
    ensures t.description == if description.Undefined? then existing.description else Column(description)
  {
    existing.(name := OrElse(name, Some(existing.name)).value, description := DefinedOr(description, existing.description))
  }

  /** Sending the same partial update twice writes what sending it once does. */
  lemma UpdatedTeamIdempotent(existing: Team, name: JsValue, description: JsValue)
    ensures UpdatedTeam(UpdatedTeam(existing, name, description), name, description) == UpdatedTeam(existing, name, description)
  {
  }

  /** After Team.update, the (id, organisation) lookup finds exactly the row that was written. */
  lemma UpdateTeamsReadBack(rows: seq<Team>, existing: Team, t: Team)
    requires Increasing(rows, TeamKey)
    requires existing in rows
    requires t.id == existing.id && t.organisationId == existing.organisationId
    ensures FindTeam(UpdateTeams(rows, existing.id, existing.organisationId, t.name, t.description), existing.id, existing.organisationId) == Some(t)
  {
    var updated := UpdateTeams(rows, existing.id, existing.organisationId, t.name, t.description);
    var k :| 0 <= k < |rows| && rows[k] == existing;
    assert updated[k] == t;
    assert Increasing(updated, TeamKey) by {
      forall i, j | 0 <= i < j < |updated| ensures TeamKey(updated[i]) < TeamKey(updated[j]) {
        assert TeamKey(rows[i]) < TeamKey(rows[j]);
      }
    }
    FindTeamIsScoped(updated, t, existing.organisationId);
  }

  /** updateTeam. */
  method UpdateTeam(store: Store, caller: Identity, id: int, name: JsValue, description: JsValue) returns (reply: Reply<Team>)
    requires store.Valid()
    modifies store`teams, store`logs, store`nextLogId, store`clock
    ensures store.Valid()
    ensures FindTeam(old(store.teams), id, caller.orgId).None? ==>
      reply == Reply(404, "Team not found", None) && store.teams == old(store.teams) && store.logs == old(store.logs)
    ensures FindTeam(old(store.teams), id, caller.orgId).Some? ==>
      var written := UpdatedTeam(FindTeam(old(store.teams), id, caller.orgId).value, name, description);
      && reply == Reply(200, "Team updated successfully", Some(written))
      && store.teams == UpdateTeams(old(store.teams), id, caller.orgId, written.name, written.description)
      && FindTeam(store.teams, id, caller.orgId) == Some(written)
      && Appended(old(store.logs), store.logs,
           LogRecord(Some(caller.orgId), Some(caller.userId), "team_updated", Some(TeamUpdated(id, name, description))))
  {
    var existing := FindTeam(store.teams, id, caller.orgId);
    if existing.None? {
      return Reply(404, "Team not found", None);
    }
    var written := UpdatedTeam(existing.value, name, description);
    UpdateTeamsReadBack(store.teams, existing.value, written);
    store.UpdateTeam(id, caller.orgId, written.name, written.description);
    store.CreateLog(Some(caller.orgId), Some(caller.userId), "team_updated", Some(TeamUpdated(id, name, description)));
    reply := Reply(200, "Team updated successfully", Some(written));
  }

  /** deleteTeam: the team goes, and with it every join row that references it. */
  method DeleteTeam(store: Store, caller: Identity, id: int) returns (reply: Reply<()>)
    requires store.Valid()
    modifies store`teams, store`memberships, store`logs, store`nextLogId, store`clock
    ensures store.Valid()
    ensures FindTeam(old(store.teams), id, caller.orgId).None? ==>
      && reply == Reply(404, "Team not found", None)
      && store.teams == old(store.teams) && store.memberships == old(store.memberships) && store.logs == old(store.logs)
    ensures FindTeam(old(store.teams), id, caller.orgId).Some? ==>
      && reply == Reply(200, "Team deleted successfully", None)
      && store.teams == WithoutTeam(old(store.teams), id, caller.orgId)
      && store.memberships == DetachTeam(old(store.memberships), id)
      && (forall employeeId, t :: t in EmployeeTeams(store.teams, store.memberships, employeeId, caller.orgId) ==> t.id != id)
      && Appended(old(store.logs), store.logs,
           LogRecord(Some(caller.orgId), Some(caller.userId), "team_deleted",
             Some(TeamDeleted(id, FindTeam(old(store.teams), id, caller.orgId).value.name))))
  {
    var team := FindTeam(store.teams, id, caller.orgId);
    if team.None? {
      return Reply(404, "Team not found", None);
    }
    var deleted := store.DeleteTeam(id, caller.orgId);
    if deleted {
      store.CreateLog(Some(caller.orgId), Some(caller.userId), "team_deleted", Some(TeamDeleted(id, team.value.name)));
      reply := Reply(200, "Team deleted successfully", None);
    } else {
      reply := Reply(404, "Team not found", None);
    }
  }

  // ---------------------------------------------------------------- assignEmployee

  /** `employeeIds || [employeeId]`: any array, even an empty one, wins over the single id. */
  function IdsToAssign(employeeId: Option<int>, employeeIds: Option<seq<Option<int>>>): (ids: seq<Option<int>>)
    ensures ids == [] <==> employeeIds == Some([])
    ensures employeeIds.Some? ==> ids == employeeIds.value
    ensures employeeIds.None? ==> ids == [employeeId]
  {
    if employeeIds.Some? then employeeIds.value else [employeeId]
  }

  /** What the batch loop does with one id. */
  datatype Step = NotFound(id: Option<int>) | AlreadyAssigned(employee: Employee) | Assigned(employee: Employee)

  /** How the loop body treats one id, given the join pairs present when it gets to it. */
  function StepOf(id: Option<int>, employees: seq<Employee>, org: int, teamId: int, pairs: set<(int, int)>): (step: Step)
    ensures step.NotFound? <==> id.None? || forall e :: e in employees ==> !(e.id == id.value && e.organisationId == org)
    ensures step.NotFound? ==> step.id == id
    ensures !step.NotFound? ==>
      && id.Some? && step.employee in employees
      && step.employee.id == id.value && step.employee.organisationId == org
      && (step.AlreadyAssigned? <==> (id.value, teamId) in pairs)
  {
    var found := if id.Some? then FindEmployee(employees, id.value, org) else None;
    if found.None? then NotFound(id)
    else if (found.value.id, teamId) in pairs then AlreadyAssigned(found.value)
    else Assigned(found.value)
  }

  /** The join pairs present after a step. */
  function After(step: Step, teamId: int, pairs: set<(int, int)>): set<(int, int)> {
    if step.Assigned? then pairs + {(step.employee.id, teamId)} else pairs
  }

  /**
   * The batch, decided id by id against the employees of the organisation and the join pairs,
   * where each assignment is visible to the ids after it.
   */
  function Plan(ids: seq<Option<int>>, employees: seq<Employee>, org: int, teamId: int, pairs: set<(int, int)>): (steps: seq<Step>)
    ensures |steps| == |ids|
    decreases |ids|
  {
    if ids == [] then []
    else
      var step := StepOf(ids[0], employees, org, teamId, pairs);
      [step] + Plan(ids[1..], employees, org, teamId, After(step, teamId, pairs))
  }

  function ResultOf(step: Step): AssignResult {
    match step
    case NotFound(id) => AssignResult(id, false, Some("Employee not found"))
    case AlreadyAssigned(e) => AssignResult(Some(e.id), false, Some("Already assigned"))
    case Assigned(e) => AssignResult(Some(e.id), true, None)
  }

  function Results(steps: seq<Step>): seq<AssignResult> {
    seq(|steps|, i requires 0 <= i < |steps| => ResultOf(steps[i]))
  }

  /** The join pairs the batch adds. */
  function AddedPairs(steps: seq<Step>, teamId: int): set<(int, int)> {
    set i | 0 <= i < |steps| && steps[i].Assigned? :: (steps[i].employee.id, teamId)
  }

  /** The log row a step writes, if any. */
  function StepRecords(step: Step, caller: Identity, team: Team): seq<LogRecord> {
    if step.Assigned? then
      [LogRecord(Some(caller.orgId), Some(caller.userId), "employee_assigned_to_team",
         Some(EmployeeAssigned(step.employee.id, team.id, FullName(step.employee), team.name)))]
    else []
  }

  /** The log rows the batch writes: one per added pair, in input order. */
  function AssignRecords(steps: seq<Step>, caller: Identity, team: Team): seq<LogRecord> {
    if steps == [] then [] else StepRecords(steps[0], caller, team) + AssignRecords(steps[1..], caller, team)
  }

  /** One result per input id, in input order, each naming that id. */
  lemma {:induction false} ResultsFollowInput(ids: seq<Option<int>>, employees: seq<Employee>, org: int, teamId: int, pairs: set<(int, int)>)
    ensures var r := Results(Plan(ids, employees, org, teamId, pairs));
      |r| == |ids| && forall i :: 0 <= i < |ids| ==> r[i].employeeId == ids[i]
  {
    if ids != [] {
      var step := StepOf(ids[0], employees, org, teamId, pairs);
      ResultsFollowInput(ids[1..], employees, org, teamId, After(step, teamId, pairs));
      var steps := Plan(ids, employees, org, teamId, pairs);
      assert steps[1..] == Plan(ids[1..], employees, org, teamId, After(step, teamId, pairs));
    }
  }

  /** An id is reported "Employee not found" exactly when it names no employee of the organisation. */
  lemma {:induction false} NotFoundIsForeignOrMissing(
    ids: seq<Option<int>>, employees: seq<Employee>, org: int, teamId: int, pairs: set<(int, int)>, k: int)
    requires 0 <= k < |ids|
    ensures var step := Plan(ids, employees, org, teamId, pairs)[k];
      step.NotFound? <==> ids[k].None? || forall e :: e in employees ==> !(e.id == ids[k].value && e.organisationId == org)
  {
    var step := StepOf(ids[0], employees, org, teamId, pairs);
    var steps := Plan(ids, employees, org, teamId, pairs);
    assert steps[1..] == Plan(ids[1..], employees, org, teamId, After(step, teamId, pairs));
    if k > 0 {
      NotFoundIsForeignOrMissing(ids[1..], employees, org, teamId, After(step, teamId, pairs), k - 1);
    }
  }

  /** An employee whose pair is already present is reported "Already assigned" wherever it appears. */
  lemma {:induction false} PresentPairIsAlreadyAssigned(
    ids: seq<Option<int>>, employees: seq<Employee>, org: int, teamId: int, pairs: set<(int, int)>, k: int)
    requires 0 <= k < |ids| && ids[k].Some?
    requires exists e :: e in employees && e.id == ids[k].value && e.organisationId == org
    requires (ids[k].value, teamId) in pairs
    ensures Plan(ids, employees, org, teamId, pairs)[k].AlreadyAssigned?
  {
    var step := StepOf(ids[0], employees, org, teamId, pairs);
    var steps := Plan(ids, employees, org, teamId, pairs);
    assert steps[1..] == Plan(ids[1..], employees, org, teamId, After(step, teamId, pairs));
    if k > 0 {
      PresentPairIsAlreadyAssigned(ids[1..], employees, org, teamId, After(step, teamId, pairs), k - 1);
    }
  }

  /** A duplicate later in the same batch is reported "Already assigned", so it adds no second row. */
  lemma {:induction false} LaterDuplicateIsAlreadyAssigned(
    ids: seq<Option<int>>, employees: seq<Employee>, org: int, teamId: int, pairs: set<(int, int)>, i: int, j: int)
    requires 0 <= i < j < |ids| && ids[i] == ids[j] && ids[i].Some?
    requires exists e :: e in employees && e.id == ids[i].value && e.organisationId == org
    ensures Plan(ids, employees, org, teamId, pairs)[j].AlreadyAssigned?
  {
    var step := StepOf(ids[0], employees, org, teamId, pairs);
    var steps := Plan(ids, employees, org, teamId, pairs);
    assert steps[1..] == Plan(ids[1..], employees, org, teamId, After(step, teamId, pairs));
    if i == 0 {
      PresentPairIsAlreadyAssigned(ids[1..], employees, org, teamId, After(step, teamId, pairs), j - 1);
    } else {
      LaterDuplicateIsAlreadyAssigned(ids[1..], employees, org, teamId, After(step, teamId, pairs), i - 1, j - 1);
    }
  }

  /**
   * An employee of the organisation whose pair is absent and who was not named earlier in the
   * batch is assigned: it adds its row and its log.
   */
  lemma {:induction false} FreshFirstIsAssigned(
    ids: seq<Option<int>>, employees: seq<Employee>, org: int, teamId: int, pairs: set<(int, int)>, k: int)
    requires 0 <= k < |ids| && ids[k].Some?
    requires exists e :: e in employees && e.id == ids[k].value && e.organisationId == org
    requires (ids[k].value, teamId) !in pairs
    requires forall j :: 0 <= j < k ==> ids[j] != ids[k]
    ensures Plan(ids, employees, org, teamId, pairs)[k].Assigned?
  {
    var step := StepOf(ids[0], employees, org, teamId, pairs);
    var steps := Plan(ids, employees, org, teamId, pairs);
    assert steps[1..] == Plan(ids[1..], employees, org, teamId, After(step, teamId, pairs));
    if k > 0 {
      if step.Assigned? {
        assert step.employee.id == ids[0].value;
      }
      FreshFirstIsAssigned(ids[1..], employees, org, teamId, After(step, teamId, pairs), k - 1);
    }
  }

  lemma AddedPairsCons(steps: seq<Step>, teamId: int)
    requires steps != []
    ensures AddedPairs(steps, teamId) ==
      (if steps[0].Assigned? then {(steps[0].employee.id, teamId)} else {}) + AddedPairs(steps[1..], teamId)
  {
    var tail := steps[1..];
    forall p | p in AddedPairs(steps, teamId)
      ensures p in (if steps[0].Assigned? then {(steps[0].employee.id, teamId)} else {}) + AddedPairs(tail, teamId)
    {
      var i :| 0 <= i < |steps| && steps[i].Assigned? && p == (steps[i].employee.id, teamId);
      if i > 0 {
        assert tail[i - 1] == steps[i];
      }
    }
    forall p | p in AddedPairs(tail, teamId) ensures p in AddedPairs(steps, teamId) {
      var i :| 0 <= i < |tail| && tail[i].Assigned? && p == (tail[i].employee.id, teamId);
      assert steps[i + 1] == tail[i];
    }
  }

  /** The body of assignEmployee's loop for one id. */
  method AssignOne(store: Store, caller: Identity, team: Team, empId: Option<int>) returns (result: AssignResult)
    requires store.Valid()
    requires team in store.teams && team.organisationId == caller.orgId
    modifies store`memberships, store`nextMembershipId, store`logs, store`nextLogId, store`clock
    ensures store.Valid()
    ensures var step := StepOf(empId, store.employees, caller.orgId, team.id, Pairs(old(store.memberships)));
      && result == ResultOf(step)
      && |old(store.memberships)| <= |store.memberships|
      && store.memberships[..|old(store.memberships)|] == old(store.memberships)
      && Pairs(store.memberships) == After(step, team.id, Pairs(old(store.memberships)))
      && (step.Assigned? ==> Appended(old(store.logs), store.logs, StepRecords(step, caller, team)[0]))
      && (!step.Assigned? ==> store.logs == old(store.logs))
  {
    var employee := if empId.Some? then FindEmployee(store.employees, empId.value, caller.orgId) else None;
    if employee.None? {
      return AssignResult(empId, false, Some("Employee not found"));
    }
    var e := employee.value;
    assert e.id in EmployeeIds(store.employees) && team.id in TeamIds(store.teams);
    var outcome := store.AssignEmployee(team.id, e.id);
    assert outcome.Success?;
    if outcome.value {
      store.CreateLog(Some(caller.orgId), Some(caller.userId), "employee_assigned_to_team",
        Some(EmployeeAssigned(e.id, team.id, FullName(e), team.name)));
      result := AssignResult(Some(e.id), true, None);
    } else {
      result := AssignResult(Some(e.id), false, Some("Already assigned"));
    }
  }

  /**
   * What holds after the loop has handled `ids[..i]`: the rows added so far, the results pushed so
   * far and the log rows written so far, followed by what the rest of the plan will add, make up
   * the whole plan.
   */
  ghost predicate BatchInvariant(
    ids: seq<Option<int>>, i: int, employees: seq<Employee>, caller: Identity, team: Team,
    ms0: seq<Membership>, logs0: seq<LogEntry>, ms: seq<Membership>, logs: seq<LogEntry>, results: seq<AssignResult>)
  {
    && 0 <= i <= |ids|
    && |ms0| <= |ms| && ms[..|ms0|] == ms0
    && |logs0| <= |logs| && logs[..|logs0|] == logs0
    && var plan := Plan(ids, employees, caller.orgId, team.id, Pairs(ms0));
       var rest := Plan(ids[i..], employees, caller.orgId, team.id, Pairs(ms));
       && results + Results(rest) == Results(plan)
       && Pairs(ms) + AddedPairs(rest, team.id) == Pairs(ms0) + AddedPairs(plan, team.id)
       && Records(logs[|logs0|..]) + AssignRecords(rest, caller, team) == AssignRecords(plan, caller, team)
  }

  lemma StepKeepsResults(results: seq<AssignResult>, rest: seq<Step>, result: AssignResult)
    requires rest != [] && result == ResultOf(rest[0])
    ensures (results + [result]) + Results(rest[1..]) == results + Results(rest)
  {
    assert Results(rest) == [result] + Results(rest[1..]);
  }

  lemma StepKeepsPairs(pairs: set<(int, int)>, pairs': set<(int, int)>, rest: seq<Step>, teamId: int)
    requires rest != [] && pairs' == After(rest[0], teamId, pairs)
    ensures pairs' + AddedPairs(rest[1..], teamId) == pairs + AddedPairs(rest, teamId)
  {
    AddedPairsCons(rest, teamId);
  }

  lemma StepKeepsRecords(logs0: seq<LogEntry>, logs: seq<LogEntry>, logs': seq<LogEntry>, rest: seq<Step>, caller: Identity, team: Team)
    requires rest != []
    requires |logs0| <= |logs| && logs[..|logs0|] == logs0
    requires rest[0].Assigned? ==> Appended(logs, logs', StepRecords(rest[0], caller, team)[0])
    requires !rest[0].Assigned? ==> logs' == logs
    ensures |logs0| <= |logs'| && logs'[..|logs0|] == logs0
    ensures Records(logs'[|logs0|..]) + AssignRecords(rest[1..], caller, team) == Records(logs[|logs0|..]) + AssignRecords(rest, caller, team)
  {
    if rest[0].Assigned? {
      AppendedRecords(logs0, logs, logs', StepRecords(rest[0], caller, team)[0]);
    }
  }

  lemma BatchStep(
    ids: seq<Option<int>>, i: int, employees: seq<Employee>, caller: Identity, team: Team,
    ms0: seq<Membership>, logs0: seq<LogEntry>, ms: seq<Membership>, logs: seq<LogEntry>, results: seq<AssignResult>,
    ms': seq<Membership>, logs': seq<LogEntry>, result: AssignResult)
    requires BatchInvariant(ids, i, employees, caller, team, ms0, logs0, ms, logs, results) && i < |ids|
    requires var step := StepOf(ids[i], employees, caller.orgId, team.id, Pairs(ms));
      && result == ResultOf(step)
      && |ms| <= |ms'| && ms'[..|ms|] == ms
      && Pairs(ms') == After(step, team.id, Pairs(ms))
      && (step.Assigned? ==> Appended(logs, logs', StepRecords(step, caller, team)[0]))
      && (!step.Assigned? ==> logs' == logs)
    ensures BatchInvariant(ids, i + 1, employees, caller, team, ms0, logs0, ms', logs', results + [result])
  {
    var rest := Plan(ids[i..], employees, caller.orgId, team.id, Pairs(ms));
    assert ids[i..][0] == ids[i] && ids[i..][1..] == ids[i + 1..];
    assert rest[1..] == Plan(ids[i + 1..], employees, caller.orgId, team.id, Pairs(ms'));
    StepKeepsResults(results, rest, result);
    StepKeepsPairs(Pairs(ms), Pairs(ms'), rest, team.id);
    StepKeepsRecords(logs0, logs, logs', rest, caller, team);
    assert ms'[..|ms0|] == ms'[..|ms|][..|ms0|];
  }

  /** The loop of assignEmployee over a team of the caller's organisation. */
  method AssignBatch(store: Store, caller: Identity, team: Team, ids: seq<Option<int>>) returns (results: seq<AssignResult>)
    requires store.Valid()
    requires team in store.teams && team.organisationId == caller.orgId
    modifies store`memberships, store`nextMembershipId, store`logs, store`nextLogId, store`clock
    ensures store.Valid()
    ensures var plan := Plan(ids, store.employees, caller.orgId, team.id, Pairs(old(store.memberships)));
      && results == Results(plan)
      && |old(store.memberships)| <= |store.memberships|
      && store.memberships[..|old(store.memberships)|] == old(store.memberships)
      && Pairs(store.memberships) == Pairs(old(store.memberships)) + AddedPairs(plan, team.id)
      && |old(store.logs)| <= |store.logs|
      && store.logs[..|old(store.logs)|] == old(store.logs)
      && Records(store.logs[|old(store.logs)|..]) == AssignRecords(plan, caller, team)
  {
    ghost var ms0 := store.memberships;
    ghost var logs0 := store.logs;
    assert ids[0..] == ids && logs0[|logs0|..] == [];
    results := [];
    var i := 0;
    while i < |ids|
      invariant store.Valid()
      invariant BatchInvariant(ids, i, store.employees, caller, team, ms0, logs0, store.memberships, store.logs, results)
    {
      ghost var msBefore := store.memberships;
      ghost var logsBefore := store.logs;
      var result := AssignOne(store, caller, team, ids[i]);
      BatchStep(ids, i, store.employees, caller, team, ms0, logs0, msBefore, logsBefore, results, store.memberships, store.logs, result);
      results := results + [result];
      i := i + 1;
    }
    assert ids[i..] == [];
  }

  /**
   * assignEmployee: 404 unless the team is the caller's; 400 only for an explicit empty array;
   * otherwise one result per id in input order, one join row and one log row per new pair.
   */
  method AssignEmployee(store: Store, caller: Identity, teamId: int, employeeId: Option<int>, employeeIds: Option<seq<Option<int>>>)
    returns (reply: Reply<seq<AssignResult>>)
    requires store.Valid()
    modifies store`memberships, store`nextMembershipId, store`logs, store`nextLogId, store`clock
    ensures store.Valid()
    ensures FindTeam(store.teams, teamId, caller.orgId).None? ==>
      && reply == Reply(404, "Team not found", None)
      && store.memberships == old(store.memberships) && store.logs == old(store.logs)
    ensures FindTeam(store.teams, teamId, caller.orgId).Some? && employeeIds == Some([]) ==>
      && reply == Reply(400, "Employee ID(s) required", None)
      && store.memberships == old(store.memberships) && store.logs == old(store.logs)
    ensures FindTeam(store.teams, teamId, caller.orgId).Some? && employeeIds != Some([]) ==>
      var plan := Plan(IdsToAssign(employeeId, employeeIds), store.employees, caller.orgId, teamId, Pairs(old(store.memberships)));
      && reply == Reply(200, "Assignment operation completed", Some(Results(plan)))
      && |old(store.memberships)| <= |store.memberships|
      && store.memberships[..|old(store.memberships)|] == old(store.memberships)
      && Pairs(store.memberships) == Pairs(old(store.memberships)) + AddedPairs(plan, teamId)
      && |old(store.logs)| <= |store.logs|
      && store.logs[..|old(store.logs)|] == old(store.logs)
      && Records(store.logs[|old(store.logs)|..]) == AssignRecords(plan, caller, FindTeam(store.teams, teamId, caller.orgId).value)
  {
    var found := FindTeam(store.teams, teamId, caller.orgId);
    if found.None? {
      return Reply(404, "Team not found", None);
    }
    var ids := IdsToAssign(employeeId, employeeIds);
    if |ids| == 0 {
      return Reply(400, "Employee ID(s) required", None);
    }
    var results := AssignBatch(store, caller, found.value, ids);
    reply := Reply(200, "Assignment operation completed", Some(results));
  }

  /** unassignEmployee: checks the id, the team, the employee and the pair, in that order. */
  method UnassignEmployee(store: Store, caller: Identity, teamId: int, employeeId: Option<int>) returns (reply: Reply<()>)
    requires store.Valid()
    modifies store`memberships, store`logs, store`nextLogId, store`clock
    ensures store.Valid()
    ensures reply ==
      if employeeId.None? || employeeId == Some(0) then Reply(400, "Employee ID is required", None)
      else if FindTeam(store.teams, teamId, caller.orgId).None? then Reply(404, "Team not found", None)
      else if FindEmployee(store.employees, employeeId.value, caller.orgId).None? then Reply(404, "Employee not found", None)
      else if (employeeId.value, teamId) !in Pairs(old(store.memberships)) then Reply(404, "Assignment not found", None)
      else Reply(200, "Employee unassigned from team successfully", None)
    ensures reply.status != 200 ==> store.memberships == old(store.memberships) && store.logs == old(store.logs)
    ensures reply.status == 200 ==>
      && store.memberships == WithoutPair(old(store.memberships), employeeId.value, teamId)
      && Pairs(store.memberships) == Pairs(old(store.memberships)) - {(employeeId.value, teamId)}
      && Appended(old(store.logs), store.logs,
           LogRecord(Some(caller.orgId), Some(caller.userId), "employee_unassigned_from_team",
             Some(EmployeeUnassigned(employeeId.value, teamId,
               FullName(FindEmployee(store.employees, employeeId.value, caller.orgId).value),
               FindTeam(store.teams, teamId, caller.orgId).value.name))))
  {
    if employeeId.None? || employeeId.value == 0 {
      return Reply(400, "Employee ID is required", None);
    }
    var team := FindTeam(store.teams, teamId, caller.orgId);
    if team.None? {
      return Reply(404, "Team not found", None);
    }
    var employee := FindEmployee(store.employees, employeeId.value, caller.orgId);
    if employee.None? {
      return Reply(404, "Employee not found", None);
    }
    var unassigned := store.UnassignEmployee(teamId, employeeId.value);
    if unassigned {
      store.CreateLog(Some(caller.orgId), Some(caller.userId), "employee_unassigned_from_team",
        Some(EmployeeUnassigned(employeeId.value, teamId, FullName(employee.value), team.value.name)));
      reply := Reply(200, "Employee unassigned from team successfully", None);
    } else {
      reply := Reply(404, "Assignment not found", None);
    }
  }
}
