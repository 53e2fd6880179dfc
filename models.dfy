/**
 * The data-access layer: the organisation-scoped queries as functions over the tables,
 * and the store whose methods insert, update and delete rows in place.
 */
module Models {
  import opened Wrappers
  import opened Seqs
  import opened Schema

  // ---------------------------------------------------------------- queries

  /** Organisation.findById. */
  function FindOrganisation(orgs: seq<Organisation>, id: int): (r: Option<Organisation>)
    ensures r.Some? <==> id in OrganisationIds(orgs)
    ensures r.Some? ==> r.value in orgs && r.value.id == id
  {
    Find(orgs, (o: Organisation) => o.id == id)
  }

  /** User.findByEmail: the lookup is global, not scoped by organisation. */
  function FindUserByEmail(users: seq<User>, email: string): (r: Option<User>)
    ensures r.Some? ==> r.value in users && r.value.email == email
    ensures r.None? <==> forall u :: u in users ==> u.email != email
  {
    Find(users, (u: User) => u.email == email)
  }

  /** User.findById: like the email lookup, global rather than scoped by organisation. */
  function FindUserById(users: seq<User>, id: int): (r: Option<User>)
    ensures r.Some? ==> r.value in users && r.value.id == id
    ensures r.None? <==> forall u :: u in users ==> u.id != id
  {
    Find(users, (u: User) => u.id == id)
  }

  /** Employee.findAll: exactly the employees of one organisation, in table order. */
  function FindEmployees(employees: seq<Employee>, org: int): (r: seq<Employee>)
    ensures forall e :: e in r <==> e in employees && e.organisationId == org
  {
    Filter(employees, (e: Employee) => e.organisationId == org)
  }

  /** Employee.findById: a row is found only when both its id and its organisation match. */
  function FindEmployee(employees: seq<Employee>, id: int, org: int): (r: Option<Employee>)
    ensures r.Some? ==> r.value in employees && r.value.id == id && r.value.organisationId == org
    ensures r.None? <==> forall e :: e in employees ==> !(e.id == id && e.organisationId == org)
  {
    Find(employees, (e: Employee) => e.id == id && e.organisationId == org)
  }

  /** Team.findAll. */
  function FindTeams(teams: seq<Team>, org: int): (r: seq<Team>)
    ensures forall t :: t in r <==> t in teams && t.organisationId == org
  {
    Filter(teams, (t: Team) => t.organisationId == org)
  }

  /** Team.findById. */
  function FindTeam(teams: seq<Team>, id: int, org: int): (r: Option<Team>)
    ensures r.Some? ==> r.value in teams && r.value.id == id && r.value.organisationId == org
    ensures r.None? <==> forall t :: t in teams ==> !(t.id == id && t.organisationId == org)
  {
    Find(teams, (t: Team) => t.id == id && t.organisationId == org)
  }

  /** Under unique ids, the employee a lookup finds is the one row with that id, and no other organisation sees it. */
  lemma FindEmployeeIsScoped(employees: seq<Employee>, e: Employee, org: int)
    requires Increasing(employees, EmployeeKey)
    requires e in employees
    ensures FindEmployee(employees, e.id, org) == if org == e.organisationId then Some(e) else None
  {
    var r := FindEmployee(employees, e.id, org);
    if r.Some? {
      KeyDeterminesElement(employees, EmployeeKey, r.value, e);
    }
  }

  /** Under unique ids, the team a lookup finds is the one row with that id, and no other organisation sees it. */
  lemma FindTeamIsScoped(teams: seq<Team>, t: Team, org: int)
    requires Increasing(teams, TeamKey)
    requires t in teams
    ensures FindTeam(teams, t.id, org) == if org == t.organisationId then Some(t) else None
  {
    var r := FindTeam(teams, t.id, org);
    if r.Some? {
      KeyDeterminesElement(teams, TeamKey, r.value, t);
    }
  }

  /** Employee.getTeams: the teams of the organisation that the employee is joined to. */
  function EmployeeTeams(teams: seq<Team>, ms: seq<Membership>, employeeId: int, org: int): (r: seq<Team>)
    ensures forall t :: t in r <==> t in teams && t.organisationId == org && (employeeId, t.id) in Pairs(ms)
  {
    Filter(teams, (t: Team) => t.organisationId == org && (employeeId, t.id) in Pairs(ms))
  }

  /** Team.getEmployees: the employees of the organisation that are joined to the team. */
  function TeamMembers(employees: seq<Employee>, ms: seq<Membership>, teamId: int, org: int): (r: seq<Employee>)
    ensures forall e :: e in r <==> e in employees && e.organisationId == org && (e.id, teamId) in Pairs(ms)
  {
    Filter(employees, (e: Employee) => e.organisationId == org && (e.id, teamId) in Pairs(ms))
  }

  /** The two join queries see the same join rows: each is the other read from the other side. */
  lemma MembershipIsSymmetric(employees: seq<Employee>, teams: seq<Team>, ms: seq<Membership>, e: Employee, t: Team, org: int)
    requires e in employees && t in teams
    requires e.organisationId == org && t.organisationId == org
    ensures e in TeamMembers(employees, ms, t.id, org) <==> t in EmployeeTeams(teams, ms, e.id, org)
  {
  }

  /** SQL `LIMIT n`: the first n rows; SQLite reads a negative limit as no limit at all. */
  function Limit<T>(s: seq<T>, limit: int): (r: seq<T>)
    ensures limit < 0 || |s| <= limit ==> r == s
    ensures 0 <= limit < |s| ==> r == s[..limit]
  {
    if limit < 0 || |s| <= limit then s else s[..limit]
  }

  /** The log rows of one organisation, oldest first; rows with a NULL organisation belong to none. */
  function OrgLogs(logs: seq<LogEntry>, org: int): (r: seq<LogEntry>)
    ensures forall l :: l in r <==> l in logs && l.organisationId == Some(org)
  {
    Filter(logs, (l: LogEntry) => l.organisationId == Some(org))
  }

  /** Log.findAll: newest first (`ORDER BY timestamp DESC`), at most `limit` rows, all of the organisation. */
  function RecentLogs(logs: seq<LogEntry>, org: int, limit: int): (r: seq<LogEntry>)
    ensures 0 <= limit ==> |r| <= limit
    ensures |r| <= |OrgLogs(logs, org)|
    ensures forall l :: l in r ==> l in logs && l.organisationId == Some(org)
  {
    Limit(Reverse(OrgLogs(logs, org)), limit)
  }

  /** A newest-first prefix of a list growing in time has strictly falling timestamps. */
  lemma NewestFirstPrefixFalls(f: seq<LogEntry>, limit: int, i: int, j: int)
    requires Increasing(f, LogTime)
    requires 0 <= i < j < |Limit(Reverse(f), limit)|
    ensures Limit(Reverse(f), limit)[j].timestamp < Limit(Reverse(f), limit)[i].timestamp
  {
    var r := Limit(Reverse(f), limit);
    assert r[i] == f[|f| - 1 - i] && r[j] == f[|f| - 1 - j];
    assert LogTime(f[|f| - 1 - j]) < LogTime(f[|f| - 1 - i]);
  }

  /** With timestamps growing along the table, Log.findAll lists its rows strictly newest first. */
  lemma RecentLogsNewestFirst(logs: seq<LogEntry>, org: int, limit: int)
    requires Increasing(logs, LogTime)
    ensures var r := RecentLogs(logs, org, limit);
      forall i, j :: 0 <= i < j < |r| ==> r[j].timestamp < r[i].timestamp
  {
    var f := OrgLogs(logs, org);
    FilterKeepsIncreasing(logs, (l: LogEntry) => l.organisationId == Some(org), LogTime);
    var r := RecentLogs(logs, org, limit);
    forall i, j | 0 <= i < j < |r| ensures r[j].timestamp < r[i].timestamp {
      NewestFirstPrefixFalls(f, limit, i, j);
    }
  }

  /** In a list growing in time, a row the newest-first prefix leaves out is older than every row it keeps. */
  lemma OmittedRowIsOlder(f: seq<LogEntry>, limit: int, q: int, k: int)
    requires Increasing(f, LogTime)
    requires 0 <= q < |f| && f[q] !in Limit(Reverse(f), limit)
    requires 0 <= k < |Limit(Reverse(f), limit)|
    ensures f[q].timestamp < Limit(Reverse(f), limit)[k].timestamp
  {
    var rev := Reverse(f);
    var r := Limit(rev, limit);
    assert rev[|f| - 1 - q] == f[q];
    assert |r| <= |f| - 1 - q;
    assert r[k] == f[|f| - 1 - k];
    assert LogTime(f[q]) < LogTime(f[|f| - 1 - k]);
  }

  /** Every row of the organisation that Log.findAll leaves out is older than every row it returns. */
  lemma RecentLogsAreTheNewest(logs: seq<LogEntry>, org: int, limit: int)
    requires Increasing(logs, LogTime)
    ensures var r := RecentLogs(logs, org, limit);
      && (limit < 0 || |OrgLogs(logs, org)| <= limit ==> |r| == |OrgLogs(logs, org)|)
      && forall l, k :: l in logs && l.organisationId == Some(org) && l !in r && 0 <= k < |r| ==> l.timestamp < r[k].timestamp
  {
    var f := OrgLogs(logs, org);
    FilterKeepsIncreasing(logs, (l: LogEntry) => l.organisationId == Some(org), LogTime);
    var r := RecentLogs(logs, org, limit);
    forall l, k | l in logs && l.organisationId == Some(org) && l !in r && 0 <= k < |r|
      ensures l.timestamp < r[k].timestamp
    {
      assert l in f;
      var q :| 0 <= q < |f| && f[q] == l;
      OmittedRowIsOlder(f, limit, q, k);
    }
  }

  // ---------------------------------------------------------------- row updates

  /** Employee.update's effect: the one (id, organisation) row takes all four values, every other row is kept. */
  function UpdateEmployees(
    rows: seq<Employee>, id: int, org: int,
    firstName: Option<string>, lastName: Option<string>, email: Option<string>, phone: Option<string>
  ): (r: seq<Employee>)
    ensures |r| == |rows|
    ensures forall i :: 0 <= i < |rows| ==> r[i].id == rows[i].id && r[i].organisationId == rows[i].organisationId
    ensures forall i :: 0 <= i < |rows| && rows[i].id == id && rows[i].organisationId == org ==>
      r[i].firstName == firstName && r[i].lastName == lastName && r[i].email == email && r[i].phone == phone
    ensures forall i :: 0 <= i < |rows| && !(rows[i].id == id && rows[i].organisationId == org) ==> r[i] == rows[i]
  {
    if rows == [] then []
    else
      var e := rows[0];
      var e' := if e.id == id && e.organisationId == org
        then e.(firstName := firstName, lastName := lastName, email := email, phone := phone)
        else e;
      [e'] + UpdateEmployees(rows[1..], id, org, firstName, lastName, email, phone)
  }

  /** Team.update's effect: the one (id, organisation) row takes the name and description, every other row is kept. */
  function UpdateTeams(rows: seq<Team>, id: int, org: int, name: string, description: Option<string>): (r: seq<Team>)
    ensures |r| == |rows|
    ensures forall i :: 0 <= i < |rows| ==> r[i].id == rows[i].id && r[i].organisationId == rows[i].organisationId
    ensures forall i :: 0 <= i < |rows| && rows[i].id == id && rows[i].organisationId == org ==>
      r[i].name == name && r[i].description == description
    ensures forall i :: 0 <= i < |rows| && !(rows[i].id == id && rows[i].organisationId == org) ==> r[i] == rows[i]
  {
    if rows == [] then []
    else
      var t := rows[0];
      var t' := if t.id == id && t.organisationId == org then t.(name := name, description := description) else t;
      [t'] + UpdateTeams(rows[1..], id, org, name, description)
  }

  /** The employees table without the (id, organisation) row. */
  function WithoutEmployee(rows: seq<Employee>, id: int, org: int): (r: seq<Employee>)
    ensures forall e :: e in r <==> e in rows && !(e.id == id && e.organisationId == org)
  {
    Filter(rows, (e: Employee) => !(e.id == id && e.organisationId == org))
  }

  /** The teams table without the (id, organisation) row. */
  function WithoutTeam(rows: seq<Team>, id: int, org: int): (r: seq<Team>)
    ensures forall t :: t in r <==> t in rows && !(t.id == id && t.organisationId == org)
  {
    Filter(rows, (t: Team) => !(t.id == id && t.organisationId == org))
  }

  /** ON DELETE CASCADE from employees: the join rows that do not reference the employee. */
  function DetachEmployee(ms: seq<Membership>, employeeId: int): (r: seq<Membership>)
    ensures forall m :: m in r <==> m in ms && m.employeeId != employeeId
  {
    Filter(ms, (m: Membership) => m.employeeId != employeeId)
  }

  /** ON DELETE CASCADE from teams: the join rows that do not reference the team. */
  function DetachTeam(ms: seq<Membership>, teamId: int): (r: seq<Membership>)
    ensures forall m :: m in r <==> m in ms && m.teamId != teamId
  {
    Filter(ms, (m: Membership) => m.teamId != teamId)
  }

  /** The join table without the (employee, team) row. */
  function WithoutPair(ms: seq<Membership>, employeeId: int, teamId: int): (r: seq<Membership>)
    ensures forall m :: m in r <==> m in ms && !(m.employeeId == employeeId && m.teamId == teamId)
  {
    Filter(ms, (m: Membership) => !(m.employeeId == employeeId && m.teamId == teamId))
  }

  /** ON DELETE CASCADE keeps every remaining join row pointing at remaining rows. */
  lemma DetachEmployeeKeepsReferences(employees: seq<Employee>, ms: seq<Membership>, teams: seq<Team>, id: int, org: int)
    requires MembershipsValid(ms, employees, teams)
    ensures MembershipsValid(DetachEmployee(ms, id), WithoutEmployee(employees, id, org), teams)
  {
    var rest := WithoutEmployee(employees, id, org);
    forall m | m in DetachEmployee(ms, id) ensures m.employeeId in EmployeeIds(rest) {
      var e :| e in employees && e.id == m.employeeId;
      assert e in rest;
    }
  }

  lemma DetachTeamKeepsReferences(employees: seq<Employee>, ms: seq<Membership>, teams: seq<Team>, id: int, org: int)
    requires MembershipsValid(ms, employees, teams)
    ensures MembershipsValid(DetachTeam(ms, id), employees, WithoutTeam(teams, id, org))
  {
    var rest := WithoutTeam(teams, id, org);
    forall m | m in DetachTeam(ms, id) ensures m.teamId in TeamIds(rest) {
      var t :| t in teams && t.id == m.teamId;
      assert t in rest;
    }
  }

  // ---------------------------------------------------------------- log rows as the handlers see them

  /** A log row without its id and timestamp: what a handler chooses to write. */
  datatype LogRecord = LogRecord(organisationId: Option<int>, userId: Option<int>, action: string, meta: Option<Meta>)

  function RecordOf(l: LogEntry): LogRecord {
    LogRecord(l.organisationId, l.userId, l.action, l.meta)
  }

  function Records(ls: seq<LogEntry>): seq<LogRecord> {
    seq(|ls|, i requires 0 <= i < |ls| => RecordOf(ls[i]))
  }

  /** `after` is `before` with exactly one more row, written as `rec` says. */
  ghost predicate Appended(before: seq<LogEntry>, after: seq<LogEntry>, rec: LogRecord) {
    |after| == |before| + 1 && after[..|before|] == before && RecordOf(after[|before|]) == rec
  }

  /** Appending one row to a log that extends `start` extends the records written since `start` by that row. */
  lemma AppendedRecords(start: seq<LogEntry>, before: seq<LogEntry>, after: seq<LogEntry>, rec: LogRecord)
    requires |start| <= |before| && before[..|start|] == start
    requires Appended(before, after, rec)
    ensures |start| <= |after| && after[..|start|] == start
    ensures Records(after[|start|..]) == Records(before[|start|..]) + [rec]
  {
    assert after[..|start|] == before[..|before|][..|start|];
    assert after[|start|..] == before[|start|..] + [after[|before|]];
  }

  // ---------------------------------------------------------------- the store

  /** The database: one sequence per table in rowid order, the AUTOINCREMENT counters and the clock. */
  class Store {
    var organisations: seq<Organisation>
    var nextOrganisationId: int
    var users: seq<User>
    var nextUserId: int
    var employees: seq<Employee>
    var nextEmployeeId: int
    var teams: seq<Team>
    var nextTeamId: int
    var memberships: seq<Membership>
    var nextMembershipId: int
    var logs: seq<LogEntry>
    var nextLogId: int
    /** CURRENT_TIMESTAMP, as a counter that only moves forward. */
    var clock: int

    /** The schema's constraints. */
    ghost predicate Valid()
      reads this
    {
      && AutoIncremented(organisations, OrganisationKey, nextOrganisationId)
      && AutoIncremented(users, UserKey, nextUserId)
      && AutoIncremented(employees, EmployeeKey, nextEmployeeId)
      && AutoIncremented(teams, TeamKey, nextTeamId)
      && AutoIncremented(memberships, MembershipKey, nextMembershipId)
      && AutoIncremented(logs, LogKey, nextLogId)
      && AutoIncremented(logs, LogTime, clock)
      && UsersValid(users, organisations)
      && EmployeesValid(employees, organisations)
      && TeamsValid(teams, organisations)
      && MembershipsValid(memberships, employees, teams)
    }

    /** createTables: every table empty, every AUTOINCREMENT counter at 1. */
    constructor ()
      ensures Valid()
      ensures organisations == [] && users == [] && employees == [] && teams == [] && memberships == [] && logs == []
      ensures nextOrganisationId == 1 && nextUserId == 1 && nextEmployeeId == 1 && nextTeamId == 1
      ensures nextMembershipId == 1 && nextLogId == 1
    {
      organisations, users, employees, teams, memberships, logs := [], [], [], [], [], [];
      nextOrganisationId, nextUserId, nextEmployeeId, nextTeamId, nextMembershipId, nextLogId := 1, 1, 1, 1, 1, 1;
      clock := 0;
    }

    /** Organisation.create. */
    method CreateOrganisation(name: string) returns (org: Organisation)
      requires Valid()
      modifies this`organisations, this`nextOrganisationId
      ensures Valid()
      ensures org == Organisation(old(nextOrganisationId), name)
      ensures forall o :: o in old(organisations) ==> o.id < org.id
      ensures organisations == old(organisations) + [org]
      ensures nextOrganisationId == org.id + 1
    {
      org := Organisation(nextOrganisationId, name);
      assert OrganisationIds(organisations + [org]) == OrganisationIds(organisations) + {org.id};
      organisations := organisations + [org];
      nextOrganisationId := nextOrganisationId + 1;
    }

    /** User.create: fails (UNIQUE, FOREIGN KEY) on a used email or an unknown organisation. */
    method CreateUser(organisationId: int, email: string, passwordHash: string, name: Option<string>)
      returns (r: Result<User, StoreError>)
      requires Valid()
      modifies this`users, this`nextUserId
      ensures Valid()
      ensures r.Success? <==> organisationId in OrganisationIds(organisations) && FindUserByEmail(old(users), email).None?
      ensures r.Success? ==>
        && r.value == User(old(nextUserId), organisationId, email, passwordHash, name)
        && (forall u :: u in old(users) ==> u.id < r.value.id)
        && users == old(users) + [r.value]
        && nextUserId == old(nextUserId) + 1
      ensures r.Failure? ==> users == old(users) && nextUserId == old(nextUserId)
    {
      if organisationId !in OrganisationIds(organisations) || FindUserByEmail(users, email).Some? {
        return Failure(ConstraintViolation);
      }
      var u := User(nextUserId, organisationId, email, passwordHash, name);
      users := users + [u];
      nextUserId := nextUserId + 1;
      r := Success(u);
    }

    /** Employee.create: fails (FOREIGN KEY) on an unknown organisation. */
    method CreateEmployee(
      organisationId: int, firstName: Option<string>, lastName: Option<string>, email: Option<string>, phone: Option<string>
    ) returns (r: Result<Employee, StoreError>)
      requires Valid()
      modifies this`employees, this`nextEmployeeId
      ensures Valid()
      ensures r.Success? <==> organisationId in OrganisationIds(organisations)
      ensures r.Success? ==>
        && r.value == Employee(old(nextEmployeeId), organisationId, firstName, lastName, email, phone)
        && (forall e :: e in old(employees) ==> e.id < r.value.id)
        && employees == old(employees) + [r.value]
        && nextEmployeeId == old(nextEmployeeId) + 1
      ensures r.Failure? ==> employees == old(employees) && nextEmployeeId == old(nextEmployeeId)
    {
      if organisationId !in OrganisationIds(organisations) {
        return Failure(ConstraintViolation);
      }
      var e := Employee(nextEmployeeId, organisationId, firstName, lastName, email, phone);
      assert EmployeeIds(employees + [e]) == EmployeeIds(employees) + {e.id};
      employees := employees + [e];
      nextEmployeeId := nextEmployeeId + 1;
      r := Success(e);
    }

    /** Employee.update: overwrites the four columns of the (id, organisation) row, if there is one. */
    method UpdateEmployee(
      id: int, organisationId: int, firstName: Option<string>, lastName: Option<string>, email: Option<string>, phone: Option<string>)
      requires Valid()
      modifies this`employees
      ensures Valid()
      ensures employees == UpdateEmployees(old(employees), id, organisationId, firstName, lastName, email, phone)
    {
      var updated := UpdateEmployees(employees, id, organisationId, firstName, lastName, email, phone);
      assert EmployeeIds(updated) == EmployeeIds(employees) by {
        forall x | x in EmployeeIds(employees) ensures x in EmployeeIds(updated) {
          var e :| e in employees && e.id == x;
          var i :| 0 <= i < |employees| && employees[i] == e;
          assert updated[i].id == x;
        }
        forall x | x in EmployeeIds(updated) ensures x in EmployeeIds(employees) {
          var e :| e in updated && e.id == x;
          var i :| 0 <= i < |updated| && updated[i] == e;
          assert employees[i].id == x;
        }
      }
      assert EmployeesValid(updated, organisations) by {
        forall e | e in updated ensures e.organisationId in OrganisationIds(organisations) {
          var i :| 0 <= i < |updated| && updated[i] == e;
          assert employees[i] in employees;
        }
      }
      assert AutoIncremented(updated, EmployeeKey, nextEmployeeId) by {
        forall i, j | 0 <= i < j < |updated| ensures EmployeeKey(updated[i]) < EmployeeKey(updated[j]) {
          assert EmployeeKey(employees[i]) < EmployeeKey(employees[j]);
        }
        forall i | 0 <= i < |updated| ensures EmployeeKey(updated[i]) < nextEmployeeId {
          assert EmployeeKey(employees[i]) < nextEmployeeId;
        }
      }
      employees := updated;
    }

    /**
     * Employee.delete: removes the (id, organisation) row and reports whether there was one;
     * ON DELETE CASCADE removes the join rows that reference it.
     */
    method DeleteEmployee(id: int, organisationId: int) returns (deleted: bool)
      requires Valid()
      modifies this`employees, this`memberships
      ensures Valid()
      ensures deleted <==> FindEmployee(old(employees), id, organisationId).Some?
      ensures employees == if deleted then WithoutEmployee(old(employees), id, organisationId) else old(employees)
      ensures memberships == if deleted then DetachEmployee(old(memberships), id) else old(memberships)
      ensures forall e :: e in employees ==> !(e.id == id && e.organisationId == organisationId)
    {
      deleted := FindEmployee(employees, id, organisationId).Some?;
      if deleted {
        FilterKeepsAutoIncremented(employees, (e: Employee) => !(e.id == id && e.organisationId == organisationId), EmployeeKey, nextEmployeeId);
        FilterKeepsAutoIncremented(memberships, (m: Membership) => m.employeeId != id, MembershipKey, nextMembershipId);
        DetachEmployeeKeepsReferences(employees, memberships, teams, id, organisationId);
        employees := WithoutEmployee(employees, id, organisationId);
        memberships := DetachEmployee(memberships, id);
      }
    }

    /** Team.create: fails (FOREIGN KEY) on an unknown organisation. */
    method CreateTeam(organisationId: int, name: string, description: Option<string>) returns (r: Result<Team, StoreError>)
      requires Valid()
      modifies this`teams, this`nextTeamId
      ensures Valid()
      ensures r.Success? <==> organisationId in OrganisationIds(organisations)
      ensures r.Success? ==>
        && r.value == Team(old(nextTeamId), organisationId, name, description)
        && (forall t :: t in old(teams) ==> t.id < r.value.id)
        && teams == old(teams) + [r.value]
        && nextTeamId == old(nextTeamId) + 1
      ensures r.Failure? ==> teams == old(teams) && nextTeamId == old(nextTeamId)
    {
      if organisationId !in OrganisationIds(organisations) {
        return Failure(ConstraintViolation);
      }
      var t := Team(nextTeamId, organisationId, name, description);
      assert TeamIds(teams + [t]) == TeamIds(teams) + {t.id};
      teams := teams + [t];
      nextTeamId := nextTeamId + 1;
      r := Success(t);
    }

    /** Team.update: overwrites name and description of the (id, organisation) row, if there is one. */
    method UpdateTeam(id: int, organisationId: int, name: string, description: Option<string>)
      requires Valid()
      modifies this`teams
      ensures Valid()
      ensures teams == UpdateTeams(old(teams), id, organisationId, name, description)
    {
      var updated := UpdateTeams(teams, id, organisationId, name, description);
      assert TeamIds(updated) == TeamIds(teams) by {
        forall x | x in TeamIds(teams) ensures x in TeamIds(updated) {
          var t :| t in teams && t.id == x;
          var i :| 0 <= i < |teams| && teams[i] == t;
          assert updated[i].id == x;
        }
        forall x | x in TeamIds(updated) ensures x in TeamIds(teams) {
          var t :| t in updated && t.id == x;
          var i :| 0 <= i < |updated| && updated[i] == t;
          assert teams[i].id == x;
        }
      }
      assert TeamsValid(updated, organisations) by {
        forall t | t in updated ensures t.organisationId in OrganisationIds(organisations) {
          var i :| 0 <= i < |updated| && updated[i] == t;
          assert teams[i] in teams;
        }
      }
      assert AutoIncremented(updated, TeamKey, nextTeamId) by {
        forall i, j | 0 <= i < j < |updated| ensures TeamKey(updated[i]) < TeamKey(updated[j]) {
          assert TeamKey(teams[i]) < TeamKey(teams[j]);
        }
        forall i | 0 <= i < |updated| ensures TeamKey(updated[i]) < nextTeamId {
          assert TeamKey(teams[i]) < nextTeamId;
        }
      }
      teams := updated;
    }

    /**
     * Team.delete: removes the (id, organisation) row and reports whether there was one;
     * ON DELETE CASCADE removes the join rows that reference it.
     */
    method DeleteTeam(id: int, organisationId: int) returns (deleted: bool)
      requires Valid()
      modifies this`teams, this`memberships
      ensures Valid()
      ensures deleted <==> FindTeam(old(teams), id, organisationId).Some?
      ensures teams == if deleted then WithoutTeam(old(teams), id, organisationId) else old(teams)
      ensures memberships == if deleted then DetachTeam(old(memberships), id) else old(memberships)
      ensures forall t :: t in teams ==> !(t.id == id && t.organisationId == organisationId)
    {
      deleted := FindTeam(teams, id, organisationId).Some?;
      if deleted {
        FilterKeepsAutoIncremented(teams, (t: Team) => !(t.id == id && t.organisationId == organisationId), TeamKey, nextTeamId);
        FilterKeepsAutoIncremented(memberships, (m: Membership) => m.teamId != id, MembershipKey, nextMembershipId);
        DetachTeamKeepsReferences(employees, memberships, teams, id, organisationId);
        teams := WithoutTeam(teams, id, organisationId);
        memberships := DetachTeam(memberships, id);
      }
    }

    /**
     * Team.assignEmployee: inserts the join row and answers true; a UNIQUE violation (the pair is
     * already there) answers false and changes nothing; a FOREIGN KEY violation is an error.
     */
    method AssignEmployee(teamId: int, employeeId: int) returns (r: Result<bool, StoreError>)
      requires Valid()
      modifies this`memberships, this`nextMembershipId
      ensures Valid()
      ensures (employeeId, teamId) in Pairs(old(memberships)) ==>
        r == Success(false) && memberships == old(memberships) && nextMembershipId == old(nextMembershipId)
      ensures (employeeId, teamId) !in Pairs(old(memberships)) && employeeId in EmployeeIds(employees) && teamId in TeamIds(teams) ==>
        && r == Success(true)
        && memberships == old(memberships) + [Membership(old(nextMembershipId), employeeId, teamId)]
        && nextMembershipId == old(nextMembershipId) + 1
        && Pairs(memberships) == Pairs(old(memberships)) + {(employeeId, teamId)}
      ensures (employeeId, teamId) !in Pairs(old(memberships)) && !(employeeId in EmployeeIds(employees) && teamId in TeamIds(teams)) ==>
        r.Failure? && memberships == old(memberships) && nextMembershipId == old(nextMembershipId)
    {
      if (employeeId, teamId) in Pairs(memberships) {
        return Success(false);
      }
      if employeeId !in EmployeeIds(employees) || teamId !in TeamIds(teams) {
        return Failure(ConstraintViolation);
      }
      var m := Membership(nextMembershipId, employeeId, teamId);
      assert Pairs(memberships + [m]) == Pairs(memberships) + {(employeeId, teamId)} by {
        assert forall x :: x in memberships + [m] <==> x in memberships || x == m;
      }
      memberships := memberships + [m];
      nextMembershipId := nextMembershipId + 1;
      r := Success(true);
    }

    /** Team.unassignEmployee: removes the (employee, team) row and reports whether there was one. */
    method UnassignEmployee(teamId: int, employeeId: int) returns (removed: bool)
      requires Valid()
      modifies this`memberships
      ensures Valid()
      ensures removed <==> (employeeId, teamId) in Pairs(old(memberships))
      ensures memberships == WithoutPair(old(memberships), employeeId, teamId)
      ensures Pairs(memberships) == Pairs(old(memberships)) - {(employeeId, teamId)}
      ensures !removed ==> memberships == old(memberships)
    {
      removed := (employeeId, teamId) in Pairs(memberships);
      var kept := WithoutPair(memberships, employeeId, teamId);
      var keep := (m: Membership) => !(m.employeeId == employeeId && m.teamId == teamId);
      FilterKeepsAutoIncremented(memberships, keep, MembershipKey, nextMembershipId);
      if !removed {
        FilterKeepsAll(memberships, keep);
      }
      memberships := kept;
    }

    /** Log.create: appends exactly one row stamped with the current time; a missing meta is stored as NULL. */
    method CreateLog(organisationId: Option<int>, userId: Option<int>, action: string, meta: Option<Meta>)
      requires Valid()
      modifies this`logs, this`nextLogId, this`clock
      ensures Valid()
      ensures logs == old(logs) + [LogEntry(old(nextLogId), organisationId, userId, action, meta, old(clock))]
      ensures Appended(old(logs), logs, LogRecord(organisationId, userId, action, meta))
      ensures nextLogId == old(nextLogId) + 1 && clock == old(clock) + 1
    {
      logs := logs + [LogEntry(nextLogId, organisationId, userId, action, meta, clock)];
      nextLogId := nextLogId + 1;
      clock := clock + 1;
    }
  }
}
