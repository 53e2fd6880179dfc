/**
 * The relational schema: one record type per table and the table constraints
 * (NOT NULL, UNIQUE, FOREIGN KEY, AUTOINCREMENT) as predicates over the tables.
 * A NOT NULL column has a plain type; a nullable column is an `Option`.
 * Foreign keys are taken to be enforced, as the schema declares them.
 */
module Schema {
  import opened Wrappers
  import opened Js
  import opened Seqs

  datatype Organisation = Organisation(id: int, name: string)

  datatype User = User(id: int, organisationId: int, email: string, passwordHash: string, name: Option<string>)

  datatype Employee = Employee(
    id: int,
    organisationId: int,
    firstName: Option<string>,
    lastName: Option<string>,
    email: Option<string>,
    phone: Option<string>)

  datatype Team = Team(id: int, organisationId: int, name: string, description: Option<string>)

  /** A row of the employee/team join table. */
  datatype Membership = Membership(id: int, employeeId: int, teamId: int)

  /** The structured payload a log row carries, one variant per logged action. */
  datatype Meta =
    | OrganisationCreated(organisationId: int, organisationName: string)
    | UserLogin(userId: int, email: string)
    | UserLogout(userId: int)
    | EmployeeCreated(employeeId: int, firstName: string, lastName: string)
    | EmployeeUpdated(employeeId: int, newFirstName: JsValue, newLastName: JsValue, newEmail: JsValue, newPhone: JsValue)
    | EmployeeDeleted(employeeId: int, oldFirstName: Option<string>, oldLastName: Option<string>)
    | TeamCreated(teamId: int, name: string)
    | TeamUpdated(teamId: int, newName: JsValue, newDescription: JsValue)
    | TeamDeleted(teamId: int, name: string)
    | EmployeeAssigned(employeeId: int, teamId: int, employeeName: string, teamName: string)
    | EmployeeUnassigned(employeeId: int, teamId: int, employeeName: string, teamName: string)

  /** A log row: the action is required, the organisation, the user and the meta may be NULL. */
  datatype LogEntry = LogEntry(
    id: int,
    organisationId: Option<int>,
    userId: Option<int>,
    action: string,
    meta: Option<Meta>,
    timestamp: int)

  /** The errors a constraint raises on INSERT (UNIQUE or FOREIGN KEY). */
  datatype StoreError = ConstraintViolation

  function OrganisationKey(o: Organisation): int { o.id }
  function UserKey(u: User): int { u.id }
  function EmployeeKey(e: Employee): int { e.id }
  function TeamKey(t: Team): int { t.id }
  function MembershipKey(m: Membership): int { m.id }
  function LogKey(l: LogEntry): int { l.id }
  function LogTime(l: LogEntry): int { l.timestamp }

  /**
   * AUTOINCREMENT: ids grow along the table (rowid order) and stay below `next`, the id the
   * next insert receives; `next` never goes back, so an id is never issued twice.
   */
  ghost predicate AutoIncremented<T>(rows: seq<T>, key: T -> int, next: int) {
    Increasing(rows, key) && forall i :: 0 <= i < |rows| ==> key(rows[i]) < next
  }

  /** Deleting rows keeps AUTOINCREMENT's guarantees for the rows that remain. */
  lemma FilterKeepsAutoIncremented<T(!new)>(rows: seq<T>, p: T -> bool, key: T -> int, next: int)
    requires AutoIncremented(rows, key, next)
    ensures AutoIncremented(Filter(rows, p), key, next)
  {
    var kept := Filter(rows, p);
    FilterKeepsIncreasing(rows, p, key);
    forall i | 0 <= i < |kept| ensures key(kept[i]) < next {
      assert kept[i] in rows;
      var j :| 0 <= j < |rows| && rows[j] == kept[i];
    }
  }

  function OrganisationIds(orgs: seq<Organisation>): set<int> { set o | o in orgs :: o.id }
  function EmployeeIds(employees: seq<Employee>): set<int> { set e | e in employees :: e.id }
  function TeamIds(teams: seq<Team>): set<int> { set t | t in teams :: t.id }

  /** The (employee_id, team_id) pairs the join table holds. */
  function Pairs(ms: seq<Membership>): set<(int, int)> { set m | m in ms :: (m.employeeId, m.teamId) }

  /** users: organisation_id references an organisation; email is UNIQUE across all organisations. */
  ghost predicate UsersValid(users: seq<User>, orgs: seq<Organisation>) {
    && (forall u :: u in users ==> u.organisationId in OrganisationIds(orgs))
    && (forall u, v :: u in users && v in users && u.email == v.email ==> u == v)
  }

  /** employees: organisation_id references an organisation. */
  ghost predicate EmployeesValid(employees: seq<Employee>, orgs: seq<Organisation>) {
    forall e :: e in employees ==> e.organisationId in OrganisationIds(orgs)
  }

  /** teams: organisation_id references an organisation. */
  ghost predicate TeamsValid(teams: seq<Team>, orgs: seq<Organisation>) {
    forall t :: t in teams ==> t.organisationId in OrganisationIds(orgs)
  }

  /** employee_teams: both ends reference existing rows, and UNIQUE(employee_id, team_id). */
  ghost predicate MembershipsValid(ms: seq<Membership>, employees: seq<Employee>, teams: seq<Team>) {
    && (forall m :: m in ms ==> m.employeeId in EmployeeIds(employees) && m.teamId in TeamIds(teams))
    && UniquePairs(ms)
  }

  /** UNIQUE(employee_id, team_id): no two join rows hold the same pair. */
  ghost predicate UniquePairs(ms: seq<Membership>) {
    forall m, n :: m in ms && n in ms && m.employeeId == n.employeeId && m.teamId == n.teamId ==> m == n
  }

  lemma PairsCons(ms: seq<Membership>)
    requires ms != []
    ensures Pairs(ms) == {(ms[0].employeeId, ms[0].teamId)} + Pairs(ms[1..])
  {
    assert forall m :: m in ms <==> m == ms[0] || m in ms[1..];
  }

  /**
   * The UNIQUE(employee_id, team_id) constraint, counted: with distinct row ids the join table
   * has exactly one row per pair it holds.
   */
  lemma {:induction false} OneRowPerPair(ms: seq<Membership>)
    requires UniquePairs(ms)
    requires Increasing(ms, MembershipKey)
    ensures |Pairs(ms)| == |ms|
  {
    if ms != [] {
      var m := ms[0];
      var rest := ms[1..];
      assert UniquePairs(rest);
      assert Increasing(rest, MembershipKey);
      OneRowPerPair(rest);
      PairsCons(ms);
      forall n | n in rest ensures (n.employeeId, n.teamId) != (m.employeeId, m.teamId) {
        var k :| 0 <= k < |rest| && rest[k] == n;
        assert MembershipKey(ms[0]) < MembershipKey(ms[k + 1]);
      }
      assert (m.employeeId, m.teamId) !in Pairs(rest);
    }
  }
}
