/** The employee request handlers: list, get, create, update and delete. */
module EmployeeController {
  import opened Wrappers
  import opened Js
  import opened Seqs
  import opened Schema
  import opened Models
  import opened Http

  /** An employee as the list and get handlers return it: the row and the teams it belongs to. */
  datatype EmployeeListing = EmployeeListing(employee: Employee, teams: seq<Team>)

  /** listEmployees: every employee of the caller's organisation, each with its teams. */
  function ListEmployees(store: Store, caller: Identity): (r: seq<EmployeeListing>)
    reads store
    ensures |r| == |FindEmployees(store.employees, caller.orgId)|
    ensures forall i :: 0 <= i < |r| ==>
      && r[i].employee == FindEmployees(store.employees, caller.orgId)[i]
      && forall t :: t in r[i].teams <==>
           t in store.teams && t.organisationId == caller.orgId && (r[i].employee.id, t.id) in Pairs(store.memberships)
  {
    var es := FindEmployees(store.employees, caller.orgId);
    var ts := store.teams;
    var ms := store.memberships;
    seq(|es|, i requires 0 <= i < |es| => EmployeeListing(es[i], EmployeeTeams(ts, ms, es[i].id, caller.orgId)))
  }

  /** getEmployee: 404 unless the employee is in the caller's organisation; otherwise the row and its teams. */
  function GetEmployee(store: Store, caller: Identity, id: int): (r: Reply<EmployeeListing>)
    reads store
    ensures r.status == 404 <==> FindEmployee(store.employees, id, caller.orgId).None?
    ensures r.status == 404 ==> r == Reply(404, "Employee not found", None)
    ensures r.status != 404 ==>
      && r.status == 200 && r.data.Some?
      && r.data.value.employee in store.employees
      && r.data.value.employee.id == id && r.data.value.employee.organisationId == caller.orgId
      && forall t :: t in r.data.value.teams <==>
           t in store.teams && t.organisationId == caller.orgId && (id, t.id) in Pairs(store.memberships)
  {
    match FindEmployee(store.employees, id, caller.orgId)
    case None => Reply(404, "Employee not found", None)
    case Some(e) => Reply(200, "", Some(EmployeeListing(e, EmployeeTeams(store.teams, store.memberships, id, caller.orgId))))
  }

  /** createEmployee: both names must be non-empty strings; email and phone are stored as sent. */
  method CreateEmployee(store: Store, caller: Identity, firstName: JsValue, lastName: JsValue, email: JsValue, phone: JsValue)
    returns (reply: Reply<Employee>)
    requires store.Valid()
    modifies store`employees, store`nextEmployeeId, store`logs, store`nextLogId, store`clock
    ensures store.Valid()
    ensures !Truthy(firstName) || !Truthy(lastName) ==>
      && reply == Reply(400, "First name and last name are required", None)
      && store.employees == old(store.employees) && store.logs == old(store.logs)
    ensures Truthy(firstName) && Truthy(lastName) && caller.orgId !in OrganisationIds(store.organisations) ==>
      reply.status == 500 && store.employees == old(store.employees) && store.logs == old(store.logs)
    ensures Truthy(firstName) && Truthy(lastName) && caller.orgId in OrganisationIds(store.organisations) ==>
      var e := Employee(old(store.nextEmployeeId), caller.orgId, Some(firstName.s), Some(lastName.s), Column(email), Column(phone));
      && reply == Reply(201, "Employee created successfully", Some(e))
      && store.employees == old(store.employees) + [e]
      && FindEmployee(store.employees, e.id, caller.orgId) == Some(e)
      && Appended(old(store.logs), store.logs,
           LogRecord(Some(caller.orgId), Some(caller.userId), "employee_created", Some(EmployeeCreated(e.id, firstName.s, lastName.s))))
  {
    if !Truthy(firstName) || !Truthy(lastName) {
      return Reply(400, "First name and last name are required", None);
    }
    var created := store.CreateEmployee(caller.orgId, Some(firstName.s), Some(lastName.s), Column(email), Column(phone));
    if created.Failure? {
      return Reply(500, "Internal server error", None);
    }
    var e := created.value;
    FindEmployeeIsScoped(store.employees, e, caller.orgId);
    store.CreateLog(Some(caller.orgId), Some(caller.userId), "employee_created", Some(EmployeeCreated(e.id, firstName.s, lastName.s)));
    reply := Reply(201, "Employee created successfully", Some(e));
  }

  /**
   * The row updateEmployee writes: a falsy name keeps the stored one, while an email or phone
   * that is present at all replaces the stored one, so `""` stores an empty string and `null`
   * clears the column.
   */
  function UpdatedEmployee(existing: Employee, firstName: JsValue, lastName: JsValue, email: JsValue, phone: JsValue): (e: Employee)
    ensures e.id == existing.id && e.organisationId == existing.organisationId
    ensures e.firstName == if Truthy(firstName) then Some(firstName.s) else existing.firstName
    ensures e.lastName == if Truthy(lastName) then Some(lastName.s) else existing.lastName
    ensures e.email == if email.Undefined? then existing.email else Column(email)
    ensures e.phone == if phone.Undefined? then existing.phone else Column(phone)
  {
    existing.(
      firstName := OrElse(firstName, existing.firstName),
      lastName := OrElse(lastName, existing.lastName),
      email := DefinedOr(email, existing.email),
      phone := DefinedOr(phone, existing.phone))
  }

  /** A body that names no field writes the row back as it was. */
  lemma EmptyUpdateKeepsEmployee(existing: Employee)
    ensures UpdatedEmployee(existing, Undefined, Undefined, Undefined, Undefined) == existing
  {
  }

  /** Sending the same partial update twice writes what sending it once does. */
  lemma UpdatedEmployeeIdempotent(existing: Employee, firstName: JsValue, lastName: JsValue, email: JsValue, phone: JsValue)
    ensures var once := UpdatedEmployee(existing, firstName, lastName, email, phone);
      UpdatedEmployee(once, firstName, lastName, email, phone) == once
  {
  }

  /** After Employee.update, the (id, organisation) lookup finds exactly the row that was written. */
  lemma UpdateEmployeesReadBack(rows: seq<Employee>, existing: Employee, e: Employee)
    requires Increasing(rows, EmployeeKey)
    requires existing in rows
    requires e.id == existing.id && e.organisationId == existing.organisationId
    ensures FindEmployee(UpdateEmployees(rows, existing.id, existing.organisationId, e.firstName, e.lastName, e.email, e.phone),
              existing.id, existing.organisationId) == Some(e)
  {
    var updated := UpdateEmployees(rows, existing.id, existing.organisationId, e.firstName, e.lastName, e.email, e.phone);
    var k :| 0 <= k < |rows| && rows[k] == existing;
    assert updated[k] == e;
    assert Increasing(updated, EmployeeKey) by {
      forall i, j | 0 <= i < j < |updated| ensures EmployeeKey(updated[i]) < EmployeeKey(updated[j]) {
        assert EmployeeKey(rows[i]) < EmployeeKey(rows[j]);
      }
    }
    FindEmployeeIsScoped(updated, e, existing.organisationId);
  }

  /** updateEmployee: a log row is written even when the body changes nothing. */
  method UpdateEmployee(store: Store, caller: Identity, id: int, firstName: JsValue, lastName: JsValue, email: JsValue, phone: JsValue)
    returns (reply: Reply<Employee>)
    requires store.Valid()
    modifies store`employees, store`logs, store`nextLogId, store`clock
    ensures store.Valid()
    ensures FindEmployee(old(store.employees), id, caller.orgId).None? ==>
      && reply == Reply(404, "Employee not found", None)
      && store.employees == old(store.employees) && store.logs == old(store.logs)
    ensures FindEmployee(old(store.employees), id, caller.orgId).Some? ==>
      var written := UpdatedEmployee(FindEmployee(old(store.employees), id, caller.orgId).value, firstName, lastName, email, phone);
      && reply == Reply(200, "Employee updated successfully", Some(written))
      && store.employees == UpdateEmployees(old(store.employees), id, caller.orgId, written.firstName, written.lastName, written.email, written.phone)
      && FindEmployee(store.employees, id, caller.orgId) == Some(written)
      && Appended(old(store.logs), store.logs,
           LogRecord(Some(caller.orgId), Some(caller.userId), "employee_updated",
             Some(EmployeeUpdated(id, firstName, lastName, email, phone))))
  {
    var existing := FindEmployee(store.employees, id, caller.orgId);
    if existing.None? {
      return Reply(404, "Employee not found", None);
    }
    var written := UpdatedEmployee(existing.value, firstName, lastName, email, phone);
    UpdateEmployeesReadBack(store.employees, existing.value, written);
    store.UpdateEmployee(id, caller.orgId, written.firstName, written.lastName, written.email, written.phone);
    store.CreateLog(Some(caller.orgId), Some(caller.userId), "employee_updated",
      Some(EmployeeUpdated(id, firstName, lastName, email, phone)));
    reply := Reply(200, "Employee updated successfully", Some(written));
  }

  /** deleteEmployee: the employee goes, with every join row that references it; the log keeps the old names. */
  method DeleteEmployee(store: Store, caller: Identity, id: int) returns (reply: Reply<()>)
    requires store.Valid()
    modifies store`employees, store`memberships, store`logs, store`nextLogId, store`clock
    ensures store.Valid()
    ensures FindEmployee(old(store.employees), id, caller.orgId).None? ==>
      && reply == Reply(404, "Employee not found", None)
      && store.employees == old(store.employees) && store.memberships == old(store.memberships)
      && store.logs == old(store.logs)
    ensures FindEmployee(old(store.employees), id, caller.orgId).Some? ==>
      var gone := FindEmployee(old(store.employees), id, caller.orgId).value;
      && reply == Reply(200, "Employee deleted successfully", None)
      && store.employees == WithoutEmployee(old(store.employees), id, caller.orgId)
      && store.memberships == DetachEmployee(old(store.memberships), id)
      && (forall teamId, e :: e in TeamMembers(store.employees, store.memberships, teamId, caller.orgId) ==> e.id != id)
      && Appended(old(store.logs), store.logs,
           LogRecord(Some(caller.orgId), Some(caller.userId), "employee_deleted",
             Some(EmployeeDeleted(id, gone.firstName, gone.lastName))))
  {
    var employee := FindEmployee(store.employees, id, caller.orgId);
    if employee.None? {
      return Reply(404, "Employee not found", None);
    }
    var deleted := store.DeleteEmployee(id, caller.orgId);
    if deleted {
      store.CreateLog(Some(caller.orgId), Some(caller.userId), "employee_deleted",
        Some(EmployeeDeleted(id, employee.value.firstName, employee.value.lastName)));
      reply := Reply(200, "Employee deleted successfully", None);
    } else {
      reply := Reply(404, "Employee not found", None);
    }
  }
}
