/**
 * The employee table behind backend/app/routers/employee.py. Employees are never removed:
 * delete sets the is_deleted flag, and listing hides flagged rows unless asked not to.
 * Create and update check the role and branch they name against the role and branch
 * tables, whose ids are passed in. Salaries are whole hundredths; timestamps are not modelled.
 */
module Employees {
  import opened Common
  import opened Tables

  datatype Employee = Employee(
    fullName: string,
    birthDate: Option<int>,
    gender: Option<string>,
    phone: Option<string>,
    email: Option<string>,
    address: Option<string>,
    salary: Option<int>,
    roleId: Option<int>,
    branchId: Option<int>,
    isDeleted: Option<bool>)

  /** EmployeeCreate: role and branch required, `is_deleted` defaulting to False. */
  datatype EmployeeCreate = EmployeeCreate(
    fullName: string,
    birthDate: Option<int>,
    gender: Option<string>,
    phone: Option<string>,
    email: Option<string>,
    address: Option<string>,
    salary: Option<int>,
    roleId: int,
    branchId: int,
    isDeleted: Option<bool>)

  /** EmployeeUpdate: every field optional. */
  datatype EmployeeUpdate = EmployeeUpdate(
    fullName: Option<string>,
    birthDate: Option<int>,
    gender: Option<string>,
    phone: Option<string>,
    email: Option<string>,
    address: Option<string>,
    salary: Option<int>,
    roleId: Option<int>,
    branchId: Option<int>,
    isDeleted: Option<bool>)

  /** The filters of list_employees. */
  datatype EmployeeQuery = EmployeeQuery(
    search: Option<string>,
    roleId: Option<int>,
    branchId: Option<int>,
    includeDeleted: bool)

  /**
   * The WHERE clause of list_employees for one row. `is_deleted == False` is false for a
   * NULL flag, and `role_id == x` is false for a NULL role, as in SQL.
   */
  predicate Selected(rows: map<int, Employee>, q: EmployeeQuery, id: int) {
    id in rows
    && (q.includeDeleted || rows[id].isDeleted == Some(false))
    && (NoTerm(q.search)
        || Hit(rows[id].fullName, q.search.value)
        || HitOpt(rows[id].email, q.search.value)
        || HitOpt(rows[id].phone, q.search.value))
    && (q.roleId.None? || rows[id].roleId == q.roleId)
    && (q.branchId.None? || rows[id].branchId == q.branchId)
  }

  function Where(rows: map<int, Employee>, q: EmployeeQuery): int -> bool {
    (id: int) => Selected(rows, q, id)
  }

  /** list_employees: the rows passing every filter, by employee_id, offset and limit as given. */
  function Listing(rows: map<int, Employee>, skip: int, limit: int, q: EmployeeQuery): Result<seq<(int, Employee)>> {
    Fetch(rows, Where(rows, q), skip, limit)
  }

  /**
   * Listing fails on a negative offset or limit; otherwise every listed employee exists,
   * is not flagged deleted unless deleted ones were asked for, and holds the requested
   * role and branch; ids ascend.
   */
  lemma ListingRows(rows: map<int, Employee>, skip: int, limit: int, q: EmployeeQuery)
    ensures var r := Listing(rows, skip, limit, q);
      (r.Err? <==> skip < 0 || limit < 0)
      && (r.Ok? ==>
            |r.value| <= limit
            && (forall i, j :: 0 <= i < j < |r.value| ==> r.value[i].0 < r.value[j].0)
            && forall i :: 0 <= i < |r.value| ==>
                 var (id, e) := r.value[i];
                 id in rows && rows[id] == e && Selected(rows, q, id)
                 && (!q.includeDeleted ==> e.isDeleted == Some(false))
                 && (q.roleId.Some? ==> e.roleId == q.roleId)
                 && (q.branchId.Some? ==> e.branchId == q.branchId))
  {
    FetchKept(rows, Where(rows, q), skip, limit);
  }

  /** get_employee: soft-deleted employees are still found. */
  function Get(rows: map<int, Employee>, employeeId: int): (r: Result<Employee>)
    ensures r.Err? <==> employeeId !in rows
    ensures r.Err? ==> r.error == NotFound
    ensures r.Ok? ==> r.value == rows[employeeId]
  {
    if employeeId in rows then Ok(rows[employeeId]) else Err(NotFound)
  }

  /** The row create_employee builds: name trimmed, a missing flag stored as False. */
  function NewEmployee(p: EmployeeCreate): (e: Employee)
    ensures e.fullName == Trim(p.fullName) && Stripped(e.fullName)
    ensures e.isDeleted == Some(p.isDeleted.Some? && p.isDeleted.value)
    ensures e.roleId == Some(p.roleId) && e.branchId == Some(p.branchId)
    ensures e.birthDate == p.birthDate && e.gender == p.gender && e.phone == p.phone
      && e.email == p.email && e.address == p.address && e.salary == p.salary
  {
    Employee(Trim(p.fullName), p.birthDate, p.gender, p.phone, p.email, p.address, p.salary,
             Some(p.roleId), Some(p.branchId), Some(p.isDeleted.GetOr(false)))
  }

  /** The field assignments of update_employee: only given fields change, the name trimmed. */
  function Patched(e: Employee, p: EmployeeUpdate): (r: Employee)
    ensures r.fullName == (if p.fullName.Some? then Trim(p.fullName.value) else e.fullName)
    ensures r.birthDate == Assigned(p.birthDate, e.birthDate) && r.gender == Assigned(p.gender, e.gender)
    ensures r.phone == Assigned(p.phone, e.phone) && r.email == Assigned(p.email, e.email)
    ensures r.address == Assigned(p.address, e.address) && r.salary == Assigned(p.salary, e.salary)
    ensures r.roleId == Assigned(p.roleId, e.roleId) && r.branchId == Assigned(p.branchId, e.branchId)
    ensures r.isDeleted == Assigned(p.isDeleted, e.isDeleted)
  {
    Employee(
      if p.fullName.Some? then Trim(p.fullName.value) else e.fullName,
      Assigned(p.birthDate, e.birthDate),
      Assigned(p.gender, e.gender),
      Assigned(p.phone, e.phone),
      Assigned(p.email, e.email),
      Assigned(p.address, e.address),
      Assigned(p.salary, e.salary),
      Assigned(p.roleId, e.roleId),
      Assigned(p.branchId, e.branchId),
      Assigned(p.isDeleted, e.isDeleted))
  }

  /** Which check of update_employee fails first, if any: existence, then role, then branch. */
  function UpdateCheck(rows: map<int, Employee>, roleIds: set<int>, branchIds: set<int>, employeeId: int, p: EmployeeUpdate): (r: Option<Error>)
    ensures r.None? <==>
      employeeId in rows
      && (p.roleId.Some? ==> p.roleId.value in roleIds)
      && (p.branchId.Some? ==> p.branchId.value in branchIds)
    ensures employeeId !in rows ==> r == Some(NotFound)
    ensures employeeId in rows && r.Some? ==> r == Some(BadRequest)
  {
    if employeeId !in rows then Some(NotFound)
    else if p.roleId.Some? && p.roleId.value !in roleIds then Some(BadRequest)
    else if p.branchId.Some? && p.branchId.value !in branchIds then Some(BadRequest)
    else None
  }

  /** The `if payload.x is not None: employee.x = ...` assignments after the checks. */
  method AssignFields(e: Employee, p: EmployeeUpdate) returns (r: Employee)
    requires p.roleId.Some? ==> e.roleId == p.roleId
    requires p.branchId.Some? ==> e.branchId == p.branchId
    ensures r == Patched(e, p)
  {
    r := e;
    if p.fullName.Some? {
      r := r.(fullName := Trim(p.fullName.value));
    }
    if p.birthDate.Some? {
      r := r.(birthDate := p.birthDate);
    }
    if p.gender.Some? {
      r := r.(gender := p.gender);
    }
    if p.phone.Some? {
      r := r.(phone := p.phone);
    }
    if p.email.Some? {
      r := r.(email := p.email);
    }
    if p.address.Some? {
      r := r.(address := p.address);
    }
    if p.salary.Some? {
      r := r.(salary := p.salary);
    }
    if p.isDeleted.Some? {
      r := r.(isDeleted := p.isDeleted);
    }
  }

  class EmployeeTable {
    var rows: map<int, Employee>
    /** The next value of the employee_id sequence. */
    var nextId: int

    ghost predicate Valid()
      reads this
    {
      forall id :: id in rows ==> id < nextId
    }

    constructor(initial: map<int, Employee>, next: int)
      requires forall id :: id in initial ==> id < next
      ensures Valid() && rows == initial && nextId == next
    {
      rows := initial;
      nextId := next;
    }

    /** create_employee: bad request for an unknown role, then for an unknown branch. */
    method CreateEmployee(roleIds: set<int>, branchIds: set<int>, p: EmployeeCreate) returns (r: Result<(int, Employee)>)
      requires Valid()
      modifies this
      ensures Valid()
      ensures p.roleId !in roleIds || p.branchId !in branchIds ==>
        r == Err(BadRequest) && rows == old(rows) && nextId == old(nextId)
      ensures p.roleId in roleIds && p.branchId in branchIds ==>
        r == Ok((old(nextId), NewEmployee(p))) && rows == old(rows)[old(nextId) := NewEmployee(p)]
        && nextId == old(nextId) + 1
    {
      if p.roleId !in roleIds {
        return Err(BadRequest);
      }
      if p.branchId !in branchIds {
        return Err(BadRequest);
      }
      var e := NewEmployee(p);
      rows := rows[nextId := e];
      r := Ok((nextId, e));
      nextId := nextId + 1;
    }

    /** update_employee: the checks, then the given fields one by one. */
    method UpdateEmployee(roleIds: set<int>, branchIds: set<int>, employeeId: int, p: EmployeeUpdate) returns (r: Result<Employee>)
      requires Valid()
      modifies this
      ensures Valid() && nextId == old(nextId)
      ensures var check := UpdateCheck(old(rows), roleIds, branchIds, employeeId, p);
        (check.Some? ==> r == Err(check.value) && rows == old(rows))
        && (check.None? ==>
              r == Ok(Patched(old(rows)[employeeId], p))
              && rows == old(rows)[employeeId := Patched(old(rows)[employeeId], p)])
    {
      if employeeId !in rows {
        return Err(NotFound);
      }
      var e := rows[employeeId];
      if p.roleId.Some? {
        if p.roleId.value !in roleIds {
          return Err(BadRequest);
        }
        e := e.(roleId := p.roleId);
      }
      if p.branchId.Some? {
        if p.branchId.value !in branchIds {
          return Err(BadRequest);
        }
        e := e.(branchId := p.branchId);
      }
      e := AssignFields(e, p);
      rows := rows[employeeId := e];
      r := Ok(e);
    }

    /** delete_employee: not found for an unknown id, otherwise the row is flagged, not removed. */
    method DeleteEmployee(employeeId: int) returns (r: Result<()>)
      requires Valid()
      modifies this
      ensures Valid() && nextId == old(nextId)
      ensures employeeId !in old(rows) ==> r == Err(NotFound) && rows == old(rows)
      ensures employeeId in old(rows) ==>
        r == Ok(()) && rows == old(rows)[employeeId := old(rows)[employeeId].(isDeleted := Some(true))]
    {
      if employeeId !in rows {
        return Err(NotFound);
      }
      var e := rows[employeeId];
      e := e.(isDeleted := Some(true));
      rows := rows[employeeId := e];
      r := Ok(());
    }
  }

  /**
   * After a soft delete the employee is still there (get_employee finds it, flagged) but a
   * listing without include_deleted no longer selects it.
   */
  lemma SoftDeleteHides(rows: map<int, Employee>, employeeId: int, q: EmployeeQuery)
    requires employeeId in rows && !q.includeDeleted
    ensures var after := rows[employeeId := rows[employeeId].(isDeleted := Some(true))];
      after.Keys == rows.Keys
      && Get(after, employeeId).Ok? && Get(after, employeeId).value.isDeleted == Some(true)
      && !Selected(after, q, employeeId)
  {
  }

  /** An update giving no field changes nothing. */
  lemma EmptyUpdateKeeps(e: Employee)
    ensures Patched(e, EmployeeUpdate(None, None, None, None, None, None, None, None, None, None)) == e
  {
  }
}
