/**
 * The customer table behind backend/app/routers/customer.py, over the `Customer` row of
 * the data model (national_id is its citizen id, register_date its registration date).
 * Customers are never removed: delete sets the is_deleted flag, and listing hides flagged
 * rows unless asked not to. Timestamps are not modelled.
 */
module Customers {
  import opened Common
  import opened Models
  import opened Tables

  /** CustomerCreate: only the name is required; `is_deleted` defaults to False. */
  datatype CustomerCreate = CustomerCreate(
    fullName: string,
    phone: Option<string>,
    email: Option<string>,
    address: Option<string>,
    nationalId: Option<string>,
    registerDate: Option<Day>,
    isDeleted: Option<bool>)

  /** CustomerUpdate: every field optional. */
  datatype CustomerUpdate = CustomerUpdate(
    fullName: Option<string>,
    phone: Option<string>,
    email: Option<string>,
    address: Option<string>,
    nationalId: Option<string>,
    registerDate: Option<Day>,
    isDeleted: Option<bool>)

  /**
   * The WHERE clause of list_customers for one row; `is_deleted == False` is false for a
   * NULL flag, as in SQL.
   */
  predicate Selected(rows: map<int, Customer>, search: Option<string>, includeDeleted: bool, id: int) {
    id in rows
    && (includeDeleted || rows[id].isDeleted == Some(false))
    && (NoTerm(search)
        || Hit(rows[id].fullName, search.value)
        || HitOpt(rows[id].email, search.value)
        || HitOpt(rows[id].phone, search.value))
  }

  function Where(rows: map<int, Customer>, search: Option<string>, includeDeleted: bool): int -> bool {
    (id: int) => Selected(rows, search, includeDeleted, id)
  }

  /** list_customers: the rows passing the filters, by customer_id, offset and limit as given. */
  function Listing(rows: map<int, Customer>, skip: int, limit: int, search: Option<string>, includeDeleted: bool): Result<seq<(int, Customer)>> {
    Fetch(rows, Where(rows, search, includeDeleted), skip, limit)
  }

  /**
   * Listing fails on a negative offset or limit; otherwise every listed customer exists,
   * matches the search, and is not flagged deleted unless deleted ones were asked for.
   */
  lemma ListingRows(rows: map<int, Customer>, skip: int, limit: int, search: Option<string>, includeDeleted: bool)
    ensures var r := Listing(rows, skip, limit, search, includeDeleted);
      (r.Err? <==> skip < 0 || limit < 0)
      && (r.Ok? ==>
            |r.value| <= limit
            && (forall i, j :: 0 <= i < j < |r.value| ==> r.value[i].0 < r.value[j].0)
            && forall i :: 0 <= i < |r.value| ==>
                 var (id, c) := r.value[i];
                 id in rows && rows[id] == c && Selected(rows, search, includeDeleted, id)
                 && (!includeDeleted ==> c.isDeleted == Some(false)))
  {
    FetchKept(rows, Where(rows, search, includeDeleted), skip, limit);
  }

  /** With include_deleted and no search term, the listing pages through every customer. */
  lemma ListingAll(rows: map<int, Customer>, skip: int, limit: int, search: Option<string>)
    requires NoTerm(search) && skip >= 0 && limit >= 0
    ensures var r := Listing(rows, skip, limit, search, true);
      r.Ok? && |r.value| == Max(0, Min(|rows| - skip, limit))
  {
    var keep := Where(rows, search, true);
    forall id | id in rows ensures keep(id) {
      assert Selected(rows, search, true, id);
    }
    OrderedAll(rows, keep);
    FetchWindow(rows, keep, skip, limit);
  }

  /** get_customer: soft-deleted customers are still found. */
  function Get(rows: map<int, Customer>, customerId: int): (r: Result<Customer>)
    ensures r.Err? <==> customerId !in rows
    ensures r.Err? ==> r.error == NotFound
    ensures r.Ok? ==> r.value == rows[customerId]
  {
    if customerId in rows then Ok(rows[customerId]) else Err(NotFound)
  }

  /** The row create_customer builds: name trimmed, a missing flag stored as False. */
  function NewCustomer(p: CustomerCreate): (c: Customer)
    ensures c.fullName == Trim(p.fullName) && Stripped(c.fullName)
    ensures c.isDeleted == Some(p.isDeleted.Some? && p.isDeleted.value)
    ensures c.phone == p.phone && c.email == p.email && c.address == p.address
      && c.citizenId == p.nationalId && c.registrationDate == p.registerDate
  {
    Customer(Trim(p.fullName), p.phone, p.email, p.address, p.nationalId, p.registerDate,
             Some(p.isDeleted.GetOr(false)))
  }

  /** The field assignments of update_customer: only given fields change, the name trimmed. */
  function Patched(c: Customer, p: CustomerUpdate): (r: Customer)
    ensures r.fullName == (if p.fullName.Some? then Trim(p.fullName.value) else c.fullName)
    ensures r.phone == Assigned(p.phone, c.phone) && r.email == Assigned(p.email, c.email)
    ensures r.address == Assigned(p.address, c.address)
    ensures r.citizenId == Assigned(p.nationalId, c.citizenId)
    ensures r.registrationDate == Assigned(p.registerDate, c.registrationDate)
    ensures r.isDeleted == Assigned(p.isDeleted, c.isDeleted)
  {
    Customer(
      if p.fullName.Some? then Trim(p.fullName.value) else c.fullName,
      Assigned(p.phone, c.phone),
      Assigned(p.email, c.email),
      Assigned(p.address, c.address),
      Assigned(p.nationalId, c.citizenId),
      Assigned(p.registerDate, c.registrationDate),
      Assigned(p.isDeleted, c.isDeleted))
  }

  /** The `if payload.x is not None: customer.x = ...` assignments of update_customer. */
  method AssignFields(c: Customer, p: CustomerUpdate) returns (r: Customer)
    ensures r == Patched(c, p)
  {
    r := c;
    if p.fullName.Some? {
      r := r.(fullName := Trim(p.fullName.value));
    }
    if p.phone.Some? {
      r := r.(phone := p.phone);
    }
    if p.email.Some? {
      r := r.(email := p.email);
    }
    if p.address.Some? {
      r := r.(address := p.address);
    }
    if p.nationalId.Some? {
      r := r.(citizenId := p.nationalId);
    }
    if p.registerDate.Some? {
      r := r.(registrationDate := p.registerDate);
    }
    if p.isDeleted.Some? {
      r := r.(isDeleted := p.isDeleted);
    }
  }

  class CustomerTable {
    var rows: map<int, Customer>
    /** The next value of the customer_id sequence. */
    var nextId: int

    ghost predicate Valid()
      reads this
    {
      forall id :: id in rows ==> id < nextId
    }

    constructor(initial: map<int, Customer>, next: int)
      requires forall id :: id in initial ==> id < next
      ensures Valid() && rows == initial && nextId == next
    {
      rows := initial;
      nextId := next;
    }

    /** create_customer: always succeeds and stores the new row under a fresh id. */
    method CreateCustomer(p: CustomerCreate) returns (r: (int, Customer))
      requires Valid()
      modifies this
      ensures Valid()
      ensures r == (old(nextId), NewCustomer(p)) && old(nextId) !in old(rows)
      ensures rows == old(rows)[old(nextId) := NewCustomer(p)] && nextId == old(nextId) + 1
    {
      var c := NewCustomer(p);
      rows := rows[nextId := c];
      r := (nextId, c);
      nextId := nextId + 1;
    }

    /** update_customer: not found for an unknown id, else the given fields are assigned. */
    method UpdateCustomer(customerId: int, p: CustomerUpdate) returns (r: Result<Customer>)
      requires Valid()
      modifies this
      ensures Valid() && nextId == old(nextId)
      ensures customerId !in old(rows) ==> r == Err(NotFound) && rows == old(rows)
      ensures customerId in old(rows) ==>
        var c := Patched(old(rows)[customerId], p);
        r == Ok(c) && rows == old(rows)[customerId := c]
    {
      if customerId !in rows {
        return Err(NotFound);
      }
      var c := AssignFields(rows[customerId], p);
      rows := rows[customerId := c];
      r := Ok(c);
    }

    /** delete_customer: not found for an unknown id, otherwise the row is flagged, not removed. */
    method DeleteCustomer(customerId: int) returns (r: Result<()>)
      requires Valid()
      modifies this
      ensures Valid() && nextId == old(nextId)
      ensures customerId !in old(rows) ==> r == Err(NotFound) && rows == old(rows)
      ensures customerId in old(rows) ==>
        r == Ok(()) && rows == old(rows)[customerId := old(rows)[customerId].(isDeleted := Some(true))]
    {
      if customerId !in rows {
        return Err(NotFound);
      }
      var c := rows[customerId];
      c := c.(isDeleted := Some(true));
      rows := rows[customerId := c];
      r := Ok(());
    }
  }

  /**
   * After a soft delete the customer is still there (get_customer finds it, flagged) but a
   * listing without include_deleted no longer selects it.
   */
  lemma SoftDeleteHides(rows: map<int, Customer>, customerId: int, search: Option<string>)
    requires customerId in rows
    ensures var after := rows[customerId := rows[customerId].(isDeleted := Some(true))];
      after.Keys == rows.Keys
      && Get(after, customerId).Ok? && Get(after, customerId).value.isDeleted == Some(true)
      && !Selected(after, search, false, customerId)
  {
  }

  /** An update giving no field changes nothing. */
  lemma EmptyUpdateKeeps(c: Customer)
    ensures Patched(c, CustomerUpdate(None, None, None, None, None, None, None)) == c
  {
  }
}
