/**
 * The contract handlers of backend/app/routers/contracts.py.
 *
 * Each handler is a method of `ContractSession`, whose field `db` is the committed database.
 * A handler builds its changes on a working copy, step by step as the router does, and ends
 * with the single `db.commit()`: PostgreSQL accepts the working copy when the schema holds
 * on it (`Commit`), and otherwise the request fails and nothing changes.
 *
 * Each handler is specified by a function of the committed state (`CreateSpec`,
 * `UpdateSpec`, ...); the lemmas after the class state what those functions promise.
 */
module Contracts {
  import opened Common
  import opened Models
  import opened Schemas

  const Completed: string := "Completed"
  const Canceled: string := "Canceled"
  const Rented: string := "Rented"
  const Ready: string := "Ready"
  const AutoReturnNote: string := "Auto-created on status update"
  const DefaultPaymentMethod: string := "Cash"

  /**
   * Why PostgreSQL refuses a working copy: a value that does not fit its column (a string
   * too long, an amount or integer out of range) is a data error; a broken foreign key,
   * key, a check constraint or a primary key is an integrity error.
   */
  function Refusal(work: Db): Error {
    if RowsFit(work) then IntegrityError else DataError
  }

  /** The single commit: the database takes the working copy only if the schema holds on it. */
  function Commit(work: Db): (r: Result<Db>)
    ensures r.Ok? <==> SchemaHolds(work)
    ensures r.Ok? ==> r.value == work
    ensures r.Err? ==> (r.error == DataError <==> !RowsFit(work))
    ensures r.Err? ==> (r.error == IntegrityError <==> RowsFit(work) && !(ChecksHold(work) && ForeignKeysHold(work)))
  {
    if SchemaHolds(work) then Ok(work) else Err(Refusal(work))
  }

  /** `cars` with the status of every car whose id is in `ids` set to `status`. */
  function WithStatus(cars: map<int, Car>, ids: set<int>, status: string): (r: map<int, Car>)
    ensures r.Keys == cars.Keys
    ensures forall k :: k in cars ==> r[k] == if k in ids then cars[k].(status := Some(status)) else cars[k]
  {
    map k | k in cars :: if k in ids then cars[k].(status := Some(status)) else cars[k]
  }

  /** The ids of the cars attached to a contract. */
  function CarIdsOf(lines: seq<ContractCar>, contractId: int): set<int> {
    LineCarIds(LinesOf(lines, contractId))
  }

  /** The return receipts of a contract, in insertion order. */
  function ReturnsOf(receipts: seq<ReturnReceipt>, contractId: int): seq<ReturnReceipt> {
    Filter(receipts, (r: ReturnReceipt) => r.contractId == contractId)
  }

  /** `select(ReturnReceipt).where(ContractID == id).first()` finds a row. */
  predicate HasReturn(receipts: seq<ReturnReceipt>, contractId: int) {
    exists i :: 0 <= i < |receipts| && receipts[i].contractId == contractId
  }

  lemma HasReturnCount(receipts: seq<ReturnReceipt>, contractId: int)
    ensures HasReturn(receipts, contractId) <==> |ReturnsOf(receipts, contractId)| > 0
  {
    if HasReturn(receipts, contractId) {
      var i :| 0 <= i < |receipts| && receipts[i].contractId == contractId;
      assert receipts[i] in ReturnsOf(receipts, contractId);
    } else {
      FilterNone(receipts, (r: ReturnReceipt) => r.contractId == contractId);
    }
  }

  // ---------------------------------------------------------------------------------------
  // _contract_to_read
  // ---------------------------------------------------------------------------------------

  /** The surcharge lines of a contract as response items; a null price or quantity reads as 0. */
  function SurchargeItemsOf(rows: map<SurchargeKey, ContractSurcharge>, contractId: int): set<ContractSurchargeItem> {
    set k | k in rows && k.0 == contractId ::
      ContractSurchargeItem(Some(k.1), rows[k].unitPrice.GetOr(0), rows[k].quantity.GetOr(0))
  }

  /** The response body for a stored contract: its columns, its car lines with each car's daily rate, its surcharge lines. */
  function ToRead(db: Db, id: int): (r: ContractRead)
    requires id in db.contracts && ForeignKeysHold(db)
  {
    var c := db.contracts[id];
    var lines := LinesOf(db.contractCars, id);
    ContractRead(
      id, c.customerId, c.startDate, c.endDate, c.totalAmount, c.status, c.notes,
      seq(|lines|, i requires 0 <= i < |lines| =>
        ContractCarItem(lines[i].carId, db.cars[lines[i].carId].dailyRate, lines[i].amount)),
      SurchargeItemsOf(db.contractSurcharges, id))
  }

  // ---------------------------------------------------------------------------------------
  // list_contracts: the self-healing read
  // ---------------------------------------------------------------------------------------

  /** A contract with a return receipt whose status, lower-cased, is not "completed". */
  predicate NeedsCompletion(db: Db, id: int)
    requires id in db.contracts
  {
    HasReturn(db.returnReceipts, id) && ToLower(db.contracts[id].status.GetOr("")) != "completed"
  }

  function Healed(db: Db): Db {
    db.(contracts := map id | id in db.contracts ::
          if NeedsCompletion(db, id) then db.contracts[id].(status := Some(Completed)) else db.contracts[id])
  }

  // ---------------------------------------------------------------------------------------
  // create_contract
  // ---------------------------------------------------------------------------------------

  function NewContract(p: ContractCreate): Contract {
    Contract(p.customerId, p.startDate, p.endDate, p.totalAmount, p.status, p.notes)
  }

  function CarLine(contractId: int, item: ContractCarItem): ContractCar {
    ContractCar(contractId, item.carId, item.amount, None, None)
  }

  function CarLines(contractId: int, items: seq<ContractCarItem>): (r: seq<ContractCar>)
    ensures |r| == |items|
    ensures forall i :: 0 <= i < |items| ==> r[i] == CarLine(contractId, items[i])
  {
    seq(|items|, i requires 0 <= i < |items| => CarLine(contractId, items[i]))
  }

  function ItemCarIds(items: seq<ContractCarItem>): set<int> {
    set i | 0 <= i < |items| :: items[i].carId
  }

  /** The key of a payload surcharge line: a missing surcharge id is stored as 0. */
  function KeyOf(contractId: int, s: ContractSurchargeItem): SurchargeKey {
    (contractId, s.surchargeId.GetOr(0))
  }

  function SurchargeRow(s: ContractSurchargeItem): ContractSurcharge {
    ContractSurcharge(Some(s.unitPrice), Some(s.quantity))
  }

  /** The pending surcharge rows, one per payload item; a later item with the same key replaces an earlier one. */
  function SurchargeRows(contractId: int, items: seq<ContractSurchargeItem>): map<SurchargeKey, ContractSurcharge>
    decreases |items|
  {
    if items == [] then map[]
    else
      var last := items[|items| - 1];
      SurchargeRows(contractId, items[..|items| - 1])[KeyOf(contractId, last) := SurchargeRow(last)]
  }

  /** No two payload surcharge lines share a key (the primary key of contractsurcharge). */
  predicate DistinctKeys(contractId: int, items: seq<ContractSurchargeItem>) {
    forall i, j :: 0 <= i < j < |items| ==> KeyOf(contractId, items[i]) != KeyOf(contractId, items[j])
  }

  /** The working copy after the contract row, its car lines, car statuses and surcharge lines are added. */
  function CreateWork(db: Db, p: ContractCreate): Db {
    var id := db.nextId;
    db.(contracts := db.contracts[id := NewContract(p)],
        contractCars := db.contractCars + CarLines(id, p.cars),
        cars := WithStatus(db.cars, ItemCarIds(p.cars), Rented),
        contractSurcharges := db.contractSurcharges + SurchargeRows(id, p.surcharges),
        nextId := id + 1)
  }

  /** The new contract's id and the committed database, or why the commit failed. */
  function CreateSpec(db: Db, p: ContractCreate): (r: Result<(int, Db)>)
    ensures r.Ok? ==> r.value.0 == db.nextId && r.value.0 in r.value.1.contracts && SchemaHolds(r.value.1)
  {
    if !DistinctKeys(db.nextId, p.surcharges) then Err(Refusal(CreateWork(db, p)))
    else
      match Commit(CreateWork(db, p))
      case Ok(d) => Ok((db.nextId, d))
      case Err(e) => Err(e)
  }

  // ---------------------------------------------------------------------------------------
  // update_contract
  // ---------------------------------------------------------------------------------------

  /** The contract with every field the payload gives overwritten. */
  function Patched(c: Contract, p: ContractUpdate): Contract {
    Contract(
      if p.customerId.Some? then p.customerId.value else c.customerId,
      if p.startDate.Some? then p.startDate else c.startDate,
      if p.endDate.Some? then p.endDate else c.endDate,
      if p.totalAmount.Some? then p.totalAmount else c.totalAmount,
      if p.status.Some? then p.status else c.status,
      if p.notes.Some? then p.notes else c.notes)
  }

  /** The side effect a payload status selects. */
  datatype StatusEffect = Complete | Cancel | Verbatim

  function EffectOf(status: Option<string>): StatusEffect {
    if status.None? || status.value == [] then Verbatim
    else
      var s := ToLower(status.value);
      if s == "completed" || s == "returned" || s == "done" then Complete
      else if s == "canceled" || s == "cancelled" then Cancel
      else Verbatim
  }

  /**
   * The status side effects of update_contract on the patched working copy: completion adds a
   * return receipt unless one exists and readies the cars; cancellation readies the cars.
   */
  function Effects(work: Db, id: int, p: ContractUpdate): Db
    requires id in work.contracts
  {
    var c := work.contracts[id];
    match EffectOf(p.status)
    case Complete =>
      var found := HasReturn(work.returnReceipts, id);
      var receipt := ReturnReceipt(work.nextId, id, None, None,
                                   if p.endDate.Some? then p.endDate else c.endDate, Some(AutoReturnNote));
      work.(contracts := work.contracts[id := c.(status := Some(Completed))],
            cars := WithStatus(work.cars, CarIdsOf(work.contractCars, id), Ready),
            returnReceipts := if found then work.returnReceipts else work.returnReceipts + [receipt],
            nextId := if found then work.nextId else work.nextId + 1)
    case Cancel =>
      work.(contracts := work.contracts[id := c.(status := Some(Canceled))],
            cars := WithStatus(work.cars, CarIdsOf(work.contractCars, id), Ready))
    case Verbatim =>
      work
  }

  /** The working copy of update_contract for an existing contract. */
  function UpdateWork(db: Db, id: int, p: ContractUpdate): Db
    requires id in db.contracts
  {
    Effects(db.(contracts := db.contracts[id := Patched(db.contracts[id], p)]), id, p)
  }

  function UpdateSpec(db: Db, id: int, p: ContractUpdate): (r: Result<Db>)
    ensures id !in db.contracts ==> r == Err(NotFound)
    ensures r.Ok? ==> id in r.value.contracts && SchemaHolds(r.value)
  {
    if id !in db.contracts then Err(NotFound) else Commit(UpdateWork(db, id, p))
  }

  // ---------------------------------------------------------------------------------------
  // add_payment, create_delivery, create_return, delete_contract
  // ---------------------------------------------------------------------------------------

  /** A negative amount fails query validation before the handler runs. */
  function AddPaymentSpec(db: Db, id: int, amount: Money, paymentMethod: Option<string>): (r: Result<(int, Db)>)
    ensures amount < 0 ==> r == Err(ValidationError)
    ensures 0 <= amount && id !in db.contracts ==> r == Err(NotFound)
    ensures r.Ok? ==> r.value.0 == db.nextId && SchemaHolds(r.value.1)
  {
    if amount < 0 then Err(ValidationError)
    else if id !in db.contracts then Err(NotFound)
    else
      var row := ContractPayment(db.nextId, id, Some(paymentMethod.GetOr(DefaultPaymentMethod)), Some(amount), None, None, None);
      match Commit(db.(payments := db.payments + [row], nextId := db.nextId + 1))
      case Ok(d) => Ok((db.nextId, d))
      case Err(e) => Err(e)
  }

  function CreateDeliverySpec(db: Db, id: int, body: DeliveryReceiptIn): (r: Result<(int, Db)>)
    ensures id !in db.contracts ==> r == Err(NotFound)
    ensures r.Ok? ==> r.value.0 == db.nextId && SchemaHolds(r.value.1)
  {
    if id !in db.contracts then Err(NotFound)
    else
      var row := DeliveryReceipt(db.nextId, id, body.deliveryEmployeeId, body.receiverEmployeeId,
                                 body.deliveryDate, body.carCondition, body.notes);
      match Commit(db.(deliveries := db.deliveries + [row], nextId := db.nextId + 1))
      case Ok(d) => Ok((db.nextId, d))
      case Err(e) => Err(e)
  }

  /** The working copy of create_return: a new receipt, the contract completed, its cars ready. */
  function ReturnWork(db: Db, id: int, body: ReturnReceiptIn): Db
    requires id in db.contracts
  {
    var row := ReturnReceipt(db.nextId, id, body.receiverEmployeeId, body.receiverBranchId, body.returnDate, body.notes);
    db.(returnReceipts := db.returnReceipts + [row],
        nextId := db.nextId + 1,
        contracts := db.contracts[id := db.contracts[id].(status := Some(Completed))],
        cars := WithStatus(db.cars, CarIdsOf(db.contractCars, id), Ready))
  }

  function CreateReturnSpec(db: Db, id: int, body: ReturnReceiptIn): (r: Result<(int, Db)>)
    ensures id !in db.contracts ==> r == Err(NotFound)
    ensures r.Ok? ==> r.value.0 == db.nextId && SchemaHolds(r.value.1)
  {
    if id !in db.contracts then Err(NotFound)
    else
      match Commit(ReturnWork(db, id, body))
      case Ok(d) => Ok((db.nextId, d))
      case Err(e) => Err(e)
  }

  function DeleteSpec(db: Db, id: int): (r: Result<Db>)
    ensures id !in db.contracts ==> r == Err(NotFound)
    ensures r.Ok? ==> SchemaHolds(r.value)
  {
    if id !in db.contracts then Err(NotFound) else Commit(WithoutContract(db, id))
  }

  // ---------------------------------------------------------------------------------------
  // Steps of the loops
  // ---------------------------------------------------------------------------------------

  /** The car ids of some car lines. */
  function LineCarIds(lines: seq<ContractCar>): set<int> {
    set i | 0 <= i < |lines| :: lines[i].carId
  }

  lemma LineCarIdsStep(lines: seq<ContractCar>, i: nat)
    requires i < |lines|
    ensures LineCarIds(lines[..i + 1]) == LineCarIds(lines[..i]) + {lines[i].carId}
  {
    var a, b := lines[..i + 1], lines[..i];
    forall x | x in LineCarIds(a) ensures x in LineCarIds(b) + {lines[i].carId} {
      var j :| 0 <= j < |a| && a[j].carId == x;
      if j < i { assert b[j] == a[j]; }
    }
    forall x | x in LineCarIds(b) + {lines[i].carId} ensures x in LineCarIds(a) {
      if x in LineCarIds(b) {
        var j :| 0 <= j < |b| && b[j].carId == x;
        assert a[j] == b[j];
      } else {
        assert a[i] == lines[i];
      }
    }
  }

  lemma ItemCarIdsStep(items: seq<ContractCarItem>, i: nat)
    requires i < |items|
    ensures ItemCarIds(items[..i + 1]) == ItemCarIds(items[..i]) + {items[i].carId}
  {
    var a, b := items[..i + 1], items[..i];
    forall x | x in ItemCarIds(a) ensures x in ItemCarIds(b) + {items[i].carId} {
      var j :| 0 <= j < |a| && a[j].carId == x;
      if j < i { assert b[j] == a[j]; }
    }
    forall x | x in ItemCarIds(b) + {items[i].carId} ensures x in ItemCarIds(a) {
      if x in ItemCarIds(b) {
        var j :| 0 <= j < |b| && b[j].carId == x;
        assert a[j] == b[j];
      } else {
        assert a[i] == items[i];
      }
    }
  }

  /** Setting one more car's status: a car that exists is updated, a missing id changes nothing. */
  lemma WithStatusStep(cars: map<int, Car>, ids: set<int>, k: int, status: string)
    ensures k in cars ==>
      WithStatus(cars, ids + {k}, status)
        == WithStatus(cars, ids, status)[k := WithStatus(cars, ids, status)[k].(status := Some(status))]
    ensures k !in cars ==> WithStatus(cars, ids + {k}, status) == WithStatus(cars, ids, status)
  {
  }

  lemma SurchargeRowsStep(contractId: int, items: seq<ContractSurchargeItem>, i: nat)
    requires i < |items|
    ensures SurchargeRows(contractId, items[..i + 1])
      == SurchargeRows(contractId, items[..i])[KeyOf(contractId, items[i]) := SurchargeRow(items[i])]
  {
    assert items[..i + 1][..i] == items[..i];
  }

  /**
   * The attached-car loop of update_contract and create_return: every existing car of the
   * given lines gets `status`; a line whose car is missing is skipped.
   */
  method MarkCars(cars: map<int, Car>, lines: seq<ContractCar>, status: string) returns (r: map<int, Car>)
    ensures r == WithStatus(cars, LineCarIds(lines), status)
  {
    r := cars;
    var i := 0;
    assert LineCarIds(lines[..0]) == {};
    while i < |lines|
      invariant 0 <= i <= |lines|
      invariant r == WithStatus(cars, LineCarIds(lines[..i]), status)
    {
      var carId := lines[i].carId;
      LineCarIdsStep(lines, i);
      WithStatusStep(cars, LineCarIds(lines[..i]), carId, status);
      if carId in r {
        r := r[carId := r[carId].(status := Some(status))];
      }
      i := i + 1;
    }
    assert lines[..i] == lines;
  }

  /**
   * The loop of list_contracts over the loaded contracts: the healed rows, whether any row
   * changed, and the order in which the contracts were visited.
   */
  method HealAll(db: Db) returns (healed: map<int, Contract>, changed: bool, order: seq<int>)
    ensures healed == Healed(db).contracts
    ensures changed <==> exists id :: id in db.contracts && NeedsCompletion(db, id)
    ensures forall id :: id in order <==> id in db.contracts
    ensures forall i, j :: 0 <= i < j < |order| ==> order[i] != order[j]
    ensures |order| == |db.contracts|
  {
    var contracts := db.contracts;
    var remaining := contracts.Keys;
    order := [];
    healed := contracts;
    changed := false;
    while remaining != {}
      invariant remaining <= contracts.Keys
      invariant forall x :: x in order <==> x in contracts && x !in remaining
      invariant forall i, j :: 0 <= i < j < |order| ==> order[i] != order[j]
      invariant |order| + |remaining| == |contracts|
      invariant healed.Keys == contracts.Keys
      invariant forall x :: x in contracts ==>
        healed[x] == if x !in remaining && NeedsCompletion(db, x) then contracts[x].(status := Some(Completed)) else contracts[x]
      invariant changed <==> exists x :: x in contracts && x !in remaining && NeedsCompletion(db, x)
      decreases |remaining|
    {
      ghost var w := Pick(remaining);
      var id :| id in remaining;
      var c := contracts[id];
      if HasReturn(db.returnReceipts, id) && ToLower(c.status.GetOr("")) != "completed" {
        healed := healed[id := c.(status := Some(Completed))];
        changed := true;
      }
      remaining := remaining - {id};
      order := order + [id];
    }
  }

  /** Forcing "Completed" keeps the schema: the status fits its column, and no key moves. */
  lemma HealedKeepsValid(db: Db)
    requires SchemaHolds(db) && KeysBelowNext(db)
    ensures SchemaHolds(Healed(db)) && KeysBelowNext(Healed(db))
  {
    var h := Healed(db);
    forall id | id in h.contracts ensures ContractFits(h.contracts[id]) {
      assert ContractFits(db.contracts[id]);
    }
  }

  /** With nothing to heal, healing is the identity. */
  lemma HealedUnchanged(db: Db)
    requires forall id :: id in db.contracts ==> !NeedsCompletion(db, id)
    ensures Healed(db) == db
  {
    assert Healed(db).contracts == db.contracts;
  }

  /**
   * The car loop of create_contract: one line per payload car, and each referenced car that
   * exists marked "Rented"; an id with no car is skipped.
   */
  method AddCarLines(lines: seq<ContractCar>, cars: map<int, Car>, contractId: int, items: seq<ContractCarItem>)
    returns (lines': seq<ContractCar>, cars': map<int, Car>)
    ensures lines' == lines + CarLines(contractId, items)
    ensures cars' == WithStatus(cars, ItemCarIds(items), Rented)
  {
    lines', cars' := lines, cars;
    var i := 0;
    assert ItemCarIds(items[..0]) == {};
    while i < |items|
      invariant 0 <= i <= |items|
      invariant lines' == lines + CarLines(contractId, items[..i])
      invariant cars' == WithStatus(cars, ItemCarIds(items[..i]), Rented)
    {
      var item := items[i];
      assert CarLines(contractId, items[..i + 1]) == CarLines(contractId, items[..i]) + [CarLine(contractId, item)];
      ItemCarIdsStep(items, i);
      WithStatusStep(cars, ItemCarIds(items[..i]), item.carId, Rented);
      lines' := lines' + [CarLine(contractId, item)];
      if item.carId in cars' {
        cars' := cars'[item.carId := cars'[item.carId].(status := Some(Rented))];
      }
      i := i + 1;
    }
    assert items[..i] == items;
  }

  /** The surcharge loop of create_contract: one pending row per payload item, keyed by KeyOf. */
  method AddSurchargeLines(rows: map<SurchargeKey, ContractSurcharge>, contractId: int, items: seq<ContractSurchargeItem>)
    returns (rows': map<SurchargeKey, ContractSurcharge>)
    ensures rows' == rows + SurchargeRows(contractId, items)
  {
    rows' := rows;
    var j := 0;
    assert SurchargeRows(contractId, items[..0]) == map[];
    assert rows + map[] == rows;
    while j < |items|
      invariant 0 <= j <= |items|
      invariant rows' == rows + SurchargeRows(contractId, items[..j])
    {
      var s := items[j];
      SurchargeRowsStep(contractId, items, j);
      rows' := rows'[KeyOf(contractId, s) := SurchargeRow(s)];
      j := j + 1;
    }
    assert items[..j] == items;
  }

  /** The working copy of create_return: the receipt appended, the contract completed, its cars ready. */
  method ReturnStage(db: Db, id: int, body: ReturnReceiptIn) returns (work: Db)
    requires id in db.contracts
    ensures work == ReturnWork(db, id, body)
  {
    var row := ReturnReceipt(db.nextId, id, body.receiverEmployeeId, body.receiverBranchId, body.returnDate, body.notes);
    work := db.(returnReceipts := db.returnReceipts + [row], nextId := db.nextId + 1);
    var c := work.contracts[id].(status := Some(Completed));
    var cars := MarkCars(work.cars, LinesOf(work.contractCars, id), Ready);
    work := work.(contracts := work.contracts[id := c], cars := cars);
  }

  /** The working copy of create_return hands out only fresh keys. */
  lemma ReturnWorkKeepsKeys(db: Db, id: int, body: ReturnReceiptIn)
    requires id in db.contracts && KeysBelowNext(db)
    ensures KeysBelowNext(ReturnWork(db, id, body))
  {
  }

  /** The side-effect stage of update_contract, on the patched working copy. */
  method ApplyEffects(work: Db, id: int, p: ContractUpdate) returns (r: Db)
    requires id in work.contracts
    ensures r == Effects(work, id, p)
  {
    r := work;
    var c := work.contracts[id];
    var effect := EffectOf(p.status);
    if effect.Complete? {
      if !HasReturn(r.returnReceipts, id) {
        var date := if p.endDate.Some? then p.endDate else c.endDate;
        var receipt := ReturnReceipt(r.nextId, id, None, None, date, Some(AutoReturnNote));
        r := r.(returnReceipts := r.returnReceipts + [receipt], nextId := r.nextId + 1);
      }
      var cars := MarkCars(r.cars, LinesOf(r.contractCars, id), Ready);
      r := r.(cars := cars, contracts := r.contracts[id := c.(status := Some(Completed))]);
    } else if effect.Cancel? {
      var cars := MarkCars(r.cars, LinesOf(r.contractCars, id), Ready);
      r := r.(cars := cars, contracts := r.contracts[id := c.(status := Some(Canceled))]);
    }
  }

  /** The side effects keep the contract and hand out only fresh keys. */
  lemma EffectsKeepKeys(work: Db, id: int, p: ContractUpdate)
    requires id in work.contracts && KeysBelowNext(work)
    ensures id in Effects(work, id, p).contracts && KeysBelowNext(Effects(work, id, p))
    ensures Effects(work, id, p).contracts.Keys == work.contracts.Keys
  {
  }

  // ---------------------------------------------------------------------------------------
  // The handlers
  // ---------------------------------------------------------------------------------------

  class ContractSession {
    /** The committed database. */
    var db: Db

    ghost predicate Valid()
      reads this
    {
      SchemaHolds(db) && KeysBelowNext(db)
    }

    constructor(initial: Db)
      requires SchemaHolds(initial) && KeysBelowNext(initial)
      ensures db == initial && Valid()
    {
      db := initial;
    }

    /** list_contracts: heal every contract that needs it, commit if any changed, return all. */
    method ListContracts() returns (views: seq<ContractRead>)
      requires Valid()
      modifies this
      ensures Valid()
      ensures db == Healed(old(db))
      ensures |views| == |db.contracts|
      ensures forall i :: 0 <= i < |views| ==> views[i].id in db.contracts && views[i] == ToRead(db, views[i].id)
      ensures forall i, j :: 0 <= i < j < |views| ==> views[i].id != views[j].id
    {
      var healed, changed, order := HealAll(db);
      assert healed.Keys == db.contracts.Keys;
      if changed {
        HealedKeepsValid(db);
        db := db.(contracts := healed);
      } else {
        HealedUnchanged(db);
      }
      var d := db;
      assert |d.contracts| == |d.contracts.Keys| == |old(db).contracts.Keys| == |order|;
      views := seq(|order|, i requires 0 <= i < |order| => ToRead(d, order[i]));
    }

    /** create_contract: the new contract with its car lines and surcharge lines, or nothing. */
    method CreateContract(p: ContractCreate) returns (r: Result<ContractRead>)
      requires Valid()
      modifies this
      ensures Valid()
      ensures var s := CreateSpec(old(db), p);
        (s.Ok? ==> db == s.value.1 && r == Ok(ToRead(db, s.value.0)))
        && (s.Err? ==> db == old(db) && r == Err(s.error))
    {
      var d := db;
      var id := d.nextId;
      var work := d.(contracts := d.contracts[id := NewContract(p)], nextId := id + 1);
      var lines, cars := AddCarLines(work.contractCars, work.cars, id, p.cars);
      var rows := AddSurchargeLines(work.contractSurcharges, id, p.surcharges);
      work := work.(contractCars := lines, cars := cars, contractSurcharges := rows);
      assert work == CreateWork(d, p);
      if DistinctKeys(id, p.surcharges) && SchemaHolds(work) {
        db := work;
        r := Ok(ToRead(db, id));
      } else {
        r := Err(Refusal(work));
      }
    }

    /** get_contract */
    method GetContract(id: int) returns (r: Result<ContractRead>)
      requires Valid()
      ensures id in db.contracts ==> r == Ok(ToRead(db, id))
      ensures id !in db.contracts ==> r == Err(NotFound)
    {
      if id !in db.contracts {
        return Err(NotFound);
      }
      r := Ok(ToRead(db, id));
    }

    /** update_contract: the partial update, then the status side effects, then the commit. */
    method UpdateContract(id: int, p: ContractUpdate) returns (r: Result<ContractRead>)
      requires Valid()
      modifies this
      ensures Valid()
      ensures var s := UpdateSpec(old(db), id, p);
        (s.Ok? ==> db == s.value && r == Ok(ToRead(db, id)))
        && (s.Err? ==> db == old(db) && r == Err(s.error))
    {
      if id !in db.contracts {
        return Err(NotFound);
      }
      var c := db.contracts[id];
      if p.customerId.Some? { c := c.(customerId := p.customerId.value); }
      if p.startDate.Some? { c := c.(startDate := p.startDate); }
      if p.endDate.Some? { c := c.(endDate := p.endDate); }
      if p.totalAmount.Some? { c := c.(totalAmount := p.totalAmount); }
      if p.status.Some? { c := c.(status := p.status); }
      if p.notes.Some? { c := c.(notes := p.notes); }
      assert c == Patched(db.contracts[id], p);
      var work := ApplyEffects(db.(contracts := db.contracts[id := c]), id, p);
      EffectsKeepKeys(db.(contracts := db.contracts[id := c]), id, p);
      if SchemaHolds(work) {
        db := work;
        r := Ok(ToRead(db, id));
      } else {
        r := Err(Refusal(work));
      }
    }

    /** add_payment: the new payment's id. */
    method AddPayment(id: int, amount: Money, paymentMethod: Option<string>) returns (r: Result<int>)
      requires Valid()
      modifies this
      ensures Valid()
      ensures var s := AddPaymentSpec(old(db), id, amount, paymentMethod);
        (s.Ok? ==> db == s.value.1 && r == Ok(s.value.0))
        && (s.Err? ==> db == old(db) && r == Err(s.error))
    {
      if amount < 0 {
        return Err(ValidationError);
      }
      if id !in db.contracts {
        return Err(NotFound);
      }
      var row := ContractPayment(db.nextId, id, Some(paymentMethod.GetOr(DefaultPaymentMethod)), Some(amount), None, None, None);
      var work := db.(payments := db.payments + [row], nextId := db.nextId + 1);
      if SchemaHolds(work) {
        db := work;
        r := Ok(row.paymentId);
      } else {
        r := Err(Refusal(work));
      }
    }

    /** create_delivery: the new delivery receipt's id. */
    method CreateDelivery(id: int, body: DeliveryReceiptIn) returns (r: Result<int>)
      requires Valid()
      modifies this
      ensures Valid()
      ensures var s := CreateDeliverySpec(old(db), id, body);
        (s.Ok? ==> db == s.value.1 && r == Ok(s.value.0))
        && (s.Err? ==> db == old(db) && r == Err(s.error))
    {
      if id !in db.contracts {
        return Err(NotFound);
      }
      var row := DeliveryReceipt(db.nextId, id, body.deliveryEmployeeId, body.receiverEmployeeId,
                                 body.deliveryDate, body.carCondition, body.notes);
      var work := db.(deliveries := db.deliveries + [row], nextId := db.nextId + 1);
      if SchemaHolds(work) {
        db := work;
        r := Ok(row.deliveryId);
      } else {
        r := Err(Refusal(work));
      }
    }

    /** create_return: a new receipt in every case, then the contract completed and its cars ready. */
    method CreateReturn(id: int, body: ReturnReceiptIn) returns (r: Result<int>)
      requires Valid()
      modifies this
      ensures Valid()
      ensures var s := CreateReturnSpec(old(db), id, body);
        (s.Ok? ==> db == s.value.1 && r == Ok(s.value.0))
        && (s.Err? ==> db == old(db) && r == Err(s.error))
    {
      if id !in db.contracts {
        return Err(NotFound);
      }
      var receiptId := db.nextId;
      var work := ReturnStage(db, id, body);
      ReturnWorkKeepsKeys(db, id, body);
      if SchemaHolds(work) {
        db := work;
        r := Ok(receiptId);
      } else {
        r := Err(Refusal(work));
      }
    }

    /** delete_contract: the contract and, by cascade, its car lines and payments. */
    method DeleteContract(id: int) returns (r: Result<()>)
      requires Valid()
      modifies this
      ensures Valid()
      ensures var s := DeleteSpec(old(db), id);
        (s.Ok? ==> db == s.value && r == Ok(()))
        && (s.Err? ==> db == old(db) && r == Err(s.error))
    {
      if id !in db.contracts {
        return Err(NotFound);
      }
      var work := WithoutContract(db, id);
      if SchemaHolds(work) {
        db := work;
        r := Ok(());
      } else {
        r := Err(Refusal(work));
      }
    }
  }

  // ---------------------------------------------------------------------------------------
  // What the handlers promise
  // ---------------------------------------------------------------------------------------

  lemma LowerCompleted()
    ensures ToLower(Completed) == "completed"
  {
    assert ToLower(Completed)[0] == 'c';
  }

  /**
   * list_contracts changes exactly the contracts that have a return receipt and a status
   * other than "completed" in any case, and only their status, which becomes "Completed".
   */
  lemma HealedExactly(db: Db, id: int)
    requires id in db.contracts
    ensures id in Healed(db).contracts
    ensures Healed(db).contracts[id] != db.contracts[id] <==> NeedsCompletion(db, id)
    ensures NeedsCompletion(db, id) ==> Healed(db).contracts[id].status == Some(Completed)
    ensures Healed(db).contracts[id].(status := db.contracts[id].status) == db.contracts[id]
    ensures Healed(db).contracts.Keys == db.contracts.Keys
    ensures Healed(db).(contracts := db.contracts) == db
  {
    LowerCompleted();
  }

  /** After one list_contracts nothing needs healing, so a second one changes nothing. */
  lemma HealedIdempotent(db: Db)
    ensures forall id :: id in Healed(db).contracts ==> !NeedsCompletion(Healed(db), id)
    ensures Healed(Healed(db)) == Healed(db)
  {
    LowerCompleted();
    var h := Healed(db);
    forall id | id in h.contracts
      ensures !NeedsCompletion(h, id)
    {
      if !NeedsCompletion(db, id) {
        assert h.contracts[id] == db.contracts[id];
      }
    }
    HealedUnchanged(h);
  }

  /** The pending surcharge rows have one key per payload item, and with distinct keys each item's own row. */
  lemma {:induction false} SurchargeRowsContent(contractId: int, items: seq<ContractSurchargeItem>)
    ensures forall k :: k in SurchargeRows(contractId, items) <==>
      exists i :: 0 <= i < |items| && KeyOf(contractId, items[i]) == k
    ensures DistinctKeys(contractId, items) ==>
      forall i :: 0 <= i < |items| ==> SurchargeRows(contractId, items)[KeyOf(contractId, items[i])] == SurchargeRow(items[i])
    decreases |items|
  {
    if items != [] {
      var front, last := items[..|items| - 1], items[|items| - 1];
      assert SurchargeRows(contractId, items) == SurchargeRows(contractId, front)[KeyOf(contractId, last) := SurchargeRow(last)];
      SurchargeRowsContent(contractId, front);
      assert forall i :: 0 <= i < |front| ==> front[i] == items[i];
      forall k | k in SurchargeRows(contractId, items)
        ensures exists i :: 0 <= i < |items| && KeyOf(contractId, items[i]) == k
      {
        if k != KeyOf(contractId, items[|items| - 1]) {
          var i :| 0 <= i < |front| && KeyOf(contractId, front[i]) == k;
          assert KeyOf(contractId, items[i]) == k;
        }
      }
    }
  }

  /** The car lines of a fresh contract are exactly the lines added for it. */
  lemma NewLinesOf(db: Db, p: ContractCreate)
    requires ForeignKeysHold(db) && KeysBelowNext(db)
    ensures LinesOf(CreateWork(db, p).contractCars, db.nextId) == CarLines(db.nextId, p.cars)
    ensures forall other :: other != db.nextId ==>
      LinesOf(CreateWork(db, p).contractCars, other) == LinesOf(db.contractCars, other)
  {
    var id := db.nextId;
    var added := CarLines(id, p.cars);
    FilterConcat(db.contractCars, added, (l: ContractCar) => l.contractId == id);
    FilterNone(db.contractCars, (l: ContractCar) => l.contractId == id);
    FilterAll(added, (l: ContractCar) => l.contractId == id);
    forall other | other != id
      ensures LinesOf(CreateWork(db, p).contractCars, other) == LinesOf(db.contractCars, other)
    {
      FilterConcat(db.contractCars, added, (l: ContractCar) => l.contractId == other);
      FilterNone(added, (l: ContractCar) => l.contractId == other);
      assert LinesOf(db.contractCars, other) + [] == LinesOf(db.contractCars, other);
    }
  }

  /** A successful create commits its working copy under the next id. */
  lemma CreateOk(db: Db, p: ContractCreate)
    requires CreateSpec(db, p).Ok?
    ensures CreateSpec(db, p).value == (db.nextId, CreateWork(db, p))
    ensures SchemaHolds(CreateWork(db, p)) && DistinctKeys(db.nextId, p.surcharges)
  {
  }

  /**
   * create_contract stores the contract's columns verbatim under a fresh id and touches no
   * payment, receipt or customer.
   */
  lemma CreateStoresContract(db: Db, p: ContractCreate)
    requires KeysBelowNext(db)
    requires CreateSpec(db, p).Ok?
    ensures var (id, d) := CreateSpec(db, p).value;
      id !in db.contracts
      && d.contracts == db.contracts[id := Contract(p.customerId, p.startDate, p.endDate, p.totalAmount, p.status, p.notes)]
      && d.payments == db.payments && d.deliveries == db.deliveries && d.returnReceipts == db.returnReceipts
      && d.customers == db.customers && d.surcharges == db.surcharges
  {
    CreateOk(db, p);
  }

  /**
   * create_contract adds one car line per payload car, in order, with its car id and amount,
   * leaves other contracts' lines alone, and marks each referenced car "Rented" (all of them
   * exist, or the commit fails); no other car and no other column changes.
   */
  lemma CreateStoresCars(db: Db, p: ContractCreate)
    requires SchemaHolds(db) && KeysBelowNext(db)
    requires CreateSpec(db, p).Ok?
    ensures var (id, d) := CreateSpec(db, p).value;
      |LinesOf(d.contractCars, id)| == |p.cars|
      && (forall i :: 0 <= i < |p.cars| ==>
            LinesOf(d.contractCars, id)[i].carId == p.cars[i].carId && LinesOf(d.contractCars, id)[i].amount == p.cars[i].amount)
      && (forall other :: other != id ==> LinesOf(d.contractCars, other) == LinesOf(db.contractCars, other))
      && d.cars.Keys == db.cars.Keys
      && (forall i :: 0 <= i < |p.cars| ==> p.cars[i].carId in d.cars && d.cars[p.cars[i].carId].status == Some(Rented))
      && (forall k :: k in db.cars ==> d.cars[k].(status := db.cars[k].status) == db.cars[k])
      && (forall k :: k in db.cars && k !in ItemCarIds(p.cars) ==> d.cars[k] == db.cars[k])
  {
    CreateOk(db, p);
    NewLinesOf(db, p);
    CreatedCarsExist(db, p);
  }

  /** The car lines of a committed create point at existing cars, so every payload car exists. */
  lemma CreatedCarsExist(db: Db, p: ContractCreate)
    requires ForeignKeysHold(CreateWork(db, p))
    ensures forall i :: 0 <= i < |p.cars| ==> p.cars[i].carId in db.cars && p.cars[i].carId in ItemCarIds(p.cars)
  {
    var d := CreateWork(db, p);
    forall i | 0 <= i < |p.cars|
      ensures p.cars[i].carId in db.cars && p.cars[i].carId in ItemCarIds(p.cars)
    {
      assert d.contractCars[|db.contractCars| + i] == CarLine(db.nextId, p.cars[i]);
    }
  }

  /**
   * create_contract adds one surcharge line per payload item, keyed by the new id and the
   * item's surcharge id (0 when missing), holding its unit price and quantity; existing lines stay.
   */
  lemma CreateStoresSurcharges(db: Db, p: ContractCreate)
    requires SchemaHolds(db) && KeysBelowNext(db)
    requires CreateSpec(db, p).Ok?
    ensures var (id, d) := CreateSpec(db, p).value;
      (forall i :: 0 <= i < |p.surcharges| ==>
            (id, p.surcharges[i].surchargeId.GetOr(0)) in d.contractSurcharges
            && d.contractSurcharges[(id, p.surcharges[i].surchargeId.GetOr(0))]
               == ContractSurcharge(Some(p.surcharges[i].unitPrice), Some(p.surcharges[i].quantity)))
      && (forall k :: k in d.contractSurcharges && k.0 == id ==>
            exists i :: 0 <= i < |p.surcharges| && k == (id, p.surcharges[i].surchargeId.GetOr(0)))
      && (forall k :: k in db.contractSurcharges ==> k in d.contractSurcharges && d.contractSurcharges[k] == db.contractSurcharges[k])
  {
    CreateOk(db, p);
    var id := db.nextId;
    SurchargeRowsContent(id, p.surcharges);
    forall k | k in db.contractSurcharges
      ensures k !in SurchargeRows(id, p.surcharges)
    {
      assert k.0 in db.contracts;
    }
  }

  /**
   * Reading a created contract back gives the payload's cars in order with their amounts;
   * the daily rate shown is the car's own, not the payload's, which is never stored.
   */
  lemma CreateReadsBackCars(db: Db, p: ContractCreate)
    requires SchemaHolds(db) && KeysBelowNext(db)
    requires CreateSpec(db, p).Ok?
    ensures var (id, d) := CreateSpec(db, p).value;
      var r := ToRead(d, id);
      r.id == id && r.customerId == p.customerId && r.startDate == p.startDate && r.endDate == p.endDate
      && r.totalAmount == p.totalAmount && r.status == p.status && r.notes == p.notes
      && |r.cars| == |p.cars|
      && (forall i :: 0 <= i < |p.cars| ==> r.cars[i] == p.cars[i].(dailyRate := d.cars[p.cars[i].carId].dailyRate))
  {
    CreateOk(db, p);
    CreateStoresCars(db, p);
  }

  /** The read view of surcharge rows that are exactly the rows of some items. */
  lemma ReadItemsOfRows(rows: map<SurchargeKey, ContractSurcharge>, id: int, items: seq<ContractSurchargeItem>)
    requires forall i :: 0 <= i < |items| ==> KeyOf(id, items[i]) in rows && rows[KeyOf(id, items[i])] == SurchargeRow(items[i])
    requires forall k :: k in rows && k.0 == id ==> exists i :: 0 <= i < |items| && k == KeyOf(id, items[i])
    ensures SurchargeItemsOf(rows, id) == set s | s in items :: s.(surchargeId := Some(s.surchargeId.GetOr(0)))
  {
    var got := SurchargeItemsOf(rows, id);
    var expected := set s | s in items :: s.(surchargeId := Some(s.surchargeId.GetOr(0)));
    forall x | x in got ensures x in expected {
      var k :| k in rows && k.0 == id
        && x == ContractSurchargeItem(Some(k.1), rows[k].unitPrice.GetOr(0), rows[k].quantity.GetOr(0));
      var i :| 0 <= i < |items| && k == KeyOf(id, items[i]);
      assert items[i] in items;
    }
    forall x | x in expected ensures x in got {
      var s :| s in items && x == s.(surchargeId := Some(s.surchargeId.GetOr(0)));
      var i :| 0 <= i < |items| && items[i] == s;
      assert KeyOf(id, s) in rows;
    }
  }

  /** Reading a created contract back gives the payload's surcharge items, a missing id read as 0. */
  lemma CreateReadsBackSurcharges(db: Db, p: ContractCreate)
    requires SchemaHolds(db) && KeysBelowNext(db)
    requires CreateSpec(db, p).Ok?
    ensures var (id, d) := CreateSpec(db, p).value;
      ToRead(d, id).surcharges == set s | s in p.surcharges :: s.(surchargeId := Some(s.surchargeId.GetOr(0)))
  {
    CreateOk(db, p);
    CreateStoresSurcharges(db, p);
    var d := CreateWork(db, p);
    ReadItemsOfRows(d.contractSurcharges, db.nextId, p.surcharges);
  }

  /**
   * create_contract fails, storing nothing, when the dates are reversed (the check constraint),
   * when the customer or a referenced car does not exist (foreign keys: the car loop skips a
   * missing car, but its car line cannot be committed), or when two surcharge items share a key:
   * an integrity error when every value fits its column, and otherwise a data error.
   */
  lemma CreateRefusals(db: Db, p: ContractCreate)
    ensures var fits := RowsFit(CreateWork(db, p));
      p.startDate.Some? && p.endDate.Some? && p.endDate.value < p.startDate.value && fits ==>
      CreateSpec(db, p) == Err(IntegrityError)
    ensures var fits := RowsFit(CreateWork(db, p));
      p.customerId !in db.customers && fits ==> CreateSpec(db, p) == Err(IntegrityError)
    ensures var fits := RowsFit(CreateWork(db, p));
      (exists i :: 0 <= i < |p.cars| && p.cars[i].carId !in db.cars) && fits ==> CreateSpec(db, p) == Err(IntegrityError)
    ensures var fits := RowsFit(CreateWork(db, p));
      !DistinctKeys(db.nextId, p.surcharges) && fits ==> CreateSpec(db, p) == Err(IntegrityError)
    ensures !RowsFit(CreateWork(db, p)) ==> CreateSpec(db, p) == Err(DataError)
  {
    var d := CreateWork(db, p);
    assert db.nextId in d.contracts && d.contracts[db.nextId] == NewContract(p);
    if i :| 0 <= i < |p.cars| && p.cars[i].carId !in db.cars {
      assert d.contractCars[|db.contractCars| + i] in d.contractCars;
    }
  }

  /** A successful update commits its working copy. */
  lemma UpdateOk(db: Db, id: int, p: ContractUpdate)
    requires UpdateSpec(db, id, p).Ok?
    ensures id in db.contracts && UpdateSpec(db, id, p).value == UpdateWork(db, id, p)
  {
  }

  /**
   * update_contract overwrites exactly the fields the payload gives (the status subject to its
   * side effects) and changes no other contract and no line, payment or delivery.
   */
  lemma UpdatePatchesGivenFields(db: Db, id: int, p: ContractUpdate)
    requires UpdateSpec(db, id, p).Ok?
    ensures var d := UpdateSpec(db, id, p).value;
      var c, c' := db.contracts[id], d.contracts[id];
      c'.customerId == (if p.customerId.Some? then p.customerId.value else c.customerId)
      && c'.startDate == (if p.startDate.Some? then p.startDate else c.startDate)
      && c'.endDate == (if p.endDate.Some? then p.endDate else c.endDate)
      && c'.totalAmount == (if p.totalAmount.Some? then p.totalAmount else c.totalAmount)
      && c'.notes == (if p.notes.Some? then p.notes else c.notes)
      && (EffectOf(p.status).Verbatim? ==> c'.status == (if p.status.Some? then p.status else c.status))
      && d.contracts.Keys == db.contracts.Keys
      && (forall other :: other in db.contracts && other != id ==> d.contracts[other] == db.contracts[other])
      && d.contractCars == db.contractCars && d.contractSurcharges == db.contractSurcharges
      && d.payments == db.payments && d.deliveries == db.deliveries && d.customers == db.customers
  {
    UpdateOk(db, id, p);
  }

  /**
   * The status transition table of update_contract. A completion keyword makes the status
   * "Completed", readies every attached car and adds a return receipt, dated with the
   * contract's (updated) end date, only when the contract has none; a cancellation keyword
   * makes it "Canceled" and readies the cars; any other status changes no car and no receipt.
   */
  lemma UpdateSideEffects(db: Db, id: int, p: ContractUpdate)
    requires UpdateSpec(db, id, p).Ok?
    ensures var d := UpdateSpec(db, id, p).value;
      var attached := CarIdsOf(db.contractCars, id);
      d.cars.Keys == db.cars.Keys
      && (EffectOf(p.status).Complete? ==>
            d.contracts[id].status == Some(Completed)
            && (forall k :: k in db.cars ==> d.cars[k] == if k in attached then db.cars[k].(status := Some(Ready)) else db.cars[k])
            && (HasReturn(db.returnReceipts, id) ==> d.returnReceipts == db.returnReceipts)
            && (!HasReturn(db.returnReceipts, id) ==>
                  d.returnReceipts == db.returnReceipts + [ReturnReceipt(db.nextId, id, None, None, d.contracts[id].endDate, Some(AutoReturnNote))]))
      && (EffectOf(p.status).Cancel? ==>
            d.contracts[id].status == Some(Canceled)
            && (forall k :: k in db.cars ==> d.cars[k] == if k in attached then db.cars[k].(status := Some(Ready)) else db.cars[k])
            && d.returnReceipts == db.returnReceipts)
      && (EffectOf(p.status).Verbatim? ==> d.cars == db.cars && d.returnReceipts == db.returnReceipts)
  {
    UpdateOk(db, id, p);
  }

  /** Keywords match in any letter case but are not trimmed; an empty status selects nothing. */
  lemma StatusKeywords()
    ensures EffectOf(Some("DONE")).Complete? && EffectOf(Some("Returned")).Complete?
    ensures EffectOf(Some("CANCELLED")).Cancel? && EffectOf(Some("canceled")).Cancel?
    ensures EffectOf(Some(" done")).Verbatim? && EffectOf(Some("")).Verbatim? && EffectOf(None).Verbatim?
  {
    assert ToLower("DONE") == "done";
    assert ToLower("Returned") == "returned";
    assert ToLower("CANCELLED") == "cancelled";
    assert ToLower("canceled") == "canceled";
    assert ToLower(" done")[0] == ' ';
  }

  /** Setting a status twice is setting it once. */
  lemma WithStatusTwice(cars: map<int, Car>, ids: set<int>, status: string)
    ensures WithStatus(WithStatus(cars, ids, status), ids, status) == WithStatus(cars, ids, status)
  {
  }

  /**
   * Completing a contract through update_contract a second time, with the same payload,
   * changes nothing: in particular no second return receipt is added.
   */
  lemma UpdateCompleteTwice(db: Db, id: int, p: ContractUpdate)
    requires EffectOf(p.status).Complete?
    requires UpdateSpec(db, id, p).Ok?
    ensures var d := UpdateSpec(db, id, p).value;
      UpdateSpec(d, id, p) == Ok(d)
  {
    UpdateOk(db, id, p);
    var d := UpdateWork(db, id, p);
    var c := Patched(db.contracts[id], p);
    assert d.contracts[id] == c.(status := Some(Completed));
    assert Patched(d.contracts[id], p).(status := Some(Completed)) == d.contracts[id];
    WithStatusTwice(db.cars, CarIdsOf(db.contractCars, id), Ready);
    if !HasReturn(db.returnReceipts, id) {
      assert d.returnReceipts[|db.returnReceipts|].contractId == id;
    }
    assert HasReturn(d.returnReceipts, id);
    assert UpdateWork(d, id, p) == d;
  }

  /** A successful create_return commits its working copy under the next id. */
  lemma ReturnOk(db: Db, id: int, body: ReturnReceiptIn)
    requires CreateReturnSpec(db, id, body).Ok?
    ensures id in db.contracts && CreateReturnSpec(db, id, body).value == (db.nextId, ReturnWork(db, id, body))
  {
  }

  /**
   * create_return always appends a fresh receipt, one more for the contract even when it
   * already had one, then completes the contract and readies its attached cars.
   */
  lemma CreateReturnAppends(db: Db, id: int, body: ReturnReceiptIn)
    requires KeysBelowNext(db)
    requires CreateReturnSpec(db, id, body).Ok?
    ensures var (rid, d) := CreateReturnSpec(db, id, body).value;
      var attached := CarIdsOf(db.contractCars, id);
      (forall r :: r in db.returnReceipts ==> r.returnId != rid)
      && d.returnReceipts == db.returnReceipts + [ReturnReceipt(rid, id, body.receiverEmployeeId, body.receiverBranchId, body.returnDate, body.notes)]
      && |ReturnsOf(d.returnReceipts, id)| == |ReturnsOf(db.returnReceipts, id)| + 1
      && d.contracts == db.contracts[id := db.contracts[id].(status := Some(Completed))]
      && d.cars.Keys == db.cars.Keys
      && (forall k :: k in db.cars ==> d.cars[k] == if k in attached then db.cars[k].(status := Some(Ready)) else db.cars[k])
      && d.contractCars == db.contractCars && d.contractSurcharges == db.contractSurcharges
      && d.payments == db.payments && d.deliveries == db.deliveries
  {
    ReturnOk(db, id, body);
    var d := ReturnWork(db, id, body);
    var added := [d.returnReceipts[|db.returnReceipts|]];
    assert d.returnReceipts == db.returnReceipts + added;
    FilterConcat(db.returnReceipts, added, (r: ReturnReceipt) => r.contractId == id);
    FilterAll(added, (r: ReturnReceipt) => r.contractId == id);
  }

  function StatusOnly(status: string): ContractUpdate {
    ContractUpdate(None, None, None, None, Some(status), None)
  }

  /**
   * The two ways to complete a contract agree on a contract without a receipt: setting a
   * completion keyword through update_contract and posting a return leave the same contracts
   * and cars, and exactly one receipt for the contract.
   */
  lemma CompletionPathsAgree(db: Db, id: int, status: string, body: ReturnReceiptIn)
    requires !HasReturn(db.returnReceipts, id)
    requires EffectOf(Some(status)).Complete?
    requires UpdateSpec(db, id, StatusOnly(status)).Ok? && CreateReturnSpec(db, id, body).Ok?
    ensures var u := UpdateSpec(db, id, StatusOnly(status)).value;
      var r := CreateReturnSpec(db, id, body).value.1;
      u.contracts == r.contracts && u.cars == r.cars
      && |ReturnsOf(u.returnReceipts, id)| == 1 == |ReturnsOf(r.returnReceipts, id)|
  {
    UpdateOk(db, id, StatusOnly(status));
    ReturnOk(db, id, body);
    HasReturnCount(db.returnReceipts, id);
    var u := UpdateWork(db, id, StatusOnly(status));
    var r := ReturnWork(db, id, body);
    assert u.contracts[id] == r.contracts[id];
    assert u.contracts == r.contracts;
    var ua, ra := [u.returnReceipts[|db.returnReceipts|]], [r.returnReceipts[|db.returnReceipts|]];
    assert u.returnReceipts == db.returnReceipts + ua && r.returnReceipts == db.returnReceipts + ra;
    FilterConcat(db.returnReceipts, ua, (x: ReturnReceipt) => x.contractId == id);
    FilterConcat(db.returnReceipts, ra, (x: ReturnReceipt) => x.contractId == id);
    FilterAll(ua, (x: ReturnReceipt) => x.contractId == id);
    FilterAll(ra, (x: ReturnReceipt) => x.contractId == id);
  }

  /**
   * add_payment succeeds exactly for a non-negative amount that fits Numeric(15, 2), an
   * existing contract and a method that fits its column.
   */
  lemma AddPaymentSucceedsWhen(db: Db, id: int, amount: Money, paymentMethod: Option<string>)
    requires SchemaHolds(db)
    ensures AddPaymentSpec(db, id, amount, paymentMethod).Ok? <==>
      0 <= amount < MoneyBound && id in db.contracts && |paymentMethod.GetOr("Cash")| <= 100
  {
    if 0 <= amount && id in db.contracts {
      var row := ContractPayment(db.nextId, id, Some(paymentMethod.GetOr(DefaultPaymentMethod)), Some(amount), None, None, None);
      AppendedPaymentCommits(db, row, db.nextId + 1);
      AddPaymentCommits(db, id, amount, paymentMethod);
    }
  }

  /** For a valid amount and an existing contract, add_payment is the commit of the appended row. */
  lemma AddPaymentCommits(db: Db, id: int, amount: Money, paymentMethod: Option<string>)
    requires 0 <= amount && id in db.contracts
    ensures var row := ContractPayment(db.nextId, id, Some(paymentMethod.GetOr(DefaultPaymentMethod)), Some(amount), None, None, None);
      AddPaymentSpec(db, id, amount, paymentMethod).Ok?
      <==> SchemaHolds(db.(payments := db.payments + [row], nextId := db.nextId + 1))
  {
  }

  /** Appending a payment to a consistent database commits exactly when the payment fits its columns. */
  lemma AppendedPaymentCommits(db: Db, row: ContractPayment, next: int)
    requires SchemaHolds(db) && row.contractId in db.contracts
    ensures SchemaHolds(db.(payments := db.payments + [row], nextId := next)) <==> PaymentFits(row)
  {
    AppendedPaymentFits(db, row, next);
    if PaymentFits(row) {
      AppendPaymentKeepsSchema(db, row, next);
    }
  }

  /** A payment that fits its columns and points at an existing contract can be committed. */
  lemma AppendPaymentKeepsSchema(db: Db, row: ContractPayment, next: int)
    requires SchemaHolds(db) && PaymentFits(row) && row.contractId in db.contracts
    ensures SchemaHolds(db.(payments := db.payments + [row], nextId := next))
  {
    var w := db.(payments := db.payments + [row], nextId := next);
    assert forall q :: q in w.payments ==> q in db.payments || q == row;
  }

  /** A committed payment fits its columns. */
  lemma AppendedPaymentFits(db: Db, row: ContractPayment, next: int)
    ensures SchemaHolds(db.(payments := db.payments + [row], nextId := next)) ==> PaymentFits(row)
  {
    assert row in (db.payments + [row]);
  }

  /** add_payment only appends one payment, with a fresh id and the method defaulting to "Cash". */
  lemma AddPaymentAppends(db: Db, id: int, amount: Money, paymentMethod: Option<string>)
    requires KeysBelowNext(db)
    requires AddPaymentSpec(db, id, amount, paymentMethod).Ok?
    ensures var (pid, d) := AddPaymentSpec(db, id, amount, paymentMethod).value;
      (forall q :: q in db.payments ==> q.paymentId != pid)
      && d.payments == db.payments + [ContractPayment(pid, id, Some(paymentMethod.GetOr("Cash")), Some(amount), None, None, None)]
      && d.(payments := db.payments, nextId := db.nextId) == db
  {
  }

  /**
   * create_delivery succeeds for an existing contract whose employee ids and texts fit their
   * columns, fails with a data error for an existing contract when one does not, and only
   * appends the receipt.
   */
  lemma CreateDeliveryOutcome(db: Db, id: int, body: DeliveryReceiptIn)
    requires SchemaHolds(db) && KeysBelowNext(db)
    ensures CreateDeliverySpec(db, id, body).Ok? <==>
      id in db.contracts && DeliveryBodyFits(body)
    ensures id in db.contracts && !DeliveryBodyFits(body) ==> CreateDeliverySpec(db, id, body) == Err(DataError)
    ensures CreateDeliverySpec(db, id, body).Ok? ==>
      var (did, d) := CreateDeliverySpec(db, id, body).value;
      (forall q :: q in db.deliveries ==> q.deliveryId != did)
      && d.deliveries == db.deliveries + [DeliveryReceipt(did, id, body.deliveryEmployeeId, body.receiverEmployeeId, body.deliveryDate, body.carCondition, body.notes)]
      && d.(deliveries := db.deliveries, nextId := db.nextId) == db
  {
    if id in db.contracts {
      var row := DeliveryReceipt(db.nextId, id, body.deliveryEmployeeId, body.receiverEmployeeId, body.deliveryDate, body.carCondition, body.notes);
      AppendedDeliveryCommits(db, row, db.nextId + 1);
      assert DeliveryFits(row) <==> DeliveryBodyFits(body);
    }
  }

  /**
   * Appending a delivery receipt for an existing contract to a consistent database commits
   * exactly when the receipt fits its columns; otherwise some row does not fit.
   */
  lemma AppendedDeliveryCommits(db: Db, row: DeliveryReceipt, next: int)
    requires SchemaHolds(db) && row.contractId in db.contracts
    ensures var w := db.(deliveries := db.deliveries + [row], nextId := next);
      (SchemaHolds(w) <==> DeliveryFits(row)) && (!DeliveryFits(row) ==> !RowsFit(w))
  {
    var w := db.(deliveries := db.deliveries + [row], nextId := next);
    assert row in w.deliveries;
    if DeliveryFits(row) {
      assert forall q :: q in w.deliveries ==> q in db.deliveries || q == row;
    }
  }

  /** The delivery payload's values fit the columns of deliveryreceipt. */
  predicate DeliveryBodyFits(body: DeliveryReceiptIn) {
    IntegerFits(body.deliveryEmployeeId) && IntegerFits(body.receiverEmployeeId)
    && FitsIn(body.carCondition, 200) && FitsIn(body.notes, 200)
  }

  /**
   * delete_contract succeeds exactly for an existing contract that no surcharge line or
   * receipt points at; it then removes the contract with its car lines and payments.
   */
  lemma DeleteOutcome(db: Db, id: int)
    requires SchemaHolds(db)
    ensures DeleteSpec(db, id).Ok? <==> id in db.contracts && !HasDependents(db, id)
    ensures DeleteSpec(db, id).Ok? ==> DeleteSpec(db, id).value == WithoutContract(db, id)
  {
    if id in db.contracts {
      if HasDependents(db, id) {
        DeleteWithDependentsBreaksKeys(db, id);
      } else {
        DeleteWithoutDependentsKeepsSchema(db, id);
      }
    }
  }
}
