/**
 * The rental database tables of backend/app/models.py, as one value `Db`.
 *
 * Rows are datatypes; a table with an integer primary key is a map from that key, the
 * car lines of contracts are a sequence in insertion order, and the surcharge lines of
 * contracts are keyed by the composite (ContractID, SurchargeID) primary key.
 *
 * Dates are day numbers; Numeric(15, 2) amounts are whole hundredths.
 * The declared constraints (the date-range check, column widths, foreign keys) are the
 * predicate `SchemaHolds`: PostgreSQL refuses to commit a state that breaks it.
 * The ORM cascades declared on relationships are the functions `WithoutContract` and
 * `WithoutCustomer`.
 */
module Models {
  import opened Common

  /** A calendar date, as a day number. */
  type Day = int

  /** A Numeric(15, 2) amount, in hundredths. */
  type Money = int

  /** Numeric(15, 2) holds at most 13 digits before the point: |m| < 10^13 units. */
  const MoneyBound: int := 1_000_000_000_000_000

  predicate MoneyFits(m: Option<Money>) {
    m.None? || -MoneyBound < m.value < MoneyBound
  }

  /** The range of a PostgreSQL INTEGER (int4) column. */
  const IntegerMin: int := -0x8000_0000
  const IntegerMax: int := 0x7FFF_FFFF

  /** A nullable Integer column accepts the value. */
  predicate IntegerFits(v: Option<int>) {
    v.None? || IntegerMin <= v.value <= IntegerMax
  }

  /** A nullable String(n) column accepts the value. */
  predicate FitsIn(s: Option<string>, n: nat) {
    s.None? || |s.value| <= n
  }

  datatype Contract = Contract(
    customerId: int,
    startDate: Option<Day>,
    endDate: Option<Day>,
    totalAmount: Option<Money>,
    status: Option<string>,
    notes: Option<string>)

  /** The check constraint ck_contract_date_range. */
  predicate DateRangeOk(start: Option<Day>, end: Option<Day>) {
    end.None? || start.None? || end.value >= start.value
  }

  predicate ContractFits(c: Contract) {
    IntegerFits(Some(c.customerId)) && MoneyFits(c.totalAmount)
    && FitsIn(c.status, 100) && FitsIn(c.notes, 200)
  }

  datatype Customer = Customer(
    fullName: string,
    phone: Option<string>,
    email: Option<string>,
    address: Option<string>,
    citizenId: Option<string>,
    registrationDate: Option<Day>,
    isDeleted: Option<bool>)

  datatype Car = Car(
    licensePlate: string,
    dailyRate: Option<Money>,
    hourlyRate: Option<Money>,
    status: Option<string>)

  predicate CarFits(c: Car) {
    |c.licensePlate| <= 20 && MoneyFits(c.dailyRate) && MoneyFits(c.hourlyRate) && FitsIn(c.status, 100)
  }

  /** A car attached to a contract (table contractcar; its surrogate key is not modelled). */
  datatype ContractCar = ContractCar(
    contractId: int,
    carId: int,
    amount: Option<Money>,
    returnMileage: Option<int>,
    carCondition: Option<string>)

  predicate LineFits(l: ContractCar) {
    IntegerFits(Some(l.carId)) && MoneyFits(l.amount) && IntegerFits(l.returnMileage) && FitsIn(l.carCondition, 100)
  }

  datatype ContractPayment = ContractPayment(
    paymentId: int,
    contractId: int,
    paymentMethod: Option<string>,
    amount: Option<Money>,
    paymentDate: Option<Day>,
    notes: Option<string>,
    paymentType: Option<int>)

  predicate PaymentFits(p: ContractPayment) {
    FitsIn(p.paymentMethod, 100) && MoneyFits(p.amount) && FitsIn(p.notes, 200) && IntegerFits(p.paymentType)
  }

  /** A catalogue surcharge (table surcharge). */
  datatype Surcharge = Surcharge(name: Option<string>, unitPrice: Option<Money>, description: Option<string>)

  /** The primary key of contractsurcharge: (ContractID, SurchargeID). */
  type SurchargeKey = (int, int)

  datatype ContractSurcharge = ContractSurcharge(unitPrice: Option<Money>, quantity: Option<int>)

  predicate SurchargeLineFits(k: SurchargeKey, s: ContractSurcharge) {
    IntegerFits(Some(k.1)) && MoneyFits(s.unitPrice) && IntegerFits(s.quantity)
  }

  datatype DeliveryReceipt = DeliveryReceipt(
    deliveryId: int,
    contractId: int,
    deliveryEmployeeId: Option<int>,
    receiverEmployeeId: Option<int>,
    deliveryDate: Option<Day>,
    carCondition: Option<string>,
    notes: Option<string>)

  predicate DeliveryFits(d: DeliveryReceipt) {
    IntegerFits(d.deliveryEmployeeId) && IntegerFits(d.receiverEmployeeId)
    && FitsIn(d.carCondition, 200) && FitsIn(d.notes, 200)
  }

  datatype ReturnReceipt = ReturnReceipt(
    returnId: int,
    contractId: int,
    receiverEmployeeId: Option<int>,
    receiverBranchId: Option<int>,
    returnDate: Option<Day>,
    notes: Option<string>)

  predicate ReturnFits(r: ReturnReceipt) {
    IntegerFits(r.receiverEmployeeId) && IntegerFits(r.receiverBranchId) && FitsIn(r.notes, 200)
  }

  /**
   * The database. `nextId` stands for the sequences behind the serial primary keys: every
   * key handed out is below it.
   */
  datatype Db = Db(
    customers: map<int, Customer>,
    cars: map<int, Car>,
    surcharges: map<int, Surcharge>,
    contracts: map<int, Contract>,
    contractCars: seq<ContractCar>,
    contractSurcharges: map<SurchargeKey, ContractSurcharge>,
    payments: seq<ContractPayment>,
    deliveries: seq<DeliveryReceipt>,
    returnReceipts: seq<ReturnReceipt>,
    nextId: int)

  /** Every row fits its columns. */
  predicate RowsFit(db: Db) {
    (forall id :: id in db.contracts ==> ContractFits(db.contracts[id]))
    && (forall id :: id in db.cars ==> CarFits(db.cars[id]))
    && (forall l :: l in db.contractCars ==> LineFits(l))
    && (forall k :: k in db.contractSurcharges ==> SurchargeLineFits(k, db.contractSurcharges[k]))
    && (forall p :: p in db.payments ==> PaymentFits(p))
    && (forall d :: d in db.deliveries ==> DeliveryFits(d))
    && (forall r :: r in db.returnReceipts ==> ReturnFits(r))
  }

  /** Every declared foreign key points at an existing row. */
  predicate ForeignKeysHold(db: Db) {
    (forall id :: id in db.contracts ==> db.contracts[id].customerId in db.customers)
    && (forall l :: l in db.contractCars ==> l.contractId in db.contracts && l.carId in db.cars)
    && (forall k :: k in db.contractSurcharges ==> k.0 in db.contracts && k.1 in db.surcharges)
    && (forall p :: p in db.payments ==> p.contractId in db.contracts)
    && (forall d :: d in db.deliveries ==> d.contractId in db.contracts)
    && (forall r :: r in db.returnReceipts ==> r.contractId in db.contracts)
  }

  /** Every check constraint holds: ck_contract_date_range on every contract. */
  predicate ChecksHold(db: Db) {
    forall id :: id in db.contracts ==> DateRangeOk(db.contracts[id].startDate, db.contracts[id].endDate)
  }

  /** What PostgreSQL enforces at commit. */
  predicate SchemaHolds(db: Db) {
    RowsFit(db) && ChecksHold(db) && ForeignKeysHold(db)
  }

  /** Keys handed out so far are below `nextId`. */
  predicate KeysBelowNext(db: Db) {
    (forall id :: id in db.contracts ==> id < db.nextId)
    && (forall p :: p in db.payments ==> p.paymentId < db.nextId)
    && (forall d :: d in db.deliveries ==> d.deliveryId < db.nextId)
    && (forall r :: r in db.returnReceipts ==> r.returnId < db.nextId)
  }

  /** The car lines of one contract, in insertion order (Contract.contract_cars). */
  function LinesOf(lines: seq<ContractCar>, contractId: int): seq<ContractCar> {
    Filter(lines, (l: ContractCar) => l.contractId == contractId)
  }

  /** The payments of one contract (Contract.payments). */
  function PaymentsOf(payments: seq<ContractPayment>, contractId: int): seq<ContractPayment> {
    Filter(payments, (p: ContractPayment) => p.contractId == contractId)
  }

  /** Surcharge lines, delivery receipts or return receipts that still point at the contract. */
  predicate HasDependents(db: Db, contractId: int) {
    (exists k :: k in db.contractSurcharges && k.0 == contractId)
    || (exists i :: 0 <= i < |db.deliveries| && db.deliveries[i].contractId == contractId)
    || (exists i :: 0 <= i < |db.returnReceipts| && db.returnReceipts[i].contractId == contractId)
  }

  /**
   * `db.delete(contract)`: the contract row goes, and with it (cascade "all, delete-orphan"
   * on contract_cars and payments) its car lines and payments. Nothing else is touched.
   */
  function WithoutContract(db: Db, contractId: int): Db {
    db.(contracts := db.contracts - {contractId},
        contractCars := Filter(db.contractCars, (l: ContractCar) => l.contractId != contractId),
        payments := Filter(db.payments, (p: ContractPayment) => p.contractId != contractId))
  }

  /** Deleting a contract removes its car lines and payments and keeps every other row in order. */
  lemma WithoutContractCascade(db: Db, contractId: int)
    ensures var d := WithoutContract(db, contractId);
      contractId !in d.contracts
      && (forall id :: id in d.contracts <==> id in db.contracts && id != contractId)
      && LinesOf(d.contractCars, contractId) == [] && PaymentsOf(d.payments, contractId) == []
      && (forall l :: l in d.contractCars <==> l in db.contractCars && l.contractId != contractId)
      && (forall p :: p in d.payments <==> p in db.payments && p.contractId != contractId)
      && SubsequenceOf(d.contractCars, db.contractCars) && SubsequenceOf(d.payments, db.payments)
      && d.contractSurcharges == db.contractSurcharges
      && d.deliveries == db.deliveries && d.returnReceipts == db.returnReceipts
      && d.cars == db.cars && d.customers == db.customers
  {
    var d := WithoutContract(db, contractId);
    FilterNone(d.contractCars, (l: ContractCar) => l.contractId == contractId);
    FilterNone(d.payments, (p: ContractPayment) => p.contractId == contractId);
  }

  /**
   * Surcharge lines and receipts are not relationships of Contract, so they survive the
   * delete and then point at a missing contract: such a state cannot be committed.
   */
  lemma DeleteWithDependentsBreaksKeys(db: Db, contractId: int)
    requires HasDependents(db, contractId)
    ensures !ForeignKeysHold(WithoutContract(db, contractId))
  {
    var d := WithoutContract(db, contractId);
    if k :| k in db.contractSurcharges && k.0 == contractId {
      assert k in d.contractSurcharges && k.0 !in d.contracts;
    } else if i :| 0 <= i < |db.deliveries| && db.deliveries[i].contractId == contractId {
      assert d.deliveries[i] in d.deliveries;
    } else {
      var i :| 0 <= i < |db.returnReceipts| && db.returnReceipts[i].contractId == contractId;
      assert d.returnReceipts[i] in d.returnReceipts;
    }
  }

  /** Without such rows, the delete keeps a consistent database consistent. */
  lemma DeleteWithoutDependentsKeepsSchema(db: Db, contractId: int)
    requires SchemaHolds(db) && !HasDependents(db, contractId)
    ensures SchemaHolds(WithoutContract(db, contractId))
  {
  }

  /** The contracts of one customer (Customer.contracts). */
  function ContractsOf(db: Db, customerId: int): set<int> {
    set id | id in db.contracts && db.contracts[id].customerId == customerId
  }

  /**
   * `db.delete(customer)`: cascade "all, delete-orphan" on Customer.contracts deletes the
   * customer's contracts, and each of those cascades to its car lines and payments.
   */
  function WithoutCustomer(db: Db, customerId: int): Db {
    var gone := ContractsOf(db, customerId);
    db.(customers := db.customers - {customerId},
        contracts := db.contracts - gone,
        contractCars := Filter(db.contractCars, (l: ContractCar) => l.contractId !in gone),
        payments := Filter(db.payments, (p: ContractPayment) => p.contractId !in gone))
  }

  /** Deleting a customer leaves no contract of that customer and no line or payment of those. */
  lemma WithoutCustomerCascade(db: Db, customerId: int)
    ensures var d := WithoutCustomer(db, customerId);
      customerId !in d.customers
      && (forall id :: id in d.contracts ==> d.contracts[id].customerId != customerId)
      && (forall id :: id in db.contracts && db.contracts[id].customerId != customerId ==>
            id in d.contracts && d.contracts[id] == db.contracts[id])
      && (forall l :: l in d.contractCars <==>
            l in db.contractCars && !(l.contractId in db.contracts && db.contracts[l.contractId].customerId == customerId))
      && (forall p :: p in d.payments <==>
            p in db.payments && !(p.contractId in db.contracts && db.contracts[p.contractId].customerId == customerId))
  {
  }
}
