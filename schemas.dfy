/**
 * The request and response shapes of backend/app/schemas/contract.py.
 *
 * A payload field arrives missing, as JSON null, or with a value (`Field`). A required
 * field (`Field(...)`) rejects the first two; an `Optional[...]` field with default None
 * reads both as None; a list with `default_factory=list` reads a missing field as [] but,
 * not being Optional, rejects null. Parsing is the check that turns a raw payload into a
 * typed one or a validation error.
 */
module Schemas {
  import opened Common
  import opened Models

  datatype Field<+T> = Missing | Null | Given(value: T)

  /** A field declared `Field(...)`. */
  function Required<T>(f: Field<T>): (r: Result<T>)
    ensures r.Ok? <==> f.Given?
    ensures r.Ok? ==> r.value == f.value
    ensures r.Err? ==> r.error == ValidationError
  {
    if f.Given? then Ok(f.value) else Err(ValidationError)
  }

  /** A field declared `Optional[...] = Field(None)`. */
  function Optional<T>(f: Field<T>): (r: Option<T>)
    ensures r.Some? <==> f.Given?
    ensures r.Some? ==> r.value == f.value
  {
    if f.Given? then Some(f.value) else None
  }

  datatype ContractCarItem = ContractCarItem(carId: int, dailyRate: Option<Money>, amount: Option<Money>)

  datatype ContractSurchargeItem = ContractSurchargeItem(surchargeId: Option<int>, unitPrice: Money, quantity: int)

  datatype ContractCreate = ContractCreate(
    customerId: int,
    startDate: Option<Day>,
    endDate: Option<Day>,
    totalAmount: Option<Money>,
    status: Option<string>,
    notes: Option<string>,
    cars: seq<ContractCarItem>,
    surcharges: seq<ContractSurchargeItem>)

  datatype ContractUpdate = ContractUpdate(
    customerId: Option<int>,
    startDate: Option<Day>,
    endDate: Option<Day>,
    totalAmount: Option<Money>,
    status: Option<string>,
    notes: Option<string>)

  datatype DeliveryReceiptIn = DeliveryReceiptIn(
    deliveryEmployeeId: Option<int>,
    receiverEmployeeId: Option<int>,
    deliveryDate: Option<Day>,
    carCondition: Option<string>,
    notes: Option<string>)

  datatype ReturnReceiptIn = ReturnReceiptIn(
    receiverEmployeeId: Option<int>,
    receiverBranchId: Option<int>,
    returnDate: Option<Day>,
    notes: Option<string>)

  /** The response body; the surcharge query has no ORDER BY, so its lines form a set. */
  datatype ContractRead = ContractRead(
    id: int,
    customerId: int,
    startDate: Option<Day>,
    endDate: Option<Day>,
    totalAmount: Option<Money>,
    status: Option<string>,
    notes: Option<string>,
    cars: seq<ContractCarItem>,
    surcharges: set<ContractSurchargeItem>)

  // ---------------------------------------------------------------------------------------
  // Raw payloads and their validation
  // ---------------------------------------------------------------------------------------

  datatype RawCarItem = RawCarItem(carId: Field<int>, dailyRate: Field<Money>, amount: Field<Money>)

  datatype RawSurchargeItem = RawSurchargeItem(surchargeId: Field<int>, unitPrice: Field<Money>, quantity: Field<int>)

  datatype RawContractCreate = RawContractCreate(
    customerId: Field<int>,
    startDate: Field<Day>,
    endDate: Field<Day>,
    totalAmount: Field<Money>,
    status: Field<string>,
    notes: Field<string>,
    cars: Field<seq<RawCarItem>>,
    surcharges: Field<seq<RawSurchargeItem>>)

  datatype RawContractUpdate = RawContractUpdate(
    customerId: Field<int>,
    startDate: Field<Day>,
    endDate: Field<Day>,
    totalAmount: Field<Money>,
    status: Field<string>,
    notes: Field<string>)

  /** A car item requires its car id; rate and amount are optional. */
  function ParseCarItem(raw: RawCarItem): (r: Result<ContractCarItem>)
    ensures r.Ok? <==> raw.carId.Given?
    ensures r.Ok? ==>
      r.value.carId == raw.carId.value
      && r.value.dailyRate == Optional(raw.dailyRate) && r.value.amount == Optional(raw.amount)
  {
    match Required(raw.carId)
    case Err(e) => Err(e)
    case Ok(carId) => Ok(ContractCarItem(carId, Optional(raw.dailyRate), Optional(raw.amount)))
  }

  /** A surcharge item requires unit price and quantity; the surcharge id is optional. */
  function ParseSurchargeItem(raw: RawSurchargeItem): (r: Result<ContractSurchargeItem>)
    ensures r.Ok? <==> raw.unitPrice.Given? && raw.quantity.Given?
    ensures r.Ok? ==>
      r.value.unitPrice == raw.unitPrice.value && r.value.quantity == raw.quantity.value
      && r.value.surchargeId == Optional(raw.surchargeId)
  {
    if raw.unitPrice.Given? && raw.quantity.Given? then
      Ok(ContractSurchargeItem(Optional(raw.surchargeId), raw.unitPrice.value, raw.quantity.value))
    else
      Err(ValidationError)
  }

  /** A list of car items validates when every item does; item i becomes item i. */
  function ParseCarItems(raws: seq<RawCarItem>): (r: Result<seq<ContractCarItem>>)
    ensures r.Ok? <==> forall i :: 0 <= i < |raws| ==> raws[i].carId.Given?
    ensures r.Ok? ==> |r.value| == |raws| && forall i :: 0 <= i < |raws| ==> Ok(r.value[i]) == ParseCarItem(raws[i])
  {
    if raws == [] then Ok([])
    else
      match ParseCarItem(raws[0])
      case Err(e) => Err(e)
      case Ok(item) =>
        match ParseCarItems(raws[1..])
        case Err(e) => Err(e)
        case Ok(rest) =>
          assert forall i :: 1 <= i < |raws| ==> raws[i] == raws[1..][i - 1];
          Ok([item] + rest)
  }

  /** A list of surcharge items validates when every item does; item i becomes item i. */
  function ParseSurchargeItems(raws: seq<RawSurchargeItem>): (r: Result<seq<ContractSurchargeItem>>)
    ensures r.Ok? <==> forall i :: 0 <= i < |raws| ==> raws[i].unitPrice.Given? && raws[i].quantity.Given?
    ensures r.Ok? ==> |r.value| == |raws| && forall i :: 0 <= i < |raws| ==> Ok(r.value[i]) == ParseSurchargeItem(raws[i])
  {
    if raws == [] then Ok([])
    else
      match ParseSurchargeItem(raws[0])
      case Err(e) => Err(e)
      case Ok(item) =>
        match ParseSurchargeItems(raws[1..])
        case Err(e) => Err(e)
        case Ok(rest) =>
          assert forall i :: 1 <= i < |raws| ==> raws[i] == raws[1..][i - 1];
          Ok([item] + rest)
  }

  /** `List[...] = Field(default_factory=list)`: missing means [], null is refused. */
  function ListOrEmpty<T>(f: Field<seq<T>>): (r: Result<seq<T>>)
    ensures r.Ok? <==> !f.Null?
    ensures f.Missing? ==> r == Ok([])
    ensures f.Given? ==> r == Ok(f.value)
  {
    match f
    case Missing => Ok([])
    case Null => Err(ValidationError)
    case Given(xs) => Ok(xs)
  }

  /** The create payload: customer id required, the rest optional, the lists default to []. */
  function ParseContractCreate(raw: RawContractCreate): (r: Result<ContractCreate>)
    ensures r.Ok? <==>
      raw.customerId.Given?
      && ListOrEmpty(raw.cars).Ok? && ParseCarItems(ListOrEmpty(raw.cars).value).Ok?
      && ListOrEmpty(raw.surcharges).Ok? && ParseSurchargeItems(ListOrEmpty(raw.surcharges).value).Ok?
    ensures r.Ok? ==>
      r.value.customerId == raw.customerId.value
      && r.value.startDate == Optional(raw.startDate) && r.value.endDate == Optional(raw.endDate)
      && r.value.totalAmount == Optional(raw.totalAmount)
      && r.value.status == Optional(raw.status) && r.value.notes == Optional(raw.notes)
      && (raw.cars.Missing? ==> r.value.cars == [])
      && (raw.surcharges.Missing? ==> r.value.surcharges == [])
    ensures r.Ok? ==>
      r.value.cars == ParseCarItems(ListOrEmpty(raw.cars).value).value
      && r.value.surcharges == ParseSurchargeItems(ListOrEmpty(raw.surcharges).value).value
  {
    if !raw.customerId.Given? then Err(ValidationError)
    else
      match ListOrEmpty(raw.cars)
      case Err(e) => Err(e)
      case Ok(rawCars) =>
        match ParseCarItems(rawCars)
        case Err(e) => Err(e)
        case Ok(cars) =>
          match ListOrEmpty(raw.surcharges)
          case Err(e) => Err(e)
          case Ok(rawSurcharges) =>
            match ParseSurchargeItems(rawSurcharges)
            case Err(e) => Err(e)
            case Ok(surcharges) =>
              Ok(ContractCreate(raw.customerId.value, Optional(raw.startDate), Optional(raw.endDate),
                                Optional(raw.totalAmount), Optional(raw.status), Optional(raw.notes),
                                cars, surcharges))
  }

  /** Every field of the update payload is optional: any raw update validates. */
  function ParseContractUpdate(raw: RawContractUpdate): (r: ContractUpdate)
    ensures r.customerId.None? <==> !raw.customerId.Given?
    ensures raw.customerId.Given? ==> r.customerId == Some(raw.customerId.value)
    ensures r.startDate.None? <==> !raw.startDate.Given?
    ensures raw.startDate.Given? ==> r.startDate == Some(raw.startDate.value)
    ensures r.endDate.None? <==> !raw.endDate.Given?
    ensures raw.endDate.Given? ==> r.endDate == Some(raw.endDate.value)
    ensures r.totalAmount.None? <==> !raw.totalAmount.Given?
    ensures raw.totalAmount.Given? ==> r.totalAmount == Some(raw.totalAmount.value)
    ensures r.status.None? <==> !raw.status.Given?
    ensures raw.status.Given? ==> r.status == Some(raw.status.value)
    ensures r.notes.None? <==> !raw.notes.Given?
    ensures raw.notes.Given? ==> r.notes == Some(raw.notes.value)
  {
    ContractUpdate(Optional(raw.customerId), Optional(raw.startDate), Optional(raw.endDate),
                   Optional(raw.totalAmount), Optional(raw.status), Optional(raw.notes))
  }

  /** The empty update `{}` validates and sets nothing. */
  lemma EmptyUpdateSetsNothing()
    ensures ParseContractUpdate(RawContractUpdate(Missing, Missing, Missing, Missing, Missing, Missing))
      == ContractUpdate(None, None, None, None, None, None)
  {
  }

  /** A create payload of just a customer id validates, with no cars and no surcharges. */
  lemma MinimalCreate(customerId: int)
    ensures ParseContractCreate(RawContractCreate(Given(customerId), Missing, Missing, Missing, Missing, Missing, Missing, Missing))
      == Ok(ContractCreate(customerId, None, None, None, None, None, [], []))
  {
  }
}
