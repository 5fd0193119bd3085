/**
 * The vehicle picker of the contract page (frontend/contract/js/vehicle.js): the loaded
 * vehicle list, its search/type filter, the type options, and the selection that the
 * confirm event publishes for contract creation (`window.appSelectedVehicle`).
 *
 * A vehicle is the JSON object the API returns; every property may be missing (`None`).
 */
module Vehicles {
  import opened Common

  datatype Vehicle = Vehicle(
    carId: Option<int>,
    id: Option<int>,
    licensePlate: Option<string>,
    status: Option<string>,
    typeId: Option<int>,
    dailyRate: Option<real>,
    pricePerDay: Option<real>)

  /** A car type as the API lists it, and the option built from it. */
  datatype VehicleType = VehicleType(typeId: Option<int>, typeName: Option<string>)
  datatype TypeOption = TypeOption(id: Option<int>, name: Option<string>)

  /** An id property is truthy: present and not 0. */
  predicate TruthyId(n: Option<int>) {
    n.Some? && n.value != 0
  }

  /** `String(x || '')` for a text property. */
  function Text(s: Option<string>): string {
    s.GetOr("")
  }

  /** `String(v.type_id || '')` */
  function TypeText(t: Option<int>): (r: string)
    ensures r == [] <==> !TruthyId(t)
  {
    if TruthyId(t) then IntToString(t.value) else ""
  }

  /** `v.car_id || v.id`: the id a selection is matched against. */
  function Key(v: Vehicle): Option<int> {
    if TruthyId(v.carId) then v.carId else v.id
  }

  /** `v.car_id || v.id || null`: the id a click on the vehicle selects. */
  function SelectionKey(v: Vehicle): (k: Option<int>)
    ensures k.Some? ==> TruthyId(k) && k == Key(v)
    ensures k.None? <==> !TruthyId(v.carId) && !TruthyId(v.id)
  {
    if TruthyId(v.carId) then v.carId else if TruthyId(v.id) then v.id else None
  }

  /** `v.daily_rate || v.price_per_day || 0` */
  function Rate(v: Vehicle): (r: real)
    ensures v.dailyRate.Some? && v.dailyRate.value != 0.0 ==> r == v.dailyRate.value
    ensures (v.dailyRate.None? || v.dailyRate.value == 0.0) && v.pricePerDay.Some? ==> r == v.pricePerDay.value
    ensures (v.dailyRate.None? || v.dailyRate.value == 0.0) && v.pricePerDay.None? ==> r == 0.0
  {
    if v.dailyRate.Some? && v.dailyRate.value != 0.0 then v.dailyRate.value
    else if v.pricePerDay.Some? then v.pricePerDay.value
    else 0.0
  }

  /** `matchesTerm`, for a term already trimmed and lower-cased. */
  predicate TermHit(v: Vehicle, term: string) {
    term == []
    || Contains(ToLower(Text(v.licensePlate)), term)
    || Contains(ToLower(Text(v.status)), term)
  }

  /** `matchesType`, for a type filter already trimmed. */
  predicate TypeHit(v: Vehicle, typeId: string) {
    typeId == [] || TypeText(v.typeId) == typeId
  }

  function Shown(term: string, typeId: string): Vehicle -> bool {
    (v: Vehicle) => TermHit(v, term) && TypeHit(v, typeId)
  }

  /**
   * filterVehicles: the vehicles, in their order, whose plate or status contains the
   * trimmed, lower-cased term and whose type id reads as the trimmed type filter.
   */
  function FilterVehicles(list: seq<Vehicle>, term: string, typeId: string): (r: seq<Vehicle>)
    ensures SubsequenceOf(r, list)
    ensures forall v :: v in r <==>
      v in list && TermHit(v, ToLower(Trim(term))) && TypeHit(v, Trim(typeId))
  {
    Filter(list, Shown(ToLower(Trim(term)), Trim(typeId)))
  }

  /** Without a term and a type every vehicle is shown. */
  lemma BlankFilterShowsAll(list: seq<Vehicle>, term: string, typeId: string)
    requires IsBlank(term) && IsBlank(typeId)
    ensures FilterVehicles(list, term, typeId) == list
  {
    FilterAll(list, Shown(ToLower(Trim(term)), Trim(typeId)));
  }

  /** With a type filter, every vehicle shown has a truthy type id written as that filter. */
  lemma TypeFilterExact(list: seq<Vehicle>, term: string, typeId: string)
    requires !IsBlank(typeId)
    ensures forall v :: v in FilterVehicles(list, term, typeId) ==>
      TruthyId(v.typeId) && IntToString(v.typeId.value) == Trim(typeId)
  {
  }

  /** Filtering the filtered list again shows the same vehicles. */
  lemma FilterVehiclesIdempotent(list: seq<Vehicle>, term: string, typeId: string)
    ensures var once := FilterVehicles(list, term, typeId);
      FilterVehicles(once, term, typeId) == once
  {
    FilterTwice(list, Shown(ToLower(Trim(term)), Trim(typeId)));
  }

  /** uniqueTypesFromApi: one option per type, in order (a missing list gives none). */
  function TypeOptions(types: Option<seq<VehicleType>>): (r: seq<TypeOption>)
    ensures types.None? ==> r == []
    ensures types.Some? ==> |r| == |types.value|
    ensures types.Some? ==> forall i :: 0 <= i < |r| ==>
      r[i].id == types.value[i].typeId && r[i].name == types.value[i].typeName
  {
    var ts := types.GetOr([]);
    seq(|ts|, i requires 0 <= i < |ts| => TypeOption(ts[i].typeId, ts[i].typeName))
  }

  /** The options of two lists laid end to end are the two option lists laid end to end. */
  lemma TypeOptionsConcat(a: seq<VehicleType>, b: seq<VehicleType>)
    ensures TypeOptions(Some(a + b)) == TypeOptions(Some(a)) + TypeOptions(Some(b))
  {
    var l, x, y := TypeOptions(Some(a + b)), TypeOptions(Some(a)), TypeOptions(Some(b));
    assert |l| == |x + y|;
    forall i | 0 <= i < |l| ensures l[i] == (x + y)[i] {
      if i < |a| {
        assert (a + b)[i] == a[i];
      } else {
        assert (a + b)[i] == b[i - |a|];
      }
    }
  }

  /** Despite its name the mapping removes no duplicate: a type listed twice gives two options. */
  lemma TypeOptionsKeepDuplicates(t: VehicleType)
    ensures var r := TypeOptions(Some([t, t])); |r| == 2 && r[0] == r[1]
  {
  }

  /** `(x.car_id || x.id) === id` */
  function HasKey(id: int): Vehicle -> bool {
    (v: Vehicle) => Key(v) == Some(id)
  }

  /** The picker's state and `window.appSelectedVehicle`. */
  class VehiclePicker {
    var allVehicles: seq<Vehicle>
    var filtered: seq<Vehicle>
    var selectedVehicleId: Option<int>
    var appSelectedVehicle: Option<Vehicle>

    /** The table shows some of the loaded vehicles, in their order. */
    ghost predicate Valid()
      reads this
    {
      SubsequenceOf(filtered, allVehicles)
    }

    constructor()
      ensures Valid()
      ensures allVehicles == [] && filtered == [] && selectedVehicleId == None && appSelectedVehicle == None
    {
      allVehicles := [];
      filtered := [];
      selectedVehicleId := None;
      appSelectedVehicle := None;
    }

    /** applyFilterAndRender */
    method ApplyFilter(search: string, typeFilter: string)
      modifies this
      ensures Valid()
      ensures filtered == FilterVehicles(allVehicles, search, typeFilter)
      ensures allVehicles == old(allVehicles) && selectedVehicleId == old(selectedVehicleId)
      ensures appSelectedVehicle == old(appSelectedVehicle)
    {
      filtered := FilterVehicles(allVehicles, search, typeFilter);
    }

    /**
     * loadVehicles once the request has settled: the list the API returned, or no vehicle
     * when it returned something else or failed (`response == None`), then the filter.
     */
    method Load(response: Option<seq<Vehicle>>, search: string, typeFilter: string)
      modifies this
      ensures Valid()
      ensures allVehicles == response.GetOr([])
      ensures filtered == FilterVehicles(allVehicles, search, typeFilter)
      ensures selectedVehicleId == old(selectedVehicleId) && appSelectedVehicle == old(appSelectedVehicle)
    {
      allVehicles := response.GetOr([]);
      ApplyFilter(search, typeFilter);
    }

    /** A click on a vehicle's radio button or "Select" button. */
    method Choose(v: Vehicle)
      requires Valid()
      modifies this
      ensures Valid()
      ensures selectedVehicleId == SelectionKey(v)
      ensures allVehicles == old(allVehicles) && filtered == old(filtered)
      ensures appSelectedVehicle == old(appSelectedVehicle)
    {
      selectedVehicleId := SelectionKey(v);
    }

    /**
     * The `vehicle:select:confirm` handler: nothing happens without a selection or when no
     * loaded vehicle carries the selected id; otherwise the first vehicle that does is
     * published and the selection is cleared.
     */
    method Confirm()
      requires Valid()
      modifies this
      ensures Valid()
      ensures allVehicles == old(allVehicles) && filtered == old(filtered)
      ensures !TruthyId(old(selectedVehicleId)) ==>
        selectedVehicleId == old(selectedVehicleId) && appSelectedVehicle == old(appSelectedVehicle)
      ensures TruthyId(old(selectedVehicleId)) ==>
        var k := FirstIndex(allVehicles, HasKey(old(selectedVehicleId).value));
        (k < 0 ==> selectedVehicleId == old(selectedVehicleId) && appSelectedVehicle == old(appSelectedVehicle))
        && (k >= 0 ==> selectedVehicleId == None && appSelectedVehicle == Some(allVehicles[k])
                       && Key(allVehicles[k]) == old(selectedVehicleId))
    {
      if !TruthyId(selectedVehicleId) {
        return;
      }
      var k := FindIndex(allVehicles, HasKey(selectedVehicleId.value));
      if k < 0 {
        return;
      }
      appSelectedVehicle := Some(allVehicles[k]);
      selectedVehicleId := None;
    }
  }
}
