/**
 * The car listing of backend/app/routers/car.py and its /vehicles aliases.
 *
 * The car table is a map from CarID; the handlers only read it.
 */
module Cars {
  import opened Common
  import opened Models

  /** The response row; a null rate is reported as 0. */
  datatype CarOut = CarOut(carId: int, licensePlate: string, dailyRate: Money, hourlyRate: Money, status: Option<string>)

  function ToOut(id: int, c: Car): CarOut {
    CarOut(id, c.licensePlate, c.dailyRate.GetOr(0), c.hourlyRate.GetOr(0), c.status)
  }

  /** The row reported for a selected id (the query only selects existing cars). */
  function OutOf(cars: map<int, Car>, id: int): CarOut {
    if id in cars then ToOut(id, cars[id]) else CarOut(id, [], 0, 0, None)
  }

  /** `.offset(max(0, skip))` */
  function EffectiveOffset(skip: int): (n: nat)
    ensures skip <= 0 ==> n == 0
    ensures skip >= 0 ==> n == skip
  {
    Max(0, skip)
  }

  /** `.limit(max(1, min(500, limit)))`: the limit clamped into [1, 500]. */
  function EffectiveLimit(limit: int): (n: nat)
    ensures 1 <= n <= 500
    ensures 1 <= limit <= 500 ==> n == limit
    ensures limit < 1 ==> n == 1
    ensures limit > 500 ==> n == 500
  {
    Max(1, Min(500, limit))
  }

  /**
   * The search filter: with a non-empty term, the plate or the status contains it, ignoring
   * case (a null status matches nothing); with no term or an empty one, every car.
   */
  predicate Matches(c: Car, search: Option<string>) {
    search.None? || search.value == []
    || ContainsIgnoreCase(c.licensePlate, search.value)
    || (c.status.Some? && ContainsIgnoreCase(c.status.value, search.value))
  }

  /** The WHERE clause for one car id. */
  predicate Selected(cars: map<int, Car>, search: Option<string>, id: int) {
    id in cars && Matches(cars[id], search)
  }

  /** The WHERE clause as a filter. */
  function Where(cars: map<int, Car>, search: Option<string>): int -> bool {
    (id: int) => Selected(cars, search, id)
  }

  /** The ids the query selects, ordered by CarID. */
  function MatchingIds(cars: map<int, Car>, search: Option<string>): seq<int> {
    Filter(SortedKeys(cars.Keys), Where(cars, search))
  }

  /** The ids of the window `.offset(..).limit(..)` keeps. */
  function Window(cars: map<int, Car>, skip: int, limit: int, search: Option<string>): seq<int> {
    Page(MatchingIds(cars, search), EffectiveOffset(skip), EffectiveLimit(limit))
  }

  /** One response row per selected id, in order. */
  function Render(cars: map<int, Car>, ids: seq<int>): seq<CarOut> {
    seq(|ids|, i requires 0 <= i < |ids| => OutOf(cars, ids[i]))
  }

  /** What list_cars returns: the clamped window of the matching cars, in CarID order. */
  function Listing(cars: map<int, Car>, skip: int, limit: int, search: Option<string>): seq<CarOut> {
    Render(cars, Window(cars, skip, limit, search))
  }

  /** The loop of list_cars that builds one CarOut per selected row. */
  method RenderRows(cars: map<int, Car>, items: seq<int>) returns (result: seq<CarOut>)
    requires forall i :: 0 <= i < |items| ==> items[i] in cars
    ensures result == Render(cars, items)
  {
    result := [];
    var i := 0;
    while i < |items|
      invariant 0 <= i <= |items|
      invariant |result| == i
      invariant forall j :: 0 <= j < i ==> result[j] == OutOf(cars, items[j])
    {
      var id := items[i];
      result := result + [ToOut(id, cars[id])];
      i := i + 1;
    }
  }

  /** list_cars: the query, then the loop over its rows. */
  method ListCars(cars: map<int, Car>, skip: int, limit: int, search: Option<string>) returns (result: seq<CarOut>)
    ensures result == Listing(cars, skip, limit, search)
  {
    var items := Window(cars, skip, limit, search);
    WindowSelected(cars, skip, limit, search);
    result := RenderRows(cars, items);
  }

  /** get_car */
  method GetCar(cars: map<int, Car>, carId: int) returns (r: Result<CarOut>)
    ensures carId !in cars ==> r == Err(NotFound)
    ensures carId in cars ==> r.Ok? && r.value.carId == carId && r.value == ToOut(carId, cars[carId])
  {
    if carId !in cars {
      return Err(NotFound);
    }
    r := Ok(ToOut(carId, cars[carId]));
  }

  /** list_vehicles delegates to list_cars with the same arguments. */
  method ListVehicles(cars: map<int, Car>, skip: int, limit: int, search: Option<string>) returns (result: seq<CarOut>)
    ensures result == Listing(cars, skip, limit, search)
  {
    result := ListCars(cars, skip, limit, search);
  }

  /** get_vehicle delegates to get_car. */
  method GetVehicle(cars: map<int, Car>, vehicleId: int) returns (r: Result<CarOut>)
    ensures vehicleId !in cars ==> r == Err(NotFound)
    ensures vehicleId in cars ==> r == Ok(ToOut(vehicleId, cars[vehicleId]))
  {
    r := GetCar(cars, vehicleId);
  }

  /** The filter applied to an id is the WHERE clause. */
  lemma WhereIsSelected(cars: map<int, Car>, search: Option<string>, id: int)
    ensures Where(cars, search)(id) == Selected(cars, search, id)
  {
  }

  /** The window is the page of the matching ids. */
  lemma WindowIsPage(cars: map<int, Car>, skip: int, limit: int, search: Option<string>)
    ensures Window(cars, skip, limit, search) == Page(MatchingIds(cars, search), EffectiveOffset(skip), EffectiveLimit(limit))
  {
  }

  /** The query orders by CarID and filtering keeps that order. */
  lemma MatchingAscending(cars: map<int, Car>, search: Option<string>)
    ensures StrictlyIncreasing(MatchingIds(cars, search))
  {
    FilterIncreasing(SortedKeys(cars.Keys), Where(cars, search));
  }

  /** A selected id is a car that satisfies the WHERE clause. */
  lemma MatchingSelected(cars: map<int, Car>, search: Option<string>, id: int)
    requires id in MatchingIds(cars, search)
    ensures Selected(cars, search, id)
  {
    WhereIsSelected(cars, search, id);
  }

  /** The selected window is ascending and within the limit. */
  lemma WindowAscending(cars: map<int, Car>, skip: int, limit: int, search: Option<string>)
    ensures var w := Window(cars, skip, limit, search);
      |w| <= EffectiveLimit(limit) && StrictlyIncreasing(w)
  {
    MatchingAscending(cars, search);
    WindowIsPage(cars, skip, limit, search);
    PageIncreasing(MatchingIds(cars, search), EffectiveOffset(skip), EffectiveLimit(limit));
  }

  /** Every id of the window is one of the matching ids. */
  lemma WindowInMatching(cars: map<int, Car>, skip: int, limit: int, search: Option<string>)
    ensures var w := Window(cars, skip, limit, search);
      forall i :: 0 <= i < |w| ==> w[i] in MatchingIds(cars, search)
  {
    PageWithin(MatchingIds(cars, search), EffectiveOffset(skip), EffectiveLimit(limit));
  }

  /** Every id of a page is one of the paged ids. */
  lemma PageWithin(ids: seq<int>, offset: nat, limit: nat)
    ensures var w := Page(ids, offset, limit);
      forall i :: 0 <= i < |w| ==> w[i] in ids
  {
    var w := Page(ids, offset, limit);
    forall i | 0 <= i < |w| ensures w[i] in ids {
      assert w[i] == ids[offset + i];
    }
  }

  /** Every id of the window is a car that satisfies the WHERE clause. */
  lemma WindowSelected(cars: map<int, Car>, skip: int, limit: int, search: Option<string>)
    ensures var w := Window(cars, skip, limit, search);
      forall i :: 0 <= i < |w| ==> Selected(cars, search, w[i])
  {
    WindowInMatching(cars, skip, limit, search);
    var w := Window(cars, skip, limit, search);
    forall i | 0 <= i < |w| ensures Selected(cars, search, w[i]) {
      MatchingSelected(cars, search, w[i]);
    }
  }

  /**
   * The listing: at most the clamped limit of rows, in increasing CarID order, each an
   * existing car that matches the search, reported with null rates as 0.
   */
  lemma ListingShape(cars: map<int, Car>, skip: int, limit: int, search: Option<string>)
    ensures var r := Listing(cars, skip, limit, search);
      |r| <= EffectiveLimit(limit)
      && (forall i, j :: 0 <= i < j < |r| ==> r[i].carId < r[j].carId)
      && (forall i :: 0 <= i < |r| ==>
            r[i].carId in cars && Matches(cars[r[i].carId], search)
            && r[i].licensePlate == cars[r[i].carId].licensePlate && r[i].status == cars[r[i].carId].status
            && r[i].dailyRate == cars[r[i].carId].dailyRate.GetOr(0)
            && r[i].hourlyRate == cars[r[i].carId].hourlyRate.GetOr(0))
  {
    WindowAscending(cars, skip, limit, search);
    WindowSelected(cars, skip, limit, search);
    var w := Window(cars, skip, limit, search);
    var r := Listing(cars, skip, limit, search);
    assert forall i :: 0 <= i < |r| ==> r[i] == ToOut(w[i], cars[w[i]]);
  }

  /**
   * Nothing is skipped: the listing is the window [offset, offset + limit) of the matching
   * cars in CarID order, so a car that matches and ranks inside the window is listed.
   */
  lemma ListingWindow(cars: map<int, Car>, skip: int, limit: int, search: Option<string>)
    ensures var ids := MatchingIds(cars, search);
      var r := Listing(cars, skip, limit, search);
      |r| == Max(0, Min(|ids| - EffectiveOffset(skip), EffectiveLimit(limit)))
      && forall i :: 0 <= i < |r| ==> r[i].carId == ids[EffectiveOffset(skip) + i]
  {
    RenderPage(cars, MatchingIds(cars, search), EffectiveOffset(skip), EffectiveLimit(limit));
  }

  /** Rendering a page of ids reports exactly those ids, in order. */
  lemma RenderPage(cars: map<int, Car>, ids: seq<int>, offset: nat, limit: nat)
    ensures var r := Render(cars, Page(ids, offset, limit));
      |r| == Max(0, Min(|ids| - offset, limit))
      && forall i :: 0 <= i < |r| ==> r[i].carId == ids[offset + i]
  {
  }

  /** With no search term, every car is a match, so the first page lists the first cars. */
  lemma NoSearchMatchesAll(cars: map<int, Car>, search: Option<string>)
    requires search.None? || search.value == []
    ensures MatchingIds(cars, search) == SortedKeys(cars.Keys)
  {
    var ks := SortedKeys(cars.Keys);
    var keep := Where(cars, search);
    forall x | x in ks ensures keep(x) {
      assert x in cars;
    }
    FilterAll(ks, keep);
  }
}
