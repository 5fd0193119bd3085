/**
 * The brand table behind backend/app/routers/carbrand.py. Brand names are stored trimmed and
 * no two brands share one; `CarBrandTable.Valid` is that invariant, and create, rename and
 * delete keep it. Creation and update timestamps are not modelled.
 */
module CarBrands {
  import opened Common
  import opened Tables

  datatype CarBrand = CarBrand(brandName: string)

  /** CarBrandOut without its timestamps. */
  datatype CarBrandOut = CarBrandOut(brandId: int, brandName: string)

  /** The brand_name column. */
  function Names(rows: map<int, CarBrand>): (names: map<int, string>)
    ensures names.Keys == rows.Keys
    ensures forall id :: id in rows ==> names[id] == rows[id].brandName
  {
    map id | id in rows :: rows[id].brandName
  }

  /** The WHERE clause of list_car_brands for one row. */
  predicate Selected(rows: map<int, CarBrand>, search: Option<string>, id: int) {
    id in rows && (NoTerm(search) || Hit(rows[id].brandName, search.value))
  }

  function Where(rows: map<int, CarBrand>, search: Option<string>): int -> bool {
    (id: int) => Selected(rows, search, id)
  }

  /** list_car_brands: the rows matching the search, ordered by brand_id, offset and limit as given. */
  function Listing(rows: map<int, CarBrand>, skip: int, limit: int, search: Option<string>): Result<seq<CarBrandOut>> {
    match Fetch(rows, Where(rows, search), skip, limit)
    case Err(e) => Err(e)
    case Ok(found) => Ok(Outs(found))
  }

  /** The response rows, one per fetched row. */
  function Outs(found: seq<(int, CarBrand)>): (r: seq<CarBrandOut>)
    ensures |r| == |found|
    ensures forall i :: 0 <= i < |found| ==> r[i] == CarBrandOut(found[i].0, found[i].1.brandName)
  {
    seq(|found|, i requires 0 <= i < |found| => CarBrandOut(found[i].0, found[i].1.brandName))
  }

  /**
   * list_car_brands fails on a negative offset or limit; otherwise it lists at most `limit`
   * brands, in increasing brand_id order, each an existing brand matching the search.
   */
  lemma ListingRows(rows: map<int, CarBrand>, skip: int, limit: int, search: Option<string>)
    ensures var r := Listing(rows, skip, limit, search);
      (r.Err? <==> skip < 0 || limit < 0)
      && (r.Ok? ==>
            |r.value| <= limit
            && (forall i, j :: 0 <= i < j < |r.value| ==> r.value[i].brandId < r.value[j].brandId)
            && forall i :: 0 <= i < |r.value| ==>
                 r.value[i].brandId in rows && rows[r.value[i].brandId].brandName == r.value[i].brandName
                 && Selected(rows, search, r.value[i].brandId))
  {
    ListingOrdered(rows, skip, limit, search);
    ListingContents(rows, skip, limit, search);
  }

  lemma ListingOrdered(rows: map<int, CarBrand>, skip: int, limit: int, search: Option<string>)
    ensures var r := Listing(rows, skip, limit, search);
      r.Ok? ==> forall i, j :: 0 <= i < j < |r.value| ==> r.value[i].brandId < r.value[j].brandId
  {
    var keep := Where(rows, search);
    FetchKept(rows, keep, skip, limit);
    var f := Fetch(rows, keep, skip, limit);
    if f.Ok? {
      var out := Listing(rows, skip, limit, search).value;
      forall i | 0 <= i < |out| ensures out[i].brandId == f.value[i].0 {
      }
    }
  }

  lemma ListingContents(rows: map<int, CarBrand>, skip: int, limit: int, search: Option<string>)
    ensures var r := Listing(rows, skip, limit, search);
      r.Ok? ==> forall i :: 0 <= i < |r.value| ==>
                 r.value[i].brandId in rows && rows[r.value[i].brandId].brandName == r.value[i].brandName
                 && Selected(rows, search, r.value[i].brandId)
  {
    var keep := Where(rows, search);
    FetchKept(rows, keep, skip, limit);
    var f := Fetch(rows, keep, skip, limit);
    if f.Ok? {
      var out := Listing(rows, skip, limit, search).value;
      forall i | 0 <= i < |out| ensures out[i].brandId == f.value[i].0 {
      }
      forall i | 0 <= i < |out| ensures keep(out[i].brandId) {
        assert keep(f.value[i].0);
      }
    }
  }


  /** get_car_brand */
  function Get(rows: map<int, CarBrand>, brandId: int): (r: Result<CarBrandOut>)
    ensures r.Err? <==> brandId !in rows
    ensures r.Err? ==> r.error == NotFound
    ensures r.Ok? ==> r.value.brandId == brandId && r.value.brandName == rows[brandId].brandName
  {
    if brandId in rows then Ok(CarBrandOut(brandId, rows[brandId].brandName)) else Err(NotFound)
  }

  class CarBrandTable {
    var rows: map<int, CarBrand>
    /** The next value of the brand_id sequence. */
    var nextId: int

    ghost predicate Valid()
      reads this
    {
      UniqueTrimmed(Names(rows)) && forall id :: id in rows ==> id < nextId
    }

    constructor(initial: map<int, CarBrand>, next: int)
      requires UniqueTrimmed(Names(initial)) && forall id :: id in initial ==> id < next
      ensures Valid() && rows == initial && nextId == next
    {
      rows := initial;
      nextId := next;
    }

    /** create_car_brand: conflict if a brand already holds the trimmed name, else store it trimmed. */
    method CreateCarBrand(brandName: string) returns (r: Result<CarBrandOut>)
      requires Valid()
      modifies this
      ensures Valid()
      ensures var name := Trim(brandName);
        if Taken(Names(old(rows)), name, None) then
          r == Err(Conflict) && rows == old(rows) && nextId == old(nextId)
        else
          r == Ok(CarBrandOut(old(nextId), name)) && rows == old(rows)[old(nextId) := CarBrand(name)]
          && nextId == old(nextId) + 1
    {
      var name := Trim(brandName);
      if Taken(Names(rows), name, None) {
        return Err(Conflict);
      }
      InsertKeepsUnique(Names(rows), nextId, name);
      assert Names(rows[nextId := CarBrand(name)]) == Names(rows)[nextId := name];
      rows := rows[nextId := CarBrand(name)];
      r := Ok(CarBrandOut(nextId, name));
      nextId := nextId + 1;
    }

    /**
     * update_car_brand: not found for an unknown id; a given name is trimmed and conflicts only
     * when a different brand holds it; without a name the brand is unchanged.
     */
    method UpdateCarBrand(brandId: int, brandName: Option<string>) returns (r: Result<CarBrandOut>)
      requires Valid()
      modifies this
      ensures Valid() && nextId == old(nextId)
      ensures brandId !in old(rows) ==> r == Err(NotFound) && rows == old(rows)
      ensures brandId in old(rows) && brandName.None? ==>
        r == Ok(CarBrandOut(brandId, old(rows)[brandId].brandName)) && rows == old(rows)
      ensures brandId in old(rows) && brandName.Some? ==>
        var name := Trim(brandName.value);
        if Taken(Names(old(rows)), name, Some(brandId)) then
          r == Err(Conflict) && rows == old(rows)
        else
          r == Ok(CarBrandOut(brandId, name)) && rows == old(rows)[brandId := CarBrand(name)]
    {
      if brandId !in rows {
        return Err(NotFound);
      }
      var brand := rows[brandId];
      if brandName.Some? {
        var name := Trim(brandName.value);
        if Taken(Names(rows), name, Some(brandId)) {
          return Err(Conflict);
        }
        RenameKeepsUnique(Names(rows), brandId, name);
        assert Names(rows[brandId := CarBrand(name)]) == Names(rows)[brandId := name];
        brand := CarBrand(name);
      }
      rows := rows[brandId := brand];
      r := Ok(CarBrandOut(brandId, brand.brandName));
    }

    /** delete_car_brand: not found for an unknown id, otherwise exactly that row goes. */
    method DeleteCarBrand(brandId: int) returns (r: Result<()>)
      requires Valid()
      modifies this
      ensures Valid() && nextId == old(nextId)
      ensures brandId !in old(rows) ==> r == Err(NotFound) && rows == old(rows)
      ensures brandId in old(rows) ==> r == Ok(()) && rows == old(rows) - {brandId}
    {
      if brandId !in rows {
        return Err(NotFound);
      }
      assert Names(rows - {brandId}) == Names(rows) - {brandId};
      rows := rows - {brandId};
      r := Ok(());
    }
  }

  /** After a successful create, the same name (with any padding) conflicts. */
  lemma CreatedNameConflicts(rows: map<int, CarBrand>, id: int, brandName: string, again: string)
    requires Trim(again) == Trim(brandName)
    ensures Taken(Names(rows[id := CarBrand(Trim(brandName))]), Trim(again), None)
  {
    var names := Names(rows[id := CarBrand(Trim(brandName))]);
    assert names[id] == Trim(again);
  }
}
