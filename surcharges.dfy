/**
 * The surcharge line items of the contract page (frontend/contract/js/surcharge.js): an
 * in-memory list the surcharge modal adds to or edits, the table's remove button and the
 * "clear" button shrink, and whose sum the payment summary shows.
 *
 * The modal fields arrive already read by `Number(..)`: `None` stands for an empty field.
 * `Date.now()`, which names a new item, is the parameter `now`.
 */
module Surcharges {
  import opened Common
  import opened JsNumbers

  datatype Item = Item(id: int, name: string, unitPrice: real, quantity: Num, amount: Num, note: string)

  /** What the modal submits: the name as typed, the unit price, the quantity and the note. */
  datatype ModalInput = ModalInput(name: string, unitPrice: Option<Num>, quantity: Option<Num>, note: string)

  /** `Number(inputUnitPrice.value || 0)` */
  function PriceOf(m: ModalInput): Num {
    m.unitPrice.GetOr(Fin(0.0))
  }

  /** `Math.max(1, Number(inputQuantity.value || 1))` */
  function QuantityOf(m: ModalInput): (q: Num)
    ensures q.NaN? || q.v >= 1.0
  {
    AtLeastOne(m.quantity.GetOr(Fin(1.0)))
  }

  /** The guards of upsertFromModal: a blank name, or a unit price that is NaN or negative. */
  predicate Rejected(m: ModalInput) {
    Trim(m.name) == [] || PriceOf(m).NaN? || PriceOf(m).v < 0.0
  }

  /** The item the modal builds under the id `id`. */
  function Line(m: ModalInput, id: int): (it: Item)
    requires !Rejected(m)
    ensures it.id == id && it.name == Trim(m.name) && it.note == m.note
    ensures it.unitPrice == PriceOf(m).v && it.quantity == QuantityOf(m)
    ensures it.amount == Times(PriceOf(m), QuantityOf(m))
  {
    Item(id, Trim(m.name), PriceOf(m).v, QuantityOf(m), Times(PriceOf(m), QuantityOf(m)), m.note)
  }

  /**
   * What every stored item satisfies: a non-blank trimmed name, a non-negative unit price,
   * a quantity of at least 1 (or NaN, when the quantity field held text `Number` cannot
   * read) and an amount that is unit price times quantity.
   */
  predicate WellFormed(it: Item) {
    it.name != [] && Stripped(it.name) && it.unitPrice >= 0.0
    && (it.quantity.NaN? || it.quantity.v >= 1.0)
    && it.amount == Times(Fin(it.unitPrice), it.quantity)
  }

  predicate AllWellFormed(items: seq<Item>) {
    forall i :: 0 <= i < |items| ==> WellFormed(items[i])
  }

  /** Every item the modal builds is well formed. */
  lemma LineWellFormed(m: ModalInput, id: int)
    requires !Rejected(m)
    ensures WellFormed(Line(m, id))
  {
    TrimIdempotent(m.name);
  }

  /** `x.id === id` */
  function HasId(id: int): Item -> bool {
    (x: Item) => x.id == id
  }

  /** `x.id !== id` */
  function OtherId(id: int): Item -> bool {
    (x: Item) => x.id != id
  }

  /** `if (state.editId)`: an edit is pending. */
  predicate Editing(editId: Option<int>) {
    editId.Some? && editId.value != 0
  }

  /**
   * The list after an upsert that passed the guards: without a pending edit the new item
   * goes at the end under the id `now`; with one, the first item holding the edited id is
   * replaced in place, and an edited id no item holds changes nothing.
   */
  function Upserted(items: seq<Item>, editId: Option<int>, m: ModalInput, now: int): (r: seq<Item>)
    requires !Rejected(m)
    ensures !Editing(editId) ==>
      |r| == |items| + 1 && r[..|items|] == items && r[|items|] == Line(m, now)
    ensures Editing(editId) && (forall i :: 0 <= i < |items| ==> items[i].id != editId.value) ==>
      r == items
    ensures Editing(editId) && FirstIndex(items, HasId(editId.value)) >= 0 ==>
      var k := FirstIndex(items, HasId(editId.value));
      |r| == |items| && items[k].id == editId.value && r[k] == Line(m, editId.value)
      && forall j :: 0 <= j < |items| && j != k ==> r[j] == items[j]
  {
    if Editing(editId) then
      var k := FirstIndex(items, HasId(editId.value));
      if k >= 0 then items[k := Line(m, editId.value)] else items
    else
      items + [Line(m, now)]
  }

  /** `items.filter(x => x.id !== id)`: every item with that id goes, the rest keep their order. */
  function Without(items: seq<Item>, id: int): (r: seq<Item>)
    ensures forall x :: x in r <==> x in items && x.id != id
    ensures SubsequenceOf(r, items)
  {
    Filter(items, OtherId(id))
  }

  /** getTotal: the sum of `Number(x.amount || 0)`; a NaN amount counts as 0. */
  function Total(items: seq<Item>): (t: real)
    ensures AllWellFormed(items) ==> t >= 0.0
  {
    if items == [] then 0.0
    else
      assert WellFormed(items[0]) ==> Or(items[0].amount, 0.0) >= 0.0 by {
        if WellFormed(items[0]) && items[0].amount.Fin? {
          assert items[0].amount.v == items[0].unitPrice * items[0].quantity.v;
        }
      }
      Or(items[0].amount, 0.0) + Total(items[1..])
  }

  /** The total of two lists laid end to end is the sum of their totals. */
  lemma {:induction false} TotalConcat(a: seq<Item>, b: seq<Item>)
    ensures Total(a + b) == Total(a) + Total(b)
  {
    if a != [] {
      assert (a + b)[1..] == a[1..] + b;
      TotalConcat(a[1..], b);
    } else {
      assert a + b == b;
    }
  }

  /** Replacing one item changes the total by the difference of the two amounts. */
  lemma TotalReplace(items: seq<Item>, k: nat, x: Item)
    requires k < |items|
    ensures Total(items[k := x]) == Total(items) - Or(items[k].amount, 0.0) + Or(x.amount, 0.0)
  {
    assert items == items[..k] + ([items[k]] + items[k + 1..]);
    assert items[k := x] == items[..k] + ([x] + items[k + 1..]);
    TotalConcat(items[..k], [items[k]] + items[k + 1..]);
    TotalConcat(items[..k], [x] + items[k + 1..]);
  }

  /** The items a filter keeps and the items it drops add up to the whole list. */
  lemma {:induction false} TotalSplit(items: seq<Item>, id: int)
    ensures Total(Without(items, id)) + Total(Filter(items, HasId(id))) == Total(items)
  {
    if items != [] {
      TotalSplit(items[1..], id);
    }
  }

  /** An upsert that passed the guards adds the new amount, or swaps the edited item's amount for it. */
  lemma UpsertTotal(items: seq<Item>, editId: Option<int>, m: ModalInput, now: int)
    requires !Rejected(m)
    ensures var r := Upserted(items, editId, m, now);
      var k := FirstIndex(items, HasId(editId.GetOr(0)));
      (!Editing(editId) ==> Total(r) == Total(items) + Or(Line(m, now).amount, 0.0))
      && (Editing(editId) && k < 0 ==> Total(r) == Total(items))
      && (Editing(editId) && k >= 0 ==>
            Total(r) == Total(items) - Or(items[k].amount, 0.0) + Or(Line(m, editId.value).amount, 0.0))
  {
    if Editing(editId) {
      var k := FirstIndex(items, HasId(editId.value));
      if k >= 0 {
        TotalReplace(items, k, Line(m, editId.value));
      }
    } else {
      TotalConcat(items, [Line(m, now)]);
    }
  }

  /** Removing items never raises the total of a well-formed list. */
  lemma RemoveLowersTotal(items: seq<Item>, id: int)
    requires AllWellFormed(items)
    ensures Total(Without(items, id)) <= Total(items)
  {
    TotalSplit(items, id);
    var gone := Filter(items, HasId(id));
    assert AllWellFormed(gone) by {
      forall i | 0 <= i < |gone| ensures WellFormed(gone[i]) {
        assert gone[i] in items;
      }
    }
  }

  /** The surcharge state of the page: `state.items` and `state.editId`. */
  class SurchargeList {
    var items: seq<Item>
    var editId: Option<int>

    ghost predicate Valid()
      reads this
    {
      AllWellFormed(items)
    }

    constructor()
      ensures Valid() && items == [] && editId == None
    {
      items := [];
      editId := None;
    }

    /** getAll: a copy of the list. */
    method GetAll() returns (r: seq<Item>)
      ensures r == items
    {
      r := items;
    }

    /** getTotal */
    method GetTotal() returns (t: real)
      requires Valid()
      ensures t == Total(items) && t >= 0.0
    {
      t := Total(items);
    }

    /**
     * The state change of openEdit before it reads the undeclared `inputAmount`: the
     * edited id is remembered when an item holds it.
     */
    method BeginEdit(id: int)
      modifies this
      ensures items == old(items)
      ensures FirstIndex(items, HasId(id)) >= 0 ==> editId == Some(id)
      ensures FirstIndex(items, HasId(id)) < 0 ==> editId == old(editId)
    {
      var k := FindIndex(items, HasId(id));
      if k < 0 {
        return;
      }
      editId := Some(id);
    }

    /** removeItem */
    method RemoveItem(id: int)
      requires Valid()
      modifies this
      ensures Valid()
      ensures items == Without(old(items), id) && editId == old(editId)
    {
      var kept := Filter(items, OtherId(id));
      forall i | 0 <= i < |kept| ensures WellFormed(kept[i]) {
        assert kept[i] in items;
      }
      items := kept;
    }

    /** clearAll */
    method ClearAll()
      modifies this
      ensures Valid()
      ensures items == [] && editId == old(editId)
    {
      items := [];
    }

    /**
     * upsertFromModal: a rejected input changes nothing; otherwise the list becomes
     * `Upserted(..)` and the pending edit is cleared (resetModal).
     */
    method Upsert(m: ModalInput, now: int)
      requires Valid()
      modifies this
      ensures Valid()
      ensures Rejected(m) ==> items == old(items) && editId == old(editId)
      ensures !Rejected(m) ==> items == Upserted(old(items), old(editId), m, now) && editId == None
    {
      var name := Trim(m.name);
      var unitPrice := PriceOf(m);
      var quantity := QuantityOf(m);
      if name == [] {
        return;
      }
      if unitPrice.NaN? || unitPrice.v < 0.0 {
        return;
      }
      var amount := Times(unitPrice, quantity);
      LineWellFormed(m, now);
      if Editing(editId) {
        var id := editId.value;
        LineWellFormed(m, id);
        var idx := FindIndex(items, HasId(id));
        if idx >= 0 {
          items := items[idx := Item(id, name, unitPrice.v, quantity, amount, m.note)];
        }
      } else {
        items := items + [Item(now, name, unitPrice.v, quantity, amount, m.note)];
      }
      editId := None;
    }
  }
}
