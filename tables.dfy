/**
 * What the administrative routers (roles, branches, car brands, user accounts, employees,
 * customers) have in common: a table keyed by a serial id, listed with
 * `query.filter(..).order_by(<id>).offset(skip).limit(limit)`, and, for some, a name column
 * that create and rename keep unique.
 */
module Tables {
  import opened Common

  // ---------------------------------------------------------------------------------------
  // Listing
  // ---------------------------------------------------------------------------------------

  /** `if search:` — a missing or empty search term adds no filter. */
  predicate NoTerm(search: Option<string>) {
    search.None? || search.value == []
  }

  /** `column.ilike('%term%')` on a NOT NULL column. */
  predicate Hit(column: string, term: string) {
    ContainsIgnoreCase(column, term)
  }

  /** The same on a nullable column: NULL matches nothing. */
  predicate HitOpt(column: Option<string>, term: string) {
    column.Some? && ContainsIgnoreCase(column.value, term)
  }

  /** `query.filter(keep).order_by(<id>)`: the ids of the rows kept, ascending. */
  function OrderedIds<R>(rows: map<int, R>, keep: int -> bool): (r: seq<int>)
    ensures StrictlyIncreasing(r)
    ensures forall id :: id in r <==> id in rows && keep(id)
  {
    FilterIncreasing(SortedKeys(rows.Keys), keep);
    Filter(SortedKeys(rows.Keys), keep)
  }

  /** A filter that keeps every row orders all the ids. */
  lemma OrderedAll<R>(rows: map<int, R>, keep: int -> bool)
    requires forall id :: id in rows ==> keep(id)
    ensures OrderedIds(rows, keep) == SortedKeys(rows.Keys)
    ensures |OrderedIds(rows, keep)| == |rows|
  {
    var ks := SortedKeys(rows.Keys);
    forall x | x in ks ensures keep(x) {
      assert x in rows;
    }
    FilterAll(ks, keep);
    assert |rows.Keys| == |rows|;
  }

  /** The fetched rows for a list of ids, in that order. */
  function RowsAt<R>(rows: map<int, R>, ids: seq<int>): (r: seq<(int, R)>)
    requires forall i :: 0 <= i < |ids| ==> ids[i] in rows
    ensures |r| == |ids|
  {
    seq(|ids|, i requires 0 <= i < |ids| => (ids[i], rows[ids[i]]))
  }

  /** The page of the ordered ids: every one of them is a kept row. */
  lemma PageOfOrdered<R>(rows: map<int, R>, keep: int -> bool, skip: nat, limit: nat)
    ensures var ids := Page(OrderedIds(rows, keep), skip, limit);
      StrictlyIncreasing(ids) && forall i :: 0 <= i < |ids| ==> ids[i] in rows && keep(ids[i])
  {
    var all := OrderedIds(rows, keep);
    var ids := Page(all, skip, limit);
    PageIncreasing(all, skip, limit);
    forall i | 0 <= i < |ids| ensures ids[i] in rows && keep(ids[i]) {
      assert ids[i] == all[skip + i];
      assert ids[i] in all;
    }
  }

  /**
   * `.offset(skip).limit(limit).all()` with the values passed through unclamped:
   * PostgreSQL refuses a negative OFFSET or LIMIT.
   */
  function Fetch<R>(rows: map<int, R>, keep: int -> bool, skip: int, limit: int): (r: Result<seq<(int, R)>>)
    ensures r.Err? <==> skip < 0 || limit < 0
    ensures r.Err? ==> r.error == DataError
    ensures r.Ok? ==> |r.value| <= limit
  {
    if skip < 0 || limit < 0 then Err(DataError)
    else
      PageOfOrdered(rows, keep, skip, limit);
      Ok(RowsAt(rows, Page(OrderedIds(rows, keep), skip, limit)))
  }

  /** Every fetched row is a row of the table that the filter keeps, in ascending id order. */
  lemma FetchKept<R>(rows: map<int, R>, keep: int -> bool, skip: int, limit: int)
    ensures var r := Fetch(rows, keep, skip, limit);
      r.Ok? ==>
        (forall i :: 0 <= i < |r.value| ==>
           r.value[i].0 in rows && rows[r.value[i].0] == r.value[i].1 && keep(r.value[i].0))
        && forall i, j :: 0 <= i < j < |r.value| ==> r.value[i].0 < r.value[j].0
  {
    if skip >= 0 && limit >= 0 {
      PageOfOrdered(rows, keep, skip, limit);
      RowsAtKept(rows, keep, Page(OrderedIds(rows, keep), skip, limit));
    }
  }

  /** The rows fetched for increasing ids of kept rows are those rows, in that order. */
  lemma RowsAtKept<R>(rows: map<int, R>, keep: int -> bool, ids: seq<int>)
    requires StrictlyIncreasing(ids) && forall i :: 0 <= i < |ids| ==> ids[i] in rows && keep(ids[i])
    ensures var r := RowsAt(rows, ids);
      (forall i :: 0 <= i < |r| ==> r[i].0 in rows && rows[r[i].0] == r[i].1 && keep(r[i].0))
      && forall i, j :: 0 <= i < j < |r| ==> r[i].0 < r[j].0
  {
    var r := RowsAt(rows, ids);
    assert forall i :: 0 <= i < |r| ==> r[i] == (ids[i], rows[ids[i]]);
  }

  /**
   * Nothing is skipped: the rows fetched are exactly the window [skip, skip + limit) of
   * the ascending ids kept.
   */
  lemma FetchWindow<R>(rows: map<int, R>, keep: int -> bool, skip: int, limit: int)
    requires skip >= 0 && limit >= 0
    ensures var r := Fetch(rows, keep, skip, limit);
      var all := OrderedIds(rows, keep);
      r.Ok? && |r.value| == Max(0, Min(|all| - skip, limit))
      && forall i :: 0 <= i < |r.value| ==> r.value[i].0 == all[skip + i]
  {
  }

  /** `if payload.x is not None: row.x = payload.x` for a nullable column. */
  function Assigned<T>(given: Option<T>, current: Option<T>): (r: Option<T>)
    ensures given.Some? ==> r == given
    ensures given.None? ==> r == current
  {
    if given.Some? then given else current
  }

  // ---------------------------------------------------------------------------------------
  // Unique names
  // ---------------------------------------------------------------------------------------

  /**
   * `query.filter(name_col == name, id_col != except).first()` finds a row: some row other
   * than `except` already holds the name.
   */
  predicate Taken(names: map<int, string>, name: string, except: Option<int>) {
    exists id :: id in names && names[id] == name && except != Some(id)
  }

  /** No two rows hold the same name. */
  predicate NamesDistinct(names: map<int, string>) {
    forall a, b :: a in names && b in names && names[a] == names[b] ==> a == b
  }

  /** Every stored name is already trimmed. */
  predicate NamesTrimmed(names: map<int, string>) {
    forall id :: id in names ==> Stripped(names[id])
  }

  /** Names taken and kept trimmed: the invariant create and rename preserve. */
  predicate UniqueTrimmed(names: map<int, string>) {
    NamesDistinct(names) && NamesTrimmed(names)
  }

  /** Adding a row under a fresh id with a trimmed name no one holds keeps the names unique. */
  lemma InsertKeepsUnique(names: map<int, string>, id: int, name: string)
    requires UniqueTrimmed(names) && id !in names && Stripped(name) && !Taken(names, name, None)
    ensures UniqueTrimmed(names[id := name])
  {
    var n := names[id := name];
    forall a, b | a in n && b in n && n[a] == n[b] ensures a == b {
      if a != id && b != id {
        assert names[a] == names[b];
      }
    }
  }

  /** Renaming a row to a trimmed name that no other row holds keeps the names unique. */
  lemma RenameKeepsUnique(names: map<int, string>, id: int, name: string)
    requires UniqueTrimmed(names) && id in names && Stripped(name) && !Taken(names, name, Some(id))
    ensures UniqueTrimmed(names[id := name])
  {
    var n := names[id := name];
    forall a, b | a in n && b in n && n[a] == n[b] ensures a == b {
      if a != id && b != id {
        assert names[a] == names[b];
      }
    }
  }

  /** In a table with unique names, keeping one's own name never conflicts. */
  lemma OwnNameIsFree(names: map<int, string>, id: int)
    requires NamesDistinct(names) && id in names
    ensures !Taken(names, names[id], Some(id))
  {
  }

  /** A name held by some row conflicts for every other row. */
  lemma HeldNameConflicts(names: map<int, string>, holder: int, other: int)
    requires holder in names && holder != other
    ensures Taken(names, names[holder], Some(other)) && Taken(names, names[holder], None)
  {
  }
}
