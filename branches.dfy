/**
 * The branch table behind backend/app/routers/branch.py. Branch names are stored trimmed
 * and no two branches share one; address and phone are free. Timestamps are not modelled.
 */
module Branches {
  import opened Common
  import opened Tables

  datatype Branch = Branch(branchName: string, address: Option<string>, phone: Option<string>)

  /** BranchOut without its timestamps. */
  datatype BranchOut = BranchOut(branchId: int, branch: Branch)

  /** BranchUpdate: every field optional. */
  datatype BranchUpdate = BranchUpdate(branchName: Option<string>, address: Option<string>, phone: Option<string>)

  /** The branch_name column. */
  function Names(rows: map<int, Branch>): (names: map<int, string>)
    ensures names.Keys == rows.Keys
    ensures forall id :: id in rows ==> names[id] == rows[id].branchName
  {
    map id | id in rows :: rows[id].branchName
  }

  /** The WHERE clause of list_branches for one row. */
  predicate Selected(rows: map<int, Branch>, search: Option<string>, id: int) {
    id in rows && (NoTerm(search) || Hit(rows[id].branchName, search.value))
  }

  function Where(rows: map<int, Branch>, search: Option<string>): int -> bool {
    (id: int) => Selected(rows, search, id)
  }

  /** list_branches: the rows matching the search, ordered by branch_id, offset and limit as given. */
  function Listing(rows: map<int, Branch>, skip: int, limit: int, search: Option<string>): Result<seq<BranchOut>> {
    match Fetch(rows, Where(rows, search), skip, limit)
    case Err(e) => Err(e)
    case Ok(found) => Ok(Outs(found))
  }

  /** The response rows, one per fetched row. */
  function Outs(found: seq<(int, Branch)>): (r: seq<BranchOut>)
    ensures |r| == |found|
    ensures forall i :: 0 <= i < |found| ==> r[i] == BranchOut(found[i].0, found[i].1)
  {
    seq(|found|, i requires 0 <= i < |found| => BranchOut(found[i].0, found[i].1))
  }

  /**
   * list_branches fails on a negative offset or limit; otherwise it lists at most `limit`
   * branches, in increasing branch_id order, each an existing branch matching the search.
   */
  lemma ListingRows(rows: map<int, Branch>, skip: int, limit: int, search: Option<string>)
    ensures var r := Listing(rows, skip, limit, search);
      (r.Err? <==> skip < 0 || limit < 0)
      && (r.Ok? ==>
            |r.value| <= limit
            && (forall i, j :: 0 <= i < j < |r.value| ==> r.value[i].branchId < r.value[j].branchId)
            && forall i :: 0 <= i < |r.value| ==>
                 r.value[i].branchId in rows && rows[r.value[i].branchId] == r.value[i].branch
                 && Selected(rows, search, r.value[i].branchId))
  {
    ListingOrdered(rows, skip, limit, search);
    ListingContents(rows, skip, limit, search);
  }

  lemma ListingOrdered(rows: map<int, Branch>, skip: int, limit: int, search: Option<string>)
    ensures var r := Listing(rows, skip, limit, search);
      r.Ok? ==> forall i, j :: 0 <= i < j < |r.value| ==> r.value[i].branchId < r.value[j].branchId
  {
    var keep := Where(rows, search);
    FetchKept(rows, keep, skip, limit);
    var f := Fetch(rows, keep, skip, limit);
    if f.Ok? {
      var out := Listing(rows, skip, limit, search).value;
      forall i | 0 <= i < |out| ensures out[i].branchId == f.value[i].0 {
      }
    }
  }

  lemma ListingContents(rows: map<int, Branch>, skip: int, limit: int, search: Option<string>)
    ensures var r := Listing(rows, skip, limit, search);
      r.Ok? ==> forall i :: 0 <= i < |r.value| ==>
                 r.value[i].branchId in rows && rows[r.value[i].branchId] == r.value[i].branch
                 && Selected(rows, search, r.value[i].branchId)
  {
    var keep := Where(rows, search);
    FetchKept(rows, keep, skip, limit);
    var f := Fetch(rows, keep, skip, limit);
    if f.Ok? {
      var out := Listing(rows, skip, limit, search).value;
      forall i | 0 <= i < |out| ensures out[i].branchId == f.value[i].0 {
      }
      forall i | 0 <= i < |out| ensures keep(out[i].branchId) {
        assert keep(f.value[i].0);
      }
    }
  }


  /** get_branch */
  function Get(rows: map<int, Branch>, branchId: int): (r: Result<BranchOut>)
    ensures r.Err? <==> branchId !in rows
    ensures r.Err? ==> r.error == NotFound
    ensures r.Ok? ==> r.value.branchId == branchId && r.value.branch == rows[branchId]
  {
    if branchId in rows then Ok(BranchOut(branchId, rows[branchId])) else Err(NotFound)
  }

  /** The address and phone part of update_branch: each overwritten only when given. */
  function PatchContact(b: Branch, p: BranchUpdate): (r: Branch)
    ensures r.branchName == b.branchName
    ensures r.address == (if p.address.Some? then p.address else b.address)
    ensures r.phone == (if p.phone.Some? then p.phone else b.phone)
  {
    var b := if p.address.Some? then b.(address := p.address) else b;
    if p.phone.Some? then b.(phone := p.phone) else b
  }

  /** Storing a row that keeps its name, or takes a trimmed name no other row holds, keeps the names unique. */
  lemma StoreKeepsUnique(rows: map<int, Branch>, id: int, x: Branch)
    requires UniqueTrimmed(Names(rows)) && id in rows
    requires x.branchName == rows[id].branchName || (Stripped(x.branchName) && !Taken(Names(rows), x.branchName, Some(id)))
    ensures UniqueTrimmed(Names(rows[id := x]))
  {
    if x.branchName == rows[id].branchName {
      OwnNameIsFree(Names(rows), id);
    }
    RenameKeepsUnique(Names(rows), id, x.branchName);
    assert Names(rows[id := x]) == Names(rows)[id := x.branchName];
  }

  class BranchTable {
    var rows: map<int, Branch>
    /** The next value of the branch_id sequence. */
    var nextId: int

    ghost predicate Valid()
      reads this
    {
      UniqueTrimmed(Names(rows)) && forall id :: id in rows ==> id < nextId
    }

    constructor(initial: map<int, Branch>, next: int)
      requires UniqueTrimmed(Names(initial)) && forall id :: id in initial ==> id < next
      ensures Valid() && rows == initial && nextId == next
    {
      rows := initial;
      nextId := next;
    }

    /** create_branch: conflict on a held trimmed name, else the branch is stored with its name trimmed. */
    method CreateBranch(branchName: string, address: Option<string>, phone: Option<string>) returns (r: Result<BranchOut>)
      requires Valid()
      modifies this
      ensures Valid()
      ensures var name := Trim(branchName);
        if Taken(Names(old(rows)), name, None) then
          r == Err(Conflict) && rows == old(rows) && nextId == old(nextId)
        else
          var b := Branch(name, address, phone);
          r == Ok(BranchOut(old(nextId), b)) && rows == old(rows)[old(nextId) := b]
          && nextId == old(nextId) + 1
    {
      var name := Trim(branchName);
      if Taken(Names(rows), name, None) {
        return Err(Conflict);
      }
      var b := Branch(name, address, phone);
      InsertKeepsUnique(Names(rows), nextId, name);
      assert Names(rows[nextId := b]) == Names(rows)[nextId := name];
      rows := rows[nextId := b];
      r := Ok(BranchOut(nextId, b));
      nextId := nextId + 1;
    }

    /**
     * update_branch: not found for an unknown id; a given name is trimmed and conflicts
     * only when a different branch holds it; address and phone change only when given.
     */
    method UpdateBranch(branchId: int, p: BranchUpdate) returns (r: Result<BranchOut>)
      requires Valid()
      modifies this
      ensures Valid() && nextId == old(nextId)
      ensures branchId !in old(rows) ==> r == Err(NotFound) && rows == old(rows)
      ensures branchId in old(rows) && p.branchName.Some? && Taken(Names(old(rows)), Trim(p.branchName.value), Some(branchId)) ==>
        r == Err(Conflict) && rows == old(rows)
      ensures branchId in old(rows) && !(p.branchName.Some? && Taken(Names(old(rows)), Trim(p.branchName.value), Some(branchId))) ==>
        var before := old(rows)[branchId];
        var b := PatchContact(if p.branchName.Some? then before.(branchName := Trim(p.branchName.value)) else before, p);
        r == Ok(BranchOut(branchId, b)) && rows == old(rows)[branchId := b]
    {
      if branchId !in rows {
        return Err(NotFound);
      }
      var b := rows[branchId];
      if p.branchName.Some? {
        var name := Trim(p.branchName.value);
        if Taken(Names(rows), name, Some(branchId)) {
          return Err(Conflict);
        }
        b := b.(branchName := name);
      }
      if p.address.Some? {
        b := b.(address := p.address);
      }
      if p.phone.Some? {
        b := b.(phone := p.phone);
      }
      StoreKeepsUnique(rows, branchId, b);
      rows := rows[branchId := b];
      r := Ok(BranchOut(branchId, b));
    }

    /** delete_branch: not found for an unknown id, otherwise exactly that row goes. */
    method DeleteBranch(branchId: int) returns (r: Result<()>)
      requires Valid()
      modifies this
      ensures Valid() && nextId == old(nextId)
      ensures branchId !in old(rows) ==> r == Err(NotFound) && rows == old(rows)
      ensures branchId in old(rows) ==> r == Ok(()) && rows == old(rows) - {branchId}
    {
      if branchId !in rows {
        return Err(NotFound);
      }
      assert Names(rows - {branchId}) == Names(rows) - {branchId};
      rows := rows - {branchId};
      r := Ok(());
    }
  }

  /** An update that gives nothing leaves the branch as it was. */
  lemma EmptyPatchKeeps(b: Branch)
    ensures PatchContact(b, BranchUpdate(None, None, None)) == b
  {
  }
}
