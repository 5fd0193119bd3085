/**
 * The role table behind backend/app/routers/role.py. Role names are stored trimmed and
 * no two roles share one; `RoleTable.Valid` is that invariant, and create, rename and
 * delete keep it. Creation and update timestamps are not modelled.
 */
module Roles {
  import opened Common
  import opened Tables

  datatype Role = Role(roleName: string)

  /** RoleOut without its timestamps. */
  datatype RoleOut = RoleOut(roleId: int, roleName: string)

  /** The role_name column. */
  function Names(rows: map<int, Role>): (names: map<int, string>)
    ensures names.Keys == rows.Keys
    ensures forall id :: id in rows ==> names[id] == rows[id].roleName
  {
    map id | id in rows :: rows[id].roleName
  }

  /** The WHERE clause of list_roles for one row. */
  predicate Selected(rows: map<int, Role>, search: Option<string>, id: int) {
    id in rows && (NoTerm(search) || Hit(rows[id].roleName, search.value))
  }

  function Where(rows: map<int, Role>, search: Option<string>): int -> bool {
    (id: int) => Selected(rows, search, id)
  }

  /** list_roles: the rows matching the search, ordered by role_id, offset and limit as given. */
  function Listing(rows: map<int, Role>, skip: int, limit: int, search: Option<string>): Result<seq<RoleOut>> {
    match Fetch(rows, Where(rows, search), skip, limit)
    case Err(e) => Err(e)
    case Ok(found) => Ok(Outs(found))
  }

  /** The response rows, one per fetched row. */
  function Outs(found: seq<(int, Role)>): (r: seq<RoleOut>)
    ensures |r| == |found|
    ensures forall i :: 0 <= i < |found| ==> r[i] == RoleOut(found[i].0, found[i].1.roleName)
  {
    seq(|found|, i requires 0 <= i < |found| => RoleOut(found[i].0, found[i].1.roleName))
  }

  /**
   * list_roles fails on a negative offset or limit; otherwise it lists at most `limit`
   * roles, in increasing role_id order, each an existing role matching the search.
   */
  lemma ListingRows(rows: map<int, Role>, skip: int, limit: int, search: Option<string>)
    ensures var r := Listing(rows, skip, limit, search);
      (r.Err? <==> skip < 0 || limit < 0)
      && (r.Ok? ==>
            |r.value| <= limit
            && (forall i, j :: 0 <= i < j < |r.value| ==> r.value[i].roleId < r.value[j].roleId)
            && forall i :: 0 <= i < |r.value| ==>
                 r.value[i].roleId in rows && rows[r.value[i].roleId].roleName == r.value[i].roleName
                 && Selected(rows, search, r.value[i].roleId))
  {
    ListingOrdered(rows, skip, limit, search);
    ListingContents(rows, skip, limit, search);
  }

  lemma ListingOrdered(rows: map<int, Role>, skip: int, limit: int, search: Option<string>)
    ensures var r := Listing(rows, skip, limit, search);
      r.Ok? ==> forall i, j :: 0 <= i < j < |r.value| ==> r.value[i].roleId < r.value[j].roleId
  {
    var keep := Where(rows, search);
    FetchKept(rows, keep, skip, limit);
    var f := Fetch(rows, keep, skip, limit);
    if f.Ok? {
      var out := Listing(rows, skip, limit, search).value;
      forall i | 0 <= i < |out| ensures out[i].roleId == f.value[i].0 {
      }
    }
  }

  lemma ListingContents(rows: map<int, Role>, skip: int, limit: int, search: Option<string>)
    ensures var r := Listing(rows, skip, limit, search);
      r.Ok? ==> forall i :: 0 <= i < |r.value| ==>
                 r.value[i].roleId in rows && rows[r.value[i].roleId].roleName == r.value[i].roleName
                 && Selected(rows, search, r.value[i].roleId)
  {
    var keep := Where(rows, search);
    FetchKept(rows, keep, skip, limit);
    var f := Fetch(rows, keep, skip, limit);
    if f.Ok? {
      var out := Listing(rows, skip, limit, search).value;
      forall i | 0 <= i < |out| ensures out[i].roleId == f.value[i].0 {
      }
      forall i | 0 <= i < |out| ensures keep(out[i].roleId) {
        assert keep(f.value[i].0);
      }
    }
  }


  /** get_role */
  function Get(rows: map<int, Role>, roleId: int): (r: Result<RoleOut>)
    ensures r.Err? <==> roleId !in rows
    ensures r.Err? ==> r.error == NotFound
    ensures r.Ok? ==> r.value.roleId == roleId && r.value.roleName == rows[roleId].roleName
  {
    if roleId in rows then Ok(RoleOut(roleId, rows[roleId].roleName)) else Err(NotFound)
  }

  class RoleTable {
    var rows: map<int, Role>
    /** The next value of the role_id sequence. */
    var nextId: int

    ghost predicate Valid()
      reads this
    {
      UniqueTrimmed(Names(rows)) && forall id :: id in rows ==> id < nextId
    }

    constructor(initial: map<int, Role>, next: int)
      requires UniqueTrimmed(Names(initial)) && forall id :: id in initial ==> id < next
      ensures Valid() && rows == initial && nextId == next
    {
      rows := initial;
      nextId := next;
    }

    /** create_role: conflict if a role already holds the trimmed name, else store it trimmed. */
    method CreateRole(roleName: string) returns (r: Result<RoleOut>)
      requires Valid()
      modifies this
      ensures Valid()
      ensures var name := Trim(roleName);
        if Taken(Names(old(rows)), name, None) then
          r == Err(Conflict) && rows == old(rows) && nextId == old(nextId)
        else
          r == Ok(RoleOut(old(nextId), name)) && rows == old(rows)[old(nextId) := Role(name)]
          && nextId == old(nextId) + 1
    {
      var name := Trim(roleName);
      if Taken(Names(rows), name, None) {
        return Err(Conflict);
      }
      InsertKeepsUnique(Names(rows), nextId, name);
      assert Names(rows[nextId := Role(name)]) == Names(rows)[nextId := name];
      rows := rows[nextId := Role(name)];
      r := Ok(RoleOut(nextId, name));
      nextId := nextId + 1;
    }

    /**
     * update_role: not found for an unknown id; a given name is trimmed and conflicts only
     * when a different role holds it; without a name the role is unchanged.
     */
    method UpdateRole(roleId: int, roleName: Option<string>) returns (r: Result<RoleOut>)
      requires Valid()
      modifies this
      ensures Valid() && nextId == old(nextId)
      ensures roleId !in old(rows) ==> r == Err(NotFound) && rows == old(rows)
      ensures roleId in old(rows) && roleName.None? ==>
        r == Ok(RoleOut(roleId, old(rows)[roleId].roleName)) && rows == old(rows)
      ensures roleId in old(rows) && roleName.Some? ==>
        var name := Trim(roleName.value);
        if Taken(Names(old(rows)), name, Some(roleId)) then
          r == Err(Conflict) && rows == old(rows)
        else
          r == Ok(RoleOut(roleId, name)) && rows == old(rows)[roleId := Role(name)]
    {
      if roleId !in rows {
        return Err(NotFound);
      }
      var role := rows[roleId];
      if roleName.Some? {
        var name := Trim(roleName.value);
        if Taken(Names(rows), name, Some(roleId)) {
          return Err(Conflict);
        }
        RenameKeepsUnique(Names(rows), roleId, name);
        assert Names(rows[roleId := Role(name)]) == Names(rows)[roleId := name];
        role := Role(name);
      }
      rows := rows[roleId := role];
      r := Ok(RoleOut(roleId, role.roleName));
    }

    /** delete_role: not found for an unknown id, otherwise exactly that row goes. */
    method DeleteRole(roleId: int) returns (r: Result<()>)
      requires Valid()
      modifies this
      ensures Valid() && nextId == old(nextId)
      ensures roleId !in old(rows) ==> r == Err(NotFound) && rows == old(rows)
      ensures roleId in old(rows) ==> r == Ok(()) && rows == old(rows) - {roleId}
    {
      if roleId !in rows {
        return Err(NotFound);
      }
      assert Names(rows - {roleId}) == Names(rows) - {roleId};
      rows := rows - {roleId};
      r := Ok(());
    }
  }

  /** After a successful create, the same name (with any padding) conflicts. */
  lemma CreatedNameConflicts(rows: map<int, Role>, id: int, roleName: string, again: string)
    requires Trim(again) == Trim(roleName)
    ensures Taken(Names(rows[id := Role(Trim(roleName))]), Trim(again), None)
  {
    var names := Names(rows[id := Role(Trim(roleName))]);
    assert names[id] == Trim(again);
  }
}
