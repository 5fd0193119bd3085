/**
 * The user-account table behind backend/app/routers/useraccount.py. Usernames are stored
 * trimmed and no two accounts share one. Every account names a role; create and update
 * check that role against the role table, whose ids are passed in as `roleIds`.
 * Passwords are stored as given. Timestamps are not modelled.
 */
module Users {
  import opened Common
  import opened Tables

  datatype UserAccount = UserAccount(roleId: int, username: string, password: string)

  /** UserOut: the account without its password and timestamps. */
  datatype UserOut = UserOut(userId: int, roleId: int, username: string)

  datatype UserUpdate = UserUpdate(roleId: Option<int>, username: Option<string>, password: Option<string>)

  function ToOut(userId: int, u: UserAccount): UserOut {
    UserOut(userId, u.roleId, u.username)
  }

  /** The username column. */
  function Names(rows: map<int, UserAccount>): (names: map<int, string>)
    ensures names.Keys == rows.Keys
    ensures forall id :: id in rows ==> names[id] == rows[id].username
  {
    map id | id in rows :: rows[id].username
  }

  /** The WHERE clause of list_users for one row: username search, then role filter. */
  predicate Selected(rows: map<int, UserAccount>, search: Option<string>, roleId: Option<int>, id: int) {
    id in rows
    && (NoTerm(search) || Hit(rows[id].username, search.value))
    && (roleId.None? || rows[id].roleId == roleId.value)
  }

  function Where(rows: map<int, UserAccount>, search: Option<string>, roleId: Option<int>): int -> bool {
    (id: int) => Selected(rows, search, roleId, id)
  }

  /** list_users */
  function Listing(rows: map<int, UserAccount>, skip: int, limit: int, search: Option<string>, roleId: Option<int>): Result<seq<UserOut>> {
    match Fetch(rows, Where(rows, search, roleId), skip, limit)
    case Err(e) => Err(e)
    case Ok(found) => Ok(Outs(found))
  }

  /** The response rows, one per fetched row. */
  function Outs(found: seq<(int, UserAccount)>): (r: seq<UserOut>)
    ensures |r| == |found|
    ensures forall i :: 0 <= i < |found| ==> r[i] == ToOut(found[i].0, found[i].1)
  {
    seq(|found|, i requires 0 <= i < |found| => ToOut(found[i].0, found[i].1))
  }

  /**
   * list_users fails on a negative offset or limit; otherwise it lists at most `limit`
   * accounts in increasing user_id order, each matching the search and, when one is given,
   * holding the requested role; no password is reported.
   */
  lemma ListingRows(rows: map<int, UserAccount>, skip: int, limit: int, search: Option<string>, roleId: Option<int>)
    ensures var r := Listing(rows, skip, limit, search, roleId);
      (r.Err? <==> skip < 0 || limit < 0)
      && (r.Ok? ==>
            |r.value| <= limit
            && (forall i, j :: 0 <= i < j < |r.value| ==> r.value[i].userId < r.value[j].userId)
            && forall i :: 0 <= i < |r.value| ==>
                 r.value[i].userId in rows && r.value[i] == ToOut(r.value[i].userId, rows[r.value[i].userId])
                 && Selected(rows, search, roleId, r.value[i].userId)
                 && (roleId.Some? ==> r.value[i].roleId == roleId.value))
  {
    ListingOrdered(rows, skip, limit, search, roleId);
    ListingContents(rows, skip, limit, search, roleId);
  }

  lemma ListingOrdered(rows: map<int, UserAccount>, skip: int, limit: int, search: Option<string>, roleId: Option<int>)
    ensures var r := Listing(rows, skip, limit, search, roleId);
      r.Ok? ==> forall i, j :: 0 <= i < j < |r.value| ==> r.value[i].userId < r.value[j].userId
  {
    var keep := Where(rows, search, roleId);
    FetchKept(rows, keep, skip, limit);
    var f := Fetch(rows, keep, skip, limit);
    if f.Ok? {
      var out := Listing(rows, skip, limit, search, roleId).value;
      forall i | 0 <= i < |out| ensures out[i].userId == f.value[i].0 {
      }
    }
  }

  lemma ListingContents(rows: map<int, UserAccount>, skip: int, limit: int, search: Option<string>, roleId: Option<int>)
    ensures var r := Listing(rows, skip, limit, search, roleId);
      r.Ok? ==> forall i :: 0 <= i < |r.value| ==>
                 r.value[i].userId in rows && r.value[i] == ToOut(r.value[i].userId, rows[r.value[i].userId])
                 && Selected(rows, search, roleId, r.value[i].userId)
                 && (roleId.Some? ==> r.value[i].roleId == roleId.value)
  {
    var keep := Where(rows, search, roleId);
    FetchKept(rows, keep, skip, limit);
    var f := Fetch(rows, keep, skip, limit);
    if f.Ok? {
      var out := Listing(rows, skip, limit, search, roleId).value;
      forall i | 0 <= i < |out| ensures out[i].userId == f.value[i].0 {
      }
      forall i | 0 <= i < |out| ensures keep(out[i].userId) {
        assert keep(f.value[i].0);
      }
    }
  }


  /** get_user */
  function Get(rows: map<int, UserAccount>, userId: int): (r: Result<UserOut>)
    ensures r.Err? <==> userId !in rows
    ensures r.Err? ==> r.error == NotFound
    ensures r.Ok? ==> r.value == ToOut(userId, rows[userId])
  {
    if userId in rows then Ok(ToOut(userId, rows[userId])) else Err(NotFound)
  }

  /**
   * The outcome of update_user as the handler reaches it: the role check, then the
   * username check, each only for a field that is given.
   */
  function UpdateOutcome(rows: map<int, UserAccount>, roleIds: set<int>, userId: int, p: UserUpdate): (r: Result<UserAccount>)
    ensures r.Err? <==>
      userId !in rows
      || (p.roleId.Some? && p.roleId.value !in roleIds)
      || (p.username.Some? && Taken(Names(rows), Trim(p.username.value), Some(userId)))
    ensures userId !in rows ==> r == Err(NotFound)
    ensures userId in rows && p.roleId.Some? && p.roleId.value !in roleIds ==> r == Err(BadRequest)
    ensures (userId in rows && !(p.roleId.Some? && p.roleId.value !in roleIds) && p.username.Some?
             && Taken(Names(rows), Trim(p.username.value), Some(userId))) ==> r == Err(Conflict)
    ensures r.Ok? ==>
      r.value.roleId == p.roleId.GetOr(rows[userId].roleId)
      && r.value.username == (if p.username.Some? then Trim(p.username.value) else rows[userId].username)
      && r.value.password == p.password.GetOr(rows[userId].password)
  {
    if userId !in rows then Err(NotFound)
    else if p.roleId.Some? && p.roleId.value !in roleIds then Err(BadRequest)
    else if p.username.Some? && Taken(Names(rows), Trim(p.username.value), Some(userId)) then Err(Conflict)
    else
      var u := rows[userId];
      Ok(UserAccount(p.roleId.GetOr(u.roleId),
                     if p.username.Some? then Trim(p.username.value) else u.username,
                     p.password.GetOr(u.password)))
  }

  /** Storing a row that keeps its name, or takes a trimmed name no other row holds, keeps the names unique. */
  lemma StoreKeepsUnique(rows: map<int, UserAccount>, id: int, x: UserAccount)
    requires UniqueTrimmed(Names(rows)) && id in rows
    requires x.username == rows[id].username || (Stripped(x.username) && !Taken(Names(rows), x.username, Some(id)))
    ensures UniqueTrimmed(Names(rows[id := x]))
  {
    if x.username == rows[id].username {
      OwnNameIsFree(Names(rows), id);
    }
    RenameKeepsUnique(Names(rows), id, x.username);
    assert Names(rows[id := x]) == Names(rows)[id := x.username];
  }

  class UserTable {
    var rows: map<int, UserAccount>
    /** The next value of the user_id sequence. */
    var nextId: int

    ghost predicate Valid()
      reads this
    {
      UniqueTrimmed(Names(rows)) && forall id :: id in rows ==> id < nextId
    }

    constructor(initial: map<int, UserAccount>, next: int)
      requires UniqueTrimmed(Names(initial)) && forall id :: id in initial ==> id < next
      ensures Valid() && rows == initial && nextId == next
    {
      rows := initial;
      nextId := next;
    }

    /**
     * create_user: bad request for an unknown role, checked first; then conflict if the
     * trimmed username is held; else the account is stored with the username trimmed.
     */
    method CreateUser(roleIds: set<int>, roleId: int, username: string, password: string) returns (r: Result<UserOut>)
      requires Valid()
      modifies this
      ensures Valid()
      ensures roleId !in roleIds ==> r == Err(BadRequest) && rows == old(rows) && nextId == old(nextId)
      ensures roleId in roleIds && Taken(Names(old(rows)), Trim(username), None) ==>
        r == Err(Conflict) && rows == old(rows) && nextId == old(nextId)
      ensures roleId in roleIds && !Taken(Names(old(rows)), Trim(username), None) ==>
        var u := UserAccount(roleId, Trim(username), password);
        r == Ok(ToOut(old(nextId), u)) && rows == old(rows)[old(nextId) := u] && nextId == old(nextId) + 1
    {
      if roleId !in roleIds {
        return Err(BadRequest);
      }
      var name := Trim(username);
      if Taken(Names(rows), name, None) {
        return Err(Conflict);
      }
      var u := UserAccount(roleId, name, password);
      InsertKeepsUnique(Names(rows), nextId, name);
      assert Names(rows[nextId := u]) == Names(rows)[nextId := name];
      rows := rows[nextId := u];
      r := Ok(ToOut(nextId, u));
      nextId := nextId + 1;
    }

    /**
     * update_user: the role, username and password are assigned one by one; any failed
     * check leaves the table as it was.
     */
    method UpdateUser(roleIds: set<int>, userId: int, p: UserUpdate) returns (r: Result<UserOut>)
      requires Valid()
      modifies this
      ensures Valid() && nextId == old(nextId)
      ensures var s := UpdateOutcome(old(rows), roleIds, userId, p);
        (s.Err? ==> r == Err(s.error) && rows == old(rows))
        && (s.Ok? ==> r == Ok(ToOut(userId, s.value)) && rows == old(rows)[userId := s.value])
    {
      if userId !in rows {
        return Err(NotFound);
      }
      var u := rows[userId];
      if p.roleId.Some? {
        if p.roleId.value !in roleIds {
          return Err(BadRequest);
        }
        u := u.(roleId := p.roleId.value);
      }
      if p.username.Some? {
        var name := Trim(p.username.value);
        if Taken(Names(rows), name, Some(userId)) {
          return Err(Conflict);
        }
        u := u.(username := name);
      }
      if p.password.Some? {
        u := u.(password := p.password.value);
      }
      StoreKeepsUnique(rows, userId, u);
      rows := rows[userId := u];
      r := Ok(ToOut(userId, u));
    }

    /** delete_user: not found for an unknown id, otherwise the row is removed. */
    method DeleteUser(userId: int) returns (r: Result<()>)
      requires Valid()
      modifies this
      ensures Valid() && nextId == old(nextId)
      ensures userId !in old(rows) ==> r == Err(NotFound) && rows == old(rows)
      ensures userId in old(rows) ==> r == Ok(()) && rows == old(rows) - {userId}
    {
      if userId !in rows {
        return Err(NotFound);
      }
      assert Names(rows - {userId}) == Names(rows) - {userId};
      rows := rows - {userId};
      r := Ok(());
    }
  }

  /**
   * The role check comes before the username check: with an unknown role the answer is
   * bad request even when the username is also taken.
   */
  lemma RoleCheckedFirst(rows: map<int, UserAccount>, roleIds: set<int>, userId: int, p: UserUpdate)
    requires userId in rows && p.roleId.Some? && p.roleId.value !in roleIds
    ensures UpdateOutcome(rows, roleIds, userId, p) == Err(BadRequest)
  {
  }

  /** The password changes only when a new one is given. */
  lemma PasswordKeptUnlessGiven(rows: map<int, UserAccount>, roleIds: set<int>, userId: int, p: UserUpdate)
    requires p.password.None? && UpdateOutcome(rows, roleIds, userId, p).Ok?
    ensures UpdateOutcome(rows, roleIds, userId, p).value.password == rows[userId].password
  {
  }
}
