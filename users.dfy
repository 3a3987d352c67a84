/**
 * The user map: loaded once at start-up and then changed in place by the register, edit
 * and delete handlers. Loading keys every account by `str(id)`, while registering keys the
 * new account by its user name; the model keeps both keyings as they are.
 */
module UserAccounts {
  import opened PyText

  datatype User = User(id: int, username: string, password: string)

  /** The key `load_users`, `editar_usuario` and `excluir_usuario` use for an id. */
  function IdKey(id: int): string
  {
    IntToString(id)
  }

  /** `{str(u['id']): u for u in list}`: a later account with the same id replaces an earlier one. */
  function LoadUsers(list: seq<User>): (r: map<string, User>)
    ensures r.Keys == set u | u in list :: IdKey(u.id)
    ensures forall k :: k in r ==> r[k] in list && IdKey(r[k].id) == k
  {
    if list == [] then map[]
    else LoadUsers(list[..|list| - 1])[IdKey(list[|list| - 1].id) := list[|list| - 1]]
  }

  /** Position `i` holds the last account of `list` whose id has the key `k`. */
  ghost predicate LastWithKey(list: seq<User>, i: int, k: string)
  {
    0 <= i < |list| && IdKey(list[i].id) == k && forall j :: i < j < |list| ==> IdKey(list[j].id) != k
  }

  /** When two accounts share an id, the later one in the file is the one loaded. */
  lemma {:induction false} LoadUsersLastWins(list: seq<User>, k: string)
    requires k in LoadUsers(list)
    ensures exists i :: LastWithKey(list, i, k) && LoadUsers(list)[k] == list[i]
  {
    var n := |list|;
    assert n > 0;
    var init, last := list[..n - 1], list[n - 1];
    assert LoadUsers(list) == LoadUsers(init)[IdKey(last.id) := last];
    if IdKey(last.id) == k {
      assert LastWithKey(list, n - 1, k);
    } else {
      assert k in LoadUsers(init) && LoadUsers(list)[k] == LoadUsers(init)[k];
      LoadUsersLastWins(init, k);
      var i :| LastWithKey(init, i, k) && LoadUsers(init)[k] == init[i];
      LastWithKeyExtends(list, i, k);
    }
  }

  lemma LastWithKeyExtends(list: seq<User>, i: int, k: string)
    requires |list| > 0 && LastWithKey(list[..|list| - 1], i, k) && IdKey(list[|list| - 1].id) != k
    ensures LastWithKey(list, i, k) && list[i] == list[..|list| - 1][i]
  {
    var n := |list|;
    forall j | i < j < n
      ensures IdKey(list[j].id) != k
    {
      if j < n - 1 {
        assert list[j] == list[..n - 1][j];
      }
    }
  }

  /** In a list with distinct ids, an account other than the last is earlier and has a different key. */
  lemma OtherThanLast(list: seq<User>, u: User)
    requires forall i, j :: 0 <= i < j < |list| ==> list[i].id != list[j].id
    requires u in list && u != list[|list| - 1]
    ensures u in list[..|list| - 1] && IdKey(u.id) != IdKey(list[|list| - 1].id)
  {
    var i :| 0 <= i < |list| && list[i] == u;
    assert i < |list| - 1 && list[..|list| - 1][i] == u;
    if IdKey(u.id) == IdKey(list[|list| - 1].id) {
      IntToStringInjective(u.id, list[|list| - 1].id);
      assert false;
    }
  }

  /** With distinct ids in the file, every account is found under the key of its own id. */
  lemma {:induction false} LoadUsersKeepsDistinctIds(list: seq<User>)
    requires forall i, j :: 0 <= i < j < |list| ==> list[i].id != list[j].id
    ensures forall u :: u in list ==> IdKey(u.id) in LoadUsers(list) && LoadUsers(list)[IdKey(u.id)] == u
  {
    if list != [] {
      var init, last := list[..|list| - 1], list[|list| - 1];
      LoadUsersKeepsDistinctIds(init);
      forall u | u in list
        ensures LoadUsers(list)[IdKey(u.id)] == u
      {
        if u != last {
          OtherThanLast(list, u);
        }
      }
    }
  }

  /** The map after `register` stores a new account under its user name with id `len(users) + 1`. */
  function Registered(users: map<string, User>, username: string, password: string): (r: map<string, User>)
    requires username !in users
    ensures r.Keys == users.Keys + {username}
    ensures r[username] == User(|users| + 1, username, password)
    ensures forall k :: k in users ==> r[k] == users[k]
  {
    users[username := User(|users| + 1, username, password)]
  }

  /** The map after `editar_usuario` writes a new name and password into the account under `str(id)`. */
  function EditedUser(users: map<string, User>, id: int, username: string, password: string): (r: map<string, User>)
    ensures r.Keys == users.Keys
    ensures IdKey(id) in users ==>
      r[IdKey(id)] == User(users[IdKey(id)].id, username, password)
    ensures forall k :: k in users && k != IdKey(id) ==> r[k] == users[k]
  {
    var key := IdKey(id);
    if key in users then users[key := users[key].(username := username, password := password)] else users
  }

  /** The map after `excluir_usuario`: the entry under `str(id)` is gone, every other one stays. */
  function DeletedUser(users: map<string, User>, id: int): (r: map<string, User>)
    ensures r.Keys == users.Keys - {IdKey(id)}
    ensures forall k :: k in r ==> r[k] == users[k]
  {
    users - {IdKey(id)}
  }

  /** A file with the single account `admin` (id 1), as a fresh deployment might have it. */
  function AdminOnly(): seq<User>
  {
    [User(1, "admin", "secret")]
  }

  lemma AdminOnlyLoadsUnderOne()
    ensures LoadUsers(AdminOnly()) == map["1" := User(1, "admin", "secret")]
  {
    var list := AdminOnly();
    assert list[..0] == [];
    assert IdKey(1) == "1";
  }

  /**
   * The two keyings disagree. Registering "alice" next to the loaded admin stores her under
   * "alice" with id 2, so an edit of id 2 does not find her; the name "admin" registers a
   * second time, because the check looks at keys; and the name "1" is refused, because it is
   * the admin's key.
   */
  lemma KeyingInconsistency()
    ensures var users := LoadUsers(AdminOnly());
      var after := Registered(users, "alice", "pw");
      after["alice"].id == 2 && IdKey(2) !in after && EditedUser(after, 2, "carol", "x") == after
    ensures var users := LoadUsers(AdminOnly());
      "admin" !in users && Registered(users, "admin", "pw")["admin"] == User(2, "admin", "pw")
    ensures "1" in LoadUsers(AdminOnly())
  {
    AdminOnlyLoadsUnderOne();
    assert IdKey(2) == "2";
  }

  /** A user name that spells the new account's id is the one case the id-keyed handlers reach. */
  lemma NumericNameReachableById()
    ensures var after := Registered(LoadUsers(AdminOnly()), "2", "pw");
      after["2"] == User(2, "2", "pw") &&
      EditedUser(after, 2, "carol", "x")["2"] == User(2, "carol", "x") &&
      IdKey(2) !in DeletedUser(after, 2)
  {
    AdminOnlyLoadsUnderOne();
    assert IdKey(2) == "2";
  }

  /** Deleting and then registering hands out an id that the remaining accounts still use. */
  lemma DeleteThenRegisterReusesId()
    ensures var users := map["1" := User(1, "admin", "a"), "2" := User(2, "bia", "b")];
      var after := Registered(DeletedUser(users, 1), "caio", "c");
      after["caio"].id == 2 && after["2"].id == 2
  {
    var users := map["1" := User(1, "admin", "a"), "2" := User(2, "bia", "b")];
    assert IdKey(1) == "1";
    var rest := DeletedUser(users, 1);
    assert rest.Keys == {"2"};
    assert |rest| == 1;
  }

  /**
   * The module-level `users` dictionary. `saves` counts the calls of `save_users`, which
   * rewrite the file with the dictionary's values.
   */
  class Registry {
    var users: map<string, User>
    var saves: nat

    /** `users = load_users()`, given the account list read from the file. */
    constructor (loaded: seq<User>)
      ensures users == LoadUsers(loaded) && saves == 0
    {
      users := LoadUsers(loaded);
      saves := 0;
    }

    /** `register` (POST): refuse a name that is already a key, otherwise add the account and save. */
    method Register(username: string, password: string) returns (ok: bool)
      modifies this
      ensures ok <==> username !in old(users)
      ensures users == if ok then Registered(old(users), username, password) else old(users)
      ensures saves == old(saves) + if ok then 1 else 0
    {
      if username in users {
        ok := false;
      } else {
        var userId := |users| + 1;
        users := users[username := User(userId, username, password)];
        saves := saves + 1;
        ok := true;
      }
    }

    /** `editar_usuario` (POST): overwrite name and password of the account under `str(id)` and save. */
    method EditUser(id: int, username: string, password: string) returns (found: bool)
      modifies this
      ensures found <==> IdKey(id) in old(users)
      ensures users == EditedUser(old(users), id, username, password)
      ensures saves == old(saves) + if found then 1 else 0
    {
      var key := IdKey(id);
      found := key in users;
      if found {
        var user := users[key];
        users := users[key := user.(username := username, password := password)];
        saves := saves + 1;
      }
    }

    /** `excluir_usuario` (POST): remove the entry under `str(id)` and save; report when there is none. */
    method DeleteUser(id: int) returns (found: bool)
      modifies this
      ensures found <==> IdKey(id) in old(users)
      ensures users == DeletedUser(old(users), id)
      ensures saves == old(saves) + if found then 1 else 0
    {
      var key := IdKey(id);
      found := key in users;
      if found {
        users := users - {key};
        saves := saves + 1;
      }
    }
  }
}
