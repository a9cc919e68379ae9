/**
 * MockDB of data/database.go. Users live in a map keyed by id, with an auto-increment
 * counter; the listing has no order. The root package declares its own DataStorer and a
 * MockDB with the same two fields (database.go), which helpers.go builds; this class stands
 * for that type too, whose methods are not part of this model.
 */
module MockDb {
  import opened Wrappers
  import opened Models
  import Collections

  class MockDB {
    var userList: map<int, User>
    var maxUserId: int

    /** Every stored user's id is its key, and no key exceeds the counter. */
    ghost predicate Valid()
      reads this
    {
      forall id :: id in userList ==> userList[id].id == id && id <= maxUserId
    }

    /** The composite literal &MockDB{list, count}. */
    constructor (list: map<int, User>, count: int)
      ensures userList == list && maxUserId == count
    {
      userList := list;
      maxUserId := count;
    }

    /** ListUsers: every stored user once, in the order the map range yields; never fails. */
    method ListUsers() returns (users: seq<User>)
      ensures |users| == |userList|
      ensures forall u :: u in users <==> u in userList.Values
      ensures forall u :: multiset(users)[u] == |Collections.KeysOf(userList, u)|
      ensures Valid() ==> forall i, j :: 0 <= i < j < |users| ==> users[i].id != users[j].id
    {
      var m := userList;
      ghost var keys;
      users, keys := Collections.Values(m);
      Collections.ReorderedValues(m, users, keys, users);
      if Valid() {
        assert forall k :: k in m ==> UserKey(m[k]) == k;
        Collections.ReorderedKeyedValues(m, users, keys, users, UserKey);
      }
    }

    /** GetUser: the stored user, or the zero user and an error. */
    method GetUser(i: int) returns (u: User, err: Option<string>)
      ensures i in userList ==> u == userList[i] && err == None
      ensures i !in userList ==> u == ZeroUser && err == Some("Failure trying to retrieve user")
    {
      if i !in userList {
        return ZeroUser, Some("Failure trying to retrieve user");
      }
      return userList[i], None;
    }

    /** AddUser: the caller's id is ignored; the user is stored under the next counter value. */
    method AddUser(u: User) returns (r: User, err: Option<string>)
      modifies this
      ensures err == None
      ensures maxUserId == old(maxUserId) + 1
      ensures r == u.(id := maxUserId)
      ensures userList == old(userList)[r.id := r]
      ensures old(Valid()) ==> Valid() && r.id !in old(userList)
    {
      maxUserId := maxUserId + 1;
      r := u.(id := maxUserId);
      userList := userList[maxUserId := r];
      err := None;
    }

    /** UpdateUser: replaces the record stored under u.id, if there is one. */
    method UpdateUser(u: User) returns (r: User, err: Option<string>)
      modifies this`userList
      ensures r == u
      ensures u.id in old(userList) ==> err == None && userList == old(userList)[u.id := u]
      ensures u.id !in old(userList) ==> err == Some("Failure trying to update user") && userList == old(userList)
      ensures old(Valid()) ==> Valid()
    {
      var id := u.id;
      if id !in userList {
        return u, Some("Failure trying to update user");
      }
      userList := userList[id := u];
      return userList[id], None;
    }

    /** DeleteUser: removes exactly the given key, if present. */
    method DeleteUser(i: int) returns (err: Option<string>)
      modifies this`userList
      ensures i in old(userList) ==> err == None && userList == old(userList) - {i}
      ensures i !in old(userList) ==> err == Some("Failure trying to delete user") && userList == old(userList)
      ensures old(Valid()) ==> Valid()
    {
      if i !in userList {
        return Some("Failure trying to delete user");
      }
      userList := userList - {i};
      return None;
    }
  }

  /** The key a user is stored under. */
  function UserKey(u: User): int {
    u.id
  }
}
