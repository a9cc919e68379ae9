/**
 * Database of main.go, the oldest revision of the user store: dates of birth are plain
 * strings, errors are the messages of errors.New, and List wraps the users in a map.
 */
module LegacyDb {
  import opened Wrappers
  import Collections

  datatype User = User(
    id: int,
    firstName: string,
    lastName: string,
    dateOfBirth: string,
    locationOfBirth: string)

  /** User{}: what a lookup of an absent key yields. */
  const ZeroUser := User(0, "", "", "", "")

  /** The key a user is stored under. */
  function UserKey(u: User): int {
    u.id
  }

  class Database {
    var userList: map<int, User>
    var maxUserId: int

    /** Every stored user's id is its key, and no key exceeds the counter. */
    ghost predicate Valid()
      reads this
    {
      forall id :: id in userList ==> userList[id].id == id && id <= maxUserId
    }

    /** The composite literal &Database{list, count}. */
    constructor (list: map<int, User>, count: int)
      ensures userList == list && maxUserId == count
    {
      userList := list;
      maxUserId := count;
    }

    /** List: a response object whose only key is "users", listing every stored user once. */
    method List() returns (response: map<string, seq<User>>)
      ensures response.Keys == {"users"}
      ensures |response["users"]| == |userList|
      ensures forall u :: u in response["users"] <==> u in userList.Values
      ensures forall u :: multiset(response["users"])[u] == |Collections.KeysOf(userList, u)|
    {
      var m := userList;
      var list, keys := Collections.Values(m);
      Collections.ReorderedValues(m, list, keys, list);
      response := map["users" := list];
    }

    /** Get: the stored user, or the zero user and "User does not exist". */
    method Get(i: int) returns (u: User, err: Option<string>)
      ensures i in userList ==> u == userList[i] && err == None
      ensures i !in userList ==> u == ZeroUser && err == Some("User does not exist")
    {
      if i in userList {
        return userList[i], None;
      } else {
        return ZeroUser, Some("User does not exist");
      }
    }

    /** Add: a new record under the next counter value, with the other four fields copied. */
    method Add(u: User) returns (r: User)
      modifies this
      ensures maxUserId == old(maxUserId) + 1
      ensures r.id == maxUserId && r.firstName == u.firstName && r.lastName == u.lastName
      ensures r.dateOfBirth == u.dateOfBirth && r.locationOfBirth == u.locationOfBirth
      ensures userList == old(userList)[r.id := r]
      ensures old(Valid()) ==> Valid() && r.id !in old(userList)
    {
      maxUserId := maxUserId + 1;
      var newUser := User(maxUserId, u.firstName, u.lastName, u.dateOfBirth, u.locationOfBirth);
      userList := userList[maxUserId := newUser];
      return newUser;
    }

    /** Delete: (true, nil) after removing a present key, (false, error) otherwise. */
    method Delete(i: int) returns (ok: bool, err: Option<string>)
      modifies this`userList
      ensures ok <==> i in old(userList)
      ensures ok ==> err == None && userList == old(userList) - {i}
      ensures !ok ==> err == Some("Could not delete this user") && userList == old(userList)
      ensures old(Valid()) ==> Valid()
    {
      if i in userList {
        userList := userList - {i};
        return true, None;
      } else {
        return false, Some("Could not delete this user");
      }
    }

    /**
     * Update as main.go writes it: on a present id the record already stored is written
     * back, so the fields the caller sent are discarded.
     */
    method Update(u: User) returns (r: User, err: Option<string>)
      modifies this`userList
      ensures userList == old(userList)
      ensures u.id in old(userList) ==> r == old(userList)[u.id] && err == None
      ensures u.id !in old(userList) ==> r == ZeroUser && err == Some("User does not exist")
    {
      var id := u.id;
      if id in userList {
        var user := userList[id];
        userList := userList[id := user];
        return userList[id], None;
      } else {
        return ZeroUser, Some("User does not exist");
      }
    }

    /** Update as its callers expect it: the caller's record replaces the stored one. */
    method UpdateReplacing(u: User) returns (r: User, err: Option<string>)
      modifies this`userList
      ensures u.id in old(userList) ==> r == u && err == None && userList == old(userList)[u.id := u]
      ensures u.id !in old(userList) ==> r == ZeroUser && err == Some("User does not exist") && userList == old(userList)
      ensures old(Valid()) ==> Valid()
    {
      var id := u.id;
      if id in userList {
        userList := userList[id := u];
        return userList[id], None;
      } else {
        return ZeroUser, Some("User does not exist");
      }
    }
  }

  const JohnDoe := User(0, "John", "Doe", "31-12-1985", "London")
  const JaneDoe := User(1, "Jane", "Doe", "01-01-1992", "Milton Keynes")

  /** The init seed: users 0 and 1 under their own ids, with the counter at 1. */
  method Init() returns (db: Database)
    ensures fresh(db) && db.Valid()
    ensures db.userList == map[0 := JohnDoe, 1 := JaneDoe] && db.maxUserId == 1
  {
    var list := map[0 := JohnDoe, 1 := JaneDoe];
    db := new Database(list, 1);
  }

  /** On the seed, the first Add is given id 2 and the listing then has three entries. */
  method AddAfterInit(u: User) returns (added: User, count: int)
    ensures added.id == 2
    ensures count == 3
  {
    var db := Init();
    added := db.Add(u);
    var response := db.List();
    count := |response["users"]|;
    assert db.userList.Keys == {0, 1, 2};
  }

  /** Deleting a seeded key succeeds; deleting an absent one reports failure. */
  method DeleteAfterInit() returns (present: bool, absent: bool, err: Option<string>)
    ensures present && !absent && err == Some("Could not delete this user")
  {
    var db := Init();
    var e;
    present, e := db.Delete(1);
    absent, err := db.Delete(10);
  }

  /** The record database_test.go sends to Update: user 0 with a new surname and birthplace. */
  const Renamed := User(0, "John", "2 Doe", "31-12-1985", "Southend")

  /** As written, Update on the seed returns the stored surname, not the one sent. */
  method UpdateKeepsOldRecord() returns (r: User, err: Option<string>)
    ensures err == None
    ensures r.lastName == "Doe" && r.locationOfBirth == "London"
    ensures r != Renamed
  {
    var db := Init();
    r, err := db.Update(Renamed);
  }

  /** Corrected, Update on the seed returns and stores the record sent. */
  method UpdateStoresNewRecord() returns (r: User, err: Option<string>, fetched: User)
    ensures err == None
    ensures r == Renamed && r.lastName == "2 Doe" && r.locationOfBirth == "Southend"
    ensures fetched == Renamed
  {
    var db := Init();
    r, err := db.UpdateReplacing(Renamed);
    var e;
    fetched, e := db.Get(0);
  }

  /** Update of an absent id fails, in both readings. */
  method UpdateAbsent() returns (asWritten: Option<string>, corrected: Option<string>)
    ensures asWritten == Some("User does not exist") && corrected == asWritten
  {
    var db := Init();
    var u := Renamed.(id := 20);
    var r;
    r, asWritten := db.Update(u);
    r, corrected := db.UpdateReplacing(u);
  }
}
