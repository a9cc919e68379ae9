/**
 * UserService of internal/passport: users in a map keyed by id, with an auto-increment
 * counter that AddUser advances and nothing else touches.
 */
module UserStore {
  import opened Wrappers
  import opened Models
  import Collections

  /** The less function ListUsers hands to sort.Slice. */
  predicate IdLess(x: User, y: User) {
    x.id < y.id
  }

  /** The key a user is stored under. */
  function UserKey(u: User): int {
    u.id
  }

  lemma IdLessIsStrictWeakOrder()
    ensures Collections.StrictWeakOrder(IdLess)
  {
  }

  class UserService {
    var userList: map<int, User>
    var maxUserId: int

    /** Every stored user's id is its key, and no key exceeds the counter. */
    ghost predicate Valid()
      reads this
    {
      forall id :: id in userList ==> userList[id].id == id && id <= maxUserId
    }

    /** NewUserService: the store starts from the given map and counter. */
    constructor (list: map<int, User>, count: int)
      ensures userList == list && maxUserId == count
    {
      userList := list;
      maxUserId := count;
    }

    /** ListUsers: every stored user, sorted by id; the error result is always nil. */
    method ListUsers() returns (users: seq<User>)
      ensures |users| == |userList|
      ensures forall u :: u in users <==> u in userList.Values
      ensures forall u :: multiset(users)[u] == |Collections.KeysOf(userList, u)|
      ensures forall i, j :: 0 <= i < j < |users| ==> users[i].id <= users[j].id
      ensures Valid() ==> forall i, j :: 0 <= i < j < |users| ==> users[i].id < users[j].id
    {
      var m := userList;
      var vs, keys := Collections.Values(m);
      var a := new User[|vs|](k requires 0 <= k < |vs| => vs[k]);
      assert a[..] == vs;
      IdLessIsStrictWeakOrder();
      Collections.SortSlice(a, IdLess);
      users := a[..];
      Collections.ReorderedValues(m, vs, keys, users);
      if Valid() {
        assert forall k :: k in m ==> UserKey(m[k]) == k;
        Collections.ReorderedKeyedValues(m, vs, keys, users, UserKey);
      }
    }

    /** GetUser: the stored user, or the zero user and an error. */
    method GetUser(id: int) returns (u: User, err: Option<StoreError>)
      ensures id in userList ==> u == userList[id] && err == None
      ensures id !in userList ==> u == ZeroUser && err == Some(UserNotFound(id))
    {
      if id !in userList {
        return ZeroUser, Some(UserNotFound(id));
      }
      return userList[id], None;
    }

    /** AddUser: the caller's id is ignored; the user is stored under the next counter value. */
    method AddUser(u: User) returns (r: User)
      modifies this
      ensures maxUserId == old(maxUserId) + 1
      ensures r == u.(id := maxUserId)
      ensures userList == old(userList)[r.id := r]
      ensures old(Valid()) ==> Valid() && r.id !in old(userList)
      ensures old(Valid()) ==> forall id :: id in old(userList) ==> id < r.id
    {
      maxUserId := maxUserId + 1;
      r := u.(id := maxUserId);
      userList := userList[maxUserId := r];
    }

    /** UpdateUser: replaces the whole record stored under u.id, if there is one. */
    method UpdateUser(u: User) returns (r: User, err: Option<StoreError>)
      modifies this`userList
      ensures r == u
      ensures u.id in old(userList) ==> err == None && userList == old(userList)[u.id := u]
      ensures u.id !in old(userList) ==> err == Some(UserNotFound(u.id)) && userList == old(userList)
      ensures old(Valid()) ==> Valid()
    {
      if u.id !in userList {
        return u, Some(UserNotFound(u.id));
      }
      userList := userList[u.id := u];
      return userList[u.id], None;
    }

    /** DeleteUser: removes exactly the given key, if present; the counter is kept. */
    method DeleteUser(id: int) returns (err: Option<StoreError>)
      modifies this`userList
      ensures id in old(userList) ==> err == None && userList == old(userList) - {id}
      ensures id !in old(userList) ==> err == Some(UserNotFound(id)) && userList == old(userList)
      ensures old(Valid()) ==> Valid()
    {
      if id !in userList {
        return Some(UserNotFound(id));
      }
      userList := userList - {id};
      return None;
    }
  }

  const JohnDoe := User(0, "John", "Doe", Time("1985-12-31T00:00:00Z"), "London")
  const JaneDoe := User(1, "Jane", "Doe", Time("1992-01-01T00:00:00Z"), "Milton Keynes")

  /** CreateMockDataSet: the seed is a valid store state whose next id is 2. */
  function CreateMockDataSet(): (r: (map<int, User>, int))
    ensures r.0.Keys == {0, 1} && r.1 == 1
    ensures forall id :: id in r.0 ==> r.0[id].id == id && id <= r.1
  {
    var list := map[0 := JohnDoe, 1 := JaneDoe];
    assert |list.Keys| == 2 by {
      assert list.Keys == {0, 1};
    }
    (list, |list| - 1)
  }

  /** The store NewTestServer builds: NewUserService(CreateMockDataSet()). */
  method NewSeededService() returns (s: UserService)
    ensures fresh(s) && s.Valid()
    ensures s.userList == map[0 := JohnDoe, 1 := JaneDoe] && s.maxUserId == 1
  {
    var seed := CreateMockDataSet();
    assert seed.0 == map[0 := JohnDoe, 1 := JaneDoe];
    s := new UserService(seed.0, seed.1);
  }

  /** Adding to the seeded store yields id 2, and the listing then holds the three users in id order. */
  method AddToSeededStore(u: User) returns (added: User, listed: seq<User>)
    ensures added == u.(id := 2)
    ensures listed == [JohnDoe, JaneDoe, added]
  {
    var s := NewSeededService();
    added := s.AddUser(u);
    assert s.Valid();
    listed := s.ListUsers();
    assert s.userList == map[0 := JohnDoe, 1 := JaneDoe, 2 := added];
    assert |s.userList| == 3 by {
      assert s.userList.Keys == {0, 1, 2};
    }
    forall v | v in listed ensures v == JohnDoe || v == JaneDoe || v == added {
      Collections.ValueHasKey(s.userList, v);
    }
    assert listed[0] in listed && listed[1] in listed && listed[2] in listed;
    assert listed[0].id < listed[1].id < listed[2].id;
  }

  /** Deleting a key twice: the first call succeeds, the second reports the key as not found. */
  method DeleteTwice() returns (first: Option<StoreError>, second: Option<StoreError>)
    ensures first == None && second == Some(UserNotFound(1))
  {
    var s := NewSeededService();
    first := s.DeleteUser(1);
    second := s.DeleteUser(1);
  }

  /**
   * Ids handed out by AddUser strictly increase and are never reused, even when the
   * user added last is deleted in between.
   */
  method AddDeleteAdd(s: UserService, u1: User, u2: User) returns (a: User, b: User)
    requires s.Valid()
    modifies s
    ensures a.id < b.id
    ensures a.id !in old(s.userList) && b.id !in old(s.userList)
    ensures s.userList == old(s.userList)[b.id := b] && s.Valid()
  {
    a := s.AddUser(u1);
    var _ := s.DeleteUser(a.id);
    b := s.AddUser(u2);
  }
}
