/**
 * PassportService of internal/passport: passports in a map keyed by the id the caller
 * supplies, with duplicates refused.
 */
module PassportStore {
  import opened Wrappers
  import opened Models
  import Collections

  /**
   * Go's `<` on strings: lexicographic, a proper prefix first. Go compares the UTF-8 bytes;
   * comparing code points gives the same order, since UTF-8 encoding preserves it.
   */
  predicate StringLess(a: string, b: string)
    decreases |a|
  {
    if a == [] then b != []
    else if b == [] then false
    else a[0] < b[0] || (a[0] == b[0] && StringLess(a[1..], b[1..]))
  }

  lemma {:induction false} StringLessIrreflexive(a: string)
    ensures !StringLess(a, a)
  {
    if a != [] {
      StringLessIrreflexive(a[1..]);
    }
  }

  lemma {:induction false} StringLessTransitive(a: string, b: string, c: string)
    requires StringLess(a, b) && StringLess(b, c)
    ensures StringLess(a, c)
    decreases |a|
  {
    if a != [] && a[0] == b[0] && b[0] == c[0] {
      StringLessTransitive(a[1..], b[1..], c[1..]);
    }
  }

  lemma {:induction false} StringLessTotal(a: string, b: string)
    ensures a == b || StringLess(a, b) || StringLess(b, a)
    decreases |a|
  {
    if a != [] && b != [] && a[0] == b[0] {
      StringLessTotal(a[1..], b[1..]);
      if a[1..] == b[1..] {
        assert a == [a[0]] + a[1..] && b == [b[0]] + b[1..];
      }
    }
  }

  /** The less function ListPassportsByUser hands to sort.Slice. */
  predicate IdLess(p: Passport, q: Passport) {
    StringLess(p.id, q.id)
  }

  lemma IdLessIsStrictWeakOrder()
    ensures Collections.StrictWeakOrder(IdLess)
  {
    forall p: Passport ensures !IdLess(p, p) {
      StringLessIrreflexive(p.id);
    }
    forall p: Passport, q: Passport, r: Passport | IdLess(p, q) && IdLess(q, r) ensures IdLess(p, r) {
      StringLessTransitive(p.id, q.id, r.id);
    }
    forall p: Passport, q: Passport, r: Passport | IdLess(p, r) ensures IdLess(p, q) || IdLess(q, r) {
      StringLessTotal(p.id, q.id);
      if StringLess(q.id, p.id) {
        StringLessTransitive(q.id, p.id, r.id);
      }
    }
  }

  /** The key a passport is stored under. */
  function PassportKey(p: Passport): string {
    p.id
  }

  /** The entries of `m` that belong to the given user. */
  function OwnedBy(m: map<string, Passport>, userId: int): (owned: map<string, Passport>)
    ensures forall k :: k in owned <==> k in m && m[k].userId == userId
    ensures forall k :: k in owned ==> owned[k] == m[k]
  {
    map k | k in m && m[k].userId == userId :: m[k]
  }

  /**
   * The loop of ListPassportsByUser: ranges over the map and appends every passport of the
   * user. The ghost `keys` records the order the loop picked.
   */
  method FilterByOwner(m: map<string, Passport>, userId: int) returns (found: seq<Passport>, ghost keys: seq<string>)
    ensures Collections.ListsValues(OwnedBy(m, userId), found, keys)
  {
    ghost var owned := OwnedBy(m, userId);
    var rest := m.Keys;
    found, keys := [], [];
    assert rest * owned.Keys == owned.Keys;
    while rest != {}
      invariant rest <= m.Keys
      invariant |found| == |keys|
      invariant |keys| + |rest * owned.Keys| == |owned.Keys|
      invariant Collections.Distinct(keys)
      invariant forall i :: 0 <= i < |keys| ==> keys[i] in owned && keys[i] !in rest && found[i] == owned[keys[i]]
      invariant forall k :: k in owned ==> k in keys || k in rest
      decreases |rest|
    {
      var k :| k in rest;
      if m[k].userId == userId {
        assert (rest - {k}) * owned.Keys == rest * owned.Keys - {k};
        found, keys := found + [m[k]], keys + [k];
      } else {
        assert (rest - {k}) * owned.Keys == rest * owned.Keys;
      }
      rest := rest - {k};
    }
    assert |owned.Keys| == |owned|;
  }

  /** A reordering of the filtered values holds each passport of the user once. */
  lemma OwnedListing(m: map<string, Passport>, userId: int, found: seq<Passport>, keys: seq<string>, out: seq<Passport>)
    requires Collections.ListsValues(OwnedBy(m, userId), found, keys)
    requires multiset(out) == multiset(found)
    ensures forall p :: p in out <==> p in m.Values && p.userId == userId
    ensures |out| == |set k | k in m && m[k].userId == userId|
    ensures forall p :: multiset(out)[p] == |Collections.KeysOf(OwnedBy(m, userId), p)|
  {
    var owned := OwnedBy(m, userId);
    Collections.ReorderedValues(owned, found, keys, out);
    forall p ensures p in owned.Values <==> p in m.Values && p.userId == userId {
      Collections.ValueHasKey(owned, p);
      Collections.ValueHasKey(m, p);
    }
    assert owned.Keys == set k | k in m && m[k].userId == userId;
  }

  /** When every passport sits under its own id, a listing sorted by id is strictly increasing. */
  lemma SortedKeyedListing(m: map<string, Passport>, userId: int, found: seq<Passport>, keys: seq<string>, out: seq<Passport>)
    requires Collections.ListsValues(OwnedBy(m, userId), found, keys)
    requires multiset(out) == multiset(found)
    requires forall id :: id in m ==> m[id].id == id
    requires Collections.SortedBy(out, IdLess)
    ensures forall i, j :: 0 <= i < j < |out| ==> StringLess(out[i].id, out[j].id)
  {
    var owned := OwnedBy(m, userId);
    assert forall k :: k in owned ==> PassportKey(owned[k]) == k;
    Collections.ReorderedKeyedValues(owned, found, keys, out, PassportKey);
    forall i, j | 0 <= i < j < |out| ensures StringLess(out[i].id, out[j].id) {
      StringLessTotal(out[i].id, out[j].id);
      assert !IdLess(out[j], out[i]);
    }
  }

  class PassportService {
    var passportList: map<string, Passport>

    /** Every stored passport's id is its key. */
    ghost predicate Valid()
      reads this
    {
      forall id :: id in passportList ==> passportList[id].id == id
    }

    /** NewPassportService. */
    constructor (list: map<string, Passport>)
      ensures passportList == list
    {
      passportList := list;
    }

    /**
     * ListPassportsByUser: the passports of one user, sorted by id. It never fails; with no
     * match the result is empty.
     */
    method ListPassportsByUser(userId: int) returns (passports: seq<Passport>)
      ensures forall p :: p in passports <==> p in passportList.Values && p.userId == userId
      ensures |passports| == |set k | k in passportList && passportList[k].userId == userId|
      ensures forall p :: multiset(passports)[p] == |Collections.KeysOf(OwnedBy(passportList, userId), p)|
      ensures forall i, j :: 0 <= i < j < |passports| ==> !StringLess(passports[j].id, passports[i].id)
      ensures Valid() ==> forall i, j :: 0 <= i < j < |passports| ==> StringLess(passports[i].id, passports[j].id)
    {
      var m := passportList;
      var found, keys := FilterByOwner(m, userId);
      ghost var owned := OwnedBy(m, userId);
      var a := new Passport[|found|](i requires 0 <= i < |found| => found[i]);
      assert a[..] == found;
      IdLessIsStrictWeakOrder();
      Collections.SortSlice(a, IdLess);
      passports := a[..];
      OwnedListing(m, userId, found, keys, passports);
      if Valid() {
        SortedKeyedListing(m, userId, found, keys, passports);
      }
    }

    /** GetPassport: the stored passport, or the zero passport and an error. */
    method GetPassport(id: string) returns (p: Passport, err: Option<StoreError>)
      ensures id in passportList ==> p == passportList[id] && err == None
      ensures id !in passportList ==> p == ZeroPassport && err == Some(PassportNotFound(id))
    {
      if id !in passportList {
        return ZeroPassport, Some(PassportNotFound(id));
      }
      return passportList[id], None;
    }

    /** AddPassport: stores p under its own id unless that id is taken. */
    method AddPassport(p: Passport) returns (r: Passport, err: Option<StoreError>)
      modifies this
      ensures p.id in old(passportList) ==>
                r == ZeroPassport && err == Some(PassportAlreadyExists(p.id)) && passportList == old(passportList)
      ensures p.id !in old(passportList) ==>
                r == p && err == None && passportList == old(passportList)[p.id := p]
      ensures old(Valid()) ==> Valid()
    {
      if p.id in passportList {
        return ZeroPassport, Some(PassportAlreadyExists(p.id));
      }
      passportList := passportList[p.id := p];
      return p, None;
    }

    /** UpdatePassport: replaces the whole record stored under p.id, if there is one. */
    method UpdatePassport(p: Passport) returns (r: Passport, err: Option<StoreError>)
      modifies this
      ensures r == p
      ensures p.id in old(passportList) ==> err == None && passportList == old(passportList)[p.id := p]
      ensures p.id !in old(passportList) ==> err == Some(PassportNotFound(p.id)) && passportList == old(passportList)
      ensures old(Valid()) ==> Valid()
    {
      if p.id !in passportList {
        return p, Some(PassportNotFound(p.id));
      }
      passportList := passportList[p.id := p];
      return passportList[p.id], None;
    }

    /** DeletePassport: removes exactly the given key, if present. */
    method DeletePassport(id: string) returns (err: Option<StoreError>)
      modifies this
      ensures id in old(passportList) ==> err == None && passportList == old(passportList) - {id}
      ensures id !in old(passportList) ==> err == Some(PassportNotFound(id)) && passportList == old(passportList)
      ensures old(Valid()) ==> Valid()
    {
      if id !in passportList {
        return Some(PassportNotFound(id));
      }
      passportList := passportList - {id};
      return None;
    }
  }

  const FirstPassport := Passport("012345678", Time("2020-01-15T00:00:00Z"), Time("2030-01-15T00:00:00Z"), "HMPO", 0)
  const SecondPassport := Passport("987654321", Time("2019-06-01T00:00:00Z"), Time("2029-06-01T00:00:00Z"), "HMPO", 1)

  /** CreateMockPassportDataSet: two passports, each stored under its own id. */
  function CreateMockPassportDataSet(): (list: map<string, Passport>)
    ensures list.Keys == {"012345678", "987654321"}
    ensures forall id :: id in list ==> list[id].id == id
  {
    map["012345678" := FirstPassport, "987654321" := SecondPassport]
  }

  /** The store NewTestServer builds: NewPassportService(CreateMockPassportDataSet()). */
  method NewSeededService() returns (s: PassportService)
    ensures fresh(s) && s.Valid()
    ensures s.passportList == map["012345678" := FirstPassport, "987654321" := SecondPassport]
  {
    s := new PassportService(CreateMockPassportDataSet());
  }

  /** In the seed, user 0 owns exactly the first passport. */
  method ListSeededOwner() returns (listed: seq<Passport>)
    ensures listed == [FirstPassport]
  {
    var s := NewSeededService();
    listed := s.ListPassportsByUser(0);
    ghost var m := s.passportList;
    assert (set k | k in m && m[k].userId == 0) == {"012345678"};
    assert |listed| == 1;
    assert listed[0] in listed;
    assert listed[0] in m.Values && listed[0].userId == 0;
    Collections.ValueHasKey(m, listed[0]);
    ghost var k :| k in m && m[k] == listed[0];
    assert k == "012345678";
  }

  /** A user who owns no passport gets an empty listing, not an error. */
  method ListSeededStranger() returns (listed: seq<Passport>)
    ensures listed == []
  {
    var s := NewSeededService();
    listed := s.ListPassportsByUser(999);
    ghost var m := s.passportList;
    assert (set k | k in m && m[k].userId == 999) == {};
  }

  /** Adding a passport whose id is taken fails and leaves the store as it was. */
  method AddDuplicate(p: Passport) returns (err: Option<StoreError>, stored: Passport)
    requires p.id == "012345678"
    ensures err == Some(PassportAlreadyExists("012345678"))
    ensures stored == FirstPassport
  {
    var s := NewSeededService();
    var _, e := s.AddPassport(p);
    err := e;
    var got, _ := s.GetPassport("012345678");
    stored := got;
  }

  /** A passport added under a fresh id is what a later lookup returns. */
  method AddThenGet(p: Passport) returns (created: Passport, fetched: Passport, err: Option<StoreError>)
    requires p.id == "555666777"
    ensures created == p && fetched == p && err == None
  {
    var s := NewSeededService();
    var e;
    created, e := s.AddPassport(p);
    fetched, err := s.GetPassport(p.id);
  }

  /** After a delete, looking the key up fails. */
  method DeleteThenGet() returns (deleted: Option<StoreError>, lookup: Option<StoreError>)
    ensures deleted == None && lookup == Some(PassportNotFound("012345678"))
  {
    var s := NewSeededService();
    deleted := s.DeletePassport("012345678");
    var _, e := s.GetPassport("012345678");
    lookup := e;
  }
}
