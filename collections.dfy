/**
 * The two library operations every store builds its listings from: ranging over a Go map
 * (in an order the language leaves unspecified) and sort.Slice with a caller-supplied
 * less function.
 */
module Collections {

  /** No element occurs twice. */
  ghost predicate Distinct<T>(s: seq<T>) {
    forall i, j :: 0 <= i < j < |s| ==> s[i] != s[j]
  }

  /** What sort.Slice demands of its less function: a strict weak ordering. */
  ghost predicate StrictWeakOrder<T(!new)>(less: (T, T) -> bool) {
    && (forall x :: !less(x, x))
    && (forall x, y, z :: less(x, y) && less(y, z) ==> less(x, z))
    && (forall x, y, z :: less(x, z) ==> less(x, y) || less(y, z))
  }

  /** Sorted as sort.Slice leaves a slice: no element is less than one before it. */
  ghost predicate SortedBy<T>(s: seq<T>, less: (T, T) -> bool) {
    forall i, j :: 0 <= i < j < |s| ==> !less(s[j], s[i])
  }

  /** `vs` holds the value of every key of `m` once, in the order `keys` gives. */
  ghost predicate ListsValues<K, V>(m: map<K, V>, vs: seq<V>, keys: seq<K>) {
    && |vs| == |keys| == |m|
    && Distinct(keys)
    && (forall i :: 0 <= i < |keys| ==> keys[i] in m && vs[i] == m[keys[i]])
    && (forall k :: k in m ==> k in keys)
  }

  /**
   * `for _, v := range m { out = append(out, v) }`: every value once per key, in an order
   * picked by the loop. The ghost `keys` records that order.
   */
  method Values<K, V>(m: map<K, V>) returns (vs: seq<V>, ghost keys: seq<K>)
    ensures ListsValues(m, vs, keys)
    ensures forall v :: multiset(vs)[v] == |KeysOf(m, v)|
  {
    var rest := m.Keys;
    vs, keys := [], [];
    while rest != {}
      invariant rest <= m.Keys
      invariant |vs| == |keys|
      invariant |keys| + |rest| == |m.Keys|
      invariant Distinct(keys)
      invariant forall i :: 0 <= i < |keys| ==> keys[i] in m && keys[i] !in rest && vs[i] == m[keys[i]]
      invariant forall k :: k in m ==> k in keys || k in rest
      decreases |rest|
    {
      var k :| k in rest;
      vs, keys := vs + [m[k]], keys + [k];
      rest := rest - {k};
    }
    assert |m.Keys| == |m|;
    ReorderedValues(m, vs, keys, vs);
  }

  /** sort.Slice: reorders `a` in place so that it is SortedBy `less`; the elements stay the same. */
  method SortSlice<T(!new)>(a: array<T>, less: (T, T) -> bool)
    requires StrictWeakOrder(less)
    modifies a
    ensures SortedBy(a[..], less)
    ensures multiset(a[..]) == multiset(old(a[..]))
  {
    var i := 0;
    while i < a.Length
      invariant 0 <= i <= a.Length
      invariant forall p, q :: 0 <= p < q < i ==> !less(a[q], a[p])
      invariant multiset(a[..]) == multiset(old(a[..]))
    {
      Insert(a, i, less);
      i := i + 1;
    }
  }

  /** Moves a[i] left past every element it is less than, so a[..i + 1] ends up sorted. */
  method Insert<T(!new)>(a: array<T>, i: int, less: (T, T) -> bool)
    requires StrictWeakOrder(less)
    requires 0 <= i < a.Length
    requires forall p, q :: 0 <= p < q < i ==> !less(a[q], a[p])
    modifies a
    ensures forall p, q :: 0 <= p < q <= i ==> !less(a[q], a[p])
    ensures multiset(a[..]) == multiset(old(a[..]))
  {
    var j := i;
    while j > 0 && less(a[j], a[j - 1])
      invariant 0 <= j <= i
      invariant forall p, q :: 0 <= p < q <= i && p != j && q != j ==> !less(a[q], a[p])
      invariant forall q :: j < q <= i ==> less(a[j], a[q])
      invariant multiset(a[..]) == multiset(old(a[..]))
    {
      a[j - 1], a[j] := a[j], a[j - 1];
      j := j - 1;
    }
  }

  /** An element occurs at most once in a sequence without repetitions. */
  lemma {:induction false} DistinctCount<T>(s: seq<T>, x: T)
    requires Distinct(s)
    ensures multiset(s)[x] <= 1
  {
    if s != [] {
      assert s == [s[0]] + s[1..];
      assert Distinct(s[1..]) by {
        forall i, j | 0 <= i < j < |s[1..]| ensures s[1..][i] != s[1..][j] {
          assert s[1..][i] == s[i + 1] && s[1..][j] == s[j + 1];
        }
      }
      DistinctCount(s[1..], x);
      if s[0] == x {
        assert x !in s[1..] by {
          forall k | 0 <= k < |s[1..]| ensures s[1..][k] != x {
            assert s[1..][k] == s[k + 1];
          }
        }
        assert multiset(s[1..])[x] == 0;
      }
    }
  }

  /** Two positions holding the same element make it occur twice. */
  lemma DuplicateCount<T>(s: seq<T>, i: int, j: int)
    requires 0 <= i < j < |s| && s[i] == s[j]
    ensures multiset(s)[s[i]] >= 2
  {
    assert s == s[..i] + [s[i]] + s[i + 1..j] + [s[j]] + s[j + 1..];
    assert multiset(s) == multiset(s[..i]) + multiset{s[i]} + multiset(s[i + 1..j]) + multiset{s[j]} + multiset(s[j + 1..]);
  }

  /** Reordering a sequence without repetitions cannot create one. */
  lemma PermutationKeepsDistinct<T>(s: seq<T>, t: seq<T>)
    requires multiset(s) == multiset(t)
    requires Distinct(s)
    ensures Distinct(t)
  {
    forall i, j | 0 <= i < j < |t| ensures t[i] != t[j] {
      if t[i] == t[j] {
        DuplicateCount(t, i, j);
        DistinctCount(s, t[i]);
        assert false;
      }
    }
  }

  /** A value of a map is the value of some key. */
  lemma ValueHasKey<K, V>(m: map<K, V>, v: V)
    ensures v in m.Values <==> exists k :: k in m && m[k] == v
  {
  }

  /** The keys of `m` that hold `v`: how often a listing of `m`'s values shows `v`. */
  ghost function KeysOf<K, V>(m: map<K, V>, v: V): set<K> {
    set k | k in m && m[k] == v
  }

  /** The listed keys of `m` that hold `v`. */
  ghost function Holding<K, V>(keys: seq<K>, m: map<K, V>, v: V): set<K> {
    set k | k in keys && k in m && m[k] == v
  }

  lemma HoldingCons<K, V>(keys: seq<K>, m: map<K, V>, v: V)
    requires keys != []
    ensures Holding(keys, m, v) == Holding(keys[1..], m, v) + (if keys[0] in m && m[keys[0]] == v then {keys[0]} else {})
  {
    assert keys == [keys[0]] + keys[1..];
  }

  lemma DistinctTail<T>(s: seq<T>)
    requires s != [] && Distinct(s)
    ensures Distinct(s[1..]) && s[0] !in s[1..]
  {
    forall i, j | 0 <= i < j < |s[1..]| ensures s[1..][i] != s[1..][j] {
      assert s[1..][i] == s[i + 1] && s[1..][j] == s[j + 1];
    }
    forall i | 0 <= i < |s[1..]| ensures s[1..][i] != s[0] {
      assert s[1..][i] == s[i + 1];
    }
  }

  /** Values listed under distinct keys occur as often as keys holding them are listed. */
  lemma {:induction false} CountByKeys<K, V>(m: map<K, V>, vs: seq<V>, keys: seq<K>, v: V)
    requires |vs| == |keys| && Distinct(keys)
    requires forall i :: 0 <= i < |keys| ==> keys[i] in m && vs[i] == m[keys[i]]
    ensures multiset(vs)[v] == |Holding(keys, m, v)|
    decreases |keys|
  {
    if keys == [] {
      assert Holding(keys, m, v) == {};
    } else {
      DistinctTail(keys);
      assert forall i :: 0 <= i < |keys| - 1 ==> keys[1..][i] == keys[i + 1] && vs[1..][i] == vs[i + 1];
      CountByKeys(m, vs[1..], keys[1..], v);
      HoldingCons(keys, m, v);
      var rest := Holding(keys[1..], m, v);
      assert keys[0] !in rest;
      assert vs == [vs[0]] + vs[1..];
      assert multiset(vs) == multiset{vs[0]} + multiset(vs[1..]);
      if vs[0] == v {
        assert Holding(keys, m, v) == rest + {keys[0]};
        assert multiset(vs)[v] == multiset(vs[1..])[v] + 1;
      } else {
        assert Holding(keys, m, v) == rest;
        assert multiset(vs)[v] == multiset(vs[1..])[v];
      }
    }
  }

  /**
   * A reordering of a map's values has one element per key and the map's values as members;
   * each value occurs as often as there are keys holding it.
   */
  lemma ReorderedValues<K, V>(m: map<K, V>, vs: seq<V>, keys: seq<K>, out: seq<V>)
    requires ListsValues(m, vs, keys)
    requires multiset(out) == multiset(vs)
    ensures |out| == |m|
    ensures forall v :: v in out <==> v in m.Values
    ensures forall v :: multiset(out)[v] == |KeysOf(m, v)|
  {
    forall v ensures multiset(out)[v] == |KeysOf(m, v)| {
      CountByKeys(m, vs, keys, v);
      assert Holding(keys, m, v) == KeysOf(m, v);
    }
    assert |out| == |multiset(out)| == |multiset(vs)| == |vs|;
    forall v ensures v in out <==> v in m.Values {
      PermutationSameMembers(vs, out, v);
      ValueHasKey(m, v);
      if v in vs {
        var i :| 0 <= i < |vs| && vs[i] == v;
        assert m[keys[i]] == v;
      }
      if v in m.Values {
        var k :| k in m && m[k] == v;
        var i :| 0 <= i < |keys| && keys[i] == k;
        assert vs[i] == v;
      }
    }
  }

  /**
   * When every stored value carries its own key, a reordering of the values never shows
   * the same key twice.
   */
  lemma ReorderedKeyedValues<K, V>(m: map<K, V>, vs: seq<V>, keys: seq<K>, out: seq<V>, key: V -> K)
    requires ListsValues(m, vs, keys)
    requires multiset(out) == multiset(vs)
    requires forall k :: k in m ==> key(m[k]) == k
    ensures forall i, j :: 0 <= i < j < |out| ==> key(out[i]) != key(out[j])
  {
    assert Distinct(vs) by {
      forall i, j | 0 <= i < j < |vs| ensures vs[i] != vs[j] {
        assert key(vs[i]) == keys[i] && key(vs[j]) == keys[j];
      }
    }
    PermutationKeepsDistinct(vs, out);
    ReorderedValues(m, vs, keys, out);
    forall i, j | 0 <= i < j < |out| ensures key(out[i]) != key(out[j]) {
      assert out[i] in m.Values && out[j] in m.Values;
      ValueHasKey(m, out[i]);
      ValueHasKey(m, out[j]);
      var ki :| ki in m && m[ki] == out[i];
      var kj :| kj in m && m[kj] == out[j];
      assert ki != kj;
    }
  }

  /** A reordering has the same members. */
  lemma PermutationSameMembers<T>(s: seq<T>, t: seq<T>, x: T)
    requires multiset(s) == multiset(t)
    ensures x in s <==> x in t
  {
    assert x in s <==> x in multiset(s);
    assert x in t <==> x in multiset(t);
  }
}
