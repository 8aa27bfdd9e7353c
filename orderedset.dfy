// The insertion-ordered map of pkg/orderedset/orderedset.go: a key list in
// first-insertion order next to a map. `OMap` is its state as a value, with
// the operations as functions (the linker's specification folds over it);
// `OrderedSet` is the class, whose methods are proved to move its state the
// way the functions say.

module OrderedSets {
  import opened Wrappers

  /** No element occurs twice. */
  ghost predicate Distinct<K(!new)>(s: seq<K>)
  {
    forall i, j :: 0 <= i < j < |s| ==> s[i] != s[j]
  }

  /** The key list and the map of an ordered set. */
  datatype OMap<K(==,!new), V> = OMap(keys: seq<K>, m: map<K, V>)

  /** The invariant: the key list has no duplicates and holds exactly the
      map's keys. */
  ghost predicate Coherent<K(!new), V>(o: OMap<K, V>)
  {
    Distinct(o.keys) && (forall k :: k in o.m <==> k in o.keys)
  }

  function Empty<K(==,!new), V>(): (o: OMap<K, V>)
    ensures Coherent(o) && o.keys == []
  {
    OMap([], map[])
  }

  /** Set: a new key goes to the end of the order; an existing key keeps its
      position and gets the new value. */
  function Put<K(==,!new), V>(o: OMap<K, V>, k: K, v: V): (r: OMap<K, V>)
    ensures Coherent(o) ==> Coherent(r)
    ensures r.m == o.m[k := v]
  {
    if k in o.m then OMap(o.keys, o.m[k := v]) else OMap(o.keys + [k], o.m[k := v])
  }

  /** findKeyIndex: the first index holding `k`, or -1. */
  function IndexOf<K(==,!new)>(keys: seq<K>, k: K): (i: int)
    ensures -1 <= i < |keys|
    ensures i == -1 <==> k !in keys
    ensures i >= 0 ==> keys[i] == k && forall j :: 0 <= j < i ==> keys[j] != k
  {
    if keys == [] then -1
    else if keys[0] == k then 0
    else
      var i := IndexOf(keys[1..], k);
      if i == -1 then -1 else i + 1
  }

  /** deleteFromOrderedKey: drop the key's index when it is in range. */
  function DropKey<K(==,!new)>(keys: seq<K>, k: K): seq<K>
  {
    var idx := IndexOf(keys, k);
    if idx < 0 || idx >= |keys| then keys
    else if idx == |keys| - 1 then keys[..|keys| - 1]
    else keys[..idx] + keys[idx + 1..]
  }

  /** Delete: nothing for an absent key; otherwise the key leaves both the
      order and the map. */
  function Remove<K(==,!new), V>(o: OMap<K, V>, k: K): (r: OMap<K, V>)
    ensures r.m == o.m - {k}
  {
    if k !in o.m then o else OMap(DropKey(o.keys, k), o.m - {k})
  }

  /** The values in key order. */
  function ValuesOf<K(==,!new), V>(o: OMap<K, V>): (vs: seq<V>)
    requires Coherent(o)
    ensures |vs| == |o.keys|
    ensures forall i :: 0 <= i < |o.keys| ==> vs[i] == o.m[o.keys[i]]
  {
    seq(|o.keys|, i requires 0 <= i < |o.keys| => o.m[o.keys[i]])
  }

  /** The elements of `s` other than `k`, in order: an independent statement
      of what deleting a key does to the order. */
  function Without<K(==,!new)>(s: seq<K>, k: K): seq<K>
  {
    if s == [] then [] else (if s[0] == k then [] else [s[0]]) + Without(s[1..], k)
  }

  lemma {:induction false} WithoutAbsent<K(!new)>(s: seq<K>, k: K)
    requires k !in s
    ensures Without(s, k) == s
  {
    if s != [] {
      WithoutAbsent(s[1..], k);
      assert [s[0]] + s[1..] == s;
    }
  }

  lemma {:induction false} WithoutSplit<K(!new)>(a: seq<K>, b: seq<K>, k: K)
    ensures Without(a + b, k) == Without(a, k) + Without(b, k)
  {
    if a == [] {
      assert a + b == b;
    } else {
      assert (a + b)[0] == a[0];
      assert (a + b)[1..] == a[1..] + b;
      WithoutSplit(a[1..], b, k);
    }
  }

  /** Removing one position of a duplicate-free sequence keeps it
      duplicate-free and removes exactly that element. */
  lemma SpliceDistinct<K(!new)>(s: seq<K>, i: int)
    requires Distinct(s) && 0 <= i < |s|
    ensures Distinct(s[..i] + s[i + 1..])
    ensures forall x :: x in s[..i] + s[i + 1..] <==> x in s && x != s[i]
  {
    var r := s[..i] + s[i + 1..];
    assert forall j :: 0 <= j < |r| ==> r[j] == s[if j < i then j else j + 1];
    forall x | x in s && x != s[i] ensures x in r
    {
      var j :| 0 <= j < |s| && s[j] == x;
      assert r[if j < i then j else j - 1] == x;
    }
  }

  /** Filtering out an element that occurs once is removing its position. */
  lemma WithoutOnce<K(!new)>(a: seq<K>, k: K, b: seq<K>)
    requires k !in a && k !in b
    ensures Without(a + [k] + b, k) == a + b
  {
    var ak := a + [k];
    WithoutSplit(ak, b, k);
    WithoutSplit(a, [k], k);
    assert Without([k], k) == [] by {
      assert [k][1..] == [];
    }
    WithoutAbsent(a, k);
    WithoutAbsent(b, k);
    assert Without(ak, k) == a;
  }

  /** In a duplicate-free sequence, the element at `i` occurs nowhere else. */
  lemma OnlyAt<K(!new)>(s: seq<K>, i: int)
    requires Distinct(s) && 0 <= i < |s|
    ensures s == s[..i] + [s[i]] + s[i + 1..]
    ensures s[i] !in s[..i] && s[i] !in s[i + 1..]
  {
    var b := s[i + 1..];
    assert forall j :: 0 <= j < |b| ==> b[j] == s[i + 1 + j];
  }

  lemma DropKeyAt<K(!new)>(s: seq<K>, k: K)
    requires k in s
    ensures DropKey(s, k) == s[..IndexOf(s, k)] + s[IndexOf(s, k) + 1..]
  {
    var i := IndexOf(s, k);
    if i == |s| - 1 {
      assert s[i + 1..] == [];
    }
  }

  /** Delete keeps the invariant and the relative order of the other keys. */
  lemma RemoveKeepsOrder<K(!new), V>(o: OMap<K, V>, k: K)
    requires Coherent(o)
    ensures Coherent(Remove(o, k))
    ensures Remove(o, k).keys == Without(o.keys, k)
  {
    if k !in o.m {
      WithoutAbsent(o.keys, k);
    } else {
      var i := IndexOf(o.keys, k);
      DropKeyAt(o.keys, k);
      OnlyAt(o.keys, i);
      WithoutOnce(o.keys[..i], k, o.keys[i + 1..]);
      SpliceDistinct(o.keys, i);
    }
  }

  /** Set replaces the value of a present key in place and appends a new
      key's value at the end; every other position keeps its value. */
  lemma PutValues<K(!new), V>(o: OMap<K, V>, k: K, v: V)
    requires Coherent(o)
    ensures k in o.m ==> ValuesOf(Put(o, k, v)) == ValuesOf(o)[IndexOf(o.keys, k) := v]
    ensures k !in o.m ==> ValuesOf(Put(o, k, v)) == ValuesOf(o) + [v]
  {
    var r := Put(o, k, v);
    if k in o.m {
      var i := IndexOf(o.keys, k);
      forall j | 0 <= j < |o.keys| ensures ValuesOf(r)[j] == ValuesOf(o)[i := v][j]
      {
        if j != i {
          assert o.keys[j] != k;
        }
      }
    }
  }

  /** A sequence without duplicates has as many elements as its set. */
  lemma {:induction false} DistinctCard<K(!new)>(s: seq<K>)
    requires Distinct(s)
    ensures |set x | x in s| == |s|
  {
    if s != [] {
      var rest := s[1..];
      assert Distinct(rest) by {
        forall i, j | 0 <= i < j < |rest| ensures rest[i] != rest[j]
        {
          assert rest[i] == s[i + 1] && rest[j] == s[j + 1];
        }
      }
      DistinctCard(rest);
      assert s[0] !in rest by {
        forall j | 0 <= j < |rest| ensures rest[j] != s[0]
        {
          assert rest[j] == s[j + 1];
        }
      }
      assert (set x | x in s) == {s[0]} + (set x | x in rest) by {
        forall x | x in s ensures x == s[0] || x in rest
        {
          var j :| 0 <= j < |s| && s[j] == x;
          if j > 0 {
            assert rest[j - 1] == x;
          }
        }
      }
    }
  }

  /** Len: the number of keys is the number of entries of the map. */
  lemma LenIsSize<K(!new), V>(o: OMap<K, V>)
    requires Coherent(o)
    ensures |o.keys| == |o.m|
  {
    DistinctCard(o.keys);
    assert o.m.Keys == set x | x in o.keys;
  }

  /** The pairs offered to `accept`: in key order, up to and including the
      first one it refuses. */
  function Offered<K(==,!new), V>(keys: seq<K>, m: map<K, V>, accept: (K, V) -> bool): (r: seq<(K, V)>)
    requires forall j :: 0 <= j < |keys| ==> keys[j] in m
    ensures |r| <= |keys|
  {
    if keys == [] then []
    else if !accept(keys[0], m[keys[0]]) then [(keys[0], m[keys[0]])]
    else [(keys[0], m[keys[0]])] + Offered(keys[1..], m, accept)
  }

  /** The iteration offers a prefix of the pairs, every one but the last
      accepted, and stops early only at a refusal. */
  lemma {:induction false} OfferedMeaning<K(!new), V>(keys: seq<K>, m: map<K, V>, accept: (K, V) -> bool)
    requires forall j :: 0 <= j < |keys| ==> keys[j] in m
    ensures var r := Offered(keys, m, accept);
      && (forall i :: 0 <= i < |r| ==> r[i] == (keys[i], m[keys[i]]))
      && (forall i :: 0 <= i < |r| - 1 ==> accept(r[i].0, r[i].1))
      && (|r| < |keys| ==> |r| > 0 && !accept(r[|r| - 1].0, r[|r| - 1].1))
  {
    if keys != [] && accept(keys[0], m[keys[0]]) {
      OfferedMeaning(keys[1..], m, accept);
    }
  }

  /** One step of the iteration from position `i`. */
  lemma OfferedFrom<K(!new), V>(keys: seq<K>, m: map<K, V>, accept: (K, V) -> bool, i: int)
    requires forall j :: 0 <= j < |keys| ==> keys[j] in m
    requires 0 <= i < |keys|
    ensures accept(keys[i], m[keys[i]]) ==>
      Offered(keys[i..], m, accept) == [(keys[i], m[keys[i]])] + Offered(keys[i + 1..], m, accept)
    ensures !accept(keys[i], m[keys[i]]) ==>
      Offered(keys[i..], m, accept) == [(keys[i], m[keys[i]])]
  {
    assert keys[i..][0] == keys[i] && keys[i..][1..] == keys[i + 1..];
  }

  class OrderedSet<K(==,!new), V> {
    var orderedKeys: seq<K>
    var m: map<K, V>
    /** The zero value of V, which GetValue returns for an absent key. */
    const zero: V

    ghost function State(): OMap<K, V>
      reads this
    {
      OMap(orderedKeys, m)
    }

    ghost predicate Valid()
      reads this
    {
      Coherent(State())
    }

    /** New: empty; the capacity is only an allocation hint. */
    constructor(capacity: int, zero: V)
      ensures State() == Empty() && Valid() && this.zero == zero
    {
      orderedKeys := [];
      m := map[];
      this.zero := zero;
    }

    method Values() returns (values: seq<V>)
      requires Valid()
      ensures values == ValuesOf(State())
    {
      values := [];
      var i := 0;
      while i < |orderedKeys|
        invariant 0 <= i <= |orderedKeys|
        invariant values == ValuesOf(State())[..i]
        decreases |orderedKeys| - i
      {
        values := values + [m[orderedKeys[i]]];
        i := i + 1;
      }
    }

    method Keys() returns (keys: seq<K>)
      ensures keys == orderedKeys
    {
      keys := [];
      var i := 0;
      while i < |orderedKeys|
        invariant 0 <= i <= |orderedKeys|
        invariant keys == orderedKeys[..i]
        decreases |orderedKeys| - i
      {
        keys := keys + [orderedKeys[i]];
        i := i + 1;
      }
    }

    function Len(): (n: int)
      reads this
      requires Valid()
      ensures n == |m|
    {
      LenIsSize(State());
      |orderedKeys|
    }

    /** Iterator, run with `accept`: the pairs it offers, in key order,
        stopping at the first one `accept` refuses. */
    method Iterator(accept: (K, V) -> bool) returns (offered: seq<(K, V)>)
      requires Valid()
      ensures offered == Offered(orderedKeys, m, accept)
    {
      var keys, entries := orderedKeys, m;
      assert forall j :: 0 <= j < |keys| ==> keys[j] in entries;
      offered := [];
      var i := 0;
      while i < |keys|
        invariant 0 <= i <= |keys|
        invariant offered + Offered(keys[i..], entries, accept) == Offered(keys, entries, accept)
        decreases |keys| - i
      {
        var k := keys[i];
        var v := entries[k];
        offered := offered + [(k, v)];
        OfferedFrom(keys, entries, accept, i);
        if !accept(k, v) {
          return;
        }
        i := i + 1;
      }
    }

    method Set(k: K, v: V)
      requires Valid()
      modifies this
      ensures Valid() && State() == Put(old(State()), k, v)
    {
      if k !in m {
        orderedKeys := orderedKeys + [k];
      }
      m := m[k := v];
    }

    function Get(k: K): (r: (V, bool))
      reads this
      ensures r.1 <==> k in m
      ensures r.1 ==> r.0 == m[k]
      ensures !r.1 ==> r.0 == zero
    {
      if k in m then (m[k], true) else (zero, false)
    }

    function GetValue(k: K): (v: V)
      reads this
      ensures k in m ==> v == m[k]
      ensures k !in m ==> v == zero
    {
      Get(k).0
    }

    /** MustGet: the source panics on an absent key. */
    function MustGet(k: K): (v: V)
      reads this
      requires k in m
      ensures v == m[k]
    {
      Get(k).0
    }

    method Delete(k: K)
      requires Valid()
      modifies this
      ensures Valid() && State() == Remove(old(State()), k)
    {
      if k !in m {
        return;
      }
      DeleteFromOrderedKey(k);
      m := m - {k};
      RemoveKeepsOrder(old(State()), k);
    }

    method DeleteFromOrderedKey(k: K)
      modifies this
      ensures orderedKeys == DropKey(old(orderedKeys), k) && m == old(m)
    {
      var idx := FindKeyIndex(k);
      if idx < 0 || idx >= |orderedKeys| {
        return;
      }
      if idx == |orderedKeys| - 1 {
        orderedKeys := orderedKeys[..|orderedKeys| - 1];
      } else {
        orderedKeys := orderedKeys[..idx] + orderedKeys[idx + 1..];
      }
    }

    method FindKeyIndex(k: K) returns (idx: int)
      ensures idx == IndexOf(orderedKeys, k)
    {
      var i := 0;
      while i < |orderedKeys|
        invariant 0 <= i <= |orderedKeys|
        invariant forall j :: 0 <= j < i ==> orderedKeys[j] != k
        decreases |orderedKeys| - i
      {
        if orderedKeys[i] == k {
          return i;
        }
        i := i + 1;
      }
      return -1;
    }
  }
}
