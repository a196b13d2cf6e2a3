/** A model of the Python `dict`: a map whose iteration order is the order in
    which keys were first inserted. Assigning to a present key replaces its
    value and keeps its position; assigning to a new key appends it. */
module OrderedMaps {

  /** No element occurs twice in `s`. */
  predicate Distinct<K(==)>(s: seq<K>) {
    forall i, j :: 0 <= i < j < |s| ==> s[i] != s[j]
  }

  datatype DictRep<K, V> = DictRep(keys: seq<K>, entries: map<K, V>) {
    /** The keys in iteration order are exactly the keys of the map, each once. */
    predicate Valid() {
      && Distinct(keys)
      && (forall k :: k in entries ==> k in keys)
      && (forall i :: 0 <= i < |keys| ==> keys[i] in entries)
    }
  }

  type Dict<K, V> = d: DictRep<K, V> | d.Valid() witness DictRep([], map[])

  function Empty<K, V>(): Dict<K, V> {
    DictRep([], map[])
  }

  /** `d[k] = v`. */
  function Put<K, V>(d: Dict<K, V>, k: K, v: V): Dict<K, V> {
    if k in d.entries then DictRep(d.keys, d.entries[k := v])
    else DictRep(d.keys + [k], d.entries[k := v])
  }

  /** `d.values()`, in iteration order. */
  function Values<K, V>(d: Dict<K, V>): (r: seq<V>)
    ensures |r| == |d.keys|
    ensures forall i :: 0 <= i < |d.keys| ==> r[i] == d.entries[d.keys[i]]
  {
    seq(|d.keys|, i requires 0 <= i < |d.keys| => d.entries[d.keys[i]])
  }

  /** Every value listed is a value of the map. */
  lemma ValuesIn<K, V>(d: Dict<K, V>)
    ensures forall v :: v in Values(d) ==> v in d.entries.Values
  {
    forall v | v in Values(d) ensures v in d.entries.Values {
      var i :| 0 <= i < |d.keys| && Values(d)[i] == v;
      assert d.keys[i] in d.entries;
    }
  }

  /** `d.items()`, in iteration order. */
  function Items<K, V>(d: Dict<K, V>): seq<(K, V)> {
    seq(|d.keys|, i requires 0 <= i < |d.keys| => (d.keys[i], d.entries[d.keys[i]]))
  }

  function KeysOf<K, V>(ps: seq<(K, V)>): (r: seq<K>)
    ensures |r| == |ps|
  {
    seq(|ps|, i requires 0 <= i < |ps| => ps[i].0)
  }

  /** Assign every pair of `ps` into `d`, left to right. */
  function PutAll<K, V>(d: Dict<K, V>, ps: seq<(K, V)>): Dict<K, V>
    decreases |ps|
  {
    if ps == [] then d
    else Put(PutAll(d, ps[..|ps| - 1]), ps[|ps| - 1].0, ps[|ps| - 1].1)
  }

  /** `{k: v for (k, v) in ps}`. */
  function FromPairs<K, V>(ps: seq<(K, V)>): Dict<K, V> {
    PutAll(Empty(), ps)
  }

  /** `{**a, **b}`: a copy of `a`, then every item of `b` assigned in order. */
  function Union<K, V>(a: Dict<K, V>, b: Dict<K, V>): Dict<K, V> {
    PutAll(a, Items(b))
  }

  /** The elements of `s` that are not in `seen`, each once, in the order of
      their first occurrence: a reference definition by a forward scan. */
  function FirstOccurrences<K>(s: seq<K>, seen: set<K>): (r: seq<K>)
    ensures forall x :: x in r ==> x in s && x !in seen
    ensures forall x :: x in s && x !in seen ==> x in r
    ensures Distinct(r)
    decreases |s|
  {
    if s == [] then []
    else if s[0] in seen then FirstOccurrences(s[1..], seen)
    else [s[0]] + FirstOccurrences(s[1..], seen + {s[0]})
  }

  /** The position of the last occurrence of `k` in `s`. */
  function LastIndex<K(==)>(s: seq<K>, k: K): (r: nat)
    requires k in s
    ensures r < |s| && s[r] == k
    ensures forall j :: r < j < |s| ==> s[j] != k
    decreases |s|
  {
    if s[|s| - 1] == k then |s| - 1 else LastIndex(s[..|s| - 1], k)
  }

  lemma {:induction false} FirstOccurrencesSnoc<K>(s: seq<K>, x: K, seen: set<K>)
    ensures FirstOccurrences(s + [x], seen)
         == FirstOccurrences(s, seen) + (if x in seen || x in s then [] else [x])
    decreases |s|
  {
    if s == [] {
      assert [x][1..] == [];
    } else {
      var head, rest := s[0], s[1..];
      assert (s + [x])[1..] == rest + [x];
      assert x in s <==> x == head || x in rest;
      if head in seen {
        FirstOccurrencesSnoc(rest, x, seen);
      } else {
        FirstOccurrencesSnoc(rest, x, seen + {head});
        var tail := FirstOccurrences(rest, seen + {head});
        assert FirstOccurrences(s, seen) == [head] + tail;
        assert FirstOccurrences(s + [x], seen) == [head] + FirstOccurrences(rest + [x], seen + {head});
      }
    }
  }

  lemma FirstOccurrencesNone<K>(s: seq<K>, seen: set<K>)
    requires forall x :: x in s ==> x in seen
    ensures FirstOccurrences(s, seen) == []
  {
  }

  /** Removing what was seen in two passes is removing it in one. */
  lemma {:induction false} FirstOccurrencesTwice<K>(s: seq<K>, a: set<K>, b: set<K>)
    ensures FirstOccurrences(FirstOccurrences(s, a), b) == FirstOccurrences(s, a + b)
    decreases |s|
  {
    if s != [] {
      var x, rest := s[0], s[1..];
      if x in a {
        FirstOccurrencesTwice(rest, a, b);
      } else if x in b {
        FirstOccurrencesTwice(rest, a + {x}, b);
        assert a + {x} + b == a + b;
      } else {
        var f := FirstOccurrences(rest, a + {x});
        assert ([x] + f)[1..] == f;
        FirstOccurrencesTwice(rest, a + {x}, b + {x});
        assert a + {x} + (b + {x}) == a + b + {x};
      }
    }
  }

  /** Whether `PutAll` holds key `k`, and the value it ends with: the value
      of the last pair naming `k`, or else the value `d` had. */
  lemma {:induction false} PutAllAt<K, V>(d: Dict<K, V>, ps: seq<(K, V)>, k: K)
    ensures k in PutAll(d, ps).entries <==> k in d.entries || k in KeysOf(ps)
    ensures k in KeysOf(ps) ==> PutAll(d, ps).entries[k] == ps[LastIndex(KeysOf(ps), k)].1
    ensures k in d.entries && k !in KeysOf(ps) ==> PutAll(d, ps).entries[k] == d.entries[k]
    decreases |ps|
  {
    if ps != [] {
      var p := ps[..|ps| - 1];
      PutAllAt(d, p, k);
      assert KeysOf(ps) == KeysOf(p) + [ps[|ps| - 1].0];
      if k in KeysOf(p) && k != ps[|ps| - 1].0 {
        assert KeysOf(ps)[..|ps| - 1] == KeysOf(p);
      }
    }
  }

  lemma KeysOfSnoc<K, V>(ps: seq<(K, V)>)
    requires ps != []
    ensures KeysOf(ps) == KeysOf(ps[..|ps| - 1]) + [ps[|ps| - 1].0]
  {
  }

  /** The key order after `PutAll`: the old keys, then the new keys in the
      order they first occur in `ps`. */
  lemma {:induction false} PutAllKeys<K, V>(d: Dict<K, V>, ps: seq<(K, V)>)
    ensures PutAll(d, ps).keys == d.keys + FirstOccurrences(KeysOf(ps), d.entries.Keys)
    decreases |ps|
  {
    if ps != [] {
      var p := ps[..|ps| - 1];
      var k0 := ps[|ps| - 1].0;
      var before := PutAll(d, p);
      assert PutAll(d, ps) == Put(before, k0, ps[|ps| - 1].1);
      PutAllKeys(d, p);
      PutAllAt(d, p, k0);
      KeysOfSnoc(ps);
      FirstOccurrencesSnoc(KeysOf(p), k0, d.entries.Keys);
    }
  }

  /** A dict comprehension holds every key of `ps`, each with the value of the
      last pair naming it, in the order of first occurrence. */
  lemma FromPairsAt<K, V>(ps: seq<(K, V)>, k: K)
    ensures k in FromPairs(ps).entries <==> k in KeysOf(ps)
    ensures k in KeysOf(ps) ==> FromPairs(ps).entries[k] == ps[LastIndex(KeysOf(ps), k)].1
  {
    PutAllAt(Empty(), ps, k);
  }

  lemma FromPairsKeys<K, V>(ps: seq<(K, V)>)
    ensures FromPairs(ps).keys == FirstOccurrences(KeysOf(ps), {})
  {
    var e: Dict<K, V> := Empty();
    PutAllKeys(e, ps);
    assert e.keys == [] && e.entries.Keys == {};
    var r := FirstOccurrences(KeysOf(ps), {});
    assert [] + r == r;
  }

  lemma ItemsKeys<K, V>(b: Dict<K, V>)
    ensures KeysOf(Items(b)) == b.keys
  {
  }

  /** `{**a, **b}` maps every key of `b` to its value in `b` and every other
      key of `a` to its value in `a`. */
  lemma UnionEntries<K, V>(a: Dict<K, V>, b: Dict<K, V>)
    ensures Union(a, b).entries == a.entries + b.entries
  {
    var items := Items(b);
    ItemsKeys(b);
    var u := PutAll(a, items);
    var m := a.entries + b.entries;
    forall k ensures k in u.entries <==> k in m {
      PutAllAt(a, items, k);
    }
    forall k | k in m ensures k in u.entries && u.entries[k] == m[k] {
      PutAllAt(a, items, k);
      if k in b.entries {
        var i := LastIndex(b.keys, k);
        assert items[i] == (k, b.entries[k]);
      }
    }
    SameMap(u.entries, m);
    assert Union(a, b) == u;
  }

  lemma SameMap<K, V>(m1: map<K, V>, m2: map<K, V>)
    requires forall k :: k in m1 <==> k in m2
    requires forall k :: k in m2 ==> k in m1 && m1[k] == m2[k]
    ensures m1 == m2
  {
  }

  /** The order of `{**a, **b}`: that of `a`, then the keys only `b` has, in
      the order of `b`. */
  lemma UnionKeys<K, V>(a: Dict<K, V>, b: Dict<K, V>)
    ensures Union(a, b).keys == a.keys + FirstOccurrences(b.keys, a.entries.Keys)
  {
    ItemsKeys(b);
    PutAllKeys(a, Items(b));
  }

  /** Merging the same dict twice changes nothing more. */
  lemma UnionIdempotent<K, V>(a: Dict<K, V>, b: Dict<K, V>)
    ensures Union(Union(a, b), b) == Union(a, b)
  {
    var u := Union(a, b);
    var v := Union(u, b);
    UnionEntries(a, b);
    UnionEntries(u, b);
    SameMap(v.entries, u.entries);
    UnionKeys(u, b);
    FirstOccurrencesNone(b.keys, u.entries.Keys);
    assert v.keys == u.keys;
  }

  /** Merging an empty dict is the identity. */
  lemma UnionEmpty<K, V>(a: Dict<K, V>)
    ensures Union(a, Empty()) == a
  {
    assert Items(Empty<K, V>()) == [];
  }
}
