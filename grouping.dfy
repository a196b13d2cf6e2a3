/** Grouping a sequence into a dict of lists, the way a loop of
    `groups.setdefault(key(x), []).append(x)` does it: groups appear in the
    order their keys first occur, and each group keeps the order of the
    sequence. Computing a key may fail, which ends the loop. */
module Grouping {
  import opened Wrappers
  import opened OrderedMaps

  /** `groups.setdefault(k, []).append(x)`. */
  function Append<K, T>(groups: Dict<K, seq<T>>, k: K, x: T): Dict<K, seq<T>> {
    Put(groups, k, if k in groups.entries then groups.entries[k] + [x] else [x])
  }

  /** The loop over `xs` in order: the first element whose key cannot be
      computed ends it with that error. */
  function GroupBy<T, K, E>(xs: seq<T>, key: T -> Result<K, E>): Result<Dict<K, seq<T>>, E>
    decreases |xs|
  {
    if xs == [] then Success(Empty())
    else
      match GroupBy(xs[..|xs| - 1], key)
      case Failure(e) => Failure(e)
      case Success(groups) =>
        var x := xs[|xs| - 1];
        match key(x)
        case Failure(e) => Failure(e)
        case Success(k) => Success(Append(groups, k, x))
  }

  /** The elements of `xs` whose key is `k`, in order. */
  function Where<T(==), K(==), E>(xs: seq<T>, key: T -> Result<K, E>, k: K): (r: seq<T>)
    ensures forall x :: x in r ==> x in xs && key(x) == Success(k)
    ensures forall x :: x in xs && key(x) == Success(k) ==> x in r
    decreases |xs|
  {
    if xs == [] then []
    else
      var x := xs[|xs| - 1];
      Where(xs[..|xs| - 1], key, k) + (if key(x) == Success(k) then [x] else [])
  }

  predicate AllKeyed<T, K, E>(xs: seq<T>, key: T -> Result<K, E>) {
    forall i :: 0 <= i < |xs| ==> key(xs[i]).Success?
  }

  lemma AllKeyedSnoc<T, K, E>(xs: seq<T>, key: T -> Result<K, E>)
    requires xs != [] && AllKeyed(xs[..|xs| - 1], key) && key(xs[|xs| - 1]).Success?
    ensures AllKeyed(xs, key)
  {
    forall i | 0 <= i < |xs| ensures key(xs[i]).Success? {
      if i < |xs| - 1 {
        assert xs[i] == xs[..|xs| - 1][i];
      }
    }
  }

  /** The key of every element, in order. */
  function KeySeq<T, K, E>(xs: seq<T>, key: T -> Result<K, E>): (ks: seq<K>)
    requires AllKeyed(xs, key)
    ensures |ks| == |xs|
  {
    seq(|xs|, i requires 0 <= i < |xs| => key(xs[i]).value)
  }

  lemma KeySeqSnoc<T, K, E>(xs: seq<T>, key: T -> Result<K, E>)
    requires xs != [] && AllKeyed(xs, key)
    ensures AllKeyed(xs[..|xs| - 1], key)
    ensures KeySeq(xs, key) == KeySeq(xs[..|xs| - 1], key) + [key(xs[|xs| - 1]).value]
  {
    var prefix := xs[..|xs| - 1];
    assert forall i :: 0 <= i < |prefix| ==> prefix[i] == xs[i];
  }

  /** The groups one after another, in the order of `ks`. */
  function Concat<K, T>(ks: seq<K>, groups: map<K, seq<T>>): seq<T>
    requires forall k :: k in ks ==> k in groups
    decreases |ks|
  {
    if ks == [] then []
    else Concat(ks[..|ks| - 1], groups) + groups[ks[|ks| - 1]]
  }

  /** Every element of a dict of lists, group after group. */
  function Flatten<K, T>(groups: Dict<K, seq<T>>): seq<T> {
    Concat(groups.keys, groups.entries)
  }

  /** What a successful loop is built from: the groups of all elements but
      the last, and the last element's key. */
  lemma GroupByStep<T, K, E>(xs: seq<T>, key: T -> Result<K, E>, groups: Dict<K, seq<T>>)
    requires xs != [] && GroupBy(xs, key) == Success(groups)
    ensures GroupBy(xs[..|xs| - 1], key).Success?
    ensures key(xs[|xs| - 1]).Success?
    ensures groups == Append(GroupBy(xs[..|xs| - 1], key).value, key(xs[|xs| - 1]).value, xs[|xs| - 1])
  {
  }

  /** One more turn of the loop over a successful prefix. */
  lemma GroupByExtend<T, K, E>(xs: seq<T>, key: T -> Result<K, E>, n: nat, groups: Dict<K, seq<T>>)
    requires n < |xs| && GroupBy(xs[..n], key) == Success(groups)
    ensures GroupBy(xs[..n + 1], key) ==
              match key(xs[n])
              case Failure(e) => Failure(e)
              case Success(k) => Success(Append(groups, k, xs[n]))
  {
    assert xs[..n + 1][..n] == xs[..n];
  }

  /** Once a prefix fails, the whole loop fails the same way. */
  lemma {:induction false} FailureExtends<T, K, E>(xs: seq<T>, key: T -> Result<K, E>, n: nat)
    requires n <= |xs|
    requires GroupBy(xs[..n], key).Failure?
    ensures GroupBy(xs, key) == GroupBy(xs[..n], key)
    decreases |xs|
  {
    if n < |xs| {
      var prefix := xs[..|xs| - 1];
      assert prefix[..n] == xs[..n];
      FailureExtends(prefix, key, n);
    } else {
      assert xs[..n] == xs;
    }
  }

  /** A successful loop computed every key, and each group holds exactly the
      elements with its key, in order; a key is present exactly when some
      element has it. */
  lemma {:induction false} GroupByGroups<T, K, E>(xs: seq<T>, key: T -> Result<K, E>, groups: Dict<K, seq<T>>)
    requires GroupBy(xs, key) == Success(groups)
    ensures AllKeyed(xs, key)
    ensures forall k :: k in groups.entries <==> Where(xs, key, k) != []
    ensures forall k :: k in groups.entries ==> groups.entries[k] == Where(xs, key, k)
    decreases |xs|
  {
    if xs != [] {
      var prefix := xs[..|xs| - 1];
      GroupByStep(xs, key, groups);
      GroupByGroups(prefix, key, GroupBy(prefix, key).value);
      AllKeyedSnoc(xs, key);
    }
  }

  /** The keys of a successful loop appear in the order they first occur. */
  lemma {:induction false} GroupByOrder<T, K, E>(xs: seq<T>, key: T -> Result<K, E>, groups: Dict<K, seq<T>>)
    requires GroupBy(xs, key) == Success(groups)
    ensures AllKeyed(xs, key)
    ensures groups.keys == FirstOccurrences(KeySeq(xs, key), {})
    decreases |xs|
  {
    if xs != [] {
      var prefix := xs[..|xs| - 1];
      GroupByStep(xs, key, groups);
      var g := GroupBy(prefix, key).value;
      var k := key(xs[|xs| - 1]).value;
      GroupByOrder(prefix, key, g);
      AllKeyedSnoc(xs, key);
      KeySeqSnoc(xs, key);
      FirstOccurrencesSnoc(KeySeq(prefix, key), k, {});
    }
  }

  /** Replacing the group of a key not in `ks` leaves the concatenation alone. */
  lemma {:induction false} ConcatOther<K, T>(ks: seq<K>, groups: map<K, seq<T>>, k: K, x: seq<T>)
    requires forall j :: j in ks ==> j in groups
    requires k !in ks
    ensures Concat(ks, groups[k := x]) == Concat(ks, groups)
    decreases |ks|
  {
    if ks != [] {
      ConcatOther(ks[..|ks| - 1], groups, k, x);
    }
  }

  /** Appending an element to the group of one of the keys adds it, once, to
      the concatenation. */
  lemma {:induction false} ConcatAppend<K, T>(ks: seq<K>, groups: map<K, seq<T>>, k: K, x: T)
    requires forall j :: j in ks ==> j in groups
    requires Distinct(ks) && k in ks
    ensures multiset(Concat(ks, groups[k := groups[k] + [x]])) == multiset(Concat(ks, groups)) + multiset{x}
    decreases |ks|
  {
    var prefix, last := ks[..|ks| - 1], ks[|ks| - 1];
    if last == k {
      assert k !in prefix;
      ConcatOther(prefix, groups, k, groups[k] + [x]);
    } else {
      ConcatAppend(prefix, groups, k, x);
    }
  }

  lemma MultisetSnoc<T>(xs: seq<T>)
    requires xs != []
    ensures multiset(xs) == multiset(xs[..|xs| - 1]) + multiset{xs[|xs| - 1]}
  {
    assert xs == xs[..|xs| - 1] + [xs[|xs| - 1]];
  }

  /** `setdefault(k, []).append(x)` adds `x`, once, to the elements of the dict. */
  lemma FlattenAppend<K, T>(groups: Dict<K, seq<T>>, k: K, x: T)
    ensures multiset(Flatten(Append(groups, k, x))) == multiset(Flatten(groups)) + multiset{x}
  {
    var r := Append(groups, k, x);
    if k in groups.entries {
      ConcatAppend(groups.keys, groups.entries, k, x);
    } else {
      assert k !in groups.keys;
      ConcatOther(groups.keys, groups.entries, k, [x]);
      assert r.keys[..|r.keys| - 1] == groups.keys;
    }
  }

  /** Every element of a successful loop is in exactly one group: the groups
      together are a permutation of the sequence. */
  lemma {:induction false} GroupByPartition<T, K, E>(xs: seq<T>, key: T -> Result<K, E>, groups: Dict<K, seq<T>>)
    requires GroupBy(xs, key) == Success(groups)
    ensures multiset(Flatten(groups)) == multiset(xs)
    decreases |xs|
  {
    if xs != [] {
      var prefix, x := xs[..|xs| - 1], xs[|xs| - 1];
      GroupByStep(xs, key, groups);
      var g := GroupBy(prefix, key).value;
      GroupByPartition(prefix, key, g);
      FlattenAppend(g, key(x).value, x);
      MultisetSnoc(xs);
    }
  }

  /** The loop fails exactly when some element's key cannot be computed. */
  lemma {:induction false} GroupByFails<T, K, E>(xs: seq<T>, key: T -> Result<K, E>)
    ensures GroupBy(xs, key).Failure? <==> !AllKeyed(xs, key)
    decreases |xs|
  {
    if xs != [] {
      var prefix := xs[..|xs| - 1];
      GroupByFails(prefix, key);
      if GroupBy(prefix, key).Success? && key(xs[|xs| - 1]).Success? {
        AllKeyedSnoc(xs, key);
      }
    }
  }

  /** A failing loop reports the error of the first element whose key cannot
      be computed. */
  lemma {:induction false} GroupByFirstError<T, K, E>(xs: seq<T>, key: T -> Result<K, E>)
    requires GroupBy(xs, key).Failure?
    ensures exists i :: 0 <= i < |xs| && key(xs[i]) == Failure(GroupBy(xs, key).error)
                        && AllKeyed(xs[..i], key)
    decreases |xs|
  {
    var prefix := xs[..|xs| - 1];
    if GroupBy(prefix, key).Failure? {
      GroupByFirstError(prefix, key);
      var i :| 0 <= i < |prefix| && key(prefix[i]) == Failure(GroupBy(prefix, key).error)
               && AllKeyed(prefix[..i], key);
      assert prefix[..i] == xs[..i];
    } else {
      GroupByFails(prefix, key);
      assert prefix == xs[..|xs| - 1];
    }
  }
}
