/** The bounded key set of bounded_keys.go: a FIFO set that forgets its oldest key when a
    new one arrives at capacity. */
module BoundedKeys {
  import opened Wrappers

  /** A FIFO set, oldest key first. */
  function Insert<K(==)>(order: seq<K>, key: K, max: nat): seq<K>
    requires max >= 1
  {
    if key in order then order
    else (if |order| >= max then order[1..] else order) + [key]
  }

  function Without<K(==)>(order: seq<K>, key: K): seq<K> {
    if order == [] then []
    else if order[0] == key then order[1..]
    else [order[0]] + Without(order[1..], key)
  }

  class BoundedKeySet<K(==)> {
    const max: nat
    var keys: set<K>
    var order: seq<K>

    ghost predicate Valid()
      reads this
    {
      && 1 <= max
      && |order| <= max
      && Distinct(order)
      && keys == set k | k in order
    }

    constructor (max: nat)
      requires max >= 1
      ensures Valid() && this.max == max && order == []
    {
      this.max := max;
      keys, order := {}, [];
    }

    method Add(key: K) returns (added: bool)
      requires Valid()
      modifies this
      ensures Valid() && order == Insert(old(order), key, max) && added == (key !in old(order))
    {
      if key in keys {
        return false;
      }
      if |order| >= max {
        keys := keys - {order[0]};
        order := order[1..];
      }
      keys := keys + {key};
      order := order + [key];
      return true;
    }

    method Delete(key: K)
      requires Valid()
      modifies this
      ensures Valid() && order == Without(old(order), key) && key !in order
    {
      WithoutIsRemoval(order, key);
      if key !in keys {
        return;
      }
      keys := keys - {key};
      for i := 0 to |order|
        invariant order == old(order) && keys == old(keys) - {key}
        invariant key !in order[..i]
      {
        if order[i] == key {
          WithoutAt(order, key, i);
          order := order[..i] + order[i + 1..];
          return;
        }
      }
    }
  }

  lemma {:induction false} WithoutAt<K>(order: seq<K>, key: K, i: nat)
    requires i < |order| && order[i] == key && key !in order[..i]
    ensures Without(order, key) == order[..i] + order[i + 1..]
  {
    if i > 0 {
      assert order[0] in order[..i];
      assert order[..i] == [order[0]] + order[1..][..i - 1];
      WithoutAt(order[1..], key, i - 1);
    }
  }

  /** Deleting removes that key, keeps all others, and keeps their order. */
  lemma {:induction false} WithoutIsRemoval<K>(order: seq<K>, key: K)
    requires Distinct(order)
    ensures Distinct(Without(order, key)) && |Without(order, key)| <= |order|
    ensures forall x :: x in Without(order, key) <==> x in order && x != key
    ensures key !in order ==> Without(order, key) == order
  {
    if order != [] {
      var rest := order[1..];
      assert order == [order[0]] + rest;
      assert order[0] !in rest;
      WithoutIsRemoval(rest, key);
      assert order[0] !in Without(rest, key);
    }
  }

  // ----- Histories of adds -----

  /** The set after adding `ops` in turn, and the keys that were newly added, in order. */
  function Adds<K(==)>(max: nat, ops: seq<K>): (seq<K>, seq<K>)
    requires max >= 1
  {
    if ops == [] then ([], [])
    else
      var (order, fresh') := Adds(max, ops[..|ops| - 1]);
      var key := ops[|ops| - 1];
      (Insert(order, key, max), if key in order then fresh' else fresh' + [key])
  }

  function Min(a: nat, b: nat): nat {
    if a < b then a else b
  }

  /** The last min(max, n) of the n keys of a log. */
  function Newest<K>(log: seq<K>, max: nat): seq<K> {
    log[|log| - Min(max, |log|)..]
  }

  ghost predicate FarApart<K>(log: seq<K>, max: nat) {
    forall i, j :: 0 <= i < j < |log| && log[i] == log[j] ==> j - i > max
  }

  lemma NewestNext<K>(log: seq<K>, key: K, max: nat)
    requires max >= 1 && key !in Newest(log, max)
    ensures Newest(log + [key], max) == Insert(Newest(log, max), key, max)
  {
  }

  lemma FarApartNext<K>(log: seq<K>, key: K, max: nat)
    requires FarApart(log, max) && key !in Newest(log, max)
    ensures FarApart(log + [key], max)
  {
    var oldest := |log| - Min(max, |log|);
    assert forall i :: oldest <= i < |log| ==> log[i] == Newest(log, max)[i - oldest];
  }

  /** Without deletes the set holds exactly the last min(max, n) of the n keys that were
      newly added, and a key can come back only after max others have been added. */
  lemma {:induction false} HoldsTheNewest<K>(max: nat, ops: seq<K>)
    requires max >= 1
    ensures Adds(max, ops).0 == Newest(Adds(max, ops).1, max) && FarApart(Adds(max, ops).1, max)
  {
    hide Newest, FarApart, Insert;
    if ops == [] {
      NothingHeld<K>(max);
    } else {
      var front, key := ops[..|ops| - 1], ops[|ops| - 1];
      HoldsTheNewest(max, front);
      var (order, log) := Adds(max, front);
      if key in order {
        assert Insert(order, key, max) == order by { KnownKeyInserted(order, key, max); }
      } else {
        NewestNext(log, key, max);
        FarApartNext(log, key, max);
      }
    }
  }

  lemma NothingHeld<K>(max: nat)
    ensures Newest<K>([], max) == [] && FarApart<K>([], max)
  {
  }

  lemma KnownKeyInserted<K>(order: seq<K>, key: K, max: nat)
    requires max >= 1 && key in order
    ensures Insert(order, key, max) == order
  {
  }

  lemma {:induction false} DistinctCount<K>(xs: seq<K>)
    requires Distinct(xs)
    ensures |set x | x in xs| == |xs|
  {
    if xs == [] {
      assert (set x | x in xs) == {};
    } else {
      var n := |xs| - 1;
      DistinctCount(xs[..n]);
      assert xs == xs[..n] + [xs[n]];
      assert (set x | x in xs) == (set x | x in xs[..n]) + {xs[n]};
      assert xs[n] !in xs[..n];
    }
  }

  lemma {:induction false} NewKeyIsAdded<K>(max: nat, ops: seq<K>, key: K)
    requires max >= 1
    ensures key in Adds(max, ops).1 <==> key in ops
  {
    if ops != [] {
      var front, last := ops[..|ops| - 1], ops[|ops| - 1];
      NewKeyIsAdded(max, front, key);
      NewKeyIsAdded(max, front, last);
      HeldWasAdded(max, front, last);
      assert ops == front + [last];
    }
  }

  lemma HeldWasAdded<K>(max: nat, ops: seq<K>, key: K)
    requires max >= 1
    ensures key in Adds(max, ops).0 ==> key in Adds(max, ops).1
  {
    HoldsTheNewest(max, ops);
  }

  lemma NewKeysAreAdded<K>(max: nat, ops: seq<K>)
    requires max >= 1
    ensures forall k :: k in Adds(max, ops).1 ==> k in ops
    ensures forall k :: k in ops ==> k in Adds(max, ops).1
  {
    forall k: K
      ensures k in Adds(max, ops).1 <==> k in ops
    {
      NewKeyIsAdded(max, ops, k);
    }
  }

  /** No eviction, no repetition: with at most max distinct keys none is added twice. */
  lemma FewKeysAddedOnce<K>(max: nat, ops: seq<K>)
    requires max >= 1 && |set k | k in ops| <= max
    ensures Distinct(Adds(max, ops).1)
  {
    hide Adds;
    var log := Adds(max, ops).1;
    HoldsTheNewest(max, ops);
    NewKeysAreAdded(max, ops);
    if i, j :| 0 <= i < j < |log| && log[i] == log[j] {
      WindowNeedsKeys(log, ops, max, i);
    }
  }

  /** A window of max + 1 keys that do not repeat needs more than max of them. */
  lemma WindowNeedsKeys<K>(log: seq<K>, ops: seq<K>, max: nat, i: nat)
    requires i + max < |log| && forall k :: k in log ==> k in ops
    requires forall a, b :: 0 <= a < b < |log| && log[a] == log[b] ==> b - a > max
    ensures |set k | k in ops| > max
  {
    var window := log[i..i + max + 1];
    assert forall a :: 0 <= a < |window| ==> window[a] == log[i + a];
    DistinctCount(window);
    SubsetSize(set x | x in window, set k | k in ops);
  }

  lemma {:induction false} DistinctAllNew<K>(max: nat, ks: seq<K>)
    requires max >= 1 && Distinct(ks)
    ensures Adds(max, ks).1 == ks
  {
    if ks != [] {
      var n := |ks| - 1;
      DistinctAllNew(max, ks[..n]);
      HoldsTheNewest(max, ks[..n]);
      assert ks[n] !in ks[..n];
      assert ks == ks[..n] + [ks[n]];
    }
  }

  /** Past the capacity the guarantee is lost: max + 1 distinct keys and then the first one
      again add that key a second time. */
  lemma EvictedKeyComesBack<K>(max: nat, ks: seq<K>)
    requires max >= 1 && Distinct(ks) && |ks| > max
    ensures Adds(max, ks + [ks[0]]).1 == ks + [ks[0]]
  {
    DistinctAllNew(max, ks);
    HoldsTheNewest(max, ks);
    assert (ks + [ks[0]])[..|ks|] == ks;
  }

  lemma {:induction false} Enumerate<K>(s: set<K>) returns (xs: seq<K>)
    ensures Distinct(xs) && |xs| == |s| && forall x :: x in xs <==> x in s
    decreases |s|
  {
    if s == {} {
      xs := [];
    } else {
      var x :| x in s;
      xs := Enumerate(s - {x});
      xs := xs + [x];
    }
  }

  /** Exactly: no order of adds over the keys K ever adds a key twice if and only if K fits
      the capacity. */
  lemma AddedOnceExactlyWithinCapacity<K(!new)>(max: nat, K: set<K>)
    requires max >= 1
    ensures (forall ops: seq<K> :: (forall k :: k in ops ==> k in K) ==> Distinct(Adds(max, ops).1)) <==> |K| <= max
  {
    if |K| <= max {
      forall ops: seq<K> | forall k :: k in ops ==> k in K
        ensures Distinct(Adds(max, ops).1)
      {
        var used := set k | k in ops;
        SubsetSize(used, K);
        FewKeysAddedOnce(max, ops);
      }
    } else {
      var ks := Enumerate(K);
      var ops := ks + [ks[0]];
      EvictedKeyComesBack(max, ks);
      assert ops[0] == ops[|ks|];
      assert forall k :: k in ops ==> k in K;
      assert !Distinct(Adds(max, ops).1);
    }
  }
}
