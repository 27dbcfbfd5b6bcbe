/**
 * The array-backed collections of `Plottable.Utils`: the associative array
 * keyed by strict (reference) equality, the `Set` shim for ES6 sets, and the
 * `CallbackSet` built on it.
 */
module Collections {
  import opened Wrappers
  import opened Utils

  // ---------------------------------------------------------------------------
  // StrictEqualityAssociativeArray
  // ---------------------------------------------------------------------------

  /** No key occurs in two pairs. */
  ghost predicate DistinctKeys<K, V>(pairs: seq<(K, V)>) {
    forall i, j :: 0 <= i < j < |pairs| ==> pairs[i].0 != pairs[j].0
  }

  /** The map that a list of pairs with distinct keys stands for. */
  ghost function PairMap<K, V>(pairs: seq<(K, V)>): map<K, V>
    requires DistinctKeys(pairs)
  {
    map i | 0 <= i < |pairs| :: pairs[i].0 := pairs[i].1
  }

  /** The keys of a list of pairs, in order. */
  function KeysOf<K, V>(pairs: seq<(K, V)>): (ks: seq<K>)
    ensures |ks| == |pairs|
    ensures forall i :: 0 <= i < |pairs| ==> ks[i] == pairs[i].0
  {
    seq(|pairs|, i requires 0 <= i < |pairs| => pairs[i].0)
  }

  /** Overwriting a value in place keeps every key where it is. */
  lemma UpdateKeepsKeys<K, V>(pairs: seq<(K, V)>, i: nat, value: V)
    requires DistinctKeys(pairs) && i < |pairs|
    ensures forall j :: 0 <= j < |pairs| ==> pairs[i := (pairs[i].0, value)][j].0 == pairs[j].0
    ensures DistinctKeys(pairs[i := (pairs[i].0, value)])
    ensures KeysOf(pairs[i := (pairs[i].0, value)]) == KeysOf(pairs)
  {
  }

  /** After an in-place overwrite a key is stored with its old value, or with the new one at i. */
  lemma UpdateValueAt<K, V>(pairs: seq<(K, V)>, i: nat, value: V, k: K)
    requires DistinctKeys(pairs) && i < |pairs| && DistinctKeys(pairs[i := (pairs[i].0, value)])
    ensures k in PairMap(pairs[i := (pairs[i].0, value)]) <==> k in PairMap(pairs)
    ensures k in PairMap(pairs) ==>
      PairMap(pairs[i := (pairs[i].0, value)])[k] == if k == pairs[i].0 then value else PairMap(pairs)[k]
  {
    var after := pairs[i := (pairs[i].0, value)];
    if k in PairMap(pairs) {
      var j :| 0 <= j < |pairs| && pairs[j].0 == k;
      assert after[j].0 == k;
    }
    if k in PairMap(after) {
      var j :| 0 <= j < |after| && after[j].0 == k;
      assert pairs[j].0 == k;
    }
  }

  /** Overwriting the value of one pair in place updates the map at its key. */
  lemma PairMapUpdate<K, V>(pairs: seq<(K, V)>, i: nat, value: V)
    requires DistinctKeys(pairs) && i < |pairs|
    ensures DistinctKeys(pairs[i := (pairs[i].0, value)])
    ensures PairMap(pairs[i := (pairs[i].0, value)]) == PairMap(pairs)[pairs[i].0 := value]
    ensures KeysOf(pairs[i := (pairs[i].0, value)]) == KeysOf(pairs)
  {
    UpdateKeepsKeys(pairs, i, value);
    assert pairs[i].0 in PairMap(pairs);
    var m, m' := PairMap(pairs)[pairs[i].0 := value], PairMap(pairs[i := (pairs[i].0, value)]);
    forall k ensures k in m' <==> k in m {
      UpdateValueAt(pairs, i, value, k);
    }
    forall k | k in m' ensures m'[k] == m[k] {
      UpdateValueAt(pairs, i, value, k);
    }
  }

  /** Appending a pair with a new key keeps the keys distinct. */
  lemma AppendKeepsDistinctKeys<K, V>(pairs: seq<(K, V)>, key: K, value: V)
    requires DistinctKeys(pairs) && key !in PairMap(pairs)
    ensures DistinctKeys(pairs + [(key, value)])
  {
    forall j | 0 <= j < |pairs| ensures pairs[j].0 != key {
      assert pairs[j].0 in PairMap(pairs);
    }
  }

  /** Appending a pair with a new key adds that key to the map. */
  lemma PairMapAppend<K, V>(pairs: seq<(K, V)>, key: K, value: V)
    requires DistinctKeys(pairs) && key !in PairMap(pairs)
    ensures DistinctKeys(pairs + [(key, value)])
    ensures PairMap(pairs + [(key, value)]) == PairMap(pairs)[key := value]
    ensures KeysOf(pairs + [(key, value)]) == KeysOf(pairs) + [key]
  {
    AppendKeepsDistinctKeys(pairs, key, value);
    var after := pairs + [(key, value)];
    assert forall j :: 0 <= j < |pairs| ==> after[j] == pairs[j];
    assert after[|pairs|] == (key, value);
    var m, m' := PairMap(pairs)[key := value], PairMap(after);
    forall k ensures k in m' <==> k in m {
      if k in m && k != key {
        var j :| 0 <= j < |pairs| && pairs[j].0 == k;
        assert after[j].0 == k;
      }
    }
    forall k | k in m' ensures m'[k] == m[k] {
      var j :| 0 <= j < |after| && after[j].0 == k;
    }
  }

  /** Index `j` of a list with element `i` cut out is index `j` or `j + 1` of the list. */
  lemma CutIndex<T>(s: seq<T>, i: nat, j: nat)
    requires i < |s| && j < |s| - 1
    ensures (s[..i] + s[i + 1..])[j] == s[if j < i then j else j + 1]
  {
  }

  /** Cutting one pair out keeps the keys distinct. */
  lemma CutKeepsDistinctKeys<K, V>(pairs: seq<(K, V)>, i: nat)
    requires DistinctKeys(pairs) && i < |pairs|
    ensures DistinctKeys(pairs[..i] + pairs[i + 1..])
  {
    var after := pairs[..i] + pairs[i + 1..];
    forall a, b | 0 <= a < b < |after| ensures after[a].0 != after[b].0 {
      CutIndex(pairs, i, a);
      CutIndex(pairs, i, b);
    }
  }

  /** A key other than the cut one is stored after the cut iff it was stored before. */
  lemma CutKeepsKey<K, V>(pairs: seq<(K, V)>, i: nat, k: K)
    requires DistinctKeys(pairs) && i < |pairs| && DistinctKeys(pairs[..i] + pairs[i + 1..])
    ensures k in PairMap(pairs[..i] + pairs[i + 1..]) <==> k in PairMap(pairs) && k != pairs[i].0
  {
    var after := pairs[..i] + pairs[i + 1..];
    if k in PairMap(pairs) && k != pairs[i].0 {
      var j :| 0 <= j < |pairs| && pairs[j].0 == k;
      CutIndex(pairs, i, if j < i then j else j - 1);
      assert after[if j < i then j else j - 1].0 == k;
    }
    if k in PairMap(after) {
      var j :| 0 <= j < |after| && after[j].0 == k;
      CutIndex(pairs, i, j);
      assert pairs[if j < i then j else j + 1].0 == k;
    }
  }

  /** A key stored after the cut keeps its value. */
  lemma CutKeepsValue<K, V>(pairs: seq<(K, V)>, i: nat, k: K)
    requires DistinctKeys(pairs) && i < |pairs| && DistinctKeys(pairs[..i] + pairs[i + 1..])
    requires k in PairMap(pairs[..i] + pairs[i + 1..]) && k in PairMap(pairs)
    ensures PairMap(pairs[..i] + pairs[i + 1..])[k] == PairMap(pairs)[k]
  {
    var after := pairs[..i] + pairs[i + 1..];
    var j :| 0 <= j < |after| && after[j].0 == k;
    CutIndex(pairs, i, j);
  }

  /** Cutting one pair out removes its key from the map. */
  lemma PairMapRemove<K, V>(pairs: seq<(K, V)>, i: nat)
    requires DistinctKeys(pairs) && i < |pairs|
    ensures DistinctKeys(pairs[..i] + pairs[i + 1..])
    ensures PairMap(pairs[..i] + pairs[i + 1..]) == PairMap(pairs) - {pairs[i].0}
  {
    CutKeepsDistinctKeys(pairs, i);
    var m, m' := PairMap(pairs) - {pairs[i].0}, PairMap(pairs[..i] + pairs[i + 1..]);
    forall k ensures k in m' <==> k in m {
      CutKeepsKey(pairs, i, k);
    }
    forall k | k in m' ensures m'[k] == m[k] {
      CutKeepsKey(pairs, i, k);
      CutKeepsValue(pairs, i, k);
    }
  }

  /** Cutting one pair out removes the first occurrence of its key from the key list. */
  lemma KeysOfRemove<K, V>(pairs: seq<(K, V)>, i: nat)
    requires DistinctKeys(pairs) && i < |pairs|
    ensures KeysOf(pairs[..i] + pairs[i + 1..]) == RemoveFirst(KeysOf(pairs), pairs[i].0)
  {
    var ks := KeysOf(pairs);
    var after := pairs[..i] + pairs[i + 1..];
    assert ks[i] == pairs[i].0;
    assert IndexOf(ks, pairs[i].0) == i;
    forall j | 0 <= j < |after| ensures KeysOf(after)[j] == (ks[..i] + ks[i + 1..])[j] {
      CutIndex(pairs, i, j);
      CutIndex(ks, i, j);
    }
  }

  /**
   * An associative array keyed by anything, compared with `===`. It is
   * backed by an array of key/value pairs, so every operation is a linear scan.
   */
  class StrictEqualityAssociativeArray<K(==), V> {
    var keyValuePairs: seq<(K, V)>

    /** No key is stored twice. */
    ghost predicate Valid()
      reads this
    {
      DistinctKeys(keyValuePairs)
    }

    /** The store as a map from keys to values. */
    ghost function Store(): map<K, V>
      reads this
      requires Valid()
    {
      PairMap(keyValuePairs)
    }

    constructor ()
      ensures Valid() && keyValuePairs == [] && Store() == map[]
    {
      keyValuePairs := [];
    }

    /** The position of `key` among the pairs, or -1. */
    method Find(key: K) returns (index: int)
      requires Valid()
      ensures -1 <= index < |keyValuePairs|
      ensures index == -1 <==> key !in Store()
      ensures 0 <= index ==> keyValuePairs[index].0 == key
    {
      index := 0;
      while index < |keyValuePairs|
        invariant 0 <= index <= |keyValuePairs|
        invariant forall j :: 0 <= j < index ==> keyValuePairs[j].0 != key
      {
        if keyValuePairs[index].0 == key {
          return;
        }
        index := index + 1;
      }
      index := -1;
    }

    /**
     * `set(key, value)`: stores the pair, overwriting the value of a stored key
     * in place; answers whether the key was already in the store.
     */
    method Set(key: K, value: V) returns (existed: bool)
      requires Valid()
      modifies this
      ensures Valid()
      ensures existed <==> key in old(Store())
      ensures Store() == old(Store())[key := value]
      ensures Keys() == if existed then old(Keys()) else old(Keys()) + [key]
    {
      var i := Find(key);
      existed := i >= 0;
      if existed {
        PairMapUpdate(keyValuePairs, i, value);
        keyValuePairs := keyValuePairs[i := (key, value)];
      } else {
        PairMapAppend(keyValuePairs, key, value);
        keyValuePairs := keyValuePairs + [(key, value)];
      }
    }

    /** `get(key)`: the stored value, or undefined (None) when the key is absent. */
    method Get(key: K) returns (r: Option<V>)
      requires Valid()
      ensures r == if key in Store() then Some(Store()[key]) else None
    {
      var i := Find(key);
      if i < 0 {
        r := None;
      } else {
        r := Some(keyValuePairs[i].1);
      }
    }

    /** `has(key)`: whether an entry exists for the key, whatever its value. */
    method Has(key: K) returns (r: bool)
      requires Valid()
      ensures r <==> key in Store()
    {
      var i := Find(key);
      r := i >= 0;
    }

    /** `keys()`: the stored keys, in insertion order. */
    function Keys(): (ks: seq<K>)
      reads this
      requires Valid()
      ensures Distinct(ks)
      ensures |ks| == |keyValuePairs|
      ensures forall i :: 0 <= i < |ks| ==> ks[i] in Store() && Store()[ks[i]] == keyValuePairs[i].1
    {
      KeysOf(keyValuePairs)
    }

    /** A key is listed by `keys()` exactly when the store has an entry for it. */
    lemma KeysAreStored(key: K)
      requires Valid()
      ensures key in Keys() <==> key in Store()
    {
      if key in Store() {
        var i :| 0 <= i < |keyValuePairs| && keyValuePairs[i].0 == key;
        assert Keys()[i] == key;
      }
    }

    /** `values()`: the stored values, in the order of their keys. */
    function Values(): (vs: seq<V>)
      reads this
      requires Valid()
      ensures |vs| == |Keys()|
      ensures forall i :: 0 <= i < |vs| ==> Store()[Keys()[i]] == vs[i]
    {
      seq(|keyValuePairs|, i requires 0 <= i < |keyValuePairs| reads this => keyValuePairs[i].1)
    }

    /** `map(cb)`: the callback applied to every entry with its index, in entry order. */
    function MapEntries<U>(cb: (K, V, nat) -> U): (rs: seq<U>)
      reads this
      requires Valid()
      ensures |rs| == |Keys()|
      ensures forall i :: 0 <= i < |rs| ==> rs[i] == cb(Keys()[i], Values()[i], i)
    {
      seq(|keyValuePairs|, i requires 0 <= i < |keyValuePairs| reads this => cb(keyValuePairs[i].0, keyValuePairs[i].1, i))
    }

    /**
     * `delete(key)`: removes the entry of the key, keeping the order of the
     * others; answers whether there was one.
     */
    method Delete(key: K) returns (found: bool)
      requires Valid()
      modifies this
      ensures Valid()
      ensures found <==> key in old(Store())
      ensures Store() == old(Store()) - {key}
      ensures Keys() == RemoveFirst(old(Keys()), key)
    {
      var i := Find(key);
      found := i >= 0;
      if found {
        PairMapRemove(keyValuePairs, i);
        KeysOfRemove(keyValuePairs, i);
        keyValuePairs := keyValuePairs[..i] + keyValuePairs[i + 1..];
      } else {
        assert key !in Keys();
      }
    }
  }

  // ---------------------------------------------------------------------------
  // Set
  // ---------------------------------------------------------------------------

  /** The array-backed shim for ES6 `Set`: distinct values in insertion order. */
  class Set<T(==)> {
    var values: seq<T>

    ghost predicate Valid()
      reads this
    {
      Distinct(values)
    }

    constructor ()
      ensures Valid() && values == []
    {
      values := [];
    }

    /** `add(value)`: appends the value unless it is already present. */
    method Add(value: T)
      requires Valid()
      modifies this
      ensures Valid()
      ensures values == if value in old(values) then old(values) else old(values) + [value]
    {
      if IndexOf(values, value) == -1 {
        values := values + [value];
      }
    }

    /** `delete(value)`: removes the value, keeping the order of the rest; answers whether it was present. */
    method Delete(value: T) returns (found: bool)
      requires Valid()
      modifies this
      ensures Valid()
      ensures found <==> value in old(values)
      ensures values == RemoveFirst(old(values), value)
      ensures value !in values
    {
      var index := IndexOf(values, value);
      found := index != -1;
      RemoveFirstDistinct(values, value);
      if found {
        values := values[..index] + values[index + 1..];
      }
    }

    /** `values()`: the values in insertion order. */
    function Values(): (vs: seq<T>)
      reads this
      requires Valid()
      ensures Distinct(vs)
    {
      values
    }
  }

  // ---------------------------------------------------------------------------
  // CallbackSet
  // ---------------------------------------------------------------------------

  /** A callback, identified by reference. */
  class Callback {
  }

  /** The record of callback calls: each callback called, with its arguments, in call order. */
  class CallLog<A> {
    var calls: seq<(Callback, A)>

    constructor ()
      ensures calls == []
    {
      calls := [];
    }

    /** Calls cb with args, which the log records. */
    method Call(cb: Callback, args: A)
      modifies this
      ensures calls == old(calls) + [(cb, args)]
    {
      calls := calls + [(cb, args)];
    }
  }

  /** The calls that calling each of cbs once with args, in order, makes. */
  function CallsOf<A>(cbs: seq<Callback>, args: A): (r: seq<(Callback, A)>)
    ensures |r| == |cbs|
    ensures forall i :: 0 <= i < |r| ==> r[i] == (cbs[i], args)
  {
    if cbs == [] then [] else [(cbs[0], args)] + CallsOf(cbs[1..], args)
  }

  /** Calling a set of callbacks calls each one exactly once, and no other callback. */
  lemma {:induction false} CallsOnceEach<A>(cbs: seq<Callback>, args: A, cb: Callback)
    requires Distinct(cbs)
    ensures multiset(CallsOf(cbs, args))[(cb, args)] == if cb in cbs then 1 else 0
    ensures forall a: A :: a != args ==> multiset(CallsOf(cbs, args))[(cb, a)] == 0
    decreases |cbs|
  {
    if cbs != [] {
      assert Distinct(cbs[1..]);
      CallsOnceEach(cbs[1..], args, cb);
      assert CallsOf(cbs, args) == [(cbs[0], args)] + CallsOf(cbs[1..], args);
      assert cb in cbs <==> cb == cbs[0] || cb in cbs[1..];
      if cb == cbs[0] {
        assert cb !in cbs[1..];
      }
    }
  }

  /**
   * `callCallbacks(...args)` on a `CallbackSet` (a `Set` of callbacks): calls
   * every callback once with the arguments, in insertion order, and returns
   * the set itself.
   */
  method CallCallbacks<A>(callbacks: Set<Callback>, args: A, log: CallLog<A>) returns (same: Set<Callback>)
    requires callbacks.Valid()
    modifies log
    ensures same == callbacks
    ensures log.calls == old(log.calls) + CallsOf(callbacks.values, args)
  {
    var i := 0;
    while i < |callbacks.values|
      invariant 0 <= i <= |callbacks.values|
      invariant log.calls == old(log.calls) + CallsOf(callbacks.values[..i], args)
    {
      log.Call(callbacks.values[i], args);
      assert CallsOf(callbacks.values[..i + 1], args) == CallsOf(callbacks.values[..i], args) + [(callbacks.values[i], args)];
      i := i + 1;
    }
    assert callbacks.values[..i] == callbacks.values;
    same := callbacks;
  }
}
