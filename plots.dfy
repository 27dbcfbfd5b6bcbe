// The dataset registry of a Plot: datasets stored under string keys, drawn in
// the order of `keysInOrder`. Datasets added without a key get the key "_<n>"
// from a counter.

module Plots {
  import opened Wrappers
  import opened Utils

  /** A Dataset wraps a data array; both are compared by reference. */
  class Dataset {
    const data: array<int>

    constructor (data: array<int>)
      ensures this.data == data
    {
      this.data := data;
    }
  }

  /** What `addDataset` is given: a Dataset, or a raw array to wrap in a new one. */
  datatype DatasetOrData = GivenDataset(dataset: Dataset) | GivenData(data: array<int>)

  /** What `removeDataset` is given: a key, a Dataset or a data array. */
  datatype DatasetIdentifier = ByKey(key: string) | ByDataset(dataset: Dataset) | ByData(data: array<int>)

  /** The decimal digit for d. */
  function Digit(d: nat): (c: char)
    requires d < 10
    ensures '0' <= c <= '9' && c as int - '0' as int == d
  {
    ('0' as int + d) as char
  }

  /** `String(n)`: the decimal digits of n, without leading zeros. */
  function NatToString(n: nat): (s: string)
    ensures |s| >= 1
    ensures forall i :: 0 <= i < |s| ==> '0' <= s[i] <= '9'
    ensures n < 10 <==> |s| == 1
    ensures s[|s| - 1] == Digit(n % 10)
    decreases n
  {
    if n < 10 then [Digit(n)] else NatToString(n / 10) + [Digit(n % 10)]
  }

  /** Different numbers are written differently, so generated keys never repeat. */
  lemma {:induction false} NatToStringInjective(a: nat, b: nat)
    requires NatToString(a) == NatToString(b)
    ensures a == b
    decreases a
  {
    var s := NatToString(a);
    if a >= 10 {
      assert b >= 10;
      assert NatToString(a / 10) == s[..|s| - 1] == NatToString(b / 10);
      NatToStringInjective(a / 10, b / 10);
      assert Digit(a % 10) == s[|s| - 1] == Digit(b % 10);
    }
  }

  /** The key a dataset added without one receives. */
  function GeneratedKey(n: nat): (k: string)
    ensures |k| >= 2 && k[0] == '_'
    ensures k[1..] == NatToString(n)
  {
    "_" + NatToString(n)
  }

  /** Generated keys are distinct for distinct counter values. */
  lemma GeneratedKeysDistinct(a: nat, b: nat)
    requires a != b
    ensures GeneratedKey(a) != GeneratedKey(b)
  {
    if GeneratedKey(a) == GeneratedKey(b) {
      assert NatToString(a) == GeneratedKey(a)[1..] == GeneratedKey(b)[1..] == NatToString(b);
      NatToStringInjective(a, b);
    }
  }

  /** A reordering of a list without repeats has no repeats either. */
  lemma {:induction false} PermutationKeepsDistinct<T>(s: seq<T>, t: seq<T>)
    requires Distinct(s) && multiset(s) == multiset(t)
    ensures Distinct(t)
  {
    forall i, j | 0 <= i < j < |t| ensures t[i] != t[j] {
      if t[i] == t[j] {
        assert multiset(t)[t[i]] >= 2 by {
          var rest := t[..i] + t[i + 1..];
          assert t == t[..i] + [t[i]] + t[i + 1..];
          assert t[j] == rest[j - 1];
          assert multiset(t) == multiset(rest) + multiset{t[i]};
        }
        DistinctCountsOnce(s, t[i]);
      }
    }
  }

  /** In a list without repeats every element occurs at most once. */
  lemma {:induction false} DistinctCountsOnce<T>(s: seq<T>, x: T)
    requires Distinct(s)
    ensures multiset(s)[x] <= 1
    decreases |s|
  {
    if s != [] {
      assert s == [s[0]] + s[1..];
      assert Distinct(s[1..]);
      DistinctCountsOnce(s[1..], x);
      if x == s[0] {
        assert x !in s[1..];
      }
    }
  }

  /** Appending a new element to a list without repeats keeps it without repeats. */
  lemma DistinctAppend<T>(s: seq<T>, x: T)
    requires Distinct(s) && x !in s
    ensures Distinct(s + [x])
  {
    forall i, j | 0 <= i < j < |s| + 1 ensures (s + [x])[i] != (s + [x])[j] {
      if j == |s| {
        assert s[i] in s;
      }
    }
  }

  /** A plot's datasets, keyed and ordered. */
  class Plot {
    var keysInOrder: seq<string>
    var key2Dataset: map<string, Dataset>
    var nextSeriesIndex: nat

    /** Every key is listed once, and exactly the stored keys are listed. */
    ghost predicate Valid()
      reads this
    {
      Distinct(keysInOrder) && forall k :: k in key2Dataset <==> k in keysInOrder
    }

    /** A new Plot has no datasets. */
    constructor ()
      ensures Valid() && keysInOrder == [] && key2Dataset == map[] && nextSeriesIndex == 0
    {
      keysInOrder := [];
      key2Dataset := map[];
      nextSeriesIndex := 0;
    }

    /** `datasetOrder()`: the keys in drawing order. */
    function DatasetOrder(): (order: seq<string>)
      reads this
      requires Valid()
      ensures Distinct(order)
      ensures forall i :: 0 <= i < |order| ==> order[i] in key2Dataset
    {
      keysInOrder
    }

    /** `datasets()`: the datasets in drawing order. */
    function Datasets(): (ds: seq<Dataset>)
      reads this
      requires Valid()
      ensures |ds| == |keysInOrder|
      ensures forall i :: 0 <= i < |ds| ==> ds[i] == key2Dataset[keysInOrder[i]]
    {
      seq(|keysInOrder|, i requires 0 <= i < |keysInOrder| reads this requires Valid() => key2Dataset[keysInOrder[i]])
    }

    /** The data arrays of the datasets in drawing order. */
    function DataArrays(): (arrs: seq<array<int>>)
      reads this
      requires Valid()
      ensures |arrs| == |keysInOrder|
      ensures forall i :: 0 <= i < |arrs| ==> arrs[i] == Datasets()[i].data
    {
      var ds := Datasets();
      seq(|ds|, i requires 0 <= i < |ds| => ds[i].data)
    }

    /**
     * The key a `removeDataset` identifier stands for: the key itself, or the
     * key of the first dataset (the first data array) identical to it.
     */
    function ResolveKey(id: DatasetIdentifier): (k: Option<string>)
      reads this
      requires Valid()
      ensures id.ByKey? ==> k == Some(id.key)
      ensures id.ByDataset? ==> (k.Some? <==> id.dataset in Datasets())
      ensures id.ByDataset? && k.Some? ==> k.value == keysInOrder[IndexOf(Datasets(), id.dataset)]
      ensures id.ByData? ==> (k.Some? <==> id.data in DataArrays())
      ensures id.ByData? && k.Some? ==> k.value == keysInOrder[IndexOf(DataArrays(), id.data)]
    {
      match id
      case ByKey(key) => Some(key)
      case ByDataset(d) =>
        var index := IndexOf(Datasets(), d);
        if index == -1 then None else Some(keysInOrder[index])
      case ByData(a) =>
        var index := IndexOf(DataArrays(), a);
        if index == -1 then None else Some(keysInOrder[index])
    }

    /** Drops the dataset under key, if any, keeping the order of the rest. */
    method RemoveKey(key: string)
      requires Valid()
      modifies this
      ensures Valid()
      ensures keysInOrder == RemoveFirst(old(keysInOrder), key)
      ensures key2Dataset == old(key2Dataset) - {key}
      ensures nextSeriesIndex == old(nextSeriesIndex)
    {
      if key in key2Dataset {
        RemoveFirstDistinct(keysInOrder, key);
        keysInOrder := RemoveFirst(keysInOrder, key);
        key2Dataset := key2Dataset - {key};
      } else {
        assert key !in keysInOrder;
      }
    }

    /** Stores a dataset under a key not yet used, last in the drawing order. */
    method PushKey(key: string, dataset: Dataset)
      requires Valid() && key !in key2Dataset
      modifies this
      ensures Valid()
      ensures keysInOrder == old(keysInOrder) + [key]
      ensures key2Dataset == old(key2Dataset)[key := dataset]
      ensures nextSeriesIndex == old(nextSeriesIndex)
    {
      DistinctAppend(keysInOrder, key);
      keysInOrder := keysInOrder + [key];
      key2Dataset := key2Dataset[key := dataset];
    }

    /** Stores a dataset under a key, replacing the one there, last in the drawing order. */
    method Put(key: string, dataset: Dataset)
      requires Valid()
      modifies this
      ensures Valid()
      ensures keysInOrder == RemoveFirst(old(keysInOrder), key) + [key]
      ensures key2Dataset == old(key2Dataset)[key := dataset]
      ensures nextSeriesIndex == old(nextSeriesIndex)
    {
      RemoveKey(key);
      PushKey(key, dataset);
      assert key2Dataset == old(key2Dataset)[key := dataset];
    }

    /**
     * `addDataset([key,] dataset)`: without a key the dataset gets the next
     * generated key; a dataset already under the key is removed first; the
     * key goes last in the drawing order. A raw array is wrapped in a new Dataset.
     */
    method AddDataset(key: Option<string>, given: DatasetOrData) returns (dataset: Dataset)
      requires Valid()
      modifies this
      ensures Valid()
      ensures given.GivenDataset? ==> dataset == given.dataset
      ensures given.GivenData? ==> fresh(dataset) && dataset.data == given.data
      ensures var k := if key.Some? then key.value else GeneratedKey(old(nextSeriesIndex));
        && keysInOrder == RemoveFirst(old(keysInOrder), k) + [k]
        && key2Dataset == old(key2Dataset)[k := dataset]
      ensures nextSeriesIndex == if key.Some? then old(nextSeriesIndex) else old(nextSeriesIndex) + 1
    {
      var k: string;
      if key.Some? {
        k := key.value;
      } else {
        k := GeneratedKey(nextSeriesIndex);
        nextSeriesIndex := nextSeriesIndex + 1;
      }
      match given {
        case GivenDataset(d) => dataset := d;
        case GivenData(a) => dataset := new Dataset(a);
      }
      Put(k, dataset);
    }

    /**
     * `datasetOrder(order)`: adopts the order when it is a permutation of the
     * keys, and otherwise ignores it; answers whether it was adopted.
     */
    method SetDatasetOrder(order: seq<string>) returns (accepted: bool)
      requires Valid()
      modifies this
      ensures Valid()
      ensures accepted <==> multiset(order) == multiset(old(keysInOrder))
      ensures keysInOrder == if accepted then order else old(keysInOrder)
      ensures key2Dataset == old(key2Dataset) && nextSeriesIndex == old(nextSeriesIndex)
    {
      accepted := multiset(order) == multiset(keysInOrder);
      if accepted {
        PermutationKeepsDistinct(keysInOrder, order);
        forall k ensures k in order <==> k in keysInOrder {
          assert k in order <==> k in multiset(order);
        }
        keysInOrder := order;
      }
    }

    /**
     * `removeDataset(identifier)`: removes the dataset the identifier resolves
     * to, if it names one; nothing else changes.
     */
    method RemoveDataset(id: DatasetIdentifier)
      requires Valid()
      modifies this
      ensures Valid()
      ensures var k := old(ResolveKey(id));
        if k.Some? && k.value in old(key2Dataset) then
          keysInOrder == RemoveFirst(old(keysInOrder), k.value) && key2Dataset == old(key2Dataset) - {k.value}
        else
          keysInOrder == old(keysInOrder) && key2Dataset == old(key2Dataset)
      ensures nextSeriesIndex == old(nextSeriesIndex)
    {
      var k := ResolveKey(id);
      if k.Some? && k.value in key2Dataset {
        RemoveKey(k.value);
      }
    }
  }
}
