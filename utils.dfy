/**
 * The array and number utilities of `Plottable.Utils.Methods`, together with the
 * sequence helpers (JavaScript's `indexOf` and `splice`) that the collections,
 * containers and plots of this model are built on.
 */
module Utils {
  import opened Wrappers

  // ---------------------------------------------------------------------------
  // Sequence helpers standing for JavaScript array built-ins
  // ---------------------------------------------------------------------------

  /** No element occurs twice. */
  ghost predicate Distinct<T>(s: seq<T>) {
    forall i, j :: 0 <= i < j < |s| ==> s[i] != s[j]
  }

  /** `Array.prototype.indexOf`: the first index of `x` in `s`, or -1. */
  function IndexOf<T(==)>(s: seq<T>, x: T): (r: int)
    ensures -1 <= r < |s|
    ensures r == -1 <==> x !in s
    ensures 0 <= r ==> s[r] == x && forall j :: 0 <= j < r ==> s[j] != x
  {
    if |s| == 0 then -1
    else if s[0] == x then 0
    else var k := IndexOf(s[1..], x); if k == -1 then -1 else k + 1
  }

  /** `s.splice(s.indexOf(x), 1)` guarded by `indexOf >= 0`: drops the first occurrence of `x`. */
  function RemoveFirst<T(==)>(s: seq<T>, x: T): (r: seq<T>)
    ensures x !in s ==> r == s
    ensures x in s ==> r == s[..IndexOf(s, x)] + s[IndexOf(s, x) + 1..]
  {
    var i := IndexOf(s, x);
    if i < 0 then s else s[..i] + s[i + 1..]
  }

  /** Element k after removing the first x is element k or k + 1 before. */
  lemma RemoveFirstIndex<T>(s: seq<T>, x: T, k: nat)
    requires k < |RemoveFirst(s, x)|
    ensures RemoveFirst(s, x)[k] == s[if x in s && k >= IndexOf(s, x) then k + 1 else k]
  {
    if x in s {
      var i := IndexOf(s, x);
      if k < i {
        assert RemoveFirst(s, x)[k] == s[..i][k];
      } else {
        assert RemoveFirst(s, x)[k] == s[i + 1..][k - i];
      }
    }
  }

  /** In a sequence without repetitions, removing an element removes it entirely and keeps the rest distinct. */
  lemma RemoveFirstDistinct<T>(s: seq<T>, x: T)
    requires Distinct(s)
    ensures Distinct(RemoveFirst(s, x))
    ensures x !in RemoveFirst(s, x)
    ensures forall y :: y in RemoveFirst(s, x) <==> y in s && y != x
  {
    if x in s {
      var i := IndexOf(s, x);
      var r := RemoveFirst(s, x);
      assert forall k :: 0 <= k < |r| ==> r[k] == (if k < i then s[k] else s[k + 1]);
    }
  }

  // ---------------------------------------------------------------------------
  // inRange and clamp
  // ---------------------------------------------------------------------------

  /** `inRange(x, a, b)`: whether x lies between a and b inclusive, whichever of the two is smaller. */
  predicate InRange(x: real, a: real, b: real): (r: bool)
    ensures r <==> (a <= x <= b || b <= x <= a)
  {
    var lo := if a <= b then a else b;
    var hi := if a <= b then b else a;
    lo <= x <= hi
  }

  /** The ends of the range can be given in either order. */
  lemma InRangeSymmetric(x: real, a: real, b: real)
    ensures InRange(x, a, b) == InRange(x, b, a)
  {
  }

  /** `clamp(x, min, max)`: the value of [min, max] nearest to x. */
  function Clamp(x: real, min: real, max: real): (r: real)
    ensures min <= max ==> InRange(r, min, max)
    ensures min <= max && InRange(x, min, max) ==> r == x
    ensures min <= max && x < min ==> r == min
    ensures min <= max && x > max ==> r == max
    ensures min > max ==> r == max
  {
    var lower := if min > x then min else x;
    if lower < max then lower else max
  }

  /** A value is in range exactly when clamping leaves it where it is. */
  lemma InRangeIffClampFixes(x: real, min: real, max: real)
    requires min <= max
    ensures InRange(x, min, max) <==> Clamp(x, min, max) == x
  {
  }

  // ---------------------------------------------------------------------------
  // addArrays
  // ---------------------------------------------------------------------------

  datatype ArrayError = UnequalLengths(leftLength: nat, rightLength: nat)

  /** `addArrays(alist, blist)`: the element-wise sum; arrays of different lengths are an error. */
  function AddArrays(alist: seq<real>, blist: seq<real>): (r: Result<seq<real>, ArrayError>)
    ensures r.Ok? <==> |alist| == |blist|
    ensures r.Err? ==> r.error == UnequalLengths(|alist|, |blist|)
    ensures r.Ok? ==> |r.value| == |alist| && forall i :: 0 <= i < |alist| ==> r.value[i] == alist[i] + blist[i]
  {
    if |alist| != |blist| then Err(UnequalLengths(|alist|, |blist|))
    else Ok(seq(|alist|, i requires 0 <= i < |alist| => alist[i] + blist[i]))
  }

  /** Element-wise addition does not depend on the order of its arguments. */
  lemma AddArraysCommutes(alist: seq<real>, blist: seq<real>)
    ensures AddArrays(alist, blist) == AddArrays(blist, alist) || |alist| != |blist|
  {
    if |alist| == |blist| {
      assert AddArrays(alist, blist).value == AddArrays(blist, alist).value;
    }
  }

  // ---------------------------------------------------------------------------
  // uniq
  // ---------------------------------------------------------------------------

  /**
   * The unique values of `s` in order of first occurrence: the result of
   * walking `s` from the front and keeping each value not seen before.
   */
  function Unique<T(==)>(s: seq<T>): seq<T>
  {
    if |s| == 0 then []
    else
      var u := Unique(s[..|s| - 1]);
      if s[|s| - 1] in u then u else u + [s[|s| - 1]]
  }

  /** `uniq(arr)`: one pass over `arr` with a set of the values already seen. */
  method Uniq<T(==)>(arr: seq<T>) returns (result: seq<T>)
    ensures result == Unique(arr)
  {
    var seen: set<T> := {};
    result := [];
    var i := 0;
    while i < |arr|
      invariant 0 <= i <= |arr|
      invariant result == Unique(arr[..i])
      invariant forall x :: x in seen <==> x in result
    {
      assert arr[..i + 1][..i] == arr[..i];
      if arr[i] !in seen {
        seen := seen + {arr[i]};
        result := result + [arr[i]];
      }
      i := i + 1;
    }
    assert arr[..i] == arr;
  }

  /** The unique values are exactly the values of the input. */
  lemma {:induction false} UniqueSameValues<T>(s: seq<T>, x: T)
    ensures x in Unique(s) <==> x in s
  {
    if |s| > 0 {
      var p := s[..|s| - 1];
      UniqueSameValues(p, x);
      assert s == p + [s[|s| - 1]];
    }
  }

  /** No value occurs twice in the result of uniq. */
  lemma {:induction false} UniqueDistinct<T>(s: seq<T>)
    ensures Distinct(Unique(s))
  {
    if |s| > 0 {
      UniqueDistinct(s[..|s| - 1]);
    }
  }

  /** In a prefix-extended sequence, the first index of an old value does not move. */
  lemma IndexOfExtend<T>(s: seq<T>, x: T, y: T)
    requires y in s
    ensures IndexOf(s + [x], y) == IndexOf(s, y)
  {
    var i := IndexOf(s, y);
    var j := IndexOf(s + [x], y);
    assert (s + [x])[i] == y;
    assert j <= i;
    assert s[j] == (s + [x])[j];
  }

  /** The unique values appear in the order of their first occurrence in the input. */
  lemma {:induction false} UniqueFirstOccurrenceOrder<T>(s: seq<T>)
    ensures forall i, j :: 0 <= i < j < |Unique(s)| ==> IndexOf(s, Unique(s)[i]) < IndexOf(s, Unique(s)[j])
  {
    if |s| > 0 {
      var p := s[..|s| - 1];
      var x := s[|s| - 1];
      assert s == p + [x];
      UniqueFirstOccurrenceOrder(p);
      var u := Unique(p);
      forall k | 0 <= k < |u|
        ensures IndexOf(s, u[k]) == IndexOf(p, u[k])
      {
        UniqueSameValues(p, u[k]);
        IndexOfExtend(p, x, u[k]);
      }
      if x !in u {
        UniqueSameValues(p, x);
        assert IndexOf(s, x) == |p|;
      }
    }
  }

  /** One step of `Unique`: a new last element is kept iff it has not been seen. */
  lemma UniqueSnoc<T>(s: seq<T>, x: T)
    ensures Unique(s + [x]) == if x in Unique(s) then Unique(s) else Unique(s) + [x]
  {
    assert (s + [x])[..|s|] == s;
  }

  /** Unique keeps a prefix that has no repeats. */
  lemma UniqueOfDistinctPair<T>(a: T, b: T)
    requires a != b
    ensures Unique([a, b]) == [a, b]
  {
    UniqueSnoc([], a);
    assert [] + [a] == [a];
    UniqueSnoc([a], b);
    assert [a] + [b] == [a, b];
  }

  /** Repeats of values already seen are dropped. */
  lemma UniqueDropsRepeats<T>(a: T, b: T)
    requires a != b
    ensures Unique([a, b, a, a]) == [a, b]
  {
    UniqueOfDistinctPair(a, b);
    UniqueSnoc([a, b], a);
    assert [a, b] + [a] == [a, b, a];
    UniqueSnoc([a, b, a], a);
    assert [a, b, a] + [a] == [a, b, a, a];
  }

  /** The shape of the `uniq` test: repeats after the first occurrence are dropped. */
  lemma UniqPattern<T>(a: T, b: T, c: T, d: T)
    requires a != b && a != c && a != d && b != c && b != d && c != d
    ensures Unique([a, b, a, a, c, d]) == [a, b, c, d]
  {
    var s4 := [a, b, a, a];
    UniqueDropsRepeats(a, b);
    UniqueSnoc(s4, c);
    UniqueSnoc(s4 + [c], d);
    assert s4 + [c] + [d] == [a, b, a, a, c, d];
  }

  /** The example of the `uniq` test. */
  lemma UniqExample()
    ensures Unique(["foo", "bar", "foo", "foo", "baz", "bam"]) == ["foo", "bar", "baz", "bam"]
  {
    UniqPattern("foo", "bar", "baz", "bam");
  }

  // ---------------------------------------------------------------------------
  // flatten
  // ---------------------------------------------------------------------------

  /** `flatten(a)`: every array of `a`, concatenated in order. */
  function Flatten<T>(a: seq<seq<T>>): (r: seq<T>)
    ensures forall i, j :: 0 <= i < |a| && 0 <= j < |a[i]| ==> a[i][j] in r
    ensures forall k :: 0 <= k < |r| ==> exists i :: 0 <= i < |a| && r[k] in a[i]
  {
    if |a| == 0 then []
    else
      var rest := Flatten(a[1..]);
      assert forall i :: 1 <= i < |a| ==> a[i] == a[1..][i - 1];
      a[0] + rest
  }

  /** Total length of the arrays of `a`. */
  function TotalLength<T>(a: seq<seq<T>>): nat {
    if |a| == 0 then 0 else |a[0]| + TotalLength(a[1..])
  }

  /** Flattening distributes over concatenation of the outer array, and keeps every element. */
  lemma {:induction false} FlattenAppend<T>(a: seq<seq<T>>, b: seq<seq<T>>)
    ensures Flatten(a + b) == Flatten(a) + Flatten(b)
    ensures |Flatten(a)| == TotalLength(a)
  {
    if |a| > 0 {
      assert (a + b)[1..] == a[1..] + b;
      FlattenAppend(a[1..], b);
    } else {
      assert a + b == b;
    }
  }

  // ---------------------------------------------------------------------------
  // max and min with a default
  // ---------------------------------------------------------------------------

  /**
   * `max(array, accessor, defaultValue)`: the largest accessor value, or the
   * default when the array is empty. (`max(array, defaultValue)` is the
   * identity accessor.)
   */
  function Max<T>(arr: seq<T>, accessor: T -> real, defaultValue: real): (r: real)
    ensures |arr| == 0 ==> r == defaultValue
    ensures |arr| > 0 ==> exists i :: 0 <= i < |arr| && r == accessor(arr[i])
    ensures forall i :: 0 <= i < |arr| ==> accessor(arr[i]) <= r
  {
    if |arr| == 0 then defaultValue
    else if |arr| == 1 then accessor(arr[0])
    else
      var m := Max(arr[1..], accessor, defaultValue);
      assert forall i :: 1 <= i < |arr| ==> arr[i] == arr[1..][i - 1];
      if accessor(arr[0]) >= m then accessor(arr[0]) else m
  }

  /** `min(array, accessor, defaultValue)`: the smallest accessor value, or the default when empty. */
  function Min<T>(arr: seq<T>, accessor: T -> real, defaultValue: real): (r: real)
    ensures |arr| == 0 ==> r == defaultValue
    ensures |arr| > 0 ==> exists i :: 0 <= i < |arr| && r == accessor(arr[i])
    ensures forall i :: 0 <= i < |arr| ==> r <= accessor(arr[i])
  {
    if |arr| == 0 then defaultValue
    else if |arr| == 1 then accessor(arr[0])
    else
      var m := Min(arr[1..], accessor, defaultValue);
      assert forall i :: 1 <= i < |arr| ==> arr[i] == arr[1..][i - 1];
      if accessor(arr[0]) <= m then accessor(arr[0]) else m
  }
}
