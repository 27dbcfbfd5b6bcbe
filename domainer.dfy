// The Domainer of a quantitative scale: it merges the extents a scale's plots
// report into one [min, max] domain, stretches it over the registered
// included values and pads it, leaving registered padding exceptions unpadded.
// Only a linear scale is modelled, so padding in screen space is padding in
// data space.

module Domainers {
  import opened Wrappers
  import Utils

  /** A [min, max] pair. */
  datatype Extent = Extent(min: real, max: real)

  /** The argument of a remover: a string is a key, anything else a value. */
  datatype KeyOrValue = Key(key: string) | Value(value: real)

  /**
   * The proportion this model's `pad()` uses when called without one: the
   * "5% larger" of the doc comment, taken as the default by choice.
   */
  const DefaultPadProportion: real := 0.05

  /** How far each end moves when a domain of a single point is padded. */
  const PaddingForIdenticalDomain: real := 1.0

  /** d lies inside h. */
  predicate Covers(h: Extent, d: Extent) {
    h.min <= d.min && d.max <= h.max
  }

  /** v lies inside h. */
  predicate Contains(h: Extent, v: real) {
    h.min <= v <= h.max
  }

  /**
   * The default merge of extents: the min of their first elements and the
   * max of their second elements; the scale's default extent when there are none.
   */
  function DefaultCombine(extents: seq<Extent>, defaultExtent: Extent): (r: Extent)
    ensures extents == [] ==> r == defaultExtent
    ensures forall i :: 0 <= i < |extents| ==> r.min <= extents[i].min && extents[i].max <= r.max
    ensures extents != [] ==> exists i :: 0 <= i < |extents| && r.min == extents[i].min
    ensures extents != [] ==> exists i :: 0 <= i < |extents| && r.max == extents[i].max
  {
    if extents == [] then defaultExtent
    else Extent(Utils.Min(extents, (e: Extent) => e.min, 0.0), Utils.Max(extents, (e: Extent) => e.max, 0.0))
  }

  /** h is the smallest extent covering d and every value of vs. */
  ghost predicate IsHull(h: Extent, d: Extent, vs: set<real>) {
    && h.min <= d.min && d.max <= h.max
    && (forall v :: v in vs ==> h.min <= v <= h.max)
    && (h.min == d.min || h.min in vs)
    && (h.max == d.max || h.max in vs)
  }

  /** Stretches d over one more value. */
  function Include(d: Extent, v: real): (r: Extent)
    ensures r.min <= d.min && d.max <= r.max && Contains(r, v)
    ensures r.min == d.min || r.min == v
    ensures r.max == d.max || r.max == v
  {
    Extent(if v < d.min then v else d.min, if v > d.max then v else d.max)
  }

  /** Stretching a hull of vs over v gives a hull of vs + {v}. */
  lemma IncludeExtendsHull(h: Extent, d: Extent, vs: set<real>, v: real)
    requires IsHull(h, d, vs)
    ensures IsHull(Include(h, v), d, vs + {v})
  {
  }

  /** There is only one hull of d and vs. */
  lemma HullUnique(h1: Extent, h2: Extent, d: Extent, vs: set<real>)
    requires IsHull(h1, d, vs) && IsHull(h2, d, vs)
    ensures h1 == h2
  {
  }

  /** A non-empty set has an element. */
  lemma NonEmptyHasElement(s: set<real>)
    requires s != {}
    ensures exists x :: x in s
  {
    if forall y :: y !in s {
      assert false;
    }
  }

  /** The domain stretched so that it contains every included value. */
  ghost function IncludeAll(d: Extent, vs: set<real>): (h: Extent)
    ensures IsHull(h, d, vs)
    decreases vs
  {
    if vs == {} then d
    else
      NonEmptyHasElement(vs);
      var v :| v in vs;
      var h := IncludeAll(d, vs - {v});
      IncludeExtendsHull(h, d, vs - {v}, v);
      assert vs - {v} + {v} == vs;
      Include(h, v)
  }

  /**
   * Pads d by the proportion p, half on each side, except at an end that is a
   * padding exception. A single-point domain is widened by one on each side
   * whenever p is positive.
   */
  function PadDomain(d: Extent, p: real, exceptions: set<real>): (r: Extent)
    ensures d.min == d.max && p > 0.0 ==>
      r == Extent(d.min - PaddingForIdenticalDomain, d.max + PaddingForIdenticalDomain)
    ensures d.min != d.max || p <= 0.0 ==>
      (d.min in exceptions ==> r.min == d.min) && (d.max in exceptions ==> r.max == d.max)
    ensures d.min != d.max && d.min !in exceptions && d.max !in exceptions ==>
      d.min - r.min == r.max - d.max
    ensures d.min != d.max && d.min in exceptions && d.max !in exceptions ==>
      r == Extent(d.min, d.max + (d.max - d.min) * p / 2.0)
    ensures d.min != d.max && d.min !in exceptions && d.max in exceptions ==>
      r == Extent(d.min - (d.max - d.min) * p / 2.0, d.max)
  {
    if d.min == d.max && p > 0.0 then
      Extent(d.min - PaddingForIdenticalDomain, d.max + PaddingForIdenticalDomain)
    else
      var half := p / 2.0;
      var newMin := if d.min in exceptions then d.min else d.min - (d.max - d.min) * half;
      var newMax := if d.max in exceptions then d.max else d.max + (d.max - d.min) * half;
      Extent(newMin, newMax)
  }

  /** With a non-negative proportion padding never shrinks an ordered domain. */
  lemma PadCovers(d: Extent, p: real, exceptions: set<real>)
    requires d.min <= d.max && p >= 0.0
    ensures Covers(PadDomain(d, p, exceptions), d)
  {
    var half := p / 2.0;
    assert (d.max - d.min) * half >= 0.0;
  }

  /** Without exceptions the padded domain is exactly (1 + p) times as wide. */
  lemma PadWidth(d: Extent, p: real, exceptions: set<real>)
    requires d.min != d.max && d.min !in exceptions && d.max !in exceptions
    ensures var r := PadDomain(d, p, exceptions); r.max - r.min == (d.max - d.min) * (1.0 + p)
  {
  }

  /**
   * A Domainer: a merge function and two registries each of padding exceptions
   * and of included values, one keyed (map semantics) and one unkeyed (set
   * semantics).
   */
  class Domainer {
    const combineExtents: Option<seq<Extent> -> Extent>
    var padProportion: real
    var paddingExceptions: map<string, real>
    var unregisteredPaddingExceptions: set<real>
    var includedValues: map<string, real>
    var unregisteredIncludedValues: set<real>

    /** A new Domainer pads nothing (a choice of this model) and has empty registries. */
    constructor (combineExtents: Option<seq<Extent> -> Extent>)
      ensures this.combineExtents == combineExtents
      ensures padProportion == 0.0
      ensures paddingExceptions == map[] && unregisteredPaddingExceptions == {}
      ensures includedValues == map[] && unregisteredIncludedValues == {}
    {
      this.combineExtents := combineExtents;
      padProportion := 0.0;
      paddingExceptions := map[];
      unregisteredPaddingExceptions := {};
      includedValues := map[];
      unregisteredIncludedValues := {};
    }

    /** Every padding exception, keyed or not. */
    ghost function PaddingExceptionValues(): set<real>
      reads this
    {
      paddingExceptions.Values + unregisteredPaddingExceptions
    }

    /** Every included value, keyed or not. */
    ghost function IncludedValueSet(): set<real>
      reads this
    {
      includedValues.Values + unregisteredIncludedValues
    }

    /** `pad(padProportion?)`: sets the proportion; without one, the model uses DefaultPadProportion. */
    method Pad(p: Option<real>)
      modifies this
      ensures padProportion == (if p.Some? then p.value else DefaultPadProportion)
      ensures paddingExceptions == old(paddingExceptions)
      ensures unregisteredPaddingExceptions == old(unregisteredPaddingExceptions)
      ensures includedValues == old(includedValues)
      ensures unregisteredIncludedValues == old(unregisteredIncludedValues)
    {
      padProportion := if p.Some? then p.value else DefaultPadProportion;
    }

    /** Registers a padding exception under a key (overwriting) or, without one, in the set. */
    method AddPaddingException(exception: real, key: Option<string>)
      modifies this
      ensures key.Some? ==> (paddingExceptions == old(paddingExceptions)[key.value := exception]
        && unregisteredPaddingExceptions == old(unregisteredPaddingExceptions))
      ensures key.None? ==> (paddingExceptions == old(paddingExceptions)
        && unregisteredPaddingExceptions == old(unregisteredPaddingExceptions) + {exception})
      ensures exception in PaddingExceptionValues()
      ensures padProportion == old(padProportion)
      ensures includedValues == old(includedValues)
      ensures unregisteredIncludedValues == old(unregisteredIncludedValues)
    {
      if key.Some? {
        paddingExceptions := paddingExceptions[key.value := exception];
        assert paddingExceptions[key.value] == exception;
      } else {
        unregisteredPaddingExceptions := unregisteredPaddingExceptions + {exception};
      }
    }

    /** Removes a padding exception by key or, given a value, from the set. */
    method RemovePaddingException(keyOrException: KeyOrValue)
      modifies this
      ensures keyOrException.Key? ==> (paddingExceptions == old(paddingExceptions) - {keyOrException.key}
        && unregisteredPaddingExceptions == old(unregisteredPaddingExceptions))
      ensures keyOrException.Value? ==> (paddingExceptions == old(paddingExceptions)
        && unregisteredPaddingExceptions == old(unregisteredPaddingExceptions) - {keyOrException.value})
      ensures padProportion == old(padProportion)
      ensures includedValues == old(includedValues)
      ensures unregisteredIncludedValues == old(unregisteredIncludedValues)
    {
      match keyOrException
      case Key(k) => paddingExceptions := paddingExceptions - {k};
      case Value(v) => unregisteredPaddingExceptions := unregisteredPaddingExceptions - {v};
    }

    /** Registers an included value under a key (overwriting) or, without one, in the set. */
    method AddIncludedValue(value: real, key: Option<string>)
      modifies this
      ensures key.Some? ==> (includedValues == old(includedValues)[key.value := value]
        && unregisteredIncludedValues == old(unregisteredIncludedValues))
      ensures key.None? ==> (includedValues == old(includedValues)
        && unregisteredIncludedValues == old(unregisteredIncludedValues) + {value})
      ensures value in IncludedValueSet()
      ensures padProportion == old(padProportion)
      ensures paddingExceptions == old(paddingExceptions)
      ensures unregisteredPaddingExceptions == old(unregisteredPaddingExceptions)
    {
      if key.Some? {
        includedValues := includedValues[key.value := value];
        assert includedValues[key.value] == value;
      } else {
        unregisteredIncludedValues := unregisteredIncludedValues + {value};
      }
    }

    /** Removes an included value by key or, given a value, from the set. */
    method RemoveIncludedValue(valueOrKey: KeyOrValue)
      modifies this
      ensures valueOrKey.Key? ==> (includedValues == old(includedValues) - {valueOrKey.key}
        && unregisteredIncludedValues == old(unregisteredIncludedValues))
      ensures valueOrKey.Value? ==> (includedValues == old(includedValues)
        && unregisteredIncludedValues == old(unregisteredIncludedValues) - {valueOrKey.value})
      ensures padProportion == old(padProportion)
      ensures paddingExceptions == old(paddingExceptions)
      ensures unregisteredPaddingExceptions == old(unregisteredPaddingExceptions)
    {
      match valueOrKey
      case Key(k) => includedValues := includedValues - {k};
      case Value(v) => unregisteredIncludedValues := unregisteredIncludedValues - {v};
    }

    /** The merged extent, before included values and padding. */
    function Combine(extents: seq<Extent>, defaultExtent: Extent): (r: Extent)
      reads this
      ensures combineExtents.Some? ==> r == combineExtents.value(extents)
      ensures combineExtents.None? ==> r == DefaultCombine(extents, defaultExtent)
    {
      if combineExtents.Some? then combineExtents.value(extents) else DefaultCombine(extents, defaultExtent)
    }

    /**
     * `computeDomain(extents, scale)` on a linear scale whose default extent is
     * `defaultExtent`: merge, stretch over the included values, pad.
     */
    method ComputeDomain(extents: seq<Extent>, defaultExtent: Extent) returns (domain: Extent)
      ensures domain == PadDomain(IncludeAll(Combine(extents, defaultExtent), IncludedValueSet()),
                                  padProportion, PaddingExceptionValues())
    {
      var combined := Combine(extents, defaultExtent);
      var values := includedValues.Values + unregisteredIncludedValues;
      var included := combined;
      var rest := values;
      while rest != {}
        invariant rest <= values
        invariant IsHull(included, combined, values - rest)
        decreases rest
      {
        NonEmptyHasElement(rest);
        var v :| v in rest;
        IncludeExtendsHull(included, combined, values - rest, v);
        included := Include(included, v);
        assert values - rest + {v} == values - (rest - {v});
        rest := rest - {v};
      }
      assert values - rest == values;
      HullUnique(included, IncludeAll(combined, values), combined, values);
      var exceptions := paddingExceptions.Values + unregisteredPaddingExceptions;
      domain := PadDomain(included, padProportion, exceptions);
    }
  }

  /** The computed domain contains every included value when p >= 0. */
  lemma DomainContainsIncluded(d: Extent, vs: set<real>, p: real, exceptions: set<real>, v: real)
    requires d.min <= d.max && p >= 0.0 && v in vs
    ensures Contains(PadDomain(IncludeAll(d, vs), p, exceptions), v)
  {
    var h := IncludeAll(d, vs);
    PadCovers(h, p, exceptions);
  }

  /** Including 0 stretches [50, 100] to [0, 100]. */
  lemma IncludeZeroExample()
    ensures IncludeAll(Extent(50.0, 100.0), {0.0}) == Extent(0.0, 100.0)
  {
    HullUnique(IncludeAll(Extent(50.0, 100.0), {0.0}), Extent(0.0, 100.0), Extent(50.0, 100.0), {0.0});
  }

  /** A linear domain grows by the same amount at both ends: [10, 20] at p = 1 becomes [5, 25]. */
  lemma PadLinearExample()
    ensures PadDomain(Extent(10.0, 20.0), 1.0, {}) == Extent(5.0, 25.0)
  {
  }

  /**
   * [0, 100] at the default proportion becomes [-2.5, 102.5]; with a padding
   * exception at 0 the lower end stays put.
   */
  lemma PadExceptionExample()
    ensures PadDomain(Extent(0.0, 100.0), DefaultPadProportion, {}) == Extent(-2.5, 102.5)
    ensures PadDomain(Extent(0.0, 100.0), DefaultPadProportion, {0.0}) == Extent(0.0, 102.5)
  {
  }
}
