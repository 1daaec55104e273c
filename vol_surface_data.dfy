/** A volatility surface as market data: the names of its definition and
    specification, its currency, the x and y axis values in order, and the
    volatility for each (x, y) pair that has one. */
module VolatilitySurface {
  import opened Common

  /** A currency, identified by its ISO code. */
  datatype Currency = Currency(code: string)

  /** The surface. Its value map is a value here, so the copy the
      constructor takes is implicit: later changes to the caller's map
      cannot reach it. */
  datatype Surface<X(==), Y(==)> = Surface(
    definitionName: string,
    specificationName: string,
    currency: Currency,
    xs: seq<X>,
    ys: seq<Y>,
    values: map<(X, Y), real>)

  /** The constructor's null checks, in the order it makes them: the two
      names, the currency, the y axis, the x axis, then the values. */
  function Create<X(==), Y(==)>(definitionName: Option<string>, specificationName: Option<string>,
                                currency: Option<Currency>, xs: Option<seq<X>>, ys: Option<seq<Y>>,
                                values: Option<map<(X, Y), real>>): (r: Result<Surface<X, Y>>)
    ensures r.Ok? <==> definitionName.Some? && specificationName.Some? && currency.Some?
                       && ys.Some? && xs.Some? && values.Some?
    ensures definitionName.None? ==> r == Err("Definition Name")
    ensures definitionName.Some? && specificationName.None? ==> r == Err("Specification Name")
    ensures definitionName.Some? && specificationName.Some? && currency.None? ==> r == Err("Currency")
    ensures definitionName.Some? && specificationName.Some? && currency.Some? && ys.None? ==> r == Err("Y axis values")
    ensures definitionName.Some? && specificationName.Some? && currency.Some? && ys.Some? && xs.None? ==>
              r == Err("X axis values")
    ensures r.Ok? ==> r.value == Surface(definitionName.value, specificationName.value, currency.value,
                                         xs.value, ys.value, values.value)
  {
    if definitionName.None? then Err("Definition Name")
    else if specificationName.None? then Err("Specification Name")
    else if currency.None? then Err("Currency")
    else if ys.None? then Err("Y axis values")
    else if xs.None? then Err("X axis values")
    else if values.None? then Err("Volatility Values Map")
    else Ok(Surface(definitionName.value, specificationName.value, currency.value, xs.value, ys.value, values.value))
  }

  /** The volatility stored for (x, y), or nothing. */
  function GetVolatility<X(==), Y(==)>(s: Surface<X, Y>, x: X, y: Y): (r: Option<real>)
    ensures r.Some? <==> (x, y) in s.values
    ensures r.Some? ==> r.value == s.values[(x, y)]
  {
    if (x, y) in s.values then Some(s.values[(x, y)]) else None
  }

  /** What `equals` may be handed: null, a surface, or another object. */
  datatype Object<X(==), Y(==)> = Null | SurfaceObject(surface: Surface<X, Y>) | OtherObject

  /** Arrays.equals: same length and equal elements position by position. */
  function ArraysEqual<T(==)>(a: seq<T>, b: seq<T>): (r: bool)
    ensures r <==> a == b
  {
    |a| == |b| && forall i :: 0 <= i < |a| ==> a[i] == b[i]
  }

  /** Field-by-field equality; never equal to null or to another type. */
  function Equals<X(==), Y(==)>(s: Surface<X, Y>, o: Object<X, Y>): (r: bool)
    ensures o.SurfaceObject? ==> (r <==> s == o.surface)
    ensures !o.SurfaceObject? ==> !r
  {
    match o
    case Null => false
    case OtherObject => false
    case SurfaceObject(other) =>
      s.definitionName == other.definitionName
      && s.specificationName == other.specificationName
      && s.currency == other.currency
      && ArraysEqual(s.xs, other.xs)
      && ArraysEqual(s.ys, other.ys)
      && s.values == other.values
  }

  /** The product of the hashes of the two names and the currency code, in
      32-bit arithmetic. */
  function HashCode<X(==), Y(==)>(s: Surface<X, Y>): (r: bv32)
    ensures r == IntTimes(IntTimes(StringHash(s.definitionName), StringHash(s.specificationName)), StringHash(s.currency.code))
  {
    IntTimes(IntTimes(StringHash(s.definitionName), StringHash(s.specificationName)), StringHash(s.currency.code))
  }

  /** Java's `int` multiplication, which wraps around in 32 bits. */
  function IntTimes(a: bv32, b: bv32): bv32 {
    a * b
  }

  /** Equal surfaces hash equally. */
  lemma EqualsConsistentWithHashCode<X, Y>(s: Surface<X, Y>, t: Surface<X, Y>)
    requires Equals(s, SurfaceObject(t))
    ensures HashCode(s) == HashCode(t)
  {
  }

  /** The hash ignores the axes and the values: surfaces that differ only
      there collide. */
  lemma HashCodeIgnoresData<X, Y>(s: Surface<X, Y>, xs: seq<X>, ys: seq<Y>, values: map<(X, Y), real>)
    ensures HashCode(s.(xs := xs, ys := ys, values := values)) == HashCode(s)
  {
  }

  /** Equality is symmetric, as `equals` requires. */
  lemma EqualsSymmetric<X, Y>(s: Surface<X, Y>, t: Surface<X, Y>)
    ensures Equals(s, SurfaceObject(t)) == Equals(t, SurfaceObject(s))
  {
  }
}
