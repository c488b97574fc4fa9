/** The integrality test applied to a relaxation solution, and the rounding
    used to build the two branches. */
module Integrality {

  datatype Option<T> = None | Some(value: T)

  /** Conversion of a float to an integer by truncation toward zero. */
  function Truncate(v: real): (t: int)
    ensures 0.0 <= v ==> t as real <= v < t as real + 1.0
    ensures v < 0.0 ==> t as real - 1.0 < v <= t as real
  {
    if v >= 0.0 then v.Floor else -((-v).Floor)
  }

  /** Rounding down: the largest integer not above `v`. */
  function Floor(v: real): (k: int)
    ensures k as real <= v < k as real + 1.0
  {
    v.Floor
  }

  /** Rounding up: the smallest integer not below `v`. */
  function Ceil(v: real): (k: int)
    ensures v <= k as real < v + 1.0
  {
    -((-v).Floor)
  }

  /** The exact test of the scan: a value is integral when truncating it gives it back. */
  predicate IsIntegral(v: real) {
    Truncate(v) as real == v
  }

  predicate AllIntegral(x: seq<real>) {
    forall k :: 0 <= k < |x| ==> IsIntegral(x[k])
  }

  /** Rounding down an integer-valued real gives that integer back. */
  lemma FloorOfInteger(m: int)
    ensures (m as real).Floor == m
  {
  }

  /** Truncation and rounding down agree on which values are integral. */
  lemma IntegralIffFloor(v: real)
    ensures IsIntegral(v) <==> Floor(v) as real == v
  {
    if v < 0.0 {
      if IsIntegral(v) {
        var m := Truncate(v);
        FloorOfInteger(m);
      }
      if Floor(v) as real == v {
        var m := Floor(v);
        FloorOfInteger(-m);
        assert -v == (-m) as real;
      }
    }
  }

  /** For a fractional value the two roundings are adjacent integers strictly around it. */
  lemma FractionalRounding(v: real)
    requires !IsIntegral(v)
    ensures Floor(v) as real < v < Ceil(v) as real
    ensures Floor(v) + 1 == Ceil(v)
  {
    IntegralIffFloor(v);
    FloorOfInteger(Ceil(v));
    assert Ceil(v) as real != v;
  }

  /** No integer lies strictly between the two roundings of a fractional value. */
  lemma NoIntegerBetween(v: real, k: int)
    requires !IsIntegral(v)
    ensures k <= Floor(v) || Ceil(v) <= k
  {
    FractionalRounding(v);
  }

  /** The index of the first fractional coordinate, if any. */
  function FirstFractional(x: seq<real>): (r: Option<nat>)
    ensures r.Some? ==> r.value < |x| && !IsIntegral(x[r.value])
    ensures r.Some? ==> forall k :: 0 <= k < r.value ==> IsIntegral(x[k])
    ensures r.None? <==> AllIntegral(x)
  {
    if |x| == 0 then None
    else if !IsIntegral(x[0]) then Some(0)
    else match FirstFractional(x[1..])
      case None => None
      case Some(j) => Some(j + 1)
  }

  /** The scan over the relaxation solution: `flag` stays true while every
      value seen is integral, and `index` is the position of the last value
      looked at (-1 before the first). The scan stops at the first fractional
      value. */
  method ScanIntegrality(x: seq<real>) returns (flag: bool, index: int)
    ensures flag <==> AllIntegral(x)
    ensures flag ==> index == |x| - 1
    ensures !flag ==> FirstFractional(x) == Some(index)
  {
    flag := true;
    index := -1;
    var i := 0;
    while i < |x|
      invariant 0 <= i <= |x|
      invariant index == i - 1
      invariant forall k :: 0 <= k < i ==> IsIntegral(x[k])
    {
      index := index + 1;
      if !IsIntegral(x[i]) {
        flag := false;
        break;
      }
      i := i + 1;
    }
    if !flag {
      var r := FirstFractional(x);
      assert r.Some? && r.value == index;
    }
  }
}
