/** interpolatedLookup: piecewise-linear reading of a table at a fractional
    position, clamped at both ends. */
module Lookup {
  import opened Wrappers
  import opened Numeric

  /** The lookup as the source writes it. Reading one entry past the end
      yields `undefined`, and `undefined * 0` is NaN: both are `None`. */
  function LookupAsWritten(value: real, table: seq<real>): (r: Option<real>)
    requires |table| >= 1
    ensures value < 0.0 ==> r == Some(table[0])
    ensures value > (|table| - 1) as real ==> r == Some(table[|table| - 1])
    ensures r.None? <==> value == (|table| - 1) as real
  {
    if value < 0.0 then Some(table[0])
    else if value > (|table| - 1) as real then Some(table[|table| - 1])
    else
      var index := Trunc(value);
      var factor := value - index as real;
      if index + 1 < |table| then Some(table[index] * (1.0 - factor) + table[index + 1] * factor)
      else None
  }

  /** The lookup as intended: the upper clamp also covers the last position
      itself, so no read goes past the end. */
  function Lookup(value: real, table: seq<real>): (r: real)
    requires |table| >= 1
    ensures value < 0.0 ==> r == table[0]
    ensures value >= (|table| - 1) as real ==> r == table[|table| - 1]
    ensures 0.0 <= value < (|table| - 1) as real ==>
      var i := value.Floor;
      0 <= i < |table| - 1 && Between(r, table[i], table[i + 1])
  {
    if value < 0.0 then table[0]
    else if value >= (|table| - 1) as real then table[|table| - 1]
    else
      var index := Trunc(value);
      var factor := value - index as real;
      Interpolate(table[index], table[index + 1], factor)
  }

  /** Linear interpolation between two neighbouring entries. */
  function Interpolate(a: real, b: real, factor: real): (r: real)
    requires 0.0 <= factor < 1.0
    ensures Between(r, a, b)
    ensures factor == 0.0 ==> r == a
  {
    InterpolationBetween(a, b, factor);
    a * (1.0 - factor) + b * factor
  }

  lemma InterpolationBetween(a: real, b: real, factor: real)
    requires 0.0 <= factor <= 1.0
    ensures Between(a * (1.0 - factor) + b * factor, a, b)
  {
    var d := b - a;
    assert a * (1.0 - factor) + b * factor == a + d * factor;
    if d >= 0.0 {
      MulMono(d, 0.0, factor);
      MulMono(d, factor, 1.0);
    } else {
      MulMono(-d, 0.0, factor);
      MulMono(-d, factor, 1.0);
      assert (-d) * factor == -(d * factor);
    }
  }

  /** At an integral position inside the table the entry itself is returned. */
  lemma LookupAtIndex(table: seq<real>, i: nat)
    requires i < |table|
    ensures Lookup(i as real, table) == table[i]
  {
  }

  /** Both versions agree everywhere except at the last position, where the
      source reads past the end. */
  lemma LookupAgreesAwayFromEnd(value: real, table: seq<real>)
    requires |table| >= 1 && value != (|table| - 1) as real
    ensures LookupAsWritten(value, table) == Some(Lookup(value, table))
  {
  }

  /** The smallest failing input: a two-entry table read at position 1. */
  lemma LookupAsWrittenPastEnd()
    ensures LookupAsWritten(1.0, [0.0, 1.0]).None?
    ensures Lookup(1.0, [0.0, 1.0]) == 1.0
  {
  }

  predicate NonDecreasing(table: seq<real>) {
    forall i, j :: 0 <= i <= j < |table| ==> table[i] <= table[j]
  }

  /** On a non-decreasing table every lookup lies between the first and the
      last entry. */
  lemma LookupWithinSortedTable(value: real, table: seq<real>)
    requires |table| >= 1 && NonDecreasing(table)
    ensures table[0] <= Lookup(value, table) <= table[|table| - 1]
  {
    if 0.0 <= value < (|table| - 1) as real {
      var i := value.Floor;
      assert table[0] <= table[i] && table[i + 1] <= table[|table| - 1];
    }
  }

  /** On a non-decreasing table the lookup is non-decreasing in the position:
      a slider moved up never reads a smaller entry. */
  lemma LookupMonotone(a: real, b: real, table: seq<real>)
    requires |table| >= 1 && NonDecreasing(table) && a <= b
    ensures Lookup(a, table) <= Lookup(b, table)
  {
    LookupWithinSortedTable(a, table);
    LookupWithinSortedTable(b, table);
    if 0.0 <= a && b < (|table| - 1) as real {
      var i, j := a.Floor, b.Floor;
      if i < j {
        assert Lookup(a, table) <= table[i + 1] <= table[j] <= Lookup(b, table);
      } else {
        SameCellMonotone(table[i], table[i + 1], a - i as real, b - i as real);
      }
    }
  }

  /** Inside one cell of a rising segment the interpolation rises with the
      position. */
  lemma SameCellMonotone(lo: real, hi: real, fa: real, fb: real)
    requires lo <= hi && 0.0 <= fa <= fb < 1.0
    ensures Interpolate(lo, hi, fa) <= Interpolate(lo, hi, fb)
  {
    var d := hi - lo;
    assert Interpolate(lo, hi, fa) == lo + d * fa;
    assert Interpolate(lo, hi, fb) == lo + d * fb;
    MulMono(d, fa, fb);
  }
}
