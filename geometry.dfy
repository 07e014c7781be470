/**
 * Histogram geometry, chosen once from the two detector extents of the simulation card
 * (XCERARY, YCERARY, in centimetres): the histogram runs along the longer axis, or radially
 * when both are equal, over half the extent in metres, in bins of 10 m.
 */
module Geometry {
  import opened Wrappers

  /** Bin width in metres. */
  const BIN_SIZE: real := 10.0

  datatype Axis = AlongX | AlongY | Radial

  datatype Geometry = Geometry(axis: Axis, maxlen: real, numbins: nat)

  /** Python's `int()` on a float: truncation toward zero. */
  function Trunc(x: real): (n: int)
    ensures x >= 0.0 ==> n as real <= x < n as real + 1.0
    ensures x < 0.0 ==> n as real - 1.0 < x <= n as real
  {
    if x >= 0.0 then x.Floor else -((-x).Floor)
  }

  /** Half of an extent given in centimetres, in metres (`1e-2 * extent / 2`). */
  function HalfExtent(extent: real): real
  {
    0.01 * extent / 2.0
  }

  /**
   * The axis mode, the histogram length and the bin count. Fewer than one bin is an error:
   * the bin-edge table then has a single edge or none, and reading its second edge raises.
   */
  function SelectGeometry(xExtent: real, yExtent: real): (r: Result<Geometry, Error>)
    ensures r.Success? ==> (r.value.axis == AlongX <==> xExtent > yExtent)
    ensures r.Success? ==> (r.value.axis == AlongY <==> xExtent < yExtent)
    ensures r.Success? ==> (r.value.axis == Radial <==> xExtent == yExtent)
    ensures r.Success? ==> r.value.maxlen == HalfExtent(if r.value.axis == AlongY then yExtent else xExtent)
    ensures r.Success? ==> r.value.numbins >= 1
    ensures r.Success? ==>
      r.value.numbins as real * BIN_SIZE <= r.value.maxlen < (r.value.numbins + 1) as real * BIN_SIZE
    ensures r.Failure? <==> HalfExtent(if xExtent < yExtent then yExtent else xExtent) < BIN_SIZE
    ensures r.Failure? ==> r.error == TooFewBins
  {
    var axis := if xExtent > yExtent then AlongX else if xExtent < yExtent then AlongY else Radial;
    var maxlen := HalfExtent(if axis == AlongY then yExtent else xExtent);
    var numbins := Trunc(maxlen / BIN_SIZE);
    if numbins < 1 then Failure(TooFewBins) else Success(Geometry(axis, maxlen, numbins))
  }

  /**
   * Extents of 20000 cm by 10000 cm give 10 bins along x over 100 m (and along y, or
   * radially, when swapped or equal); extents of 200 cm by 100 cm give no bin at all.
   */
  lemma GeometryExamples()
    ensures SelectGeometry(20000.0, 10000.0) == Success(Geometry(AlongX, 100.0, 10))
    ensures SelectGeometry(10000.0, 20000.0) == Success(Geometry(AlongY, 100.0, 10))
    ensures SelectGeometry(20000.0, 20000.0) == Success(Geometry(Radial, 100.0, 10))
    ensures SelectGeometry(200.0, 100.0) == Failure(TooFewBins)
  {
  }
}
