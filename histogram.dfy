/**
 * The histogram accumulators: 2 x numbins matrices that start at zero and only ever grow by
 * adding the matrix the external binning routine returns for one batch of bunch rows.
 */
module Histogram {
  import opened Seqs
  import opened Records

  /** A dense matrix, row by row. */
  type Matrix = seq<seq<real>>

  /** Rows of the matrix the binning routine returns. */
  const STAT_ROWS: nat := 2

  predicate IsShape(m: Matrix, rows: nat, cols: nat)
  {
    |m| == rows && forall i :: 0 <= i < rows ==> |m[i]| == cols
  }

  /** `np.zeros((2, numbins))`. */
  function Zeros(numbins: nat): (m: Matrix)
    ensures IsShape(m, STAT_ROWS, numbins)
    ensures forall i, j {:trigger m[i][j]} :: 0 <= i < STAT_ROWS && 0 <= j < numbins ==> m[i][j] == 0.0
  {
    seq(STAT_ROWS, _ => seq(numbins, _ => 0.0))
  }

  /**
   * Element-wise sum, keeping the shape of the accumulator `a`. The accumulators are only ever
   * added to matrices of their own shape (see ShapedBinner); on that domain this is NumPy's `+`.
   */
  function Add(a: Matrix, b: Matrix): (s: Matrix)
    ensures |s| == |a| && forall i :: 0 <= i < |a| ==> |s[i]| == |a[i]|
    ensures forall i, j :: 0 <= i < |a| && 0 <= j < |a[i]| && i < |b| && j < |b[i]| ==> s[i][j] == a[i][j] + b[i][j]
  {
    seq(|a|, i requires 0 <= i < |a| =>
      seq(|a[i]|, j requires 0 <= j < |a[i]| => a[i][j] + (if i < |b| && j < |b[i]| then b[i][j] else 0.0)))
  }

  /** The simulation card values and pointing angle handed to the binning routine with each batch. */
  datatype BinParams = BinParams(xExtent: real, yExtent: real, pointingAngle: real, nShow: int)

  /**
   * The binning routine (`histogram.PhotonBunches`), whose source is not part of this model:
   * any function of the batch and the parameters.
   */
  type Binner = (seq<Row>, BinParams) -> Matrix

  /** The routine returns a 2 x numbins matrix for every batch, as the accumulators require. */
  ghost predicate ShapedBinner(bin: Binner, p: BinParams, numbins: nat)
  {
    forall rows :: IsShape(bin(rows, p), STAT_ROWS, numbins)
  }

  /** The accumulator after the given batches were binned and added, in order, to zeros. */
  function SumBins(bin: Binner, p: BinParams, numbins: nat, batches: seq<seq<Row>>): (m: Matrix)
    ensures IsShape(m, STAT_ROWS, numbins)
    decreases |batches|
  {
    if batches == [] then Zeros(numbins)
    else
      var earlier := SumBins(bin, p, numbins, batches[..|batches| - 1]);
      var last := bin(batches[|batches| - 1], p);
      Add(earlier, last)
  }

  /** Adding one more batch's result extends the sum by that batch. */
  lemma SumBinsSnoc(bin: Binner, p: BinParams, numbins: nat, batches: seq<seq<Row>>, batch: seq<Row>)
    ensures SumBins(bin, p, numbins, batches + [batch])
         == Add(SumBins(bin, p, numbins, batches), bin(batch, p))
  {
  }

  /**
   * A routine that returns zeros for no rows and whose result for two stacked batches is the
   * sum of its results for each.
   */
  ghost predicate Additive(bin: Binner, p: BinParams, numbins: nat)
  {
    && bin([], p) == Zeros(numbins)
    && forall a, b :: bin(a + b, p) == Add(bin(a, p), bin(b, p))
  }

  /**
   * For an additive routine, batching is only a regrouping: the sum over any batches equals
   * binning all their rows at once.
   */
  lemma {:induction false} BatchingIsRegrouping(bin: Binner, p: BinParams, numbins: nat, batches: seq<seq<Row>>)
    requires Additive(bin, p, numbins)
    ensures SumBins(bin, p, numbins, batches) == bin(Concat(batches), p)
  {
    if batches != [] {
      var earlier, last := batches[..|batches| - 1], batches[|batches| - 1];
      assert batches == earlier + [last];
      BatchingIsRegrouping(bin, p, numbins, earlier);
      ConcatSnoc(earlier, last);
    }
  }
}
