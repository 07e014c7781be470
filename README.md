# corsika-pyreader: the photon-bunch histogram loop, modelled in Dafny

`test.py` reads a CORSIKA Cherenkov output file one Fortran record at a time and
accumulates two lateral-distribution histograms of photon bunches: one of Cherenkov bunches
(positive bunch size) and one of fluorescence bunches (negative bunch size). This project
models the part of the script that does the work and proves what it promises.

- **Geometry** (`geometry.dfy`). From the detector extents XCERARY and YCERARY (in cm) it
  picks the axis mode: `x` when X is longer, `y` when Y is longer, and radial when they are
  equal. It also fixes the histogram length `maxlen` (half the extent, in metres) and the
  bin count `int(maxlen / 10)`. The two accumulators start as 2 × numbins zero matrices.
- **Records** (`records.dfy`). A record is a flat run of floats. It is reshaped into rows of
  seven columns and split into 21 equal sub-blocks. A sub-block is a bunch block when its
  first value (the tag) has magnitude below 100. The rows of the bunch blocks are stacked
  in order. A tag strictly between 3300 and 3303 in any sub-block marks the end of the run.
  The row filters are the zero filter, which keeps rows with all seven values nonzero, and
  the sign filters, which split Cherenkov rows from fluorescence rows.
- **Histogram sums** (`histogram.dfy`). The accumulators are sums of the per-batch results
  of the binning routine `histogram.PhotonBunches`. That routine is a function parameter.
- **The loop** (`pipeline.dfy`). The class `BunchPipeline` holds the loop's state:
  - the counter;
  - the row buffer;
  - the two accumulators;
  - a stop flag;
  - ghost fields recording every batch handed to the binning routine and every row taken
    in.

  `ProcessRecord` is one iteration. It stacks the new record's bunch rows under the
  buffer and drops zero rows. On the tenth record it flushes: it splits the buffer by
  sign, bins each part, adds the results in, and resets the counter and buffer. On a
  run-end record it flushes once more and stops. `Drain` runs iterations until the run
  ends. `Analyse` is the whole script: geometry first, then the loop.
- `seqs.dfy` holds the flattening of a sequence of sequences. `wrappers.dfy` holds the
  result types and the errors the script can hit.

The class invariant `Valid` states the following:
- the counter stays in 0..9 between records;
- a zero counter means an empty buffer;
- the buffer holds only zero-free rows;
- every row taken in is either already flushed or still in the buffer;
- each accumulator equals the sum of the binning routine's results over its batches;
- the Cherenkov batches, stacked, are exactly the positive-tag rows flushed so far, in
  order, and the fluorescence batches are exactly the negative-tag ones.

## Model

| member | source | states |
|---|---|---|
| Geometry.Trunc | test.py:29 | `int()` truncates toward zero: the result is the integer between zero and the value within distance one |
| Geometry.SelectGeometry | test.py:25-53 | mode `x` iff X > Y, `y` iff X < Y, radial iff equal; maxlen is half the chosen extent in metres (X for `x` and radial, Y for `y`); numbins is at least 1 with numbins·10 ≤ maxlen < (numbins+1)·10; the call fails, with TooFewBins, exactly when the longer half-extent is under one bin |
| Geometry.GeometryExamples | test.py:25-53 | 20000 × 10000 cm gives 10 bins along x over 100 m; swapped gives y; equal gives radial; 200 × 100 cm gives maxlen 1 m and no bin, reported as TooFewBins |
| Histogram.Zeros | test.py:55-56 | a 2 × numbins matrix with every entry 0 |
| Histogram.Add | test.py:103-104 | element-wise sum: same shape as the left operand, each entry the sum of the two entries |
| Histogram.SumBins | test.py:103-104 | the sum of per-batch results, started from 2 × numbins zeros, is 2 × numbins for any routine, because the sum keeps the shape of the accumulator; ShapedBinner is what makes each step agree with NumPy's `+` |
| Histogram.SumBinsSnoc | test.py:103-104 | one more flush adds exactly that batch's binned result to the accumulator |
| Histogram.BatchingIsRegrouping | test.py:90-106 | if the binning routine were additive, the sum over any batching would equal binning all rows at once |
| Seqs.ConcatAppend | test.py:85 | stacking two runs of blocks stacks their rows in order |
| Seqs.ConcatSnoc | test.py:85 | stacking one more block puts its rows after all earlier rows |
| Records.ValuesAppend | test.py:78 | flattening two runs of rows gives the two flat runs one after the other |
| Records.RowsSpec | test.py:78 | `reshape(-1, 7)` gives one row per seven values, and the rows flatten back to the record |
| Records.Rows | test.py:78 | defined by its body; stated by Records.RowsSpec |
| Records.Chunks | test.py:78 | defined by its body; stated by Records.ChunksSpec |
| Records.SubBlocks | test.py:78 | defined by its body; stated by Records.SubBlocksSpec and Records.SubBlocksOfMultiple |
| Records.ChunksSpec | test.py:78 | `np.split` into n parts of k rows gives n blocks, each of k rows, that stack back to the rows |
| Records.SubBlocksSpec | test.py:78 | the split succeeds iff the value count is a multiple of 7 and the row count a multiple of 21; otherwise it fails with MisalignedRecord or UnevenSplit respectively; on success there are 21 equal sub-blocks that stack and flatten back to the record, and they all have a first row iff the record is non-empty |
| Records.SubBlocksOfMultiple | test.py:77-78 | a record of 7·21·k values (k > 0) splits into 21 sub-blocks of exactly k rows each |
| Records.RunEndBlockIsNotBunch | test.py:108 | a sub-block tagged as run end is never a bunch block |
| Records.CompressMembers | test.py:82-85 | a row is selected iff some bunch sub-block holds it |
| Records.CompressAppend | test.py:85 | selecting over two runs of sub-blocks stacks the two selections in block order |
| Records.IsBunchBlock | test.py:82 | defined by its body (tag magnitude below 100); stated by Records.RunEndBlockIsNotBunch and Records.CompressMembers |
| Records.HasRunEnd | test.py:108 | defined by its body (some sub-block's tag strictly between 3300 and 3303); stated by Records.ClassifySpec and Pipeline.BunchPipeline.ProcessRecord |
| Records.Compress | test.py:82-85 | defined by its body; stated by Records.CompressMembers, Records.CompressAppend and Records.CompressEmpty |
| Records.CompressEmpty | test.py:82-85 | nothing is stacked exactly when no sub-block is a bunch block (every sub-block has a row) |
| Records.SelectBunchRows | test.py:85 | defined by its body; stated by Records.SelectBunchRowsSpec and Records.BunchRowsMembers |
| Records.SelectBunchRowsSpec | test.py:82-85 | stacking fails, with NoBunchBlock, exactly when no sub-block is a bunch block; otherwise it yields the stacked bunch rows |
| Records.BunchRowsMembers | test.py:82-85 | the stacked rows are exactly the rows of the bunch sub-blocks |
| Records.Classify | test.py:78-85 | defined by its body; stated by Records.ClassifySpec and Records.ClassifyParses |
| Records.ClassifySpec | test.py:78-85 | each error exactly when NumPy raises it: MisalignedRecord iff the value count is not a multiple of 7, UnevenSplit iff it is but the row count is not a multiple of 21, EmptySubBlock iff the record is empty, NoBunchBlock iff it splits into non-empty sub-blocks none of which is a bunch block; on success its rows are the stacked rows of its bunch sub-blocks, in order, and its run-end flag is set iff some sub-block carries the run-end tag |
| Records.ClassifyParses | test.py:78-85 | a record parses iff it is non-empty, its value count is a multiple of 7, its row count a multiple of 21, and some sub-block is a bunch block |
| Records.AllKeepMembers | test.py:87 | a run of rows passes a mask iff every one of its rows passes it |
| Records.AllKeepAppend | test.py:85-87 | two runs of rows pass a mask iff their stacking does |
| Records.Select | test.py:87 | boolean-mask selection keeps no more rows than it is given, and every row it keeps passes the mask |
| Records.SelectMembers | test.py:87 | a row is selected iff it is one of the rows and passes the mask |
| Records.SelectAppend | test.py:85-87 | masking a stacked array equals stacking the masked parts |
| Records.SelectKeepsAll | test.py:87 | a mask every row passes changes nothing |
| Records.DropZeroRows | test.py:87 | defined by its body; stated by Records.DropZeroRowsMembers and Records.DropZeroRowsOfBuffer |
| Records.NonZeroColumns | test.py:87 | a row is nonzero iff none of its seven values is zero |
| Records.DropZeroRowsMembers | test.py:86-87 | a row survives the zero filter iff it is one of the rows and all seven values are nonzero, so one zero entry, the tag included, drops it |
| Records.DropZeroRowsOfBuffer | test.py:85-87 | re-filtering the whole buffer after stacking equals filtering only the new rows when the held rows are already zero-free |
| Records.PartitionBySign | test.py:87-97 | on zero-free rows the positive-tag and negative-tag selections are disjoint and together hold every row exactly as often as the buffer does |
| Records.Cherenkov | test.py:91 | defined by its body (rows with a positive tag); stated by Records.PartitionBySign and Records.SelectMembers |
| Records.Fluorescence | test.py:97 | defined by its body (rows with a negative tag); stated by Records.PartitionBySign and Records.SelectMembers |
| Pipeline.CommitStep | test.py:91-104 | binning one more split buffer keeps both accounts: the accumulator is the sum over the batches, and the batches stack to the species' rows of everything flushed |
| Pipeline.BunchPipeline.constructor | test.py:55-56 | counter 0, empty buffer, both accumulators 2 × numbins zeros, no batch yet, and the class invariant holds |
| Pipeline.BunchPipeline.Commit | test.py:91-104 | adds the bins of the buffer's Cherenkov rows to `histC` and of its fluorescence rows to `histF`, records those two batches and keeps both accounts; counter, buffer and stop flag are unchanged |
| Pipeline.BunchPipeline.Absorb | test.py:76-87 | counter + 1; the buffer becomes the old buffer followed by the zero-free new rows, and stays zero-free; accumulators untouched |
| Pipeline.BunchPipeline.Flush | test.py:90-106 | the tenth-record flush bins the old buffer by species, then the counter is 0, the buffer is empty and the invariant holds again |
| Pipeline.BunchPipeline.Finish | test.py:108-125 | the run-end flush always bins the buffer (the counter is below 10 here) and stops the loop |
| Pipeline.BunchPipeline.ProcessRecord | test.py:75-125 | one iteration: a record that fails to parse changes nothing and reports its error; otherwise it states the new counter (reset on the tenth record), the new buffer, the stop flag (set iff some sub-block carries the run-end tag) and the batches binned, including an empty final batch when the tenth record also ends the run; the invariant is kept, and so is the cadence: one batch per complete group of ten records read, the counter and buffer covering the records since, and at run end exactly the batches Flushes gives |
| Pipeline.BunchPipeline.Drain | test.py:75-125 | runs iterations until the run ends; every record before the last one went on without ending the run; a parse error names the bad record; running out of records is UnexpectedEof; on run end the rows flushed are exactly the zero-free bunch rows of all records read, in order, and each species received exactly Flushes: one batch per complete group of ten records, then the records since (empty when the count is a multiple of ten) |
| Pipeline.BunchPipeline.ReadRecord | test.py:76-125 | one record read inside the loop: a parse error leaves the loop state valid and names the record's error; otherwise the record is read, the stop flag is its run-end flag, and the loop state either stays in cadence or has finished with exactly the Flushes batches |
| Pipeline.ReadAsSnoc | test.py:76-87 | reading one more record that parses extends the record-by-record intake by its zero-free bunch rows |
| Pipeline.ReadAsEntries | test.py:76-87 | each entry of the intake is the zero-free bunch rows of the record at the same position, which parsed |
| Pipeline.StackSnoc | test.py:85 | a further record leaves every earlier range of records' rows unchanged and adds its rows at the bottom of a range running to the end |
| Pipeline.FullGroupsLength | test.py:90 | one batch per complete group of ten records |
| Pipeline.FlushCount | test.py:90-123 | a run ending at record n bins each species n / 10 + 1 times |
| Pipeline.FullGroupsSnoc | test.py:90-106 | a further record leaves the batches of the groups already complete unchanged |
| Pipeline.CadenceNext | test.py:75-125 | one record taken from a state in the cadence either keeps the cadence (a new group completes exactly on the tenth record) or ends the run with exactly the Flushes batches |
| Pipeline.Analyse | test.py:22-125 | fails with TooFewBins iff the geometry gives no bin, and then before any record is read; otherwise errors are as in Drain; on success each accumulator is the sum of the binning routine over its batches, every Cherenkov batch row has a positive tag and every fluorescence batch row a negative one, the batches stack to exactly the Cherenkov (resp. fluorescence) rows of the zero-free bunch rows of all records read, and the batches are exactly Flushes: one per complete group of ten records and then the remainder |

## Left out

- Reading the binary file with `scipy.io.FortranFile`, `file.close()`, `DataCard.read`,
  `sys.argv` and the `input()` prompt for the pointing angle are I/O. The records, the
  extents, the pointing angle and the shower count are parameters instead. Reading past the
  last record is the error UnexpectedEof.
- `histogram.PhotonBunches` is not part of this model. It is the parameter `bin` of type
  `Binner`, required to return a 2 × numbins matrix. Nothing else is assumed of it: no
  density formula and no additivity (BatchingIsRegrouping only shows what additivity would
  give).
- The bin midpoints `mids` (`np.linspace`), `np.savetxt`, the output file name and the
  `print` calls (test.py:31-33, 128-158) are floating-point presentation and output.
- Values are mathematical reals, not float32. Rounding, NaN and negative zero are not
  modelled. A NaN entry would pass the zero filter in the script; reals have no NaN.
- The debugging counters `lines` and `photons` are never updated and are left out.
- Histogram.Add: does not model NumPy broadcasting or its shape error. The accumulator and
  each batch result both have shape 2 × numbins, by the requirement on `bin`.
- Pipeline.BunchPipeline.Absorb: increments the counter after the record parses, whereas
  the script increments it first (test.py:76). A record that fails to parse ends the script
  with an exception, so the order is invisible.
- The comment at test.py:86 says rows holding only zeros are dropped. The code drops every
  row holding any zero, and the model follows the code.
- The comment at test.py:80 suggests a different bunch-tag limit. The model uses the 100
  the code uses.
- An off-axis pointing angle is read as a string by `input()` and passed on as is. The model
  passes it on as a number, and it only reaches the binning routine.
- Extents of 200 × 100 cm give maxlen = 1 m and `int(0.1) = 0` bins. The bin-edge table
  then has a single entry, so `distances[1]` at test.py:32 raises IndexError. The model
  reports this case as TooFewBins (see Geometry.GeometryExamples).
- The accumulators are values reassigned by the class's methods, as in the script. The
  NumPy arrays' in-place aliasing is not modelled.
- Records.SelectBunchRows: follows the NumPy releases in which `np.vstack` accepts the
  `itertools.compress` iterator passed at test.py:85 and raises ValueError ("need at least
  one array") on an empty selection; NoBunchBlock is that ValueError. NumPy 1.16 deprecated
  non-sequence arguments to the stack functions and later releases reject them with
  TypeError, so on those releases the script fails on its first record; that failure is not
  modelled.
