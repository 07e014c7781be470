/**
 * The record loop of the analysis: a counter, a buffer of bunch rows and two histogram
 * accumulators, updated record by record; every tenth record and once more at run end the
 * buffer is split by species, binned and added into the accumulators.
 */
module Pipeline {
  import opened Wrappers
  import opened Seqs
  import opened Records
  import opened Geometry
  import opened Histogram

  /** Records absorbed between two flushes. */
  const FLUSH_EVERY: nat := 10

  /** Every row of every batch passes the mask. */
  ghost predicate AllRows(batches: seq<seq<Row>>, m: Mask)
  {
    AllKeep(m, Concat(batches))
  }

  /**
   * One species' accumulator is the sum of its batches' bins, and the batches, stacked, are
   * exactly that species' committed rows in order.
   */
  ghost predicate Accounted(m: Mask, bin: Binner, p: BinParams, numbins: nat,
                            hist: Matrix, batches: seq<seq<Row>>, committed: seq<Row>)
  {
    && hist == SumBins(bin, p, numbins, batches)
    && Concat(batches) == Select(m, committed)
  }

  /** Binning one more batch of the species keeps the accounts of the longer committed prefix. */
  lemma CommitStep(m: Mask, bin: Binner, p: BinParams, numbins: nat,
                   hist: Matrix, batches: seq<seq<Row>>, committed: seq<Row>, buffer: seq<Row>)
    requires Accounted(m, bin, p, numbins, hist, batches, committed)
    ensures Accounted(m, bin, p, numbins, Add(hist, bin(Select(m, buffer), p)),
                      batches + [Select(m, buffer)], committed + buffer)
  {
    var c := Select(m, buffer);
    SumBinsSnoc(bin, p, numbins, batches, c);
    ConcatSnoc(batches, c);
    SelectAppend(m, committed, buffer);
  }

  /** What an accumulator in good standing tells a reader: its sum, and that its rows all pass the mask. */
  lemma AccountedRows(m: Mask, bin: Binner, p: BinParams, numbins: nat,
                      hist: Matrix, batches: seq<seq<Row>>, committed: seq<Row>)
    requires Accounted(m, bin, p, numbins, hist, batches, committed)
    ensures hist == SumBins(bin, p, numbins, batches)
    ensures Concat(batches) == Select(m, committed)
    ensures AllRows(batches, m)
  {
  }

  class BunchPipeline {
    const geometry: Geometry
    const params: BinParams
    const bin: Binner
    /** Bins per accumulator row, fixed by the geometry. */
    const numbins: nat

    var count: nat
    var buffer: seq<Row>
    var histC: Matrix
    var histF: Matrix
    var done: bool

    /** Every batch handed to the binning routine for the Cherenkov (resp. fluorescence) sum. */
    ghost var batchesC: seq<seq<Row>>
    ghost var batchesF: seq<seq<Row>>
    /** Every zero-free bunch row absorbed so far, and the prefix of it already flushed. */
    ghost var absorbed: seq<Row>
    ghost var committed: seq<Row>

    /** What holds at every point of a record, including mid-flush. */
    ghost predicate Sound()
      reads this
    {
      && Accounted(CherenkovOnly, bin, params, numbins, histC, batchesC, committed)
      && Accounted(FluorescenceOnly, bin, params, numbins, histF, batchesF, committed)
      && AllKeep(ZeroFree, absorbed)
    }

    /** What holds whenever a flush is not under way: the buffer is the unflushed tail. */
    ghost predicate Buffered()
      reads this
    {
      && Sound()
      && AllKeep(ZeroFree, buffer)
      && absorbed == committed + (if done then [] else buffer)
    }

    /** What holds between records. */
    ghost predicate Valid()
      reads this
    {
      && Buffered()
      && count < FLUSH_EVERY
      && (count == 0 ==> buffer == [])
    }

    constructor (geometry: Geometry, params: BinParams, bin: Binner)
      requires ShapedBinner(bin, params, geometry.numbins)
      ensures Valid() && !done
      ensures this.numbins == geometry.numbins
      ensures this.geometry == geometry && this.params == params && this.bin == bin
      ensures count == 0 && buffer == []
      ensures histC == Zeros(numbins) && histF == Zeros(numbins)
      ensures batchesC == [] && batchesF == [] && absorbed == []
    {
      this.geometry, this.params, this.bin := geometry, params, bin;
      count, buffer, done := 0, [], false;
      numbins := geometry.numbins;
      histC := Zeros(geometry.numbins);
      histF := Zeros(geometry.numbins);
      batchesC, batchesF, absorbed, committed := [], [], [], [];
    }

    /** Bin the buffer's Cherenkov and fluorescence rows and add the results to the sums. */
    method Commit()
      requires Sound()
      modifies this
      ensures Sound()
      ensures batchesC == old(batchesC) + [Cherenkov(buffer)]
      ensures batchesF == old(batchesF) + [Fluorescence(buffer)]
      ensures committed == old(committed) + buffer
      ensures unchanged(this`count, this`buffer, this`done, this`absorbed)
    {
      var c, f := Cherenkov(buffer), Fluorescence(buffer);
      ghost var oldC, oldF, oldCommitted := batchesC, batchesF, committed;
      histC := Add(histC, bin(c, params));
      histF := Add(histF, bin(f, params));
      batchesC, batchesF := batchesC + [c], batchesF + [f];
      committed := committed + buffer;
      assert Sound() by {
        CommitStep(CherenkovOnly, bin, params, numbins, old(histC), oldC, oldCommitted, buffer);
        CommitStep(FluorescenceOnly, bin, params, numbins, old(histF), oldF, oldCommitted, buffer);
      }
    }

    /** Stack a record's bunch rows under the buffer and drop every buffered row holding a zero. */
    method Absorb(rows: seq<Row>)
      requires Valid() && !done
      modifies this
      ensures Buffered() && !done
      ensures count == old(count) + 1
      ensures buffer == old(buffer) + DropZeroRows(rows)
      ensures absorbed == old(absorbed) + DropZeroRows(rows)
      ensures unchanged(this`histC, this`histF, this`batchesC, this`batchesF, this`committed)
    {
      count := count + 1;
      DropZeroRowsOfBuffer(buffer, rows);
      ghost var incoming := DropZeroRows(rows);
      AllKeepAppend(ZeroFree, absorbed, incoming);
      buffer := DropZeroRows(buffer + rows);
      absorbed := absorbed + incoming;
      assert absorbed == committed + buffer;
    }

    /** The ten-record flush: bin both species, then reset the counter and the buffer. */
    method Flush()
      requires Buffered() && !done
      modifies this
      ensures Valid() && !done
      ensures count == 0 && buffer == []
      ensures batchesC == old(batchesC) + [Cherenkov(old(buffer))]
      ensures batchesF == old(batchesF) + [Fluorescence(old(buffer))]
      ensures absorbed == old(absorbed)
    {
      Commit();
      count := 0;
      buffer := [];
    }

    /** The run-end flush: bin whatever the buffer holds, then stop. */
    method Finish()
      requires Valid() && !done
      modifies this
      ensures Valid() && done
      ensures count == old(count) && buffer == old(buffer)
      ensures batchesC == old(batchesC) + [Cherenkov(buffer)]
      ensures batchesF == old(batchesF) + [Fluorescence(buffer)]
      ensures absorbed == old(absorbed)
    {
      if count < FLUSH_EVERY {
        Commit();
      }
      done := true;
    }

    /**
     * Absorb one record: append its bunch rows, drop rows holding a zero, flush on the tenth
     * record, and flush once more and stop when a sub-block carries the run-end tag.
     */
    method ProcessRecord(flat: seq<real>, ghost parts: seq<seq<Row>>, ghost g: nat)
      returns (outcome: Outcome<Error>, ghost next: nat)
      requires Valid() && !done
      requires absorbed == Stack(parts, 0, |parts|) && InCadence(parts, g, count, buffer, batchesC, batchesF)
      modifies this
      ensures Valid()
      ensures outcome.Fail? <==> Classify(flat).Failure?
      ensures outcome.Fail? ==> outcome.error == Classify(flat).error && unchanged(this)
      ensures outcome.Pass? ==>
        var parsed := Classify(flat).value;
        var held := old(buffer) + DropZeroRows(parsed.rows);
        var flushed := old(count) + 1 == FLUSH_EVERY;
        var flushedC := if flushed then old(batchesC) + [Cherenkov(held)] else old(batchesC);
        var flushedF := if flushed then old(batchesF) + [Fluorescence(held)] else old(batchesF);
        && absorbed == old(absorbed) + DropZeroRows(parsed.rows)
        && count == (if flushed then 0 else old(count) + 1)
        && buffer == (if flushed then [] else held)
        && done == parsed.runEnd
        && batchesC == (if done then flushedC + [Cherenkov(buffer)] else flushedC)
        && batchesF == (if done then flushedF + [Fluorescence(buffer)] else flushedF)
      ensures outcome.Pass? ==> absorbed == Stack(parts + [Intake(flat)], 0, |parts| + 1)
      ensures outcome.Pass? && !done ==>
        InCadence(parts + [Intake(flat)], next, count, buffer, batchesC, batchesF)
      ensures outcome.Pass? && done ==>
        && batchesC == Flushes(CherenkovOnly, parts + [Intake(flat)])
        && batchesF == Flushes(FluorescenceOnly, parts + [Intake(flat)])
    {
      var parsed: Parsed;
      match Classify(flat) {
        case Failure(e) => return Fail(e), g;
        case Success(p) => parsed := p;
      }
      ghost var count0, held, heldC, heldF := count, buffer, batchesC, batchesF;
      Absorb(parsed.rows);
      if count == FLUSH_EVERY {
        Flush();
      }
      if parsed.runEnd {
        Finish();
      }
      StackSnoc(parts, DropZeroRows(parsed.rows), 0, |parts|);
      next := CadenceNext(parts, DropZeroRows(parsed.rows), g, count0, held, heldC, heldF,
                          count, buffer, batchesC, batchesF, done);
      return Pass, next;
    }

    /**
     * Reading goes on after the records whose zero-free bunch rows are `parts`, `g` groups of
     * ten of which are complete.
     */
    ghost predicate Reading(records: seq<seq<real>>, parts: seq<seq<Row>>, g: nat)
      reads this
    {
      && Valid() && !done
      && ReadAs(records, parts)
      && absorbed == Stack(parts, 0, |parts|)
      && InCadence(parts, g, count, buffer, batchesC, batchesF)
    }

    /** The run ended with the last of the records whose zero-free bunch rows are `parts`. */
    ghost predicate Finished(records: seq<seq<real>>, parts: seq<seq<Row>>)
      reads this
    {
      && Valid() && done
      && ReadAs(records, parts)
      && committed == Stack(parts, 0, |parts|)
      && batchesC == Flushes(CherenkovOnly, parts)
      && batchesF == Flushes(FluorescenceOnly, parts)
    }

    /**
     * Feed records to ProcessRecord until one carries the run-end tag. `consumed` counts the
     * records after which reading went on; on Pass the run-end record is the next one, on a
     * parse error the next one is the bad record, and at the end of the input every record
     * went on.
     */
    method Drain(records: seq<seq<real>>)
      returns (outcome: Outcome<Error>, consumed: nat, ghost parts: seq<seq<Row>>)
      requires Valid() && !done && absorbed == []
      requires count == 0 && batchesC == [] && batchesF == []
      modifies this
      ensures Valid()
      ensures outcome.Pass? <==> done
      ensures consumed <= |records|
      ensures forall i {:trigger Continues(records[i])} :: 0 <= i < consumed ==> Continues(records[i])
      ensures outcome == Fail(UnexpectedEof) ==> consumed == |records|
      ensures outcome.Fail? && outcome.error != UnexpectedEof ==>
        consumed < |records| && Classify(records[consumed]) == Failure(outcome.error)
      ensures outcome.Pass? ==>
        && consumed < |records|
        && Classify(records[consumed]).Success? && Classify(records[consumed]).value.runEnd
        && |parts| == consumed + 1 && ReadAs(records, parts)
        && committed == Stack(parts, 0, |parts|)
        && batchesC == Flushes(CherenkovOnly, parts)
        && batchesF == Flushes(FluorescenceOnly, parts)
    {
      var i := 0;
      parts := [];
      ghost var g := 0;
      while i < |records|
        invariant 0 <= i <= |records| && |parts| == i
        invariant Reading(records, parts, g)
        invariant forall j {:trigger Continues(records[j])} :: 0 <= j < i ==> Continues(records[j])
      {
        outcome, parts, g := ReadRecord(records, i, parts, g);
        if outcome.Fail? {
          return outcome, i, parts;
        }
        if done {
          return Pass, i, parts;
        }
        ContinuesSnoc(records, i);
        i := i + 1;
      }
      return Fail(UnexpectedEof), i, parts;
    }

    /**
     * One pass of the reading loop: process record `i` after records `0..i` were read as
     * `parts`, and extend that account by the new record.
     */
    method ReadRecord(records: seq<seq<real>>, i: nat, ghost parts: seq<seq<Row>>, ghost g: nat)
      returns (outcome: Outcome<Error>, ghost parts': seq<seq<Row>>, ghost g': nat)
      requires i < |records| && |parts| == i && Reading(records, parts, g)
      modifies this
      ensures outcome.Fail? ==>
        && Valid() && !done && outcome.error != UnexpectedEof
        && Classify(records[i]) == Failure(outcome.error)
      ensures outcome.Pass? ==>
        && |parts'| == i + 1
        && Classify(records[i]).Success? && done == Classify(records[i]).value.runEnd
      ensures outcome.Pass? && !done ==> Reading(records, parts', g')
      ensures outcome.Pass? && done ==> Finished(records, parts')
    {
      outcome, g' := ProcessRecord(records[i], parts, g);
      parts' := parts;
      if outcome.Fail? {
        ClassifySpec(records[i]);
        return;
      }
      ReadAsSnoc(records, parts);
      parts' := parts + [Intake(records[i])];
    }
  }

  /** The zero-free bunch rows of a record that classifies. */
  function Intake(flat: seq<real>): seq<Row>
    requires Classify(flat).Success?
  {
    DropZeroRows(Classify(flat).value.rows)
  }

  /**
   * `parts` lists, record by record, the zero-free bunch rows of a prefix of `records`, each
   * record of which classifies.
   */
  ghost predicate ReadAs(records: seq<seq<real>>, parts: seq<seq<Row>>)
    decreases |parts|
  {
    && |parts| <= |records|
    && (parts != [] ==>
          var k := |parts| - 1;
          && ReadAs(records, parts[..k])
          && Classify(records[k]).Success?
          && parts[k] == Intake(records[k]))
  }

  /** Reading one more record that classifies adds its intake as one more entry. */
  lemma ReadAsSnoc(records: seq<seq<real>>, parts: seq<seq<Row>>)
    requires ReadAs(records, parts) && |parts| < |records| && Classify(records[|parts|]).Success?
    ensures ReadAs(records, parts + [Intake(records[|parts|])])
  {
    var longer := parts + [Intake(records[|parts|])];
    assert longer[..|parts|] == parts;
  }

  /** Every entry of a reading is the intake of the record at the same position. */
  lemma {:induction false} ReadAsEntries(records: seq<seq<real>>, parts: seq<seq<Row>>, k: nat)
    requires ReadAs(records, parts) && k < |parts|
    ensures Classify(records[k]).Success? && parts[k] == Intake(records[k])
    decreases |parts|
  {
    if k < |parts| - 1 {
      ReadAsEntries(records, parts[..|parts| - 1], k);
    }
  }

  /** The rows of records `lo` up to (not including) `hi`, stacked in reading order. */
  ghost function Stack(parts: seq<seq<Row>>, lo: nat, hi: nat): seq<Row>
    requires lo <= hi <= |parts|
    decreases hi
  {
    if hi == lo then [] else Stack(parts, lo, hi - 1) + parts[hi - 1]
  }

  /**
   * Reading a further record leaves the stack of any earlier range unchanged, and the stack
   * of a range running to the end gains the record's rows at the bottom.
   */
  lemma {:induction false} StackSnoc(parts: seq<seq<Row>>, part: seq<Row>, lo: nat, hi: nat)
    requires lo <= hi <= |parts|
    ensures Stack(parts + [part], lo, hi) == Stack(parts, lo, hi)
    ensures hi == |parts| ==> Stack(parts + [part], lo, hi + 1) == Stack(parts, lo, hi) + part
    decreases hi
  {
    if hi > lo {
      StackSnoc(parts, part, lo, hi - 1);
    }
  }

  /**
   * The batches of one species from the first `g` complete groups of ten records, given each
   * record's rows in `parts`: one batch per group, holding that species' rows of the group.
   */
  ghost function FullGroups(m: Mask, parts: seq<seq<Row>>, g: nat): seq<seq<Row>>
    requires 10 * g <= |parts|
    decreases g
  {
    if g == 0 then []
    else FullGroups(m, parts, g - 1) + [Select(m, Stack(parts, 10 * (g - 1), 10 * g))]
  }

  /**
   * The batches one species' accumulator receives when the run ends with the last record of
   * `parts`: one per complete group of ten records, then one for the records since the last
   * complete group, which is empty when the record count is a multiple of ten.
   */
  ghost function Flushes(m: Mask, parts: seq<seq<Row>>): seq<seq<Row>>
  {
    var g := |parts| / 10;
    FullGroups(m, parts, g) + [Select(m, Stack(parts, 10 * g, |parts|))]
  }

  /** One batch per complete group of ten records. */
  lemma {:induction false} FullGroupsLength(m: Mask, parts: seq<seq<Row>>, g: nat)
    requires 10 * g <= |parts|
    ensures |FullGroups(m, parts, g)| == g
    decreases g
  {
    if g > 0 {
      FullGroupsLength(m, parts, g - 1);
    }
  }

  /** A run that ends at record `n` bins each species `n / 10 + 1` times. */
  lemma FlushCount(m: Mask, parts: seq<seq<Row>>)
    ensures |Flushes(m, parts)| == |parts| / 10 + 1
  {
    FullGroupsLength(m, parts, |parts| / 10);
  }

  /** Reading a further record leaves the batches of the groups already complete unchanged. */
  lemma {:induction false} FullGroupsSnoc(m: Mask, parts: seq<seq<Row>>, part: seq<Row>, g: nat)
    requires 10 * g <= |parts|
    ensures FullGroups(m, parts + [part], g) == FullGroups(m, parts, g)
    decreases g
  {
    if g > 0 {
      FullGroupsSnoc(m, parts, part, g - 1);
      StackSnoc(parts, part, 10 * (g - 1), 10 * g);
    }
  }

  /**
   * The loop's state after the records whose rows are `parts`, `g` groups of ten of which
   * are complete: the counter and the buffer cover the records since, and each accumulator
   * has received one batch per complete group.
   */
  ghost predicate InCadence(parts: seq<seq<Row>>, g: nat, count: nat, buffer: seq<Row>,
                            batchesC: seq<seq<Row>>, batchesF: seq<seq<Row>>)
  {
    && 10 * g <= |parts|
    && count == |parts| - 10 * g
    && buffer == Stack(parts, 10 * g, |parts|)
    && batchesC == FullGroups(CherenkovOnly, parts, g)
    && batchesF == FullGroups(FluorescenceOnly, parts, g)
  }

  /**
   * One record, with zero-free bunch rows `part`, taken from a state in the cadence to the
   * state that ProcessRecord leaves: either the cadence goes on with `next` complete groups,
   * or the run ends and each accumulator has received exactly the flushes of the records read.
   */
  lemma CadenceNext(parts: seq<seq<Row>>, part: seq<Row>, g: nat,
                    count: nat, buffer: seq<Row>, batchesC: seq<seq<Row>>, batchesF: seq<seq<Row>>,
                    count': nat, buffer': seq<Row>, batchesC': seq<seq<Row>>, batchesF': seq<seq<Row>>,
                    done: bool)
    returns (next: nat)
    requires InCadence(parts, g, count, buffer, batchesC, batchesF) && count < FLUSH_EVERY
    requires
      var held := buffer + part;
      var flushed := count + 1 == FLUSH_EVERY;
      var flushedC := if flushed then batchesC + [Cherenkov(held)] else batchesC;
      var flushedF := if flushed then batchesF + [Fluorescence(held)] else batchesF;
      && count' == (if flushed then 0 else count + 1)
      && buffer' == (if flushed then [] else held)
      && batchesC' == (if done then flushedC + [Cherenkov(buffer')] else flushedC)
      && batchesF' == (if done then flushedF + [Fluorescence(buffer')] else flushedF)
    ensures !done ==> InCadence(parts + [part], next, count', buffer', batchesC', batchesF')
    ensures done ==>
      && batchesC' == Flushes(CherenkovOnly, parts + [part])
      && batchesF' == Flushes(FluorescenceOnly, parts + [part])
  {
    var all := parts + [part];
    FullGroupsSnoc(CherenkovOnly, parts, part, g);
    FullGroupsSnoc(FluorescenceOnly, parts, part, g);
    StackSnoc(parts, part, 10 * g, |parts|);
    if count + 1 == FLUSH_EVERY {
      next := g + 1;
    } else {
      next := g;
    }
    GroupOf(|all|, next);
  }

  /** The group of ten that the `n`-th record falls in, counted from zero. */
  lemma GroupOf(n: nat, g: nat)
    requires 10 * g <= n < 10 * (g + 1)
    ensures n / 10 == g
  {
  }

  /** A record after which the loop goes on extends the run of such records by one. */
  lemma ContinuesSnoc(records: seq<seq<real>>, i: nat)
    requires i < |records| && Continues(records[i])
    requires forall j {:trigger Continues(records[j])} :: 0 <= j < i ==> Continues(records[j])
    ensures forall j {:trigger Continues(records[j])} :: 0 <= j < i + 1 ==> Continues(records[j])
  {
  }

  /** The accumulated histograms and the geometry they were built on. */
  datatype Histograms = Histograms(cherenkov: Matrix, fluorescence: Matrix, geometry: Geometry)

  /**
   * The whole analysis: choose the geometry, then read records until one carries the run-end
   * tag. `consumed` counts the records after which reading went on, so on success the run-end
   * record and on a parse error the bad record is `records[consumed]`; `batchesC` and
   * `batchesF` are the batches binned into each accumulator.
   */
  method Analyse(xExtent: real, yExtent: real, pointingAngle: real, nShow: int, bin: Binner,
                 records: seq<seq<real>>)
    returns (r: Result<Histograms, Error>, consumed: nat, ghost parts: seq<seq<Row>>,
             ghost batchesC: seq<seq<Row>>, ghost batchesF: seq<seq<Row>>)
    requires SelectGeometry(xExtent, yExtent).Success? ==>
      ShapedBinner(bin, BinParams(xExtent, yExtent, pointingAngle, nShow),
                   SelectGeometry(xExtent, yExtent).value.numbins)
    ensures SelectGeometry(xExtent, yExtent).Failure? ==>
      r == Failure(SelectGeometry(xExtent, yExtent).error)
    ensures SelectGeometry(xExtent, yExtent).Failure? ==> consumed == 0
    ensures r == Failure(TooFewBins) <==> SelectGeometry(xExtent, yExtent).Failure?
    ensures consumed <= |records|
    ensures forall i {:trigger Continues(records[i])} :: 0 <= i < consumed ==> Continues(records[i])
    ensures r == Failure(UnexpectedEof) ==> consumed == |records|
    ensures r.Failure? && r.error !in {TooFewBins, UnexpectedEof} ==>
      consumed < |records| && Classify(records[consumed]) == Failure(r.error)
    ensures r.Success? ==>
      && consumed < |records|
      && Classify(records[consumed]).Success? && Classify(records[consumed]).value.runEnd
      && r.value.geometry == SelectGeometry(xExtent, yExtent).value
      && |parts| == consumed + 1 && ReadAs(records, parts)
    ensures r.Success? ==>
      var p, n := BinParams(xExtent, yExtent, pointingAngle, nShow), r.value.geometry.numbins;
      && r.value.cherenkov == SumBins(bin, p, n, batchesC)
      && r.value.fluorescence == SumBins(bin, p, n, batchesF)
      && AllRows(batchesC, CherenkovOnly)
      && AllRows(batchesF, FluorescenceOnly)
      && Concat(batchesC) == Cherenkov(Stack(parts, 0, |parts|))
      && Concat(batchesF) == Fluorescence(Stack(parts, 0, |parts|))
      && batchesC == Flushes(CherenkovOnly, parts)
      && batchesF == Flushes(FluorescenceOnly, parts)
  {
    consumed, parts, batchesC, batchesF := 0, [], [], [];
    var geometry := SelectGeometry(xExtent, yExtent);
    if geometry.Failure? {
      return Failure(geometry.error), consumed, parts, batchesC, batchesF;
    }
    var params := BinParams(xExtent, yExtent, pointingAngle, nShow);
    var pipeline := new BunchPipeline(geometry.value, params, bin);
    var outcome, n;
    outcome, n, parts := pipeline.Drain(records);
    if outcome.Fail? {
      if outcome.error != UnexpectedEof {
        ClassifySpec(records[n]);
      }
      return Failure(outcome.error), n, parts, batchesC, batchesF;
    }
    AccountedRows(CherenkovOnly, bin, params, pipeline.numbins, pipeline.histC, pipeline.batchesC,
                  pipeline.committed);
    AccountedRows(FluorescenceOnly, bin, params, pipeline.numbins, pipeline.histF, pipeline.batchesF,
                  pipeline.committed);
    r := Success(Histograms(pipeline.histC, pipeline.histF, geometry.value));
    return r, n, parts, pipeline.batchesC, pipeline.batchesF;
  }
}
