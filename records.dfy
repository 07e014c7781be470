/**
 * One CORSIKA Cherenkov output record, seen as the analysis loop sees it: a flat run of
 * floats reshaped into rows of seven columns, cut into 21 equal sub-blocks, each tagged by
 * the first value of its first row. Bunch sub-blocks (|tag| < 100) feed the buffer; rows with
 * any zero entry are padding; the sign of a row's first column tells Cherenkov from
 * fluorescence bunches; a tag strictly between 3300 and 3303 marks the end of the run.
 */
module Records {
  import opened Wrappers
  import opened Seqs

  const ROW_WIDTH: nat := 7
  const SUB_BLOCKS: nat := 21
  /** A sub-block whose tag has magnitude below this holds photon bunches. */
  const BUNCH_TAG_LIMIT: real := 100.0
  /** Bounds of the open interval of run-end tags. */
  const RUN_END_LOW: real := 3300.0
  const RUN_END_HIGH: real := 3303.0

  /**
   * One photon-bunch row, the seven columns of `reshape(-1, 7)`: the signed tag (bunch size,
   * positive for Cherenkov and negative for fluorescence bunches), position x and y,
   * direction cosines u and v, arrival time and production height.
   */
  datatype Row = Row(tag: real, x: real, y: real, u: real, v: real, time: real, height: real)

  /** The row's values in column order. */
  function Columns(r: Row): (vs: seq<real>)
    ensures |vs| == ROW_WIDTH && vs[0] == r.tag
  {
    [r.tag, r.x, r.y, r.u, r.v, r.time, r.height]
  }

  /** The rows' values, row after row (`ravel`). */
  function Values(rows: seq<Row>): (vs: seq<real>)
    ensures |vs| == ROW_WIDTH * |rows|
  {
    if rows == [] then [] else Columns(rows[0]) + Values(rows[1..])
  }

  /** Flattening two runs of rows stacks their values in the same order. */
  lemma {:induction false} ValuesAppend(a: seq<Row>, b: seq<Row>)
    ensures Values(a + b) == Values(a) + Values(b)
  {
    if a == [] {
      assert a + b == b;
    } else {
      assert (a + b)[0] == a[0];
      assert (a + b)[1..] == a[1..] + b;
      ValuesAppend(a[1..], b);
    }
  }

  /** One sub-block of a record: a run of consecutive rows. */
  type Block = seq<Row>

  function Abs(x: real): (a: real)
    ensures a >= 0.0 && (a == x || a == -x)
  {
    if x < 0.0 then -x else x
  }

  /** The rows of a record whose length is a multiple of the row width (`reshape(-1, 7)`). */
  function Rows(flat: seq<real>): seq<Row>
    requires |flat| % ROW_WIDTH == 0
    decreases |flat|
  {
    if |flat| == 0 then []
    else [Row(flat[0], flat[1], flat[2], flat[3], flat[4], flat[5], flat[6])] + Rows(flat[ROW_WIDTH..])
  }

  /** Reshaping keeps every value in place: one row per seven values, flattening back to the record. */
  lemma {:induction false} RowsSpec(flat: seq<real>)
    requires |flat| % ROW_WIDTH == 0
    ensures |Rows(flat)| == |flat| / ROW_WIDTH
    ensures Values(Rows(flat)) == flat
    decreases |flat|
  {
    if |flat| > 0 {
      RowsSpec(flat[ROW_WIDTH..]);
      assert Columns(Rows(flat)[0]) == flat[..ROW_WIDTH];
      assert flat == flat[..ROW_WIDTH] + flat[ROW_WIDTH..];
    }
  }

  lemma MulPred(n: nat, k: nat)
    requires n > 0
    ensures n * k == (n - 1) * k + k
  {
  }

  /** `n` consecutive blocks of `k` rows each (`np.split(rows, n)` when `k * n` rows are given). */
  function Chunks(rows: seq<Row>, n: nat, k: nat): seq<Block>
    requires |rows| == n * k
    decreases n
  {
    if n == 0 then []
    else
      MulPred(n, k);
      [rows[..k]] + Chunks(rows[k..], n - 1, k)
  }

  /** The split gives `n` blocks of `k` rows which, stacked, are the rows again. */
  lemma {:induction false} ChunksSpec(rows: seq<Row>, n: nat, k: nat)
    requires |rows| == n * k
    ensures |Chunks(rows, n, k)| == n
    ensures forall i :: 0 <= i < n ==> |Chunks(rows, n, k)[i]| == k
    ensures Concat(Chunks(rows, n, k)) == rows
    decreases n
  {
    if n > 0 {
      MulPred(n, k);
      ChunksSpec(rows[k..], n - 1, k);
      var blocks := Chunks(rows, n, k);
      assert blocks == [rows[..k]] + Chunks(rows[k..], n - 1, k);
      assert forall i :: 1 <= i < n ==> blocks[i] == Chunks(rows[k..], n - 1, k)[i - 1];
      assert rows == rows[..k] + rows[k..];
    }
  }

  /** The 21 sub-blocks of a record, or the error NumPy raises; SubBlocksSpec states which. */
  function SubBlocks(flat: seq<real>): Result<seq<Block>, Error>
  {
    if |flat| % ROW_WIDTH != 0 then Failure(MisalignedRecord)
    else
      var rows := Rows(flat);
      if |rows| % SUB_BLOCKS != 0 then Failure(UnevenSplit)
      else Success(Chunks(rows, SUB_BLOCKS, |rows| / SUB_BLOCKS))
  }

  /**
   * The reshape fails unless the value count is a multiple of 7 and the split fails unless
   * the row count is a multiple of 21; otherwise there are 21 sub-blocks of equal length
   * which, stacked and flattened, give back the record, and every sub-block has a first row
   * exactly when the record is not empty.
   */
  lemma SubBlocksSpec(flat: seq<real>)
    ensures SubBlocks(flat).Success? <==>
      |flat| % ROW_WIDTH == 0 && (|flat| / ROW_WIDTH) % SUB_BLOCKS == 0
    ensures |flat| % ROW_WIDTH != 0 ==> SubBlocks(flat) == Failure(MisalignedRecord)
    ensures |flat| % ROW_WIDTH == 0 && (|flat| / ROW_WIDTH) % SUB_BLOCKS != 0 ==>
      SubBlocks(flat) == Failure(UnevenSplit)
    ensures SubBlocks(flat).Success? ==>
      var blocks := SubBlocks(flat).value;
      && |blocks| == SUB_BLOCKS
      && (forall i :: 0 <= i < SUB_BLOCKS ==> |blocks[i]| == |flat| / ROW_WIDTH / SUB_BLOCKS)
      && Values(Concat(blocks)) == flat
      && (Tagged(blocks) <==> |flat| > 0)
  {
    if |flat| % ROW_WIDTH == 0 {
      RowsSpec(flat);
      var rows := Rows(flat);
      if |rows| % SUB_BLOCKS == 0 {
        ChunksSpec(rows, SUB_BLOCKS, |rows| / SUB_BLOCKS);
        var blocks := SubBlocks(flat).value;
        if |flat| == 0 {
          assert |blocks[0]| == 0;
        }
      }
    }
  }

  /** A record of 7 * 21 * k values, k > 0, splits into 21 sub-blocks of exactly k rows. */
  lemma SubBlocksOfMultiple(flat: seq<real>, k: nat)
    requires k > 0 && |flat| == ROW_WIDTH * SUB_BLOCKS * k
    ensures SubBlocks(flat).Success? && |SubBlocks(flat).value| == SUB_BLOCKS
    ensures Tagged(SubBlocks(flat).value)
    ensures forall i :: 0 <= i < SUB_BLOCKS ==> |SubBlocks(flat).value[i]| == k
  {
    assert |flat| == 7 * (21 * k);
    assert |flat| / ROW_WIDTH == 21 * k;
    SubBlocksSpec(flat);
  }

  /** Every block has a first row, so its tag can be read. */
  predicate Tagged(blocks: seq<Block>)
  {
    forall i :: 0 <= i < |blocks| ==> |blocks[i]| > 0
  }

  /** The first column of a block's first row. */
  function Tag(b: Block): real
    requires |b| > 0
  {
    b[0].tag
  }

  predicate IsBunchBlock(b: Block)
    requires |b| > 0
  {
    Abs(Tag(b)) < BUNCH_TAG_LIMIT
  }

  predicate IsRunEndTag(t: real)
  {
    RUN_END_LOW < t < RUN_END_HIGH
  }

  /** A run-end tag is never a bunch tag, so a run-end block never feeds the buffer. */
  lemma RunEndBlockIsNotBunch(b: Block)
    requires |b| > 0 && IsRunEndTag(Tag(b))
    ensures !IsBunchBlock(b)
  {
  }

  /** Whether any sub-block, bunch block or not, carries the run-end tag. */
  predicate HasRunEnd(blocks: seq<Block>)
    requires Tagged(blocks)
  {
    exists i :: 0 <= i < |blocks| && IsRunEndTag(Tag(blocks[i]))
  }

  /** The rows of the bunch blocks, stacked in block order (`compress` by the tag mask). */
  function Compress(blocks: seq<Block>): (rows: seq<Row>)
    requires Tagged(blocks)
  {
    if blocks == [] then []
    else (if IsBunchBlock(blocks[0]) then blocks[0] else []) + Compress(blocks[1..])
  }

  /** A row is compressed exactly when some bunch block holds it. */
  lemma {:induction false} CompressMembers(blocks: seq<Block>)
    requires Tagged(blocks)
    ensures forall row :: row in Compress(blocks) <==>
      exists i :: 0 <= i < |blocks| && IsBunchBlock(blocks[i]) && row in blocks[i]
  {
    if blocks != [] {
      CompressMembers(blocks[1..]);
      assert forall i :: 1 <= i < |blocks| ==> blocks[i] == blocks[1..][i - 1];
    }
  }

  /** Compressing two runs of blocks stacks the results in the same order. */
  lemma {:induction false} CompressAppend(a: seq<Block>, b: seq<Block>)
    requires Tagged(a) && Tagged(b)
    ensures Tagged(a + b)
    ensures Compress(a + b) == Compress(a) + Compress(b)
  {
    if a == [] {
      assert a + b == b;
    } else {
      var ab := a + b;
      assert ab[0] == a[0] && ab[1..] == a[1..] + b;
      CompressAppend(a[1..], b);
    }
  }

  /**
   * The bunch rows of a record, or NoBunchBlock when no sub-block qualifies: stacking an
   * empty selection raises in the source.
   */
  function SelectBunchRows(blocks: seq<Block>): Result<seq<Row>, Error>
    requires Tagged(blocks)
  {
    var rows := Compress(blocks);
    if rows == [] then Failure(NoBunchBlock) else Success(rows)
  }

  /** Every block has a row, so nothing is compressed exactly when no block is a bunch block. */
  lemma {:induction false} CompressEmpty(blocks: seq<Block>)
    requires Tagged(blocks)
    ensures Compress(blocks) == [] <==> forall i :: 0 <= i < |blocks| ==> !IsBunchBlock(blocks[i])
  {
    if blocks != [] {
      CompressEmpty(blocks[1..]);
      assert forall i :: 1 <= i < |blocks| ==> blocks[i] == blocks[1..][i - 1];
    }
  }

  /** Stacking fails, with NoBunchBlock, exactly when no sub-block is a bunch block. */
  lemma SelectBunchRowsSpec(blocks: seq<Block>)
    requires Tagged(blocks)
    ensures SelectBunchRows(blocks).Failure? <==> forall i :: 0 <= i < |blocks| ==> !IsBunchBlock(blocks[i])
    ensures SelectBunchRows(blocks).Failure? ==> SelectBunchRows(blocks).error == NoBunchBlock
    ensures SelectBunchRows(blocks).Success? ==> SelectBunchRows(blocks).value == Compress(blocks)
  {
    CompressEmpty(blocks);
  }

  /** The selected rows are exactly the rows of the bunch blocks. */
  lemma BunchRowsMembers(blocks: seq<Block>)
    requires Tagged(blocks) && SelectBunchRows(blocks).Success?
    ensures forall row :: row in SelectBunchRows(blocks).value <==>
      exists i :: 0 <= i < |blocks| && IsBunchBlock(blocks[i]) && row in blocks[i]
  {
    CompressMembers(blocks);
  }

  /** What one record contributes: its bunch rows and whether it ends the run. */
  datatype Parsed = Parsed(rows: seq<Row>, runEnd: bool)

  /** Split, classify and select one record (the pure part of one loop iteration). */
  function Classify(flat: seq<real>): Result<Parsed, Error>
  {
    var blocks :- SubBlocks(flat);
    if !Tagged(blocks) then Failure(EmptySubBlock)
    else
    var rows :- SelectBunchRows(blocks);
    Success(Parsed(rows, HasRunEnd(blocks)))
  }

  /**
   * The errors of one record, each exactly when it occurs, in the order the loop meets them:
   * a misaligned reshape, an uneven split, an empty record whose sub-blocks have no first row
   * to read a tag from, and a record without a bunch sub-block. Otherwise the record's rows
   * are exactly the rows of its bunch sub-blocks.
   */
  lemma ClassifySpec(flat: seq<real>)
    ensures Classify(flat) == Failure(MisalignedRecord) <==> |flat| % ROW_WIDTH != 0
    ensures Classify(flat) == Failure(UnevenSplit) <==>
      |flat| % ROW_WIDTH == 0 && (|flat| / ROW_WIDTH) % SUB_BLOCKS != 0
    ensures Classify(flat) == Failure(EmptySubBlock) <==> flat == []
    ensures Classify(flat) == Failure(NoBunchBlock) <==>
      && SubBlocks(flat).Success? && Tagged(SubBlocks(flat).value)
      && forall i :: 0 <= i < |SubBlocks(flat).value| ==> !IsBunchBlock(SubBlocks(flat).value[i])
    ensures Classify(flat).Failure? ==>
      Classify(flat).error in {MisalignedRecord, UnevenSplit, EmptySubBlock, NoBunchBlock}
    ensures Classify(flat).Success? ==>
      && SubBlocks(flat).Success? && Tagged(SubBlocks(flat).value)
      && Classify(flat).value.rows == Compress(SubBlocks(flat).value)
      && Classify(flat).value.runEnd == HasRunEnd(SubBlocks(flat).value)
      && forall row :: row in Classify(flat).value.rows <==>
        exists i :: 0 <= i < |SubBlocks(flat).value| && IsBunchBlock(SubBlocks(flat).value[i])
                    && row in SubBlocks(flat).value[i]
  {
    SubBlocksSpec(flat);
    var split := SubBlocks(flat);
    if split.Success? && Tagged(split.value) {
      SelectBunchRowsSpec(split.value);
      if SelectBunchRows(split.value).Success? {
        BunchRowsMembers(split.value);
      }
    }
  }

  /** A record parses exactly when it is non-empty, splits evenly and has a bunch sub-block. */
  lemma ClassifyParses(flat: seq<real>)
    ensures Classify(flat).Success? <==>
      && flat != [] && |flat| % ROW_WIDTH == 0 && (|flat| / ROW_WIDTH) % SUB_BLOCKS == 0
      && SubBlocks(flat).Success?
      && exists i :: 0 <= i < |SubBlocks(flat).value| && |SubBlocks(flat).value[i]| > 0
                     && IsBunchBlock(SubBlocks(flat).value[i])
  {
    ClassifySpec(flat);
    SubBlocksSpec(flat);
  }

  /** A record after which the loop goes on reading. */
  predicate Continues(flat: seq<real>)
  {
    Classify(flat).Success? && !Classify(flat).value.runEnd
  }

  /** A row with no zero entry; any other row is padding. */
  predicate NonZero(r: Row)
  {
    r.tag != 0.0 && r.x != 0.0 && r.y != 0.0 && r.u != 0.0 && r.v != 0.0 && r.time != 0.0
    && r.height != 0.0
  }

  predicate IsCherenkov(r: Row) { r.tag > 0.0 }

  predicate IsFluorescence(r: Row) { r.tag < 0.0 }

  /** The boolean masks the loop applies to bunch rows. */
  datatype Mask = ZeroFree | CherenkovOnly | FluorescenceOnly

  predicate Keeps(m: Mask, r: Row)
  {
    match m
    case ZeroFree => NonZero(r)
    case CherenkovOnly => IsCherenkov(r)
    case FluorescenceOnly => IsFluorescence(r)
  }

  /** Every row passes the mask. */
  predicate AllKeep(m: Mask, rows: seq<Row>)
  {
    rows == [] || (Keeps(m, rows[0]) && AllKeep(m, rows[1..]))
  }

  /** AllKeep is the element-wise statement: every member passes the mask. */
  lemma {:induction false} AllKeepMembers(m: Mask, rows: seq<Row>)
    ensures AllKeep(m, rows) <==> forall r :: r in rows ==> Keeps(m, r)
  {
    if rows != [] {
      AllKeepMembers(m, rows[1..]);
      assert forall r :: r in rows <==> r == rows[0] || r in rows[1..];
    }
  }

  /** Two runs of rows all pass the mask exactly when their concatenation does. */
  lemma {:induction false} AllKeepAppend(m: Mask, a: seq<Row>, b: seq<Row>)
    ensures AllKeep(m, a + b) <==> AllKeep(m, a) && AllKeep(m, b)
  {
    if a == [] {
      assert a + b == b;
    } else {
      assert (a + b)[0] == a[0];
      assert (a + b)[1..] == a[1..] + b;
      AllKeepAppend(m, a[1..], b);
    }
  }

  /** The rows that pass the mask, in their original order (`rows[mask]`). */
  function Select(m: Mask, rows: seq<Row>): (kept: seq<Row>)
    ensures |kept| <= |rows|
    ensures AllKeep(m, kept)
  {
    if rows == [] then []
    else
      var rest := Select(m, rows[1..]);
      if Keeps(m, rows[0]) then [rows[0]] + rest else rest
  }

  /** A row is selected exactly when it is one of the rows and passes the mask. */
  lemma {:induction false} SelectMembers(m: Mask, rows: seq<Row>)
    ensures forall r :: r in Select(m, rows) <==> r in rows && Keeps(m, r)
  {
    if rows != [] {
      SelectMembers(m, rows[1..]);
      assert forall r :: r in rows <==> r == rows[0] || r in rows[1..];
    }
  }

  /** Masking commutes with stacking: masking a stacked array masks each part in place. */
  lemma {:induction false} SelectAppend(m: Mask, a: seq<Row>, b: seq<Row>)
    ensures Select(m, a + b) == Select(m, a) + Select(m, b)
  {
    if a == [] {
      assert a + b == b;
    } else {
      assert (a + b)[0] == a[0];
      assert (a + b)[1..] == a[1..] + b;
      SelectAppend(m, a[1..], b);
    }
  }

  /** A mask that every row passes changes nothing. */
  lemma {:induction false} SelectKeepsAll(m: Mask, rows: seq<Row>)
    requires AllKeep(m, rows)
    ensures Select(m, rows) == rows
  {
    if rows != [] {
      SelectKeepsAll(m, rows[1..]);
    }
  }

  function DropZeroRows(rows: seq<Row>): seq<Row>
  {
    Select(ZeroFree, rows)
  }

  /** A row is nonzero exactly when none of its seven values is zero. */
  lemma NonZeroColumns(r: Row)
    ensures NonZero(r) <==> forall k :: 0 <= k < ROW_WIDTH ==> Columns(r)[k] != 0.0
  {
    var vs := Columns(r);
    assert vs[1] == r.x && vs[2] == r.y && vs[3] == r.u && vs[4] == r.v;
    assert vs[5] == r.time && vs[6] == r.height;
  }

  /**
   * A row survives the zero filter exactly when it is one of the rows and all seven of its
   * values are nonzero: a single zero entry, the tag included, drops the row.
   */
  lemma DropZeroRowsMembers(rows: seq<Row>)
    ensures forall r :: r in DropZeroRows(rows) <==>
      r in rows && forall k :: 0 <= k < ROW_WIDTH ==> Columns(r)[k] != 0.0
  {
    SelectMembers(ZeroFree, rows);
    forall r: Row {
      NonZeroColumns(r);
    }
  }

  /**
   * Re-filtering the whole buffer after appending equals filtering only the new rows,
   * when the rows already held are free of zeros.
   */
  lemma DropZeroRowsOfBuffer(held: seq<Row>, incoming: seq<Row>)
    requires AllKeep(ZeroFree, held)
    ensures DropZeroRows(held + incoming) == held + DropZeroRows(incoming)
  {
    SelectAppend(ZeroFree, held, incoming);
    SelectKeepsAll(ZeroFree, held);
  }

  /** The Cherenkov rows (`bunches[bunches[:, 0] > 0]`). */
  function Cherenkov(rows: seq<Row>): seq<Row>
  {
    Select(CherenkovOnly, rows)
  }

  /** The fluorescence rows (`bunches[bunches[:, 0] < 0]`). */
  function Fluorescence(rows: seq<Row>): seq<Row>
  {
    Select(FluorescenceOnly, rows)
  }

  /**
   * On zero-free rows the two species are disjoint and together hold every row exactly as
   * often as the rows do.
   */
  lemma {:induction false} PartitionBySign(rows: seq<Row>)
    requires AllKeep(ZeroFree, rows)
    ensures forall r :: !(r in Cherenkov(rows) && r in Fluorescence(rows))
    ensures multiset(Cherenkov(rows)) + multiset(Fluorescence(rows)) == multiset(rows)
  {
    SelectMembers(CherenkovOnly, rows);
    SelectMembers(FluorescenceOnly, rows);
    if rows != [] {
      var h, t := rows[0], rows[1..];
      PartitionBySign(t);
      assert rows == [h] + t;
      assert multiset(rows) == multiset{h} + multiset(t);
      if IsCherenkov(h) {
        assert multiset(Cherenkov(rows)) == multiset{h} + multiset(Cherenkov(t));
        assert Fluorescence(rows) == Fluorescence(t);
      } else {
        assert Cherenkov(rows) == Cherenkov(t);
        assert multiset(Fluorescence(rows)) == multiset{h} + multiset(Fluorescence(t));
      }
    }
  }
}
