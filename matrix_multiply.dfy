/** The driver of the matrix-multiplication sample (MatrixMultiply.java):
    it checks the dimensions, splits B into column blocks and A into row
    blocks, configures the map tasks with the column blocks, runs one
    broadcast round per row block, and appends the row block of C that
    each round's combiner delivers to the output matrix.

    The splitters are modelled as they are written. Their copy loops fill
    local arrays that are then dropped, and index them by the block
    number, so the blocks they return wrap the input's whole array and
    differ only in the recorded dimensions and tag; the copy loop's only
    observable effect is the index error it raises when a non-empty
    block's number runs past the copied matrix's last row (column split)
    or last column (row split). */
module MatrixMultiply {
  import opened Jvm
  import opened Spreading
  import opened Twister

  /** MatrixData: a 2-D array with its recorded height and width and an
      optional row-block or column-block tag; None is a tag never set. */
  datatype MatrixData<T> = MatrixData(data: array2<T>, height: int, width: int, row: Option<int>, col: Option<int>)
  {
    /** The recorded dimensions are the array's own. */
    predicate Wf() {
      data.Length0 == height && data.Length1 == width
    }
  }

  /** Whether appending `block` at row `start` of an `outHeight` × `outWidth`
      matrix stays within the arrays: every cell it reads and writes exists.
      A block with no rows or no columns copies nothing. */
  predicate Fits<T>(outHeight: int, outWidth: int, block: MatrixData<T>, start: int) {
    block.height <= 0 || block.width <= 0 ||
    (0 <= start && start + block.height <= outHeight && block.width <= outWidth &&
     block.height <= block.data.Length0 && block.width <= block.data.Length1)
  }

  /** The block lies within `out` from row `start` on, and its row `k`,
      column `j` is row `start + k`, column `j` of `out`. */
  ghost predicate Placed<T>(out: array2<T>, block: MatrixData<T>, start: int)
    reads out, block.data
  {
    Fits(out.Length0, out.Length1, block, start) &&
    forall k, j :: 0 <= k < block.height && 0 <= j < block.width ==> out[start + k, j] == block.data[k, j]
  }

  /** `appendRowBlockToMatrix`: copies the block's `height` × `width` cells
      into `data` from row `start` on. When a cell is missing the copy
      stops with an index error, leaving the rows written so far. */
  method AppendRowBlockToMatrix<T>(data: array2<T>, rowBlock: MatrixData<T>, start: int) returns (o: Outcome)
    requires rowBlock.data != data
    modifies data
    ensures o == Done <==> Fits(data.Length0, data.Length1, rowBlock, start)
    ensures o.Raised? ==> o.error == ArrayIndexOutOfBoundsException
    ensures o == Done ==> Placed(data, rowBlock, start)
    ensures o == Done ==> forall a, b ::
              (0 <= a < data.Length0 && 0 <= b < data.Length1 &&
               !(start <= a < start + rowBlock.height && b < rowBlock.width)) ==> data[a, b] == old(data[a, b])
    ensures forall a, b :: 0 <= a < data.Length0 && 0 <= b < data.Length1 && a < start ==> data[a, b] == old(data[a, b])
  {
    var width := rowBlock.width;
    var end := rowBlock.height + start;
    var rowData := rowBlock.data;
    var count := 0;
    var i := start;
    while i < end
      invariant count == i - start && start <= i && (i <= end || i == start)
      invariant i > start && width > 0 ==>
        0 <= start && i <= data.Length0 && width <= data.Length1 && count <= rowData.Length0 && width <= rowData.Length1
      invariant forall k, j :: 0 <= k < count && 0 <= j < width ==>
        0 <= start + k < data.Length0 && j < data.Length1 && k < rowData.Length0 && j < rowData.Length1 &&
        data[start + k, j] == rowData[k, j]
      invariant forall a, b ::
        (0 <= a < data.Length0 && 0 <= b < data.Length1 && !(start <= a < i && b < width)) ==>
        data[a, b] == old(data[a, b])
    {
      var j := 0;
      while j < width
        invariant 0 <= j && (j <= width || j == 0)
        invariant j > 0 ==>
          0 <= i < data.Length0 && j <= data.Length1 && count < rowData.Length0 && j <= rowData.Length1
        invariant forall b :: 0 <= b < j ==> data[i, b] == rowData[count, b]
        invariant forall k, b :: 0 <= k < count && 0 <= b < width ==>
          0 <= start + k < data.Length0 && b < data.Length1 && k < rowData.Length0 && b < rowData.Length1 &&
          data[start + k, b] == rowData[k, b]
        invariant forall a, b ::
          (0 <= a < data.Length0 && 0 <= b < data.Length1 && !(start <= a < i && b < width) && !(a == i && b < j)) ==>
          data[a, b] == old(data[a, b])
      {
        if !(0 <= i < data.Length0 && j < data.Length1 && count < rowData.Length0 && j < rowData.Length1) {
          return Raised(ArrayIndexOutOfBoundsException);
        }
        data[i, j] := rowData[count, j];
        j := j + 1;
      }
      count := count + 1;
      i := i + 1;
    }
    o := Done;
  }

  /** The widths of a sequence of blocks. */
  function Widths<T>(blocks: seq<MatrixData<T>>): (w: seq<int>)
    ensures |w| == |blocks|
  {
    seq(|blocks|, i requires 0 <= i < |blocks| => blocks[i].width)
  }

  /** The heights of a sequence of blocks. */
  function Heights<T>(blocks: seq<MatrixData<T>>): (h: seq<int>)
    ensures |h| == |blocks|
  {
    seq(|blocks|, i requires 0 <= i < |blocks| => blocks[i].height)
  }

  /** The blocks `splitMatrixColumnWise` returns: block `i` wraps `mat`'s
      whole array, records `mat`'s height and the width of the `i`-th
      column range, and is tagged as column block `i`. */
  function ColumnBlocks<T>(mat: MatrixData<T>, numMaps: nat): (blocks: seq<MatrixData<T>>)
    requires numMaps > 0 && mat.width >= 0
    ensures |blocks| == numMaps
  {
    seq(numMaps, i requires 0 <= i < numMaps => ColumnBlock(mat, numMaps, i))
  }

  function ColumnBlock<T>(mat: MatrixData<T>, numMaps: nat, i: nat): MatrixData<T>
    requires numMaps > 0 && mat.width >= 0
  {
    MatrixData(mat.data, mat.height, Share(mat.width, numMaps, i), None, Some(i))
  }

  /** The blocks `splitMatrixRowWise` returns: block `i` wraps `mat`'s whole
      array, records the height of the `i`-th row range and `mat`'s width,
      and is tagged as row block `i`. */
  function RowBlocks<T>(mat: MatrixData<T>, numIterations: nat): (blocks: seq<MatrixData<T>>)
    requires numIterations > 0 && mat.height >= 0
    ensures |blocks| == numIterations
  {
    seq(numIterations, i requires 0 <= i < numIterations => RowBlock(mat, numIterations, i))
  }

  function RowBlock<T>(mat: MatrixData<T>, numIterations: nat, i: nat): MatrixData<T>
    requires numIterations > 0 && mat.height >= 0
  {
    MatrixData(mat.data, Share(mat.height, numIterations, i), mat.width, Some(i), None)
  }

  /** What `splitMatrixColumnWise` yields. Zero blocks divide by zero, a
      negative count fails allocating the result array, and the copy loop
      of block `i` reads row `i`, which fails for a non-empty block past the
      last row: that happens exactly when `min(numMaps, width) > height`. */
  function SplitColumns<T>(mat: MatrixData<T>, numMaps: int): (r: Result<seq<MatrixData<T>>>)
    requires mat.Wf()
    ensures r.Ok? ==> numMaps > 0 && |r.value| == numMaps
    ensures r.Ok? ==> forall i :: 0 <= i < numMaps ==> r.value[i].data == mat.data && r.value[i].height == mat.height
    ensures r.Throws? ==> r.error == ArithmeticException || r.error == NegativeArraySizeException ||
                          r.error == ArrayIndexOutOfBoundsException
  {
    if numMaps == 0 then Throws(ArithmeticException)
    else if numMaps < 0 then Throws(NegativeArraySizeException)
    else if Min(numMaps, mat.width) > mat.height then Throws(ArrayIndexOutOfBoundsException)
    else Ok(ColumnBlocks(mat, numMaps))
  }

  /** What `splitMatrixRowWise` yields; the copy loop of block `i` reads
      column `i`, which fails exactly when `min(numIterations, height) > width`. */
  function SplitRows<T>(mat: MatrixData<T>, numIterations: int): (r: Result<seq<MatrixData<T>>>)
    requires mat.Wf()
    ensures r.Ok? ==> numIterations > 0 && |r.value| == numIterations
    ensures r.Ok? ==> forall i :: 0 <= i < numIterations ==> r.value[i].data == mat.data && r.value[i].width == mat.width
    ensures r.Throws? ==> r.error == ArithmeticException || r.error == NegativeArraySizeException ||
                          r.error == ArrayIndexOutOfBoundsException
  {
    if numIterations == 0 then Throws(ArithmeticException)
    else if numIterations < 0 then Throws(NegativeArraySizeException)
    else if Min(numIterations, mat.height) > mat.width then Throws(ArrayIndexOutOfBoundsException)
    else Ok(RowBlocks(mat, numIterations))
  }

  /** The copy loop of `splitMatrixColumnWise` for block `i` (columns
      `[start, end)`): a fresh `height` × `(end - start)` array, of which
      only row `i` is written, from row `i` of `data`. The array is
      dropped afterwards; the loop fails with an index error exactly when
      it has a cell to copy and row `i` does not exist. */
  method CopyIntoColumnBlock<T(0)>(data: array2<T>, height: nat, i: nat, start: nat, end: nat) returns (o: Outcome)
    requires data.Length0 == height && start <= end <= data.Length1
    ensures o == Done <==> start == end || i < height
    ensures o.Raised? ==> o.error == ArrayIndexOutOfBoundsException
  {
    var column := new T[height, end - start];
    var count := 0;
    for j := start to end
      invariant count == j - start
      invariant j > start ==> i < height
    {
      if i >= column.Length0 {
        return Raised(ArrayIndexOutOfBoundsException);
      }
      column[i, count] := data[i, j];
      count := count + 1;
    }
    o := Done;
  }

  /** The copy loop of `splitMatrixRowWise` for block `i` (rows
      `[start, end)`): a fresh `(end - start)` × `width` array, of which
      only column `i` is written, from column `i` of `data`. It fails with
      an index error exactly when it has a cell to copy and column `i` does
      not exist. */
  method CopyIntoRowBlock<T(0)>(data: array2<T>, width: nat, i: nat, start: nat, end: nat) returns (o: Outcome)
    requires data.Length1 == width && start <= end <= data.Length0
    ensures o == Done <==> start == end || i < width
    ensures o.Raised? ==> o.error == ArrayIndexOutOfBoundsException
  {
    var row := new T[end - start, width];
    var count := 0;
    for j := start to end
      invariant count == j - start
      invariant j > start ==> i < width
    {
      if i >= row.Length1 {
        return Raised(ArrayIndexOutOfBoundsException);
      }
      row[count, i] := data[j, i];
      count := count + 1;
    }
    o := Done;
  }

  /** `splitMatrixColumnWise`. The ghost `ranges` are the `[start, end)`
      column ranges its loop steps through. */
  method SplitMatrixColumnWise<T(0)>(mat: MatrixData<T>, numMaps: int)
    returns (r: Result<seq<MatrixData<T>>>, ghost ranges: seq<(int, int)>)
    requires mat.Wf()
    ensures r == SplitColumns(mat, numMaps)
    ensures r.Ok? ==> ranges == Ranges(mat.width, numMaps)
  {
    if numMaps == 0 {
      return Throws(ArithmeticException), [];
    }
    if numMaps < 0 {
      return Throws(NegativeArraySizeException), [];
    }
    var width := mat.width;
    var colWidth := width / numMaps;
    var rem := width % numMaps;
    var columns: seq<MatrixData<T>> := [];
    ranges := [];
    var data := mat.data;
    var start, end := 0, 0;
    for i := 0 to numMaps
      invariant start == end == Offset(width, numMaps, i)
      invariant rem == if i < width % numMaps then width % numMaps - i else 0
      invariant |ranges| == i && forall k :: 0 <= k < i ==> ranges[k] == Ranges(width, numMaps)[k]
      invariant |columns| == i && forall k :: 0 <= k < i ==> columns[k] == ColumnBlock(mat, numMaps, k)
      invariant Min(i, Min(numMaps, width)) <= mat.height
    {
      SpreadStep(width, numMaps, i, start, rem);
      end := end + colWidth;
      if rem > 0 {
        end := end + 1;
        rem := rem - 1;
      }

      var curWidth := end - start;
      var copied := CopyIntoColumnBlock(data, mat.height, i, start, end);
      if copied.Raised? {
        assert mat.height <= i < Min(numMaps, width);
        return Throws(copied.error), [];
      }
      assert curWidth == Share(width, numMaps, i);
      ranges := ranges + [(start, end)];
      columns := columns + [MatrixData(data, mat.height, curWidth, None, Some(i))];
      start := end;
    }
    assert columns == ColumnBlocks(mat, numMaps);
    r := Ok(columns);
  }

  /** `splitMatrixRowWise`, the same loop over the rows; `ranges` are the
      row ranges. */
  method SplitMatrixRowWise<T(0)>(mat: MatrixData<T>, numIterations: int)
    returns (r: Result<seq<MatrixData<T>>>, ghost ranges: seq<(int, int)>)
    requires mat.Wf()
    ensures r == SplitRows(mat, numIterations)
    ensures r.Ok? ==> ranges == Ranges(mat.height, numIterations)
  {
    if numIterations == 0 {
      return Throws(ArithmeticException), [];
    }
    if numIterations < 0 {
      return Throws(NegativeArraySizeException), [];
    }
    var height := mat.height;
    var rowHeight := height / numIterations;
    var rem := height % numIterations;
    var rows: seq<MatrixData<T>> := [];
    ranges := [];
    var data := mat.data;
    var start, end := 0, 0;
    for i := 0 to numIterations
      invariant start == end == Offset(height, numIterations, i)
      invariant rem == if i < height % numIterations then height % numIterations - i else 0
      invariant |ranges| == i && forall k :: 0 <= k < i ==> ranges[k] == Ranges(height, numIterations)[k]
      invariant |rows| == i && forall k :: 0 <= k < i ==> rows[k] == RowBlock(mat, numIterations, k)
      invariant Min(i, Min(numIterations, height)) <= mat.width
    {
      SpreadStep(height, numIterations, i, start, rem);
      end := end + rowHeight;
      if rem > 0 {
        end := end + 1;
        rem := rem - 1;
      }

      var curHeight := end - start;
      var copied := CopyIntoRowBlock(data, mat.width, i, start, end);
      if copied.Raised? {
        assert mat.width <= i < Min(numIterations, height);
        return Throws(copied.error), [];
      }
      assert curHeight == Share(height, numIterations, i);
      ranges := ranges + [(start, end)];
      rows := rows + [MatrixData(data, curHeight, mat.width, Some(i), None)];
      start := end;
    }
    assert rows == RowBlocks(mat, numIterations);
    r := Ok(rows);
  }

  /** The column split fails with an index error exactly when some
      non-empty block has a number past the last row, the row its copy
      loop reads. */
  lemma ColumnSplitFailure<T>(mat: MatrixData<T>, numMaps: int)
    requires mat.Wf() && numMaps > 0
    ensures SplitColumns(mat, numMaps).Throws? <==>
              exists i :: 0 <= i < numMaps && Share(mat.width, numMaps, i) > 0 && i >= mat.height
  {
    if Min(numMaps, mat.width) > mat.height {
      ShareNonEmpty(mat.width, numMaps, mat.height);
    } else {
      forall i | 0 <= i < numMaps && Share(mat.width, numMaps, i) > 0
        ensures i < mat.height
      {
        ShareNonEmpty(mat.width, numMaps, i);
      }
    }
  }

  /** The row split fails with an index error exactly when some non-empty
      block has a number past the last column. */
  lemma RowSplitFailure<T>(mat: MatrixData<T>, numIterations: int)
    requires mat.Wf() && numIterations > 0
    ensures SplitRows(mat, numIterations).Throws? <==>
              exists i :: 0 <= i < numIterations && Share(mat.height, numIterations, i) > 0 && i >= mat.width
  {
    if Min(numIterations, mat.height) > mat.width {
      ShareNonEmpty(mat.height, numIterations, mat.width);
    } else {
      forall i | 0 <= i < numIterations && Share(mat.height, numIterations, i) > 0
        ensures i < mat.width
      {
        ShareNonEmpty(mat.height, numIterations, i);
      }
    }
  }

  /** The column blocks partition the width: block `i` is as wide as the
      `i`-th range, which starts where range
      `i - 1` ends, the first `width % n` blocks are one column wider than
      the rest, and every block wraps `mat`'s array with `mat`'s height and
      is tagged with its own number. */
  lemma ColumnBlocksShape<T>(mat: MatrixData<T>, numMaps: nat)
    requires mat.Wf() && numMaps > 0
    ensures forall i :: 0 <= i < numMaps ==>
              ColumnBlocks(mat, numMaps)[i].width == Ranges(mat.width, numMaps)[i].1 - Ranges(mat.width, numMaps)[i].0
    ensures forall i :: 0 <= i < numMaps ==>
              (ColumnBlocks(mat, numMaps)[i].width == mat.width / numMaps + 1 <==> i < mat.width % numMaps) &&
              (ColumnBlocks(mat, numMaps)[i].width == mat.width / numMaps <==> mat.width % numMaps <= i)
    ensures forall i :: 0 <= i < numMaps ==>
              ColumnBlocks(mat, numMaps)[i].data == mat.data && ColumnBlocks(mat, numMaps)[i].height == mat.height &&
              ColumnBlocks(mat, numMaps)[i].col == Some(i) && ColumnBlocks(mat, numMaps)[i].row.None?
  {
    RangesTile(mat.width, numMaps);
    forall i | 0 <= i < numMaps {
      ShareShape(mat.width, numMaps, i, i);
    }
  }

  /** The column blocks' widths add up to the matrix's width. */
  lemma ColumnWidthsSum<T>(mat: MatrixData<T>, numMaps: nat)
    requires mat.Wf() && numMaps > 0
    ensures Sum(Widths(ColumnBlocks(mat, numMaps))) == mat.width
  {
    assert Widths(ColumnBlocks(mat, numMaps)) == Shares(mat.width, numMaps);
    SharesSum(mat.width, numMaps);
  }

  /** The row blocks partition the height in the same way. */
  lemma RowBlocksShape<T>(mat: MatrixData<T>, numIterations: nat)
    requires mat.Wf() && numIterations > 0
    ensures forall i :: 0 <= i < numIterations ==>
              RowBlocks(mat, numIterations)[i].height ==
                Ranges(mat.height, numIterations)[i].1 - Ranges(mat.height, numIterations)[i].0
    ensures forall i :: 0 <= i < numIterations ==>
              (RowBlocks(mat, numIterations)[i].height == mat.height / numIterations + 1 <==> i < mat.height % numIterations) &&
              (RowBlocks(mat, numIterations)[i].height == mat.height / numIterations <==> mat.height % numIterations <= i)
    ensures forall i :: 0 <= i < numIterations ==>
              RowBlocks(mat, numIterations)[i].data == mat.data && RowBlocks(mat, numIterations)[i].width == mat.width &&
              RowBlocks(mat, numIterations)[i].row == Some(i) && RowBlocks(mat, numIterations)[i].col.None?
  {
    RangesTile(mat.height, numIterations);
    forall i | 0 <= i < numIterations {
      ShareShape(mat.height, numIterations, i, i);
    }
  }

  /** The row blocks' heights add up to the matrix's height. */
  lemma RowHeightsSum<T>(mat: MatrixData<T>, numIterations: nat)
    requires mat.Wf() && numIterations > 0
    ensures Sum(Heights(RowBlocks(mat, numIterations))) == mat.height
  {
    assert Heights(RowBlocks(mat, numIterations)) == Shares(mat.height, numIterations);
    SharesSum(mat.height, numIterations);
  }

  /** The job configuration the driver is created with: the number of map
      and reduce tasks and the `block_size` and `final_width` properties. */
  datatype JobSettings = JobSettings(numMapTasks: int, numReduceTasks: int, blockSize: int, finalWidth: int)

  /** How `matrixMultiplyMapReduce` ends: the process exits with a status,
      an exception escapes, or it returns with the product in `out`. */
  datatype JobOutcome<T> = Exited(status: int) | Failed(error: Exception) | Completed(out: array2<T>)

  type Job<T> = Runtime<JobSettings, MatrixData<T>>
  type Step<T> = Call<JobSettings, MatrixData<T>>

  /** The calls of round `key`, which broadcasts row block `block`. */
  function RoundCalls<T>(block: MatrixData<T>, key: nat): (calls: seq<Step<T>>)
    ensures |calls| == 5
  {
    [Cached(block), Broadcast(key), Monitored, CacheCleaned(key), CombinerRead]
  }

  /** The calls of the first `k` rounds. */
  function Rounds<T>(rows: seq<MatrixData<T>>, k: nat): seq<Step<T>>
    requires k <= |rows|
  {
    if k == 0 then [] else Rounds(rows, k - 1) + RoundCalls(rows[k - 1], k - 1)
  }

  /** Every call the driver makes when nothing fails, in order, before the
      final `close`: create the driver, configure the maps with the column
      blocks, then one round per row block. */
  function Planned<T>(conf: JobSettings, columns: seq<MatrixData<T>>, rows: seq<MatrixData<T>>): seq<Step<T>> {
    [Opened(conf), MapsConfigured(columns)] + Rounds(rows, |rows|)
  }

  /** Round `i`'s calls occupy positions `5 * i` to `5 * i + 4` of the rounds. */
  lemma {:induction false} RoundsLayout<T>(rows: seq<MatrixData<T>>, k: nat)
    requires k <= |rows|
    ensures |Rounds(rows, k)| == 5 * k
    ensures forall i, m :: 0 <= i < k && 0 <= m < 5 ==> Rounds(rows, k)[5 * i + m] == RoundCalls(rows[i], i)[m]
  {
    if k > 0 {
      RoundsLayout(rows, k - 1);
      var prev := Rounds(rows, k - 1);
      assert Rounds(rows, k) == prev + RoundCalls(rows[k - 1], k - 1);
      forall i, m | 0 <= i < k && 0 <= m < 5
        ensures Rounds(rows, k)[5 * i + m] == RoundCalls(rows[i], i)[m]
      {
        if i < k - 1 {
          assert Rounds(rows, k)[5 * i + m] == prev[5 * i + m];
        }
      }
    }
  }

  /** The plan in positions: it has `2 + 5 * |rows|` calls; `new
      TwisterDriver` comes first and `configureMaps` second, and round `i`
      is `addToMemCache(rows[i])`, `runMapReduceBCast(i)`,
      `monitorTillCompletion`, `cleanMemCache(i)`, `getCurrentCombiner` at
      positions `2 + 5 * i` to `2 + 5 * i + 4`. */
  lemma PlannedLayout<T>(conf: JobSettings, columns: seq<MatrixData<T>>, rows: seq<MatrixData<T>>)
    ensures |Planned(conf, columns, rows)| == 2 + 5 * |rows|
    ensures Planned(conf, columns, rows)[0] == Opened(conf)
    ensures Planned(conf, columns, rows)[1] == MapsConfigured(columns)
    ensures forall i, m :: 0 <= i < |rows| && 0 <= m < 5 ==>
              Planned(conf, columns, rows)[2 + 5 * i + m] == RoundCalls(rows[i], i)[m]
  {
    RoundsLayout(rows, |rows|);
  }

  /** The method a call is made on, forgetting its arguments. */
  datatype CallKind = NewDriver | ConfigureMaps | AddToMemCache | RunMapReduceBCast
                    | MonitorTillCompletion | CleanMemCache | GetCurrentCombiner | CloseDriver

  function KindOf<T>(c: Step<T>): CallKind {
    match c
    case Opened(_) => NewDriver
    case MapsConfigured(_) => ConfigureMaps
    case Cached(_) => AddToMemCache
    case Broadcast(_) => RunMapReduceBCast
    case Monitored => MonitorTillCompletion
    case CacheCleaned(_) => CleanMemCache
    case CombinerRead => GetCurrentCombiner
    case Closed => CloseDriver
  }

  /** How many of `calls` are calls of `kind`. */
  function Count<T>(calls: seq<Step<T>>, kind: CallKind): (n: nat)
    ensures n <= |calls|
  {
    if calls == [] then 0 else Count(calls[..|calls| - 1], kind) + (if KindOf(calls[|calls| - 1]) == kind then 1 else 0)
  }

  lemma {:induction false} CountAppend<T>(a: seq<Step<T>>, b: seq<Step<T>>, kind: CallKind)
    ensures Count(a + b, kind) == Count(a, kind) + Count(b, kind)
  {
    if b == [] {
      assert a + b == a;
    } else {
      CountAppend(a, b[..|b| - 1], kind);
      assert (a + b)[..|a + b| - 1] == a + b[..|b| - 1];
    }
  }

  lemma CountSingle<T>(c: Step<T>, kind: CallKind)
    ensures Count([c], kind) == if KindOf(c) == kind then 1 else 0
  {
    assert [c][..0] == [];
  }

  /** How often a round calls `kind`: the five round methods once each,
      the others never. */
  function PerRound(kind: CallKind): nat {
    if kind == NewDriver || kind == ConfigureMaps || kind == CloseDriver then 0 else 1
  }

  lemma RoundCallsCount<T>(block: MatrixData<T>, key: nat, kind: CallKind)
    ensures Count(RoundCalls(block, key), kind) == PerRound(kind)
  {
    var a, b, c, d, e: Step<T> := Cached(block), Broadcast(key), Monitored, CacheCleaned(key), CombinerRead;
    assert [a][..0] == [];
    assert [a, b][..1] == [a];
    assert Count([a, b], kind) == (if kind == AddToMemCache || kind == RunMapReduceBCast then 1 else 0);
    assert [a, b, c][..2] == [a, b];
    assert [a, b, c, d][..3] == [a, b, c];
    assert Count([a, b, c, d], kind) == (if PerRound(kind) == 1 && kind != GetCurrentCombiner then 1 else 0);
    assert RoundCalls(block, key)[..4] == [a, b, c, d];
  }

  lemma {:induction false} RoundsCount<T>(rows: seq<MatrixData<T>>, k: nat, kind: CallKind)
    requires k <= |rows|
    ensures Count(Rounds(rows, k), kind) == k * PerRound(kind)
  {
    if k > 0 {
      RoundsCount(rows, k - 1, kind);
      CountAppend(Rounds(rows, k - 1), RoundCalls(rows[k - 1], k - 1), kind);
      RoundCallsCount(rows[k - 1], k - 1, kind);
    }
  }

  /** Call counts of the plan: the driver is created and the maps are
      configured once each, each of the five round calls happens once per
      row block, and `close` is not part of the plan. */
  lemma PlannedCounts<T>(conf: JobSettings, columns: seq<MatrixData<T>>, rows: seq<MatrixData<T>>, kind: CallKind)
    ensures Count(Planned(conf, columns, rows), kind) ==
              if kind == NewDriver || kind == ConfigureMaps then 1
              else if kind == CloseDriver then 0
              else |rows|
  {
    var first: Step<T>, second: Step<T> := Opened(conf), MapsConfigured(columns);
    var head := [first] + [second];
    CountSingle(first, kind);
    CountSingle(second, kind);
    CountAppend([first], [second], kind);
    assert Planned(conf, columns, rows) == head + Rounds(rows, |rows|);
    CountAppend(head, Rounds(rows, |rows|), kind);
    RoundsCount(rows, |rows|, kind);
    assert |rows| * PerRound(kind) == if PerRound(kind) == 0 then 0 else |rows|;
  }

  /** `close` is called at most once: the planned calls never include it,
      so whatever prefix of the plan a job makes, its trace holds one
      `close` exactly when the job closes the driver, and none otherwise. */
  lemma CloseAtMostOnce<T>(conf: JobSettings, columns: seq<MatrixData<T>>, rows: seq<MatrixData<T>>,
                           made: nat, closed: bool)
    requires made <= |Planned(conf, columns, rows)|
    ensures Count(Planned(conf, columns, rows)[..made] + (if closed then [Closed] else []), CloseDriver) ==
              if closed then 1 else 0
  {
    var plan := Planned(conf, columns, rows);
    PlannedCounts(conf, columns, rows, CloseDriver);
    assert plan == plan[..made] + plan[made..];
    CountAppend(plan[..made], plan[made..], CloseDriver);
    var tail: seq<Step<T>> := if closed then [Closed] else [];
    CountAppend(plan[..made], tail, CloseDriver);
    if closed {
      var close: Step<T> := Closed;
      CountSingle(close, CloseDriver);
    }
  }

  /** The block appended after round `i`: the first of the combiner's
      results, if there are any. */
  function Appended<T>(job: Job<T>, i: nat): Option<MatrixData<T>> {
    if |job.ResultsOf(i)| > 0 then Some(job.ResultsOf(i)[0]) else None
  }

  /** How far round `i` moves the output offset: the appended block's height. */
  function Advance<T>(job: Job<T>, i: nat): int {
    if Appended(job, i).Some? then Appended(job, i).value.height else 0
  }

  /** `outMatrixStartRow` when round `i` starts. */
  function StartRow<T>(job: Job<T>, i: nat): int {
    if i == 0 then 0 else StartRow(job, i - 1) + Advance(job, i - 1)
  }

  /** Round `i`'s block does not fit the `height` × `width` output at its
      start row, so appending it raises an index error. */
  predicate Misfit<T>(job: Job<T>, height: int, width: int, i: nat) {
    Appended(job, i).Some? && !Fits(height, width, Appended(job, i).value, StartRow(job, i))
  }

  /** The first of rounds `0 .. k-1` whose block does not fit, or `k`. */
  function FirstMisfit<T>(job: Job<T>, height: int, width: int, k: nat): (a: nat)
    ensures a <= k
    ensures a < k ==> Misfit(job, height, width, a)
    ensures forall q :: 0 <= q < a ==> !Misfit(job, height, width, q)
  {
    if k == 0 then 0
    else
      var a := FirstMisfit(job, height, width, k - 1);
      if a < k - 1 || Misfit(job, height, width, k - 1) then a else k
  }

  /** No block appended in rounds `0 .. k-1` has a negative height. */
  predicate NonNegHeights<T>(job: Job<T>, k: nat) {
    forall q :: 0 <= q < k && Appended(job, q).Some? ==> Appended(job, q).value.height >= 0
  }

  /** With no negative heights, the rows of an earlier round's block end
      no later than a later round's start row. */
  lemma {:induction false} StartRowAfter<T>(job: Job<T>, q: nat, i: nat)
    requires q < i && NonNegHeights(job, i)
    ensures StartRow(job, q) + Advance(job, q) <= StartRow(job, i)
  {
    if q < i - 1 {
      StartRowAfter(job, q, i - 1);
    }
  }

  /** How the job ends once the dimensions agree and both splits succeed:
      how many of the planned calls are made, whether `close` follows, and
      the exception that escapes, if any. */
  datatype Ending = Ending(made: nat, closed: bool, error: Option<Exception>)

  /** The ending the runtime's script leads to. The calls run in plan order
      until one throws, an appended block does not fit, or the rounds are
      over. A throwing `new TwisterDriver` leaves `driver` null, so the
      `close` in the catch block throws NullPointerException; any later
      TwisterException is rethrown after `close`. An index error from the
      append, or from printing the 3 × 3 corner of an output smaller than
      that, escapes without `close`. The monitor's status plays no part. */
  function JobEnding<T>(job: Job<T>, height: int, width: int, numIterations: nat): (e: Ending)
    ensures 1 <= e.made <= 2 + 5 * numIterations
    ensures e.error.None? ==> e.closed && e.made == 2 + 5 * numIterations
    ensures e.closed <==> e.error.None? || e.error == Some(TwisterException)
    ensures e.error == Some(NullPointerException) <==> job.failAt == 0
    ensures e.error.Some? ==>
              e.error.value == NullPointerException || e.error.value == TwisterException ||
              e.error.value == ArrayIndexOutOfBoundsException
  {
    var a := FirstMisfit(job, height, width, numIterations);
    var reached := 2 + 5 * (if a < numIterations then a + 1 else numIterations);
    if 0 <= job.failAt < reached then
      if job.failAt == 0 then Ending(1, false, Some(NullPointerException))
      else Ending(job.failAt + 1, true, Some(TwisterException))
    else if a < numIterations || height < 3 || width < 3 then
      Ending(reached, false, Some(ArrayIndexOutOfBoundsException))
    else
      Ending(reached, true, None)
  }

  /** The dimensions agree and both splits succeed. */
  predicate Admitted<T>(matA: MatrixData<T>, matB: MatrixData<T>, numMaps: int, numIterations: int)
    requires matA.Wf() && matB.Wf()
  {
    matA.width == matB.height && SplitColumns(matB, numMaps).Ok? && SplitRows(matA, numIterations).Ok?
  }

  /** A call of round `i` at position `pos` throws, before any block of
      round `i` is appended. */
  lemma ThrowInRound<T>(job: Job<T>, height: int, width: int, numIterations: nat, i: nat)
    requires i < numIterations && FirstMisfit(job, height, width, i) == i
    requires 2 + 5 * i <= job.failAt < 2 + 5 * (i + 1)
    ensures JobEnding(job, height, width, numIterations) == Ending(job.failAt + 1, true, Some(TwisterException))
  {
  }

  /** Round `i`'s block does not fit, and no call threw so far. */
  lemma MisfitInRound<T>(job: Job<T>, height: int, width: int, numIterations: nat, i: nat)
    requires i < numIterations && FirstMisfit(job, height, width, i) == i
    requires Misfit(job, height, width, i) && !(0 <= job.failAt < 2 + 5 * (i + 1))
    ensures JobEnding(job, height, width, numIterations) ==
              Ending(2 + 5 * (i + 1), false, Some(ArrayIndexOutOfBoundsException))
  {
  }

  /** The plan up to `calls` calls into round `i`. */
  lemma PlanPrefix<T>(conf: JobSettings, columns: seq<MatrixData<T>>, rows: seq<MatrixData<T>>, i: nat, calls: nat)
    requires i < |rows| && calls <= 5
    ensures 2 + 5 * i + calls <= |Planned(conf, columns, rows)|
    ensures Planned(conf, columns, rows)[..2 + 5 * i] + RoundCalls(rows[i], i)[..calls] ==
              Planned(conf, columns, rows)[..2 + 5 * i + calls]
  {
    PlannedLayout(conf, columns, rows);
  }

  /** The runtime calls of one pass of the driver loop: cache the row
      block, broadcast it under the key the cache hands back, wait for the
      round, drop the cached block, and read the combiner. The monitor's
      status is not looked at. The first call that throws ends the pass;
      `calls` is how many calls were made, the throwing one included. */
  method RunRound<T>(job: Job<T>, block: MatrixData<T>) returns (o: Outcome, results: seq<MatrixData<T>>, ghost calls: nat)
    requires job.Valid()
    modifies job
    ensures job.Valid() && 1 <= calls <= 5
    ensures job.trace == old(job.trace) + RoundCalls(block, old(job.issued))[..calls]
    ensures o.Raised? <==> old(job.calls) <= job.failAt < old(job.calls) + 5
    ensures o.Raised? ==> o.error == TwisterException && calls == job.failAt - old(job.calls) + 1
    ensures o == Done ==>
              calls == 5 && results == job.ResultsOf(old(job.rounds)) &&
              job.issued == old(job.issued) + 1 && job.rounds == old(job.rounds) + 1
  {
    var key;
    ghost var round := RoundCalls(block, job.issued);
    o, key := job.AddToMemCache(block);
    if o.Raised? {
      return o, [], 1;
    }
    o := job.RunMapReduceBCast(key);
    if o.Raised? {
      assert round[..2] == [Cached(block), Broadcast(key)];
      return o, [], 2;
    }
    var status;
    o, status := job.MonitorTillCompletion();
    if o.Raised? {
      assert round[..3] == [Cached(block), Broadcast(key), Monitored];
      return o, [], 3;
    }
    o := job.CleanMemCache(key);
    if o.Raised? {
      assert round[..4] == [Cached(block), Broadcast(key), Monitored, CacheCleaned(key)];
      return o, [], 4;
    }
    o, results := job.GetCurrentCombiner();
    assert round[..5] == round;
    calls := 5;
  }

  /** The end of one pass of the driver loop: the first of round `i`'s
      results, if there is one, is appended at the current start row,
      which then moves down by its height. Blocks placed in earlier rounds
      stay placed. */
  method PlaceRound<T>(job: Job<T>, i: nat, results: seq<MatrixData<T>>, outMat: array2<T>, start: int)
    returns (o: Outcome, next: int)
    requires results == job.ResultsOf(i) && start == StartRow(job, i)
    requires |results| > 0 ==> results[0].data != outMat
    requires NonNegHeights(job, i) ==>
      forall q :: 0 <= q < i && Appended(job, q).Some? ==> Placed(outMat, Appended(job, q).value, StartRow(job, q))
    modifies outMat
    ensures o == Done <==> !Misfit(job, outMat.Length0, outMat.Length1, i)
    ensures o.Raised? ==> o.error == ArrayIndexOutOfBoundsException
    ensures o == Done ==> next == StartRow(job, i + 1)
    ensures o == Done && NonNegHeights(job, i + 1) ==>
      forall q :: 0 <= q <= i && Appended(job, q).Some? ==> Placed(outMat, Appended(job, q).value, StartRow(job, q))
  {
    if |results| == 0 {
      return Done, start;
    }
    var outRow := results[0];
    o := AppendRowBlockToMatrix(outMat, outRow, start);
    if o.Raised? {
      return o, start;
    }
    next := start + outRow.height;
    forall q | 0 <= q < i && Appended(job, q).Some? && NonNegHeights(job, i + 1)
      ensures Placed(outMat, Appended(job, q).value, StartRow(job, q))
    {
      StartRowAfter(job, q, i);
      var earlier, row := Appended(job, q).value, StartRow(job, q);
      assert old(Placed(outMat, earlier, row));
      forall k, j | 0 <= k < earlier.height && 0 <= j < earlier.width
        ensures outMat[row + k, j] == earlier.data[k, j]
      {
        assert old(outMat[row + k, j] == earlier.data[k, j]);
      }
    }
  }

  /** No block the combiner delivers in rounds `0 .. k-1` is stored in `out`. */
  predicate Apart<T>(job: Job<T>, out: array2<T>, k: nat) {
    forall q :: 0 <= q < k && Appended(job, q).Some? ==> Appended(job, q).value.data != out
  }

  /** The driver's state when round `i` is about to start: the first
      `2 + 5 * i` planned calls are made, none threw, every block so far
      fitted, and (heights permitting) each is placed at its start row. */
  ghost predicate Progress<T>(job: Job<T>, plan: seq<Step<T>>, outMat: array2<T>, i: nat, start: int)
    reads job, outMat, set q | 0 <= q < i && Appended(job, q).Some? :: Appended(job, q).value.data
  {
    job.Valid() && 2 + 5 * i <= |plan| && job.trace == plan[..2 + 5 * i] &&
    job.issued == i && job.rounds == i &&
    !(0 <= job.failAt < 2 + 5 * i) &&
    FirstMisfit(job, outMat.Length0, outMat.Length1, i) == i &&
    start == StartRow(job, i) &&
    (NonNegHeights(job, i) ==>
       forall q :: 0 <= q < i && Appended(job, q).Some? ==> Placed(outMat, Appended(job, q).value, StartRow(job, q)))
  }

  /** How the job ends, when it ends with `error` after `made` planned
      calls and, if `closed`, a `close`. */
  ghost predicate EndsAs<T>(job: Job<T>, plan: seq<Step<T>>, outMat: array2<T>, numIterations: nat,
                            error: Option<Exception>, made: nat, closed: bool)
    reads job
  {
    var ending := JobEnding(job, outMat.Length0, outMat.Length1, numIterations);
    error == ending.error && made == ending.made && closed == ending.closed && made <= |plan| &&
    job.trace == plan[..made] + (if closed then [Closed] else [])
  }

  /** The second half of a pass of the driver loop, once round `i`'s five
      calls are made: the append of the block the combiner delivered. */
  method FinishRound<T>(job: Job<T>, ghost plan: seq<Step<T>>, outMat: array2<T>, numIterations: nat,
                        i: nat, results: seq<MatrixData<T>>, start: int)
    returns (error: Option<Exception>, next: int, ghost made: nat, ghost closed: bool)
    requires i < numIterations && 2 + 5 * (i + 1) <= |plan| && Apart(job, outMat, numIterations)
    requires job.Valid() && job.trace == plan[..2 + 5 * (i + 1)]
    requires job.issued == i + 1 && job.rounds == i + 1 && results == job.ResultsOf(i)
    requires !(0 <= job.failAt < 2 + 5 * (i + 1))
    requires FirstMisfit(job, outMat.Length0, outMat.Length1, i) == i && start == StartRow(job, i)
    requires NonNegHeights(job, i) ==>
      forall q :: 0 <= q < i && Appended(job, q).Some? ==> Placed(outMat, Appended(job, q).value, StartRow(job, q))
    modifies outMat
    ensures error.None? ==> Progress(job, plan, outMat, i + 1, next)
    ensures error.Some? ==> EndsAs(job, plan, outMat, numIterations, error, made, closed)
  {
    assert |results| > 0 ==> Appended(job, i) == Some(results[0]);
    var placed;
    placed, next := PlaceRound(job, i, results, outMat, start);
    if placed.Raised? {
      MisfitInRound(job, outMat.Length0, outMat.Length1, numIterations, i);
      return Some(placed.error), next, 2 + 5 * (i + 1), false;
    }
    assert FirstMisfit(job, outMat.Length0, outMat.Length1, i + 1) == i + 1;
    error, made, closed := None, 0, false;
  }

  /** One pass of the driver loop: round `i`'s calls, then the append of
      its block. Either the loop goes on with round `i + 1`, or the job
      ends here. */
  method PlayRound<T>(job: Job<T>, ghost plan: seq<Step<T>>, conf: JobSettings,
                      columns: seq<MatrixData<T>>, rows: seq<MatrixData<T>>, outMat: array2<T>, i: nat, start: int)
    returns (error: Option<Exception>, next: int, ghost made: nat, ghost closed: bool)
    requires plan == Planned(conf, columns, rows) && i < |rows|
    requires Progress(job, plan, outMat, i, start) && Apart(job, outMat, |rows|)
    modifies job, outMat
    ensures error.None? ==> Progress(job, plan, outMat, i + 1, next)
    ensures error.Some? ==> EndsAs(job, plan, outMat, |rows|, error, made, closed)
  {
    var o, results;
    ghost var calls;
    o, results, calls := RunRound(job, rows[i]);
    PlanPrefix(conf, columns, rows, i, calls);
    if o.Raised? {
      ThrowInRound(job, outMat.Length0, outMat.Length1, |rows|, i);
      job.Close();
      return Some(o.error), start, 2 + 5 * i + calls, true;
    }
    error, next, made, closed := FinishRound(job, plan, outMat, |rows|, i, results, start);
  }

  /** The driver loop of `matrixMultiplyMapReduce` and what follows it:
      one round per row block, the printing of the output's corner, and
      `close`. The runtime is open and configured; the error that escapes,
      if any, is returned. */
  method RunRounds<T>(job: Job<T>, ghost plan: seq<Step<T>>, conf: JobSettings,
                      columns: seq<MatrixData<T>>, rows: seq<MatrixData<T>>, outMat: array2<T>)
    returns (error: Option<Exception>, ghost made: nat, ghost closed: bool)
    requires plan == Planned(conf, columns, rows)
    requires job.Valid() && job.trace == plan[..2] && job.issued == 0 && job.rounds == 0
    requires !(0 <= job.failAt < 2) && Apart(job, outMat, |rows|)
    modifies job, outMat
    ensures EndsAs(job, plan, outMat, |rows|, error, made, closed)
    ensures error.None? && NonNegHeights(job, |rows|) ==>
              forall i :: 0 <= i < |rows| && Appended(job, i).Some? ==>
                Placed(outMat, Appended(job, i).value, StartRow(job, i))
  {
    PlannedLayout(conf, columns, rows);
    var outMatrixStartRow := 0;
    var i := 0;
    while i < |rows|
      invariant 0 <= i <= |rows|
      invariant Progress(job, plan, outMat, i, outMatrixStartRow)
    {
      error, outMatrixStartRow, made, closed := PlayRound(job, plan, conf, columns, rows, outMat, i, outMatrixStartRow);
      if error.Some? {
        return;
      }
      i := i + 1;
    }
    if outMat.Length0 < 3 || outMat.Length1 < 3 {
      // printFirstNRowsOfMatrix reads the 3 × 3 corner of the output
      return Some(ArrayIndexOutOfBoundsException), 2 + 5 * |rows|, false;
    }
    job.Close();
    error, made, closed := None, 2 + 5 * |rows|, true;
  }

  /** `matrixMultiplyMapReduce` from the point the matrices are loaded. */
  method MatrixMultiplyMapReduce<T(0)>(matA: MatrixData<T>, matB: MatrixData<T>, numMaps: int,
                                       numIterations: int, blockSize: int, job: Job<T>)
    returns (r: JobOutcome<T>, ghost made: nat, ghost closed: bool)
    requires matA.Wf() && matB.Wf()
    requires job.Valid() && job.Idle()
    modifies job
    ensures matA.width != matB.height ==> r == Exited(-1) && job.trace == []
    ensures matA.width == matB.height && SplitColumns(matB, numMaps).Throws? ==>
              r == Failed(SplitColumns(matB, numMaps).error) && job.trace == []
    ensures matA.width == matB.height && SplitColumns(matB, numMaps).Ok? && SplitRows(matA, numIterations).Throws? ==>
              r == Failed(SplitRows(matA, numIterations).error) && job.trace == []
    ensures Admitted(matA, matB, numMaps, numIterations) ==>
              var plan := Planned(JobSettings(numMaps, 1, blockSize, matB.width),
                                  ColumnBlocks(matB, numMaps), RowBlocks(matA, numIterations));
              var ending := JobEnding(job, matA.height, matB.width, numIterations);
              made == ending.made && closed == ending.closed && made <= |plan| &&
              job.trace == plan[..made] + (if closed then [Closed] else []) &&
              (ending.error.Some? ==> r == Failed(ending.error.value)) &&
              (ending.error.None? ==> r.Completed?)
    ensures r.Completed? ==> fresh(r.out) && r.out.Length0 == matA.height && r.out.Length1 == matB.width
    ensures r.Completed? && NonNegHeights(job, numIterations) ==>
              forall i :: 0 <= i < numIterations && Appended(job, i).Some? ==>
                Placed(r.out, Appended(job, i).value, StartRow(job, i))
  {
    var matAHeight := matA.height;
    var matBWidth := matB.width;
    if matA.width != matB.height {
      return Exited(-1), 0, false;
    }
    var columns, rows;
    ghost var columnRanges, rowRanges;
    columns, columnRanges := SplitMatrixColumnWise(matB, numMaps);
    if columns.Throws? {
      return Failed(columns.error), 0, false;
    }
    rows, rowRanges := SplitMatrixRowWise(matA, numIterations);
    if rows.Throws? {
      return Failed(rows.error), 0, false;
    }
    var conf := JobSettings(numMaps, 1, blockSize, matBWidth);
    var outMat := new T[matAHeight, matBWidth];
    var outMatrixStartRow := 0;
    ghost var plan := Planned(conf, columns.value, rows.value);
    PlannedLayout(conf, columns.value, rows.value);

    var o := job.Open(conf);
    if o.Raised? {
      // `driver` is still null when the catch block calls `close`
      return Failed(NullPointerException), 1, false;
    }
    assert job.trace == plan[..1];
    o := job.ConfigureMaps(columns.value);
    if o.Raised? {
      job.Close();
      return Failed(o.error), 2, true;
    }
    assert job.trace == plan[..2];

    var error;
    error, made, closed := RunRounds(job, plan, conf, columns.value, rows.value, outMat);
    r := if error.Some? then Failed(error.value) else Completed(outMat);
  }
}
