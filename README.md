# Twister samples and base types, modelled in Dafny

This project models five pieces of the Twister iterative MapReduce runtime
and its samples.

- **The matrix-multiplication driver** (`MatrixMultiply.java`):
  - checks that the dimensions of A and B agree;
  - splits B into column blocks and A into row blocks;
  - creates a `TwisterDriver`, configures the map tasks with the column
    blocks, and runs one broadcast round per row block;
  - appends the row block of C that each round's combiner delivers to the
    output matrix, prints the output's 3 × 3 corner, and closes the driver.
- **The task configuration** (`TaskConf.java`): a property list carried as
  a 4-byte big-endian length followed by the list's bytes.
- **The word-count file splitter** (`WCFileSplit.java`): counts the input's
  lines, decides how many lines each split gets, and copies the lines into
  the splits in order.
- **The pub/sub factory** (`PubSubFactory.java`): selects NaradaBrokering
  or ActiveMQ by a case-insensitive match of the configured broker name.
- **The integer key** (`IntKey.java`): a boxed `Integer` that serialises as
  its decimal text.

## Modules

- `Jvm` (`jvm.dfy`): Java's `int` range, bytes, the exceptions the code
  can raise, and `Result`/`Outcome`, which carry a value or the exception
  that ended the computation.
- `Spreading` (`spreading.dfy`): the "remainder spreading" that all three
  splitting loops compute. `total` units go to `n` parts, and the first
  `total % n` parts get one unit more.
- `DataStreams` (`data_streams.dfy`): the data streams `TaskConf` writes
  and reads through.
- `TaskConfiguration` (`task_conf.dfy`): `TaskConf` and the property list
  behind it.
- `Keys` (`int_key.dfy`): `IntKey`, with `Integer.toString` and
  `Integer.parseInt`.
- `PubSubFactory` (`pub_sub_factory.dfy`): broker selection.
- `WCFileSplit` (`wc_file_split.dfy`): the counter and the line
  distribution.
- `Twister` (`twister_runtime.dfy`): the remote runtime as the driver sees
  it. It is a scripted collaborator with these parts:
  - a call position at which it throws `TwisterException`;
  - the combiner's results per round;
  - the monitor's statuses;
  - a ghost trace of every call it receives.
- `MatrixMultiply` (`matrix_multiply.dfy`): the append, the splits, and
  the driver.

### The splits are modelled as they are written

`splitMatrixColumnWise` and `splitMatrixRowWise` do not build separate
blocks.

- Each block they return wraps the input's whole `data` array. It differs
  from the others only in its recorded width (or height) and its column
  (or row) tag.
- The copy loop fills a local array that is then dropped. It indexes that
  array, and the input, by the block number `i` instead of by the copied
  column or row. So the loop's only visible effect is an
  `ArrayIndexOutOfBoundsException`:
  - in the column split, when a non-empty block's number reaches the
    matrix's height;
  - in the row split, when it reaches the width.
- Java evaluates its operations in a fixed order, and that order decides
  which exception escapes. A `numMaps` of 0 divides by zero first; a
  negative one then fails allocating the block array.

### How the driver can end

The driver's result is stated against a plan: the sequence of runtime
calls made when nothing fails. It says how many planned calls are made,
whether `close` follows, and which exception escapes.

- A throwing `new TwisterDriver` leaves `driver` null. The catch block's
  `driver.close()` then throws `NullPointerException`, so `close` never
  happens.
- A later `TwisterException` is rethrown after `close`.
- An appended block that does not fit the output raises an index error
  that no handler catches, so there is no `close`.
- So does printing the 3 × 3 corner of an output smaller than 3 × 3.

## Model

| member | source | states |
|---|---|---|
| Spreading.OffsetClosedForm | samples/matrix/src/cgl/imr/samples/matrix/MatrixMultiply.java:290-306 | The start of part `i` is `i * (total / n) + min(i, total % n)`: `i` full shares plus one unit for each earlier part that got a remainder unit. |
| Spreading.OffsetBounds | samples/matrix/src/cgl/imr/samples/matrix/MatrixMultiply.java:297-318 | The parts cover `[0, total)`: the first starts at 0 and the last ends at `total`. |
| Spreading.OffsetMonotone | samples/matrix/src/cgl/imr/samples/matrix/MatrixMultiply.java:301-318 | An earlier part ends no later than a later part starts. |
| Spreading.OffsetWithin | samples/matrix/src/cgl/imr/samples/matrix/MatrixMultiply.java:301-306 | No part ends past `total`: the copied range `[start, end)` never runs past the width (column split) or the height (row split). |
| Spreading.SpreadStep | samples/matrix/src/cgl/imr/samples/matrix/MatrixMultiply.java:302-307 | One pass of the loop adds `total / n`, plus 1 while `rem > 0`, giving the next part's start. That end lies within `total`. The part is non-empty iff its number is below `min(n, total)`. `rem` keeps counting the extra units still to hand out. |
| Spreading.RangesTile | samples/matrix/src/cgl/imr/samples/matrix/MatrixMultiply.java:297-317 | The `[start, end)` ranges tile `[0, total)` in order, and range `i` is as long as part `i`'s share. |
| Spreading.SharesPrefixSum | samples/wordcount/src/cgl/imr/samples/wordcount/WCFileSplit.java:93-102 | The first `k` shares add up to part `k`'s start. |
| Spreading.SharesSum | samples/wordcount/src/cgl/imr/samples/wordcount/WCFileSplit.java:93-102 | The shares add up to `total`: no unit is lost or counted twice. |
| Spreading.ShareShape | samples/wordcount/src/cgl/imr/samples/wordcount/WCFileSplit.java:96-101 | Shares never increase along the parts, and two shares never differ by more than one. |
| Spreading.ShareNonEmpty | samples/matrix/src/cgl/imr/samples/matrix/MatrixMultiply.java:301-307 | A part is non-empty iff its number is below `min(n, total)`. |
| DataStreams.Int32Bytes | src/cgl/imr/base/TaskConf.java:116 | `writeInt` emits exactly four bytes. |
| DataStreams.Int32Of | src/cgl/imr/base/TaskConf.java:96 | `readInt` yields a value in Java's `int` range. |
| DataStreams.Int32RoundTrip | src/cgl/imr/base/TaskConf.java:96-116 | `readInt` undoes `writeInt` for every `int`, and `writeInt` undoes `readInt` for every 4-byte group. |
| DataStreams.DataOutput.WriteInt | src/cgl/imr/base/TaskConf.java:116 | The stream's contents grow by the four bytes of the value. |
| DataStreams.DataOutput.Write | src/cgl/imr/base/TaskConf.java:117 | The stream's contents grow by exactly the given bytes. |
| DataStreams.DataOutput.Flush | src/cgl/imr/base/TaskConf.java:118 | Flushing leaves the written bytes as they are. |
| DataStreams.DataOutput.ToByteArray | src/cgl/imr/base/TaskConf.java:119 | Returns everything written so far. |
| DataStreams.DataInput.ReadInt | src/cgl/imr/base/TaskConf.java:96 | Reads the next four bytes as a signed int and advances by four. With fewer than four bytes left it throws EOFException, having consumed the rest. |
| DataStreams.DataInput.ReadFully | src/cgl/imr/base/TaskConf.java:98 | Reads exactly the next `n` bytes. With fewer left it throws EOFException, having consumed the rest. |
| TaskConfiguration.FrameLayout | src/cgl/imr/base/TaskConf.java:110-126 | The frame is four bytes longer than the payload, its first four bytes read back as the payload's length, and the payload follows them. |
| TaskConfiguration.UnframeFrame | src/cgl/imr/base/TaskConf.java:91-126 | Reading a frame back delivers exactly the framed payload, even with trailing bytes after it. |
| TaskConfiguration.UnframeOnlyFrames | src/cgl/imr/base/TaskConf.java:91-105 | Every input that reading accepts is the frame of the payload it yields, followed by ignored bytes. |
| TaskConfiguration.Frame | src/cgl/imr/base/TaskConf.java:114-118 | What `getBytes` writes: the payload behind four length bytes, and nothing else. |
| TaskConfiguration.Unframe | src/cgl/imr/base/TaskConf.java:91-105 | What `fromBytes` reads. An accepted input holds at least four bytes plus the declared length; the payload is exactly that many bytes after the first four. A failure is either an EOFException wrapped in SerializationException or a NegativeArraySizeException. |
| TaskConfiguration.StringPropertyList.AddProperty | src/cgl/imr/base/TaskConf.java:84-86 | The list is modelled as a map: exactly that key is set to that value. A key added twice keeps the later value; see Left out. |
| TaskConfiguration.StringPropertyList.GetPropertyValue | src/cgl/imr/base/TaskConf.java:128-130 | A value is returned iff the key is present, and it is the stored one. |
| TaskConfiguration.StringPropertyList.GetBytes | src/cgl/imr/base/TaskConf.java:115 | The list's own bytes are its entries under the list's encoder. |
| TaskConfiguration.StringPropertyList.FromBytes | src/cgl/imr/base/TaskConf.java:99 | The entries become the decoding of the given bytes; see Left out for the assumptions. |
| TaskConfiguration.TaskConf.constructor | src/cgl/imr/base/TaskConf.java:75-77 | A new configuration has a fresh, empty property list. |
| TaskConfiguration.TaskConf.OfBytes | src/cgl/imr/base/TaskConf.java:79-82 | Construction from bytes fails iff reading the frame fails, with the same exception. Otherwise the new list holds the decoded payload. |
| TaskConfiguration.TaskConf.AddProperty | src/cgl/imr/base/TaskConf.java:84-86 | Forwards to the property list: exactly that key is updated. |
| TaskConfiguration.TaskConf.GetProperty | src/cgl/imr/base/TaskConf.java:128-130 | Forwards to the property list: a value iff the key is present. |
| TaskConfiguration.TaskConf.FromBytes | src/cgl/imr/base/TaskConf.java:91-105 | Succeeds iff the input holds a complete frame, and then the list holds the decoded payload. Fewer than four bytes, or a short payload, is a SerializationException wrapping EOFException. A negative length is a NegativeArraySizeException. On failure the list is unchanged. |
| TaskConfiguration.TaskConf.GetBytes | src/cgl/imr/base/TaskConf.java:110-126 | The bytes are the frame of the property list's bytes: their length, then the bytes. |
| TaskConfiguration.Transfer | src/cgl/imr/base/TaskConf.java:79-126 | `getBytes` followed by `TaskConf(byte[])` gives the new list exactly the bytes the old list produced. |
| Keys.Digits | src/cgl/imr/types/IntKey.java:100 | The digits of a magnitude form non-empty decimal text. |
| Keys.ToDecimal | src/cgl/imr/types/IntKey.java:100 | `toString` is non-empty and starts with `-` iff the value is negative. |
| Keys.ParseInt | src/cgl/imr/types/IntKey.java:94 | `parseInt` yields only `int` values, and only from an optional sign followed by at least one decimal digit. |
| Keys.AsciiBytes | src/cgl/imr/types/IntKey.java:100 | `getBytes` yields one byte per character. |
| Keys.AsciiText | src/cgl/imr/types/IntKey.java:94 | `new String(bytes)` yields one character per byte. |
| Keys.DigitsValueOfDigits | src/cgl/imr/types/IntKey.java:94-100 | Reading the digits of `n` back gives `n`. |
| Keys.DecimalRoundTrip | src/cgl/imr/types/IntKey.java:94-100 | `parseInt(toString(n)) == n` for every `int`, the smallest included. |
| Keys.BytesRoundTrip | src/cgl/imr/types/IntKey.java:93-101 | Decoding the bytes `getBytes` writes gives back the same value, for every `int`. |
| Keys.DigitsOfIntMinMagnitude | src/cgl/imr/types/IntKey.java:94 | The digits `2147483648` denote `INT_MAX + 1`. |
| Keys.ParseIntExamples | src/cgl/imr/types/IntKey.java:94 | `parseInt` refuses empty text, a lone sign, a stray character and `2147483648`. It accepts `+7` and `-2147483648`. |
| Keys.IntKey.Unset | src/cgl/imr/types/IntKey.java:68-69 | `IntKey()` leaves the key null. |
| Keys.IntKey.constructor | src/cgl/imr/types/IntKey.java:76-79 | `IntKey(int)` holds that value. |
| Keys.IntKey.Boxed | src/cgl/imr/types/IntKey.java:81-84 | `IntKey(Integer)` holds the reference as given, null included. |
| Keys.IntKey.OfBytes | src/cgl/imr/types/IntKey.java:71-74 | Construction from bytes throws NumberFormatException iff the bytes do not parse. Otherwise the key holds the parsed value. |
| Keys.IntKey.FromBytes | src/cgl/imr/types/IntKey.java:93-96 | On parsable bytes the key becomes their value. Otherwise NumberFormatException is thrown and the key is unchanged. |
| Keys.IntKey.GetBytes | src/cgl/imr/types/IntKey.java:99-101 | A null key throws NullPointerException. Otherwise the bytes decode back to the key. |
| Keys.IntKey.HashCode | src/cgl/imr/types/IntKey.java:108-110 | The hash is the wrapped value. A null key throws NullPointerException. |
| Keys.IntKey.Equals | src/cgl/imr/types/IntKey.java:87-90 | A non-IntKey argument is a ClassCastException. A null argument, or a null key on either side, is a NullPointerException. Otherwise the result is true iff the two values are equal. |
| Keys.EqualsReflexive | src/cgl/imr/types/IntKey.java:87-90 | A key with a value equals itself. |
| Keys.EqualsSymmetric | src/cgl/imr/types/IntKey.java:87-90 | `a.equals(b)` and `b.equals(a)` agree, in their exceptions too. |
| Keys.EqualKeysHashEqually | src/cgl/imr/types/IntKey.java:87-110 | Keys that are equal have equal hash codes. |
| Keys.KeyRoundTrip | src/cgl/imr/types/IntKey.java:71-101 | `getBytes` followed by `IntKey(byte[])` gives a fresh key with the same value, for every `int`. |
| PubSubFactory.GetPubSubService | src/cgl/imr/base/impl/PubSubFactory.java:79-91 | NaradaBrokering is chosen iff the name matches it ignoring case. ActiveMQ is chosen iff the name does not match NaradaBrokering but matches ActiveMQ. Otherwise the result is PubSubException "Unsuported pub/sub broker.". The service gets the entity type and daemon number passed in. |
| PubSubFactory.EqualsIgnoreCase | src/cgl/imr/base/impl/PubSubFactory.java:81-85 | `equalsIgnoreCase`, the test on both branches: equal names always match, and matching names have the same length. |
| PubSubFactory.BrokerNamesDistinct | src/cgl/imr/base/impl/PubSubFactory.java:76-77 | No name matches both brokers, so the order of the two tests does not matter. |
| PubSubFactory.EqualsIgnoreCaseEquivalence | src/cgl/imr/base/impl/PubSubFactory.java:81-85 | Comparing names ignoring case is reflexive, symmetric and transitive. |
| PubSubFactory.CaseNeverMatters | src/cgl/imr/base/impl/PubSubFactory.java:79-91 | Two spellings of a name that differ only in case select the same service, or fail alike. |
| PubSubFactory.SelectionExamples | src/cgl/imr/base/impl/PubSubFactory.java:79-91 | `NaradaBrokering` selects Narada. `activemq` selects ActiveMQ. `ActiveMQ2` is refused. |
| WCFileSplit.ComputeCounter | samples/wordcount/src/cgl/imr/samples/wordcount/WCFileSplit.java:93-102 | A negative count is NegativeArraySizeException (raised by the allocation, which comes first). Zero is ArithmeticException. Otherwise there are `numSplits` counts summing to the line total: split `k` gets `total / n`, plus one for the first `total % n` splits, and later counts are never larger. |
| WCFileSplit.ReadLines | samples/wordcount/src/cgl/imr/samples/wordcount/WCFileSplit.java:107-110 | The first `k` reads have `k` lines. |
| WCFileSplit.Distribute | samples/wordcount/src/cgl/imr/samples/wordcount/WCFileSplit.java:103-113 | Split `i` gets exactly `counter[i]` lines, and the splits read back to back are the reader's first `sum(counter)` lines, in order. |
| WCFileSplit.SplitFile | samples/wordcount/src/cgl/imr/samples/wordcount/WCFileSplit.java:89-113 | A non-positive split count fails with the exceptions above. Otherwise the splits, read back to back, are the input's lines, each exactly once and in order, and split `i` holds its share of them. |
| Twister.Runtime.constructor | samples/matrix/src/cgl/imr/samples/matrix/MatrixMultiply.java:218-223 | A new runtime has received no calls. |
| Twister.Runtime.Throwing | samples/matrix/src/cgl/imr/samples/matrix/MatrixMultiply.java:222-253 | The scripted failure of the abstracted runtime, not a promise of the driver's code: only the call numbered `failAt` throws, and it throws TwisterException, the exception the driver's catch block handles. |
| Twister.Runtime.Open | samples/matrix/src/cgl/imr/samples/matrix/MatrixMultiply.java:223 | Records `new TwisterDriver(jobConf)`, throwing as scripted. |
| Twister.Runtime.ConfigureMaps | samples/matrix/src/cgl/imr/samples/matrix/MatrixMultiply.java:224 | Records `configureMaps(columns)`, throwing as scripted. |
| Twister.Runtime.AddToMemCache | samples/matrix/src/cgl/imr/samples/matrix/MatrixMultiply.java:232 | Records the caching of the value and hands out a new key. |
| Twister.Runtime.RunMapReduceBCast | samples/matrix/src/cgl/imr/samples/matrix/MatrixMultiply.java:233 | Records the broadcast. On success the combiner then holds that round's results. |
| Twister.Runtime.MonitorTillCompletion | samples/matrix/src/cgl/imr/samples/matrix/MatrixMultiply.java:234 | Records the wait and reports the last round's status. |
| Twister.Runtime.CleanMemCache | samples/matrix/src/cgl/imr/samples/matrix/MatrixMultiply.java:239 | Records the release of the cached key. |
| Twister.Runtime.GetCurrentCombiner | samples/matrix/src/cgl/imr/samples/matrix/MatrixMultiply.java:240 | Records the read and returns the combiner's current results. |
| Twister.Runtime.Close | samples/matrix/src/cgl/imr/samples/matrix/MatrixMultiply.java:251-268 | Records `close`, which does not throw. |
| MatrixMultiply.AppendRowBlockToMatrix | samples/matrix/src/cgl/imr/samples/matrix/MatrixMultiply.java:101-113 | Succeeds iff every cell the block copies exists in both arrays; otherwise it throws ArrayIndexOutOfBoundsException. On success, row `k`, column `j` of the block sits at row `start + k` of the output, and every other cell is unchanged. Rows above `start` are never touched. |
| MatrixMultiply.Widths | samples/matrix/src/cgl/imr/samples/matrix/MatrixMultiply.java:315 | One width per block. |
| MatrixMultiply.ColumnBlocks | samples/matrix/src/cgl/imr/samples/matrix/MatrixMultiply.java:294-318 | One column block per map task. |
| MatrixMultiply.RowBlocks | samples/matrix/src/cgl/imr/samples/matrix/MatrixMultiply.java:335-358 | One row block per iteration. |
| MatrixMultiply.SplitColumns | samples/matrix/src/cgl/imr/samples/matrix/MatrixMultiply.java:288-320 | The reference result of the column split. A success gives `numMaps` blocks, each wrapping the input array at its full height. A failure is one of the three exceptions the method can raise. |
| MatrixMultiply.SplitRows | samples/matrix/src/cgl/imr/samples/matrix/MatrixMultiply.java:329-360 | The reference result of the row split. A success gives `numIterations` blocks, each wrapping the input array at its full width. A failure is one of the same three exceptions. |
| MatrixMultiply.CopyIntoColumnBlock | samples/matrix/src/cgl/imr/samples/matrix/MatrixMultiply.java:308-314 | The dropped copy of block `i` fails with ArrayIndexOutOfBoundsException iff it has a column to copy and row `i` does not exist. |
| MatrixMultiply.CopyIntoRowBlock | samples/matrix/src/cgl/imr/samples/matrix/MatrixMultiply.java:349-354 | The dropped copy of block `i` fails with ArrayIndexOutOfBoundsException iff it has a row to copy and column `i` does not exist. |
| MatrixMultiply.SplitMatrixColumnWise | samples/matrix/src/cgl/imr/samples/matrix/MatrixMultiply.java:288-320 | Zero maps divide by zero; negative maps fail to allocate. Otherwise the split fails with ArrayIndexOutOfBoundsException iff `min(numMaps, width) > height`. Else it returns `numMaps` blocks that wrap the input's array, keep its height, take the widths of the consecutive column ranges and carry their numbers as column tags. The loop's ranges are exactly the `[start, end)` tiling. |
| MatrixMultiply.SplitMatrixRowWise | samples/matrix/src/cgl/imr/samples/matrix/MatrixMultiply.java:329-360 | The same for rows: it fails iff `min(numIterations, height) > width`. Otherwise it returns `numIterations` row blocks of the range heights, full width and row tags. |
| MatrixMultiply.ColumnSplitFailure | samples/matrix/src/cgl/imr/samples/matrix/MatrixMultiply.java:308-311 | The column split fails iff some non-empty block's number is at least the height: the row its copy loop reads is missing. |
| MatrixMultiply.RowSplitFailure | samples/matrix/src/cgl/imr/samples/matrix/MatrixMultiply.java:349-352 | The row split fails iff some non-empty block's number is at least the width. |
| MatrixMultiply.ColumnBlocksShape | samples/matrix/src/cgl/imr/samples/matrix/MatrixMultiply.java:301-317 | Block `i` is as wide as the `i`-th range. The first `width % n` blocks are one column wider than the rest. Each block wraps the input's array with its height, and is tagged with its own number. |
| MatrixMultiply.ColumnWidthsSum | samples/matrix/src/cgl/imr/samples/matrix/MatrixMultiply.java:301-318 | The column blocks' widths add up to the matrix's width. |
| MatrixMultiply.RowBlocksShape | samples/matrix/src/cgl/imr/samples/matrix/MatrixMultiply.java:342-358 | Block `i` is as high as the `i`-th range. The first `height % n` blocks are one row higher than the rest. Each block wraps the input's array with its width, and is tagged with its own number. |
| MatrixMultiply.RowHeightsSum | samples/matrix/src/cgl/imr/samples/matrix/MatrixMultiply.java:342-359 | The row blocks' heights add up to the matrix's height. |
| MatrixMultiply.RoundCalls | samples/matrix/src/cgl/imr/samples/matrix/MatrixMultiply.java:232-240 | A round makes five calls. |
| MatrixMultiply.RoundsLayout | samples/matrix/src/cgl/imr/samples/matrix/MatrixMultiply.java:231-248 | `k` rounds make `5k` calls, and round `i` occupies positions `5i` to `5i + 4`. |
| MatrixMultiply.PlannedLayout | samples/matrix/src/cgl/imr/samples/matrix/MatrixMultiply.java:223-248 | The plan has `2 + 5 * rows` calls. Driver creation comes first, map configuration second, and round `i`'s five calls, with key `i`, follow at `2 + 5i`. |
| MatrixMultiply.Count | samples/matrix/src/cgl/imr/samples/matrix/MatrixMultiply.java:223-268 | A count of calls never exceeds the number of calls. |
| MatrixMultiply.CountAppend | samples/matrix/src/cgl/imr/samples/matrix/MatrixMultiply.java:223-268 | Counts add up over concatenated call sequences. |
| MatrixMultiply.CountSingle | samples/matrix/src/cgl/imr/samples/matrix/MatrixMultiply.java:223-268 | A single call counts once, for its own method only. |
| MatrixMultiply.RoundCallsCount | samples/matrix/src/cgl/imr/samples/matrix/MatrixMultiply.java:232-240 | A round calls each of its five methods once, and never the driver's constructor, `configureMaps` or `close`. |
| MatrixMultiply.RoundsCount | samples/matrix/src/cgl/imr/samples/matrix/MatrixMultiply.java:231-248 | `k` rounds call each round method `k` times. |
| MatrixMultiply.PlannedCounts | samples/matrix/src/cgl/imr/samples/matrix/MatrixMultiply.java:223-248 | When nothing fails, the driver is created once and the maps configured once. Each round method is called once per row block. `close` is not part of the plan. |
| MatrixMultiply.CloseAtMostOnce | samples/matrix/src/cgl/imr/samples/matrix/MatrixMultiply.java:223-268 | Whatever prefix of the plan a job makes, its trace holds `close` once if the job closes the driver, and never otherwise: the driver is closed at most once. |
| MatrixMultiply.FirstMisfit | samples/matrix/src/cgl/imr/samples/matrix/MatrixMultiply.java:241-245 | Names the first round whose block does not fit the output, or the number of rounds when every block fits. |
| MatrixMultiply.JobEnding | samples/matrix/src/cgl/imr/samples/matrix/MatrixMultiply.java:222-268 | How the try/catch ends the job. At least one and at most all `2 + 5 * rows` planned calls are made. Success makes every planned call and closes. `close` happens exactly on success or on a rethrown TwisterException. NullPointerException escapes exactly when `new TwisterDriver` throws. No other exceptions escape besides these, TwisterException and the index error. |
| MatrixMultiply.StartRowAfter | samples/matrix/src/cgl/imr/samples/matrix/MatrixMultiply.java:245 | With no negative heights, an earlier round's block ends no lower than a later round's start row. |
| MatrixMultiply.ThrowInRound | samples/matrix/src/cgl/imr/samples/matrix/MatrixMultiply.java:231-253 | When a call of round `i` throws, the job ends after that call with `close` and a rethrown TwisterException. |
| MatrixMultiply.MisfitInRound | samples/matrix/src/cgl/imr/samples/matrix/MatrixMultiply.java:241-246 | When round `i`'s block does not fit, the job ends after that round's five calls with an index error and no `close`. |
| MatrixMultiply.PlanPrefix | samples/matrix/src/cgl/imr/samples/matrix/MatrixMultiply.java:231-240 | The calls made up to partway through round `i` are a prefix of the plan. |
| MatrixMultiply.RunRound | samples/matrix/src/cgl/imr/samples/matrix/MatrixMultiply.java:232-240 | The loop body's five calls are made in order until one throws. It throws iff the scripted position falls among them. The trace grows by that prefix of the round's calls. On success the combiner's results for this round are returned, and a key and a round are used up. The monitor's status is ignored. |
| MatrixMultiply.PlaceRound | samples/matrix/src/cgl/imr/samples/matrix/MatrixMultiply.java:241-246 | The first of the round's results, if any, is appended at the current start row. It fails with an index error iff that block does not fit. Otherwise the start row moves on by the block's height, and, heights permitting, this block and every earlier one are in place. |
| MatrixMultiply.FinishRound | samples/matrix/src/cgl/imr/samples/matrix/MatrixMultiply.java:241-247 | After a round's calls, the driver either goes on to the next round in a consistent state, or ends as `JobEnding` says. |
| MatrixMultiply.PlayRound | samples/matrix/src/cgl/imr/samples/matrix/MatrixMultiply.java:231-253 | One loop pass leaves the driver in its round-`i + 1` state, or ends it as `JobEnding` says. |
| MatrixMultiply.RunRounds | samples/matrix/src/cgl/imr/samples/matrix/MatrixMultiply.java:231-268 | After the loop, the 3 × 3 print and `close`, the calls made, the `close` and the escaping exception are those of `JobEnding`. On success, every appended block is placed at its start row, heights permitting. |
| MatrixMultiply.MatrixMultiplyMapReduce | samples/matrix/src/cgl/imr/samples/matrix/MatrixMultiply.java:168-268 | Mismatched dimensions exit with status -1, and a failing split throws its exception; in both cases the runtime receives no call. Otherwise the runtime receives exactly the plan up to where `JobEnding` says the job stops, then `close` iff the job reaches it. The exception that escapes is the one `JobEnding` names. On success the result is a fresh `height(A)` × `width(B)` matrix holding every appended block at its start row, heights permitting. |

## Left out

- File I/O is not modelled: loading the matrices, reading the input file and writing the splits. Matrices, lines and splits are values passed in and out.
- Timing, UUID generation and console output are not modelled. `printFirstNRowsOfMatrix` is modelled only for the index error it raises on an output smaller than 3 × 3.
- `main` and `verify` in MatrixMultiply.java are not modelled: they parse arguments and check the product numerically with floating point.
- The remote runtime is a scripted collaborator that records the calls it receives. Its network, worker and combiner implementations are not modelled. `close` is taken never to throw.
- The combiner's result map is given as a sequence in its iteration order. The driver takes the first entry.
- Java's jagged `double[][]` arrays are modelled as rectangular `array2`s, and `double` as a type parameter.
- MatrixMultiply.MatrixMultiplyMapReduce: the input matrices are assumed to carry their array's own dimensions (`Wf`), as `loadDataFromBinFile` produces them. Java never checks this, and a matrix whose recorded height or width differs from its array is not modelled. The blocks the splits return break this agreement, but the driver only hands them to the runtime and never splits them again.
- MatrixMultiply.SplitMatrixColumnWise: assumes the same agreement of recorded and array dimensions (`Wf`) for the matrix it splits. Otherwise its copy loop would read cells other than those the model assumes.
- MatrixMultiply.SplitMatrixRowWise: assumes the same agreement (`Wf`) for the matrix it splits.
- MatrixMultiply.SplitColumns and MatrixMultiply.SplitRows: these reference definitions are stated only for matrices with that agreement (`Wf`).
- MatrixMultiply.AppendRowBlockToMatrix: requires the block not to share the output's array. The only caller passes a freshly allocated output matrix.
- MatrixMultiply.MatrixMultiplyMapReduce: the placement guarantee is stated only when no appended block has a negative height. With a negative height a later block can overwrite an earlier one.
- MatrixMultiply.RunRounds: the placement guarantee carries the same non-negative-height condition.
- MatrixMultiply.PlaceRound: the preservation of earlier blocks carries the same non-negative-height condition.
- The splits ignore Java `int` overflow of `start`, `end` and the offsets. There the sums are bounded by the matrix's width or height, which are array lengths, so they stay within `int`.
- MatrixMultiply.AppendRowBlockToMatrix: `start + height` is an unbounded integer here, where Java wraps it at 32 bits. Only a block with positive width can diverge, since a block with no columns copies nothing in either. If such a block's `start + height` passes `INT_MAX`, Java's `end` wraps negative and the copy is skipped without error, while the model reports the block as not fitting. If it falls below `INT_MIN` (a negative height at a negative start), Java's copy runs from a negative row and throws, while the model lets the block through.
- MatrixMultiply.MatrixMultiplyMapReduce: `outMatrixStartRow` is an unbounded integer here, where Java wraps it at 32 bits, so the two can end differently once a sum leaves the `int` range. Zero-width blocks fit in both, whatever the start row. The divergence starts at a block with positive height and width whose `start + height` passes `INT_MAX`: the model's job ends there with an index error and no `close`. Java instead skips that block's copy and goes on with a start row that has wrapped negative. What Java does afterwards depends on the wrapped start row. A later block with positive height and width throws an index error, unless zero-width blocks have carried the start row back into range.
- WCFileSplit.Distribute: a split's text is modelled as its list of lines; the `"\n"` appended to each line is not modelled. Reading past the end would give `"null"`, which never happens because the count comes from the same file.
- WCFileSplit.SplitFile: parsing the split count with `Integer.valueOf` is left out; the count is an argument.
- TaskConfiguration.StringPropertyList: the property list's byte format belongs to StringPropertyListImpl, which is not part of this model. Each list carries that format's encoder and decoder as functions.
- TaskConfiguration.StringPropertyList.AddProperty: StringPropertyListImpl is not part of this model. Adding a key twice is taken to overwrite the earlier value rather than keep a duplicate entry.
- TaskConfiguration.StringPropertyList.FromBytes: the decoder is taken to replace the whole list and never to fail. So `TaskConf.FromBytes` succeeds exactly on complete frames, and a decoding error of the list's own format is not modelled.
- TaskConfiguration.Transfer: the properties arrive unchanged only as far as the list's own format round-trips; that format is not modelled.
- The `close` calls on the byte streams in TaskConf.java change nothing observable and are not modelled.
- Keys.ParseInt: covers ASCII text only. Java's `parseInt` also accepts non-ASCII Unicode digits.
- Keys.AsciiBytes and Keys.AsciiText: the platform charset of `getBytes` and `new String(bytes)` is taken to be ASCII.
- PubSubFactory.EqualsIgnoreCase: case folding is ASCII only.
- PubSubFactory.GetPubSubService: a null broker name, which throws NullPointerException in Java, is not modelled. The message printed on the Narada branch is not modelled either.
- `IntKey.getKey` is represented by the `key` field.
