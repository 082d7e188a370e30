/** The word-count sample's file splitter (WCFileSplit.java): count the
    lines of the input, decide how many lines each of `numSplits` output
    files gets, then copy consecutive lines into the files in order.
    The input file is a sequence of lines and the output files a sequence
    of line sequences; opening, reading and writing the files is not
    modelled. */
module WCFileSplit {
  import opened Jvm
  import opened Spreading

  /** The counting loop of `main`: `counter[i]` is the number of lines
      split `i` gets. The array is allocated before the division, so a
      negative count fails at the allocation and zero at the division. */
  method ComputeCounter(totalLine: nat, numSplits: int) returns (r: Result<seq<int>>)
    ensures numSplits < 0 ==> r == Throws(NegativeArraySizeException)
    ensures numSplits == 0 ==> r == Throws(ArithmeticException)
    ensures numSplits > 0 ==> r == Ok(Shares(totalLine, numSplits))
    ensures r.Ok? ==> |r.value| == numSplits && Sum(r.value) == totalLine
    ensures r.Ok? ==> forall k :: 0 <= k < |r.value| ==>
              r.value[k] == totalLine / numSplits + (if k < totalLine % numSplits then 1 else 0)
    ensures r.Ok? ==> forall k, m :: 0 <= k <= m < |r.value| ==> r.value[m] <= r.value[k] <= r.value[m] + 1
  {
    if numSplits < 0 {
      return Throws(NegativeArraySizeException);
    }
    var counter := new int[numSplits];
    if numSplits == 0 {
      return Throws(ArithmeticException);
    }
    var block := totalLine / numSplits;
    var modular := totalLine % numSplits;
    for i := 0 to numSplits
      invariant modular == if i < totalLine % numSplits then totalLine % numSplits - i else 0
      invariant forall k :: 0 <= k < i ==> counter[k] == Share(totalLine, numSplits, k)
    {
      counter[i] := block;
      if modular > 0 {
        counter[i] := counter[i] + 1;
        modular := modular - 1;
      }
    }
    r := Ok(counter[..]);
    assert counter[..] == Shares(totalLine, numSplits);
    SharesSum(totalLine, numSplits);
    forall k, m | 0 <= k <= m < numSplits
      ensures Shares(totalLine, numSplits)[m] <= Shares(totalLine, numSplits)[k] <= Shares(totalLine, numSplits)[m] + 1
    {
      ShareShape(totalLine, numSplits, k, m);
    }
  }

  /** What `readLine` returns for the `p`-th request, or the text `"null"`
      that `strLine + "\n"` writes once the reader is exhausted. */
  function LineAt(lines: seq<string>, p: nat): string {
    if p < |lines| then lines[p] else "null"
  }

  /** The text of the first `k` reads from the input. */
  function ReadLines(lines: seq<string>, k: nat): (r: seq<string>)
    ensures |r| == k
  {
    seq(k, p requires 0 <= p < k => LineAt(lines, p))
  }

  /** The output files' contents one after the other. */
  function Flatten(splits: seq<seq<string>>): seq<string> {
    if splits == [] then [] else Flatten(splits[..|splits| - 1]) + splits[|splits| - 1]
  }

  /** The copy loop of `main`: split `i` receives the next `counter[i]`
      lines of the reader, so the splits read back to back are the first
      `Sum(counter)` reads. */
  method Distribute(lines: seq<string>, counter: seq<int>) returns (splits: seq<seq<string>>)
    requires forall i :: 0 <= i < |counter| ==> counter[i] >= 0
    ensures |splits| == |counter|
    ensures forall i :: 0 <= i < |counter| ==> |splits[i]| == counter[i]
    ensures Flatten(splits) == ReadLines(lines, Sum(counter))
  {
    var pos: nat := 0;
    splits := [];
    for i := 0 to |counter|
      invariant |splits| == i
      invariant forall k :: 0 <= k < i ==> |splits[k]| == counter[k]
      invariant pos == Sum(counter[..i])
      invariant Flatten(splits) == ReadLines(lines, pos)
    {
      var part := [];
      for j := 0 to counter[i]
        invariant |part| == j
        invariant Flatten(splits) + part == ReadLines(lines, pos + j)
      {
        var strLine := LineAt(lines, pos + j);
        assert ReadLines(lines, pos + j + 1) == ReadLines(lines, pos + j) + [strLine];
        part := part + [strLine];
      }
      assert counter[..i + 1][..i] == counter[..i];
      pos := pos + counter[i];
      assert Flatten(splits + [part])[..|Flatten(splits)|] == Flatten(splits) by {
        assert (splits + [part])[..i] == splits;
      }
      splits := splits + [part];
    }
    assert counter[..|counter|] == counter;
  }

  /** The core of `main` without the file I/O: the lines are counted, the
      counter computed, and every input line lands, in order, in exactly
      one split. */
  method SplitFile(lines: seq<string>, numSplits: int) returns (r: Result<seq<seq<string>>>)
    ensures numSplits < 0 ==> r == Throws(NegativeArraySizeException)
    ensures numSplits == 0 ==> r == Throws(ArithmeticException)
    ensures r.Ok? <==> numSplits > 0
    ensures r.Ok? ==> |r.value| == numSplits && Flatten(r.value) == lines
    ensures r.Ok? ==> forall i :: 0 <= i < numSplits ==> |r.value[i]| == Share(|lines|, numSplits, i)
  {
    var totalLine := |lines|;
    var counter := ComputeCounter(totalLine, numSplits);
    if counter.Throws? {
      return Throws(counter.error);
    }
    var splits := Distribute(lines, counter.value);
    assert ReadLines(lines, |lines|) == lines;
    r := Ok(splits);
  }
}
