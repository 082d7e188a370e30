/** Spreading `total` units over `n` contiguous parts so that the first
    `total % n` parts take one unit more than the others. Both block
    splitters of the matrix sample (MatrixMultiply.java) and the line
    counter of the word-count splitter (WCFileSplit.java) compute this
    distribution with their own loops; the functions here specify what
    those loops compute, and the lemmas state its guarantees. */
module Spreading {
  import opened Jvm

  /** The number of units part `i` receives. */
  function Share(total: nat, n: nat, i: nat): nat
    requires n > 0
  {
    total / n + (if i < total % n then 1 else 0)
  }

  /** Where part `i` starts: the sum of the shares of parts `0 .. i-1`. */
  function Offset(total: nat, n: nat, i: nat): nat
    requires n > 0
  {
    if i == 0 then 0 else Offset(total, n, i - 1) + Share(total, n, i - 1)
  }

  /** The shares of all `n` parts, in order. */
  function Shares(total: nat, n: nat): (s: seq<nat>)
    requires n > 0
  {
    seq(n, i requires 0 <= i < n => Share(total, n, i))
  }

  /** The half-open range `[start, end)` of every part, in order. */
  function Ranges(total: nat, n: nat): seq<(nat, nat)>
    requires n > 0
  {
    seq(n, i requires 0 <= i < n => (Offset(total, n, i), Offset(total, n, i + 1)))
  }

  function Sum(s: seq<int>): (r: int)
    ensures (forall i :: 0 <= i < |s| ==> s[i] >= 0) ==> r >= 0
  {
    if s == [] then 0 else Sum(s[..|s| - 1]) + s[|s| - 1]
  }

  /** The start of part `i` in closed form: `i` full parts plus one extra
      unit for each of the first `i` parts that got one. */
  lemma {:induction false} OffsetClosedForm(total: nat, n: nat, i: nat)
    requires n > 0
    ensures Offset(total, n, i) == i * (total / n) + Min(i, total % n)
  {
    if i > 0 {
      OffsetClosedForm(total, n, i - 1);
      assert (i - 1) * (total / n) + total / n == i * (total / n);
    }
  }

  /** The parts cover exactly `[0, total)`: the first starts at 0 and the
      last ends at `total`. */
  lemma OffsetBounds(total: nat, n: nat)
    requires n > 0
    ensures Offset(total, n, 0) == 0
    ensures Offset(total, n, n) == total
  {
    OffsetClosedForm(total, n, n);
  }

  /** Starts never decrease, so an earlier part lies wholly before a later one. */
  lemma {:induction false} OffsetMonotone(total: nat, n: nat, i: nat, j: nat)
    requires n > 0 && i <= j
    ensures Offset(total, n, i) + (if i < j then Share(total, n, i) else 0) <= Offset(total, n, j)
  {
    if i < j {
      OffsetMonotone(total, n, i, j - 1);
    }
  }

  /** No part ends beyond `total`. */
  lemma OffsetWithin(total: nat, n: nat, i: nat)
    requires n > 0 && i <= n
    ensures Offset(total, n, i) <= total
  {
    OffsetMonotone(total, n, i, n);
    OffsetBounds(total, n);
  }

  /** One step of the splitters' loops: part `i` starts at `start`, and
      `rem` extra units are still to hand out, one to each of the first
      `total % n` parts. Adding `total / n`, and one more while `rem` is
      positive, gives the end of part `i`, which lies within `total`; the
      part is non-empty exactly when it is among the first
      `min(n, total)`. */
  lemma SpreadStep(total: nat, n: nat, i: nat, start: nat, rem: int)
    requires 0 <= i < n
    requires start == Offset(total, n, i)
    requires rem == if i < total % n then total % n - i else 0
    ensures var end := start + total / n + (if rem > 0 then 1 else 0);
      end == Offset(total, n, i + 1) && end <= total &&
      end - start == Share(total, n, i) &&
      (end > start <==> i < Min(n, total)) &&
      (if rem > 0 then rem - 1 else rem) == (if i + 1 < total % n then total % n - (i + 1) else 0)
  {
    OffsetWithin(total, n, i + 1);
    ShareNonEmpty(total, n, i);
  }

  /** The ranges tile `[0, total)` in order: the first starts at 0, each
      starts where the one before it ends, the last ends at `total`, and
      range `i` is as long as part `i`'s share. */
  lemma RangesTile(total: nat, n: nat)
    requires n > 0
    ensures Ranges(total, n)[0].0 == 0 && Ranges(total, n)[n - 1].1 == total
    ensures forall i :: 0 <= i < n - 1 ==> Ranges(total, n)[i].1 == Ranges(total, n)[i + 1].0
    ensures forall i :: 0 <= i < n ==> Ranges(total, n)[i].1 - Ranges(total, n)[i].0 == Share(total, n, i)
  {
    OffsetBounds(total, n);
  }

  /** The sizes of the first `k` parts add up to where part `k` starts. */
  lemma {:induction false} SharesPrefixSum(total: nat, n: nat, k: nat)
    requires n > 0 && k <= n
    ensures Sum(Shares(total, n)[..k]) == Offset(total, n, k)
  {
    if k > 0 {
      SharesPrefixSum(total, n, k - 1);
      assert Shares(total, n)[..k][..k - 1] == Shares(total, n)[..k - 1];
    }
  }

  /** The parts' sizes add up to `total`. */
  lemma SharesSum(total: nat, n: nat)
    requires n > 0
    ensures Sum(Shares(total, n)) == total
  {
    SharesPrefixSum(total, n, n);
    assert Shares(total, n)[..n] == Shares(total, n);
    OffsetBounds(total, n);
  }

  /** Sizes never increase along the parts, and two parts never differ by
      more than one unit. */
  lemma ShareShape(total: nat, n: nat, i: nat, j: nat)
    requires n > 0 && i <= j
    ensures Share(total, n, j) <= Share(total, n, i) <= Share(total, n, j) + 1
  {
  }

  /** Part `i` is non-empty exactly when it is among the first `min(n, total)`
      parts: with more parts than units the trailing parts are empty. */
  lemma ShareNonEmpty(total: nat, n: nat, i: nat)
    requires 0 <= i < n
    ensures Share(total, n, i) > 0 <==> i < Min(n, total)
  {
    if total >= n {
      assert total == n * (total / n) + total % n;
    } else {
      assert total / n == 0 && total % n == total;
    }
  }
}
