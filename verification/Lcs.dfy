/** Token comparison of common/common.cpp: the two-row table and the common prefix. */
module Lcs {

  type Token = int

  /** A run of n tokens that a has at i and b at j. */
  ghost predicate CommonRun(a: seq<Token>, b: seq<Token>, i: nat, j: nat, n: nat) {
    i + n <= |a| && j + n <= |b| && a[i..i + n] == b[j..j + n]
  }

  /** n is the greatest length of a contiguous run that both sequences contain. */
  ghost predicate LongestRun(a: seq<Token>, b: seq<Token>, n: nat) {
    && (exists i: nat, j: nat :: CommonRun(a, b, i, j, n))
    && (forall i: nat, j: nat, m: nat :: CommonRun(a, b, i, j, m) ==> m <= n)
  }

  /** Length of the common run that ends just before position i of a and j of b. */
  function Ending(a: seq<Token>, b: seq<Token>, i: nat, j: nat): (n: nat)
    requires i <= |a| && j <= |b|
    ensures n <= i && n <= j
  {
    if i == 0 || j == 0 || a[i - 1] != b[j - 1] then 0 else 1 + Ending(a, b, i - 1, j - 1)
  }

  lemma {:induction false} EndingIsRun(a: seq<Token>, b: seq<Token>, i: nat, j: nat)
    requires i <= |a| && j <= |b|
    ensures var n := Ending(a, b, i, j); CommonRun(a, b, i - n, j - n, n)
  {
    if i > 0 && j > 0 && a[i - 1] == b[j - 1] {
      EndingIsRun(a, b, i - 1, j - 1);
      var n := Ending(a, b, i - 1, j - 1);
      RunGrows(a, b, i - 1 - n, j - 1 - n, n);
    }
  }

  lemma RunGrows(a: seq<Token>, b: seq<Token>, i: nat, j: nat, n: nat)
    requires CommonRun(a, b, i, j, n) && i + n < |a| && j + n < |b| && a[i + n] == b[j + n]
    ensures CommonRun(a, b, i, j, n + 1)
  {
    assert a[i..i + n + 1] == a[i..i + n] + [a[i + n]];
    assert b[j..j + n + 1] == b[j..j + n] + [b[j + n]];
  }

  lemma {:induction false} RunIsWithinEnding(a: seq<Token>, b: seq<Token>, i: nat, j: nat, n: nat)
    requires CommonRun(a, b, i, j, n)
    ensures n <= Ending(a, b, i + n, j + n)
    decreases n
  {
    if n > 0 {
      assert a[i..i + n - 1] == a[i..i + n][..n - 1] && b[j..j + n - 1] == b[j..j + n][..n - 1];
      RunIsWithinEnding(a, b, i, j, n - 1);
      assert a[i + n - 1] == a[i..i + n][n - 1] && b[j + n - 1] == b[j..j + n][n - 1];
    }
  }

  /** `best` is the greatest table entry among rows 0 to i - 1 and columns 0 to j of row i. */
  ghost predicate BestSoFar(a: seq<Token>, b: seq<Token>, i: nat, j: nat, best: nat) {
    && (exists p: nat, q: nat :: p <= |a| && q <= |b| && Ending(a, b, p, q) == best)
    && (forall p: nat, q: nat ::
          p <= |a| && q <= |b| && (p < i || (p == i && q <= j)) ==> Ending(a, b, p, q) <= best)
  }

  lemma BestStarts(a: seq<Token>, b: seq<Token>)
    ensures BestSoFar(a, b, 1, 0, 0) && BestSoFar(a, b, 0, |b|, 0)
  {
    assert Ending(a, b, 0, 0) == 0;
  }

  lemma BestStep(a: seq<Token>, b: seq<Token>, i: nat, j: nat, best: nat)
    requires 0 < i <= |a| && 0 < j <= |b| && BestSoFar(a, b, i, j - 1, best)
    ensures var v := Ending(a, b, i, j); BestSoFar(a, b, i, j, if v > best then v else best)
  {
  }

  lemma BestNextRow(a: seq<Token>, b: seq<Token>, i: nat, best: nat)
    requires BestSoFar(a, b, i, |b|, best)
    ensures BestSoFar(a, b, i + 1, 0, best)
  {
  }

  lemma BestIsLongest(a: seq<Token>, b: seq<Token>, best: nat)
    requires BestSoFar(a, b, |a|, |b|, best)
    ensures LongestRun(a, b, best)
  {
    var p: nat, q: nat :| p <= |a| && q <= |b| && Ending(a, b, p, q) == best;
    EndingIsRun(a, b, p, q);
    forall i: nat, j: nat, m: nat | CommonRun(a, b, i, j, m) ensures m <= best {
      RunIsWithinEnding(a, b, i, j, m);
    }
  }

  /** The inner loop of `common_lcs`: row i of the table from row i - 1. */
  method FillRow(a: seq<Token>, b: seq<Token>, i: nat, prev: array<nat>, curr: array<nat>, best0: nat) returns (best: nat)
    requires 0 < i <= |a| && prev.Length == curr.Length == |b| + 1 && prev != curr && curr[0] == 0
    requires forall q :: 0 <= q <= |b| ==> prev[q] == Ending(a, b, i - 1, q)
    requires BestSoFar(a, b, i, 0, best0)
    modifies curr
    ensures forall q :: 0 <= q <= |b| ==> curr[q] == Ending(a, b, i, q)
    ensures BestSoFar(a, b, i, |b|, best)
  {
    hide BestSoFar;
    best := best0;
    for j := 1 to |b| + 1
      invariant BestSoFar(a, b, i, j - 1, best)
      invariant forall q :: 0 <= q < j ==> curr[q] == Ending(a, b, i, q)
    {
      BestStep(a, b, i, j, best);
      if a[i - 1] == b[j - 1] {
        if i == 1 || j == 1 {
          curr[j] := 1;
        } else {
          curr[j] := prev[j - 1] + 1;
        }
        if curr[j] > best {
          best := curr[j];
        }
      } else {
        curr[j] := 0;
      }
    }
  }

  /** `common_lcs`: two rows instead of the whole table. */
  method CommonLcs(a: seq<Token>, b: seq<Token>) returns (best: nat)
    ensures LongestRun(a, b, best)
  {
    hide BestSoFar, LongestRun;
    best := 0;
    BestStarts(a, b);
    if a == [] || b == [] {
      NothingShared(a, b);
      return;
    }
    var prev, curr := new nat[|b| + 1](_ => 0), new nat[|b| + 1](_ => 0);
    for i := 1 to |a| + 1
      invariant BestSoFar(a, b, i - 1, |b|, best)
      invariant forall q :: 0 <= q <= |b| ==> prev[q] == Ending(a, b, i - 1, q)
      invariant curr[0] == 0
    {
      BestNextRow(a, b, i - 1, best);
      best := FillRow(a, b, i, prev, curr, best);
      forall q | 0 <= q <= |b| {
        prev[q] := curr[q];
      }
    }
    BestIsLongest(a, b, best);
  }

  lemma NothingShared(a: seq<Token>, b: seq<Token>)
    requires a == [] || b == []
    ensures LongestRun(a, b, 0)
  {
    assert a[0..0] == b[0..0];
    assert CommonRun(a, b, 0, 0, 0);
  }

  /** `common_lcp`. */
  method CommonLcp(a: seq<Token>, b: seq<Token>) returns (n: nat)
    ensures n <= |a| && n <= |b| && a[..n] == b[..n]
    ensures n < |a| && n < |b| ==> a[n] != b[n]
    ensures forall best: nat :: LongestRun(a, b, best) ==> n <= best
  {
    n := 0;
    while n < |a| && n < |b| && a[n] == b[n]
      invariant n <= |a| && n <= |b| && a[..n] == b[..n]
    {
      n := n + 1;
    }
    assert CommonRun(a, b, 0, 0, n);
  }

  /** The longest run is one number, and the order of the arguments does not matter. */
  lemma LongestRunIsSymmetric(a: seq<Token>, b: seq<Token>, n: nat, m: nat)
    requires LongestRun(a, b, n) && LongestRun(b, a, m)
    ensures n == m
  {
    var i: nat, j: nat :| CommonRun(a, b, i, j, n);
    assert CommonRun(b, a, j, i, n);
    var k: nat, l: nat :| CommonRun(b, a, k, l, m);
    assert CommonRun(a, b, l, k, m);
  }

  // ---------- Runs and subsequences ----------

  /** c can be read off a from left to right, with gaps. */
  predicate Subsequence(c: seq<Token>, a: seq<Token>) {
    c == [] || (a != [] && ((c[0] == a[0] && Subsequence(c[1..], a[1..])) || Subsequence(c, a[1..])))
  }

  predicate CommonSubsequence(c: seq<Token>, a: seq<Token>, b: seq<Token>) {
    Subsequence(c, a) && Subsequence(c, b)
  }

  ghost predicate LongestSubsequence(a: seq<Token>, b: seq<Token>, n: nat) {
    && (exists c :: |c| == n && CommonSubsequence(c, a, b))
    && (forall c :: CommonSubsequence(c, a, b) ==> |c| <= n)
  }

  /** c stands in a without gaps. */
  ghost predicate Contiguous(c: seq<Token>, a: seq<Token>) {
    exists i: nat :: StandsAt(c, a, i)
  }

  predicate StandsAt(c: seq<Token>, a: seq<Token>, i: nat) {
    i + |c| <= |a| && a[i..i + |c|] == c
  }

  lemma {:induction false} RunIsSubsequence(a: seq<Token>, i: nat, n: nat)
    requires i + n <= |a|
    ensures Subsequence(a[i..i + n], a)
    decreases |a|
  {
    if n > 0 {
      var tail := a[1..];
      if i > 0 {
        RunIsSubsequence(tail, i - 1, n);
        assert tail[i - 1..i - 1 + n] == a[i..i + n];
      } else {
        RunIsSubsequence(tail, 0, n - 1);
        assert a[0..n][1..] == tail[0..n - 1];
      }
    }
  }

  lemma {:induction false} SubsequenceLength(c: seq<Token>, a: seq<Token>)
    requires Subsequence(c, a)
    ensures |c| <= |a|
    decreases |a|
  {
    if c != [] {
      if c[0] == a[0] && Subsequence(c[1..], a[1..]) {
        SubsequenceLength(c[1..], a[1..]);
      } else {
        SubsequenceLength(c, a[1..]);
      }
    }
  }

  /** There is a longest common subsequence. */
  lemma {:induction false} LongestExists(a: seq<Token>, b: seq<Token>, bound: nat) returns (n: nat)
    requires forall c :: CommonSubsequence(c, a, b) ==> |c| <= bound
    ensures LongestSubsequence(a, b, n)
    decreases bound
  {
    if exists c :: |c| == bound && CommonSubsequence(c, a, b) {
      n := bound;
    } else {
      assert CommonSubsequence([], a, b);
      n := LongestExists(a, b, bound - 1);
    }
  }

  /**
   * What the code computes against what its comment says: never more than the longest common
   * subsequence, which always exists, and equal to it if and only if some longest common subsequence
   * is contiguous in both sequences.
   */
  lemma RunAgainstSubsequence(a: seq<Token>, b: seq<Token>, run: nat) returns (n: nat)
    requires LongestRun(a, b, run)
    ensures LongestSubsequence(a, b, n) && run <= n
    ensures run == n <==> exists c :: |c| == n && CommonSubsequence(c, a, b) && Contiguous(c, a) && Contiguous(c, b)
  {
    hide *;
    n := LongestOf(a, b);
    var c := RunAsSubsequence(a, b, run);
    AtMostLongest(a, b, n, c);
    if exists d :: |d| == n && CommonSubsequence(d, a, b) && Contiguous(d, a) && Contiguous(d, b) {
      var d :| |d| == n && CommonSubsequence(d, a, b) && Contiguous(d, a) && Contiguous(d, b);
      ContiguousIsRun(a, b, d, run);
    }
  }

  lemma LongestOf(a: seq<Token>, b: seq<Token>) returns (n: nat)
    ensures LongestSubsequence(a, b, n)
  {
    forall c | CommonSubsequence(c, a, b) ensures |c| <= |a| {
      SubsequenceLength(c, a);
    }
    n := LongestExists(a, b, |a|);
  }

  lemma AtMostLongest(a: seq<Token>, b: seq<Token>, n: nat, c: seq<Token>)
    requires LongestSubsequence(a, b, n) && CommonSubsequence(c, a, b)
    ensures |c| <= n
  {
  }

  lemma RunAsSubsequence(a: seq<Token>, b: seq<Token>, run: nat) returns (c: seq<Token>)
    requires LongestRun(a, b, run)
    ensures |c| == run && CommonSubsequence(c, a, b) && Contiguous(c, a) && Contiguous(c, b)
  {
    hide Subsequence;
    var i: nat, j: nat :| CommonRun(a, b, i, j, run);
    c := a[i..i + run];
    RunIsSubsequence(a, i, run);
    RunIsSubsequence(b, j, run);
    assert StandsAt(c, a, i) && StandsAt(c, b, j);
  }

  lemma ContiguousIsRun(a: seq<Token>, b: seq<Token>, d: seq<Token>, run: nat)
    requires LongestRun(a, b, run) && Contiguous(d, a) && Contiguous(d, b)
    ensures |d| <= run
  {
    var k: nat :| StandsAt(d, a, k);
    var l: nat :| StandsAt(d, b, l);
    assert CommonRun(a, b, k, l, |d|);
  }

  /** Two sequences with a common subsequence of two tokens, where the code answers 1. */
  lemma NotASubsequence()
    ensures LongestRun([1, 9, 2], [1, 2], 1)
    ensures CommonSubsequence([1, 2], [1, 9, 2], [1, 2]) && LongestSubsequence([1, 9, 2], [1, 2], 2)
  {
    var a: seq<Token>, b: seq<Token> := [1, 9, 2], [1, 2];
    assert a[0..1] == b[0..1];
    assert CommonRun(a, b, 0, 0, 1);
    forall i: nat, j: nat, m: nat | CommonRun(a, b, i, j, m) ensures m <= 1 {
      RunIsWithinEnding(a, b, i, j, m);
    }
    assert a[1..] == [9, 2] && [9, 2][1..] == [2] && b[1..] == [2] && [2][1..] == [];
    assert Subsequence([2], [2]) && Subsequence([2], [9, 2]);
    assert Subsequence([1, 2], a) && Subsequence([1, 2], b) by { assert [1, 2][1..] == [2]; }
    forall c | CommonSubsequence(c, a, b) ensures |c| <= 2 {
      SubsequenceLength(c, b);
    }
  }
}
