/**
  Greedy byte-pair merging, `QwenModel.bpe` of convert_hf_to_gguf.py, and what the converter
  recovers with it: for every token of the vocabulary, the last merge that makes it.
 */
module Bpe {
  import opened Basics

  type Bytes = seq<nat>
  type Ranks = map<Bytes, int>

  datatype Pair = Pair(index: nat, rank: int)

  function Singles(token: Bytes): (parts: seq<Bytes>)
    ensures |parts| == |token|
    ensures forall i :: 0 <= i < |parts| ==> parts[i] == [token[i]]
  {
    seq(|token|, i requires 0 <= i < |token| => [token[i]])
  }

  /** Rank of the pair starting at part i, if the two parts together are a token. */
  function RankAt(ranks: Ranks, parts: seq<Bytes>, i: nat): Option<int>
    requires i + 1 < |parts|
  {
    var both := parts[i] + parts[i + 1];
    if both in ranks then Some(ranks[both]) else None
  }

  /** The leftmost pair of lowest rank among the first n pairs. */
  function BestAmong(ranks: Ranks, parts: seq<Bytes>, n: nat): (r: Option<Pair>)
    requires n == 0 || n < |parts|
    ensures r.Some? ==> r.value.index < n && RankAt(ranks, parts, r.value.index) == Some(r.value.rank)
    ensures forall i :: 0 <= i < n && RankAt(ranks, parts, i).Some? ==> r.Some? && r.value.rank <= RankAt(ranks, parts, i).value
    ensures r.Some? ==> forall i :: 0 <= i < r.value.index && RankAt(ranks, parts, i).Some? ==> r.value.rank < RankAt(ranks, parts, i).value
  {
    if n == 0 then None
    else
      var best := BestAmong(ranks, parts, n - 1);
      var rank := RankAt(ranks, parts, n - 1);
      if rank.Some? && (best.None? || rank.value < best.value.rank) then Some(Pair(n - 1, rank.value)) else best
  }

  function Best(ranks: Ranks, parts: seq<Bytes>): Option<Pair> {
    BestAmong(ranks, parts, if parts == [] then 0 else |parts| - 1)
  }

  /** A limit of None never stops a merge. */
  predicate Under(rank: int, limit: Option<int>) {
    limit.None? || rank < limit.value
  }

  function Merge(parts: seq<Bytes>, i: nat): (r: seq<Bytes>)
    requires i + 1 < |parts|
    ensures |r| == |parts| - 1
  {
    parts[..i] + [parts[i] + parts[i + 1]] + parts[i + 2..]
  }

  /** Merge the best pair until none is left under the limit. */
  function Run(ranks: Ranks, parts: seq<Bytes>, limit: Option<int>): (r: seq<Bytes>)
    ensures |r| <= |parts|
    decreases |parts|
  {
    var best := Best(ranks, parts);
    if best.None? || !Under(best.value.rank, limit) then parts
    else Run(ranks, Merge(parts, best.value.index), limit)
  }

  /** The inner loop of `bpe`: the first adjacent pair of lowest rank. */
  method FindBest(ranks: Ranks, parts: seq<Bytes>) returns (best: Option<Pair>)
    ensures best == Best(ranks, parts)
  {
    best := None;
    var n := if parts == [] then 0 else |parts| - 1;
    for i := 0 to n
      invariant best == BestAmong(ranks, parts, i)
    {
      var rank := RankAt(ranks, parts, i);
      if rank.Some? && (best.None? || rank.value < best.value.rank) {
        best := Some(Pair(i, rank.value));
      }
    }
  }

  /** `bpe`: merges the best pair while its rank is below the limit. */
  method Bpe(ranks: Ranks, token: Bytes, limit: Option<int>) returns (parts: seq<Bytes>)
    ensures parts == Run(ranks, Singles(token), limit)
  {
    hide BestAmong, RankAt, Singles;
    parts := Singles(token);
    while true
      invariant Run(ranks, parts, limit) == Run(ranks, Singles(token), limit)
      decreases |parts|
    {
      var best := FindBest(ranks, parts);
      if best.None? || !Under(best.value.rank, limit) {
        return;
      }
      parts := Merge(parts, best.value.index);
    }
  }

  // ---------- Which pair is merged ----------

  /** Parts j and j + 1 together are a token of this rank. */
  ghost predicate Joins(ranks: Ranks, parts: seq<Bytes>, j: nat, rank: int) {
    && j + 1 < |parts|
    && parts[j] + parts[j + 1] in ranks
    && ranks[parts[j] + parts[j + 1]] == rank
  }

  /** Pair i is the first of those of lowest rank. */
  ghost predicate FirstLowest(ranks: Ranks, parts: seq<Bytes>, i: nat, rank: int) {
    && Joins(ranks, parts, i, rank)
    && forall j: nat, other :: Joins(ranks, parts, j, other) ==> rank <= other && (j < i ==> rank < other)
  }

  lemma BestIsFirstLowest(ranks: Ranks, parts: seq<Bytes>, i: nat, rank: int)
    requires FirstLowest(ranks, parts, i, rank)
    ensures Best(ranks, parts) == Some(Pair(i, rank))
  {
    hide BestAmong;
    var best := Best(ranks, parts);
    assert RankAt(ranks, parts, i) == Some(rank);
    assert Joins(ranks, parts, best.value.index, best.value.rank);
  }

  /** Merged is the pair of lowest rank, of those the first, if that rank is below the limit. */
  lemma MergesFirstLowest(ranks: Ranks, parts: seq<Bytes>, limit: Option<int>, i: nat, rank: int)
    requires FirstLowest(ranks, parts, i, rank) && (limit.None? || rank < limit.value)
    ensures Run(ranks, parts, limit) == Run(ranks, parts[..i] + [parts[i] + parts[i + 1]] + parts[i + 2..], limit)
  {
    hide Best;
    BestIsFirstLowest(ranks, parts, i, rank);
  }

  /** Without a pair below the limit nothing is merged. */
  lemma StopsAtLimit(ranks: Ranks, parts: seq<Bytes>, limit: Option<int>)
    requires forall j: nat, rank :: Joins(ranks, parts, j, rank) ==> limit.Some? && limit.value <= rank
    ensures Run(ranks, parts, limit) == parts
  {
    var best := Best(ranks, parts);
    if best.Some? {
      assert Joins(ranks, parts, best.value.index, best.value.rank);
    }
  }

  // ---------- What a run keeps ----------

  lemma {:induction false} JoinedSingles(token: Bytes)
    ensures Flatten(Singles(token)) == token
  {
    if token != [] {
      assert Singles(token)[1..] == Singles(token[1..]);
      JoinedSingles(token[1..]);
    }
  }

  lemma {:induction false} JoinedMerge(parts: seq<Bytes>, i: nat)
    requires i + 1 < |parts|
    ensures Flatten(Merge(parts, i)) == Flatten(parts)
  {
    var m := Merge(parts, i);
    if i == 0 {
      assert m[1..] == parts[2..] == parts[1..][1..];
      assert Flatten(parts[1..]) == parts[1] + Flatten(parts[2..]);
    } else {
      assert m[0] == parts[0] && m[1..] == Merge(parts[1..], i - 1);
      JoinedMerge(parts[1..], i - 1);
    }
  }

  lemma JoinedTwo(parts: seq<Bytes>)
    requires |parts| == 2
    ensures Flatten(parts) == parts[0] + parts[1]
  {
    assert parts[1..][1..] == [];
    assert Flatten(parts[1..]) == parts[1] + [];
  }

  ghost predicate NonEmpty(parts: seq<Bytes>) {
    forall i :: 0 <= i < |parts| ==> parts[i] != []
  }

  /** Merging never changes the bytes, and stops only when no pair is under the limit. */
  lemma {:induction false} RunKeepsBytes(ranks: Ranks, parts: seq<Bytes>, limit: Option<int>)
    ensures Flatten(Run(ranks, parts, limit)) == Flatten(parts)
    ensures NonEmpty(parts) ==> NonEmpty(Run(ranks, parts, limit))
    ensures var r := Run(ranks, parts, limit);
            forall i :: 0 <= i < |r| - 1 && RankAt(ranks, r, i).Some? ==> !Under(RankAt(ranks, r, i).value, limit)
    decreases |parts|
  {
    var best := Best(ranks, parts);
    if best.Some? && Under(best.value.rank, limit) {
      JoinedMerge(parts, best.value.index);
      RunKeepsBytes(ranks, Merge(parts, best.value.index), limit);
    }
  }

  predicate AtMost(low: Option<int>, high: Option<int>) {
    high.None? || (low.Some? && low.value <= high.value)
  }

  /** A run with a higher limit continues the run with a lower one. */
  lemma {:induction false} RunIsStaged(ranks: Ranks, parts: seq<Bytes>, low: Option<int>, high: Option<int>)
    requires AtMost(low, high)
    ensures Run(ranks, parts, high) == Run(ranks, Run(ranks, parts, low), high)
    decreases |parts|
  {
    var best := Best(ranks, parts);
    if best.Some? && Under(best.value.rank, low) {
      RunIsStaged(ranks, Merge(parts, best.value.index), low, high);
    }
  }

  // ---------- The recovered merge ----------

  lemma {:induction false} PartsWithin(parts: seq<Bytes>, i: nat)
    requires NonEmpty(parts) && i + 1 < |parts| && parts[i] + parts[i + 1] == Flatten(parts)
    ensures |parts| == 2
  {
    PairLength(parts, i);
  }

  lemma {:induction false} JoinedLength(parts: seq<Bytes>)
    requires NonEmpty(parts)
    ensures |Flatten(parts)| >= |parts|
  {
    if parts != [] {
      JoinedLength(parts[1..]);
    }
  }

  /** Every other part adds at least one byte to what a pair makes up. */
  lemma {:induction false} PairLength(parts: seq<Bytes>, i: nat)
    requires NonEmpty(parts) && i + 1 < |parts|
    ensures |Flatten(parts)| >= |parts[i]| + |parts[i + 1]| + |parts| - 2
  {
    if i == 0 {
      JoinedLength(parts[2..]);
      assert parts[1..][1..] == parts[2..];
    } else {
      PairLength(parts[1..], i - 1);
    }
  }

  /** Below its own rank a token is never put together. */
  lemma {:induction false} NeverWhole(ranks: Ranks, parts: seq<Bytes>, token: Bytes)
    requires token in ranks && Flatten(parts) == token && |parts| >= 2
    ensures |Run(ranks, parts, Some(ranks[token]))| >= 2
    decreases |parts|
  {
    var best := Best(ranks, parts);
    if |parts| == 2 {
      JoinedTwo(parts);
    }
    if best.Some? && Under(best.value.rank, Some(ranks[token])) {
      var i := best.value.index;
      JoinedMerge(parts, i);
      NeverWhole(ranks, Merge(parts, i), token);
    }
  }

  lemma TwoMakeOne(ranks: Ranks, parts: seq<Bytes>, token: Bytes, limit: Option<int>)
    requires token in ranks && Flatten(parts) == token && |parts| == 2 && Under(ranks[token], limit)
    ensures Run(ranks, parts, limit) == [token]
  {
    JoinedTwo(parts);
    assert RankAt(ranks, parts, 0) == Some(ranks[token]);
    assert Merge(parts, 0) == [token];
    assert Best(ranks, [token]).None?;
  }

  /** No other token has this token's rank. */
  ghost predicate OwnRank(ranks: Ranks, token: Bytes)
    requires token in ranks
  {
    forall other :: other in ranks && ranks[other] == ranks[token] ==> other == token
  }

  /** What the converter's assertion means. Run up to a token's own rank, the result has at
      least two parts; if it has exactly two, one more merge, at the token's own rank, completes
      the token, and the unlimited run ends with it. When no other token has that rank, exactly
      two parts are also necessary for that merge to complete the token. */
  lemma MergeIsRecovered(ranks: Ranks, token: Bytes)
    requires token in ranks && |token| >= 2
    ensures var r := Run(ranks, Singles(token), Some(ranks[token]));
            && |r| >= 2
            && Flatten(r) == token
            && (|r| == 2 ==> Run(ranks, Singles(token), Some(ranks[token] + 1)) == [token])
            && (|r| == 2 ==> Run(ranks, Singles(token), None) == [token])
            && (OwnRank(ranks, token) && Run(ranks, Singles(token), Some(ranks[token] + 1)) == [token] ==> |r| == 2)
  {
    hide Run, Singles, Flatten;
    var rank := ranks[token];
    var r := Run(ranks, Singles(token), Some(rank));
    JoinedSingles(token);
    NeverWhole(ranks, Singles(token), token);
    RunKeepsBytes(ranks, Singles(token), Some(rank));
    RunIsStaged(ranks, Singles(token), Some(rank), Some(rank + 1));
    RunIsStaged(ranks, Singles(token), Some(rank), None);
    if |r| == 2 {
      TwoMakeOne(ranks, r, token, Some(rank + 1));
      TwoMakeOne(ranks, r, token, None);
    } else if OwnRank(ranks, token) {
      StopsAbove(ranks, r, token);
    }
  }

  /** With more than two parts left, no pair has exactly the token's rank. */
  lemma StopsAbove(ranks: Ranks, r: seq<Bytes>, token: Bytes)
    requires token in ranks && OwnRank(ranks, token) && Flatten(r) == token && NonEmpty(r) && |r| > 2
    requires forall i :: 0 <= i < |r| - 1 && RankAt(ranks, r, i).Some? ==> RankAt(ranks, r, i).value >= ranks[token]
    ensures Run(ranks, r, Some(ranks[token] + 1)) == r
  {
    var best := Best(ranks, r);
    if best.Some? && best.value.rank == ranks[token] {
      PartsWithin(r, best.value.index);
    }
  }
}
