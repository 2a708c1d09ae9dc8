/**
  What the allocator of tools/hsic/allocate.py keeps and reaches: exact bookkeeping
  under the budget, a final assignment with no affordable upgrade left, and an objective
  that no upgrade raises and whose drop per bit is the value an entry is queued with.
 */
module AllocatorLaws {
  import opened Basics
  import opened Allocator

  // ---------- Reference sums ----------

  /** Bits of an assignment, summed tensor by tensor. */
  ghost function BitsOf(p: Problem, idx: seq<nat>): real
    requires |idx| <= |p.params|
    requires forall t :: 0 <= t < |idx| ==> idx[t] < |p.types|
  {
    if idx == [] then 0.0
    else
      var n := |idx| - 1;
      BitsOf(p, idx[..n]) + BitsAt(p, n, idx[n])
  }

  function BitsAt(p: Problem, t: nat, i: nat): real
    requires t < |p.params| && i < |p.types|
  {
    p.types[i].bpw * p.params[t] as real
  }

  function NoiseAt(p: Problem, t: nat, i: nat): real
    requires t < |p.score| && i < |p.types|
  {
    Weight(p, t) * p.types[i].noise
  }

  lemma UpgradeDifferences(p: Problem, t: nat, i: nat)
    requires p.Valid() && t < |p.params| && i + 1 < |p.types|
    ensures Cost(p, t, i) == BitsAt(p, t, i + 1) - BitsAt(p, t, i)
    ensures Gain(p, t, i) == NoiseAt(p, t, i) - NoiseAt(p, t, i + 1)
  {}

  /** Weighted noise of one layer under an assignment. */
  ghost function ErrOf(p: Problem, idx: seq<nat>, l: int): real
    requires |idx| <= |p.layer| == |p.score|
    requires forall t :: 0 <= t < |idx| ==> idx[t] < |p.types|
  {
    if idx == [] then 0.0
    else
      var n := |idx| - 1;
      ErrOf(p, idx[..n], l) + (if p.layer[n] == l then NoiseAt(p, n, idx[n]) else 0.0)
  }

  lemma {:induction false} BitsUpdate(p: Problem, idx: seq<nat>, t: nat)
    requires p.Valid() && t < |idx| <= |p.params|
    requires forall t :: 0 <= t < |idx| ==> idx[t] < |p.types|
    requires idx[t] + 1 < |p.types|
    ensures BitsOf(p, idx[t := idx[t] + 1]) == BitsOf(p, idx) + Cost(p, t, idx[t])
  {
    var n := |idx| - 1;
    var next := idx[t := idx[t] + 1];
    UpgradeDifferences(p, t, idx[t]);
    if t == n {
      assert next[..n] == idx[..n];
    } else {
      assert next[..n] == idx[..n][t := idx[t] + 1];
      BitsUpdate(p, idx[..n], t);
    }
  }

  lemma {:induction false} ErrUpdate(p: Problem, idx: seq<nat>, t: nat, l: int)
    requires p.Valid() && t < |idx| <= |p.params|
    requires forall t :: 0 <= t < |idx| ==> idx[t] < |p.types|
    requires idx[t] + 1 < |p.types|
    ensures ErrOf(p, idx[t := idx[t] + 1], l) == ErrOf(p, idx, l) - (if p.layer[t] == l then Gain(p, t, idx[t]) else 0.0)
  {
    var n := |idx| - 1;
    var next := idx[t := idx[t] + 1];
    UpgradeDifferences(p, t, idx[t]);
    if t == n {
      assert next[..n] == idx[..n];
    } else {
      assert next[..n] == idx[..n][t := idx[t] + 1];
      ErrUpdate(p, idx[..n], t, l);
    }
  }

  lemma {:induction false} ErrNonNegative(p: Problem, idx: seq<nat>, l: int)
    requires p.Valid() && |idx| <= |p.params|
    requires forall t :: 0 <= t < |idx| ==> idx[t] < |p.types|
    ensures ErrOf(p, idx, l) >= 0.0
  {
    if idx != [] {
      var n := |idx| - 1;
      ErrNonNegative(p, idx[..n], l);
      assert NoiseAt(p, n, idx[n]) >= 0.0;
    }
  }

  // ---------- Bookkeeping and budget ----------

  /** The running totals are the true totals of the assignment, within budget. */
  ghost predicate Ledger(p: Problem, s: State) {
    && Shape(p, s)
    && s.bits == BitsOf(p, s.idx) <= p.target
    && forall t :: 0 <= t < |p.layer| ==> s.err[p.layer[t]] == ErrOf(p, s.idx, p.layer[t])
  }

  lemma UpgradeLedger(p: Problem, s: State, t: nat, repush: bool)
    requires Ledger(p, s) && t < |s.idx| && s.idx[t] + 1 < |p.types| && Fits(p, s, t, s.idx[t])
    ensures Ledger(p, Upgrade(p, s, t, repush))
  {
    hide Push, PushOthers, QueueShape, BitsOf, ErrOf, Cost, Gain;
    BitsUpdate(p, s.idx, t);
    forall u | 0 <= u < |p.layer| {
      ErrUpdate(p, s.idx, t, p.layer[u]);
    }
  }

  lemma StepLedger(p: Problem, s: State, repush: bool)
    requires Ledger(p, s) && |s.pq| > 0
    ensures Ledger(p, Step(p, s, repush))
  {
    var i := Best(s.pq);
    var e := s.pq[i];
    if s.idx[e.tensor] == e.from && Fits(p, s, e.tensor, e.from) {
      UpgradeLedger(p, s.(pq := Remove(s.pq, i)), e.tensor, repush);
    }
  }

  // ---------- Nothing is forgotten ----------

  ghost predicate Queued(pq: seq<Entry>, t: nat, from: nat) {
    exists i :: 0 <= i < |pq| && pq[i].tensor == t && pq[i].from == from
  }

  /** Every upgrade that still fits the budget is waiting in the queue. */
  ghost predicate Pending(p: Problem, s: State)
    requires Shape(p, s)
  {
    forall t :: 0 <= t < |s.idx| && s.idx[t] + 1 < |p.types| && Fits(p, s, t, s.idx[t]) ==> Queued(s.pq, t, s.idx[t])
  }

  lemma PushOthersKeeps(p: Problem, err: map<int, real>, idx: seq<nat>, pq: seq<Entry>, t: nat, k: nat)
    requires p.Valid() && t < |p.params| && k <= |p.params| == |idx| && QueueShape(p, pq)
    requires forall t :: 0 <= t < |p.layer| ==> p.layer[t] in err
    ensures pq <= PushOthers(p, err, idx, pq, t, k)
    decreases |p.params| - k
  {
    if k < |p.params| {
      if p.layer[k] == p.layer[t] && k != t {
        PushOthersKeeps(p, err, idx, Push(p, err, pq, k, idx[k]), t, k + 1);
      } else {
        PushOthersKeeps(p, err, idx, pq, t, k + 1);
      }
    }
  }

  lemma QueuedAfterRemove(pq: seq<Entry>, r: nat, t: nat, from: nat)
    requires r < |pq| && Queued(pq, t, from)
    requires pq[r].tensor != t || pq[r].from != from
    ensures Queued(Remove(pq, r), t, from)
  {
    var i :| 0 <= i < |pq| && pq[i].tensor == t && pq[i].from == from;
    var j := if i < r then i else i - 1;
    assert Remove(pq, r)[j] == pq[i];
  }

  lemma QueuedPrefix(a: seq<Entry>, b: seq<Entry>, t: nat, from: nat)
    requires a <= b && Queued(a, t, from)
    ensures Queued(b, t, from)
  {
    var i :| 0 <= i < |a| && a[i].tensor == t && a[i].from == from;
    assert b[i] == a[i];
  }

  lemma UpgradeQueues(p: Problem, s: State, t: nat, repush: bool)
    requires Shape(p, s) && t < |s.idx| && s.idx[t] + 1 < |p.types|
    ensures var r := Upgrade(p, s, t, repush);
            s.pq <= r.pq && (r.idx[t] + 1 < |p.types| ==> Queued(r.pq, t, r.idx[t]))
  {
    hide Value, Gain, Cost, PushOthers;
    var r := Upgrade(p, s, t, repush);
    var pq := Push(p, r.err, s.pq, t, s.idx[t] + 1);
    PushOthersKeeps(p, r.err, r.idx, pq, t, 0);
    assert s.pq <= pq <= r.pq;
    if s.idx[t] + 2 < |p.types| {
      assert pq[|s.pq|].tensor == t;
      QueuedPrefix(pq, r.pq, t, s.idx[t] + 1);
    }
  }

  lemma StepPending(p: Problem, s: State, repush: bool)
    requires Shape(p, s) && Pending(p, s) && |s.pq| > 0
    ensures Pending(p, Step(p, s, repush))
  {
    var i := Best(s.pq);
    var e := s.pq[i];
    var rest := s.(pq := Remove(s.pq, i));
    var r := Step(p, s, repush);
    var upgraded := s.idx[e.tensor] == e.from && Fits(p, s, e.tensor, e.from);
    if upgraded {
      UpgradeQueues(p, rest, e.tensor, repush);
    }
    forall t | 0 <= t < |r.idx| && r.idx[t] + 1 < |p.types| && Fits(p, r, t, r.idx[t])
      ensures Queued(r.pq, t, r.idx[t])
    {
      if !(upgraded && t == e.tensor) {
        assert Fits(p, s, t, s.idx[t]);
        QueuedAfterRemove(s.pq, i, t, s.idx[t]);
        QueuedPrefix(rest.pq, r.pq, t, s.idx[t]);
      }
    }
  }

  /** No tensor can move up one more type within the budget. */
  ghost predicate Maximal(p: Problem, s: State)
    requires Shape(p, s)
  {
    forall t :: 0 <= t < |s.idx| && s.idx[t] + 1 < |p.types| ==> !Fits(p, s, t, s.idx[t])
  }

  /** From any state with true totals and nothing forgotten, the loop ends with true
      totals within budget and no affordable upgrade left. */
  lemma {:induction false} RunIsSoundAndMaximal(p: Problem, s: State, repush: bool)
    requires Ledger(p, s) && Pending(p, s)
    ensures Ledger(p, Run(p, s, repush)) && Maximal(p, Run(p, s, repush))
    decreases Slack(p, s.idx), |s.pq|
  {
    if s.pq != [] {
      StepShrinks(p, s, repush);
      StepLedger(p, s, repush);
      StepPending(p, s, repush);
      RunIsSoundAndMaximal(p, Step(p, s, repush), repush);
    }
  }

  // ---------- The start of a run ----------

  function Zeros(n: nat): (z: seq<nat>)
    ensures |z| == n && forall t :: 0 <= t < n ==> z[t] == 0
  {
    seq(n, _ => 0)
  }

  /** The first upgrade of tensors k.. pushed in name order. */
  function PushAll(p: Problem, err: map<int, real>, pq: seq<Entry>, k: nat): (r: seq<Entry>)
    requires p.Valid() && k <= |p.params| && QueueShape(p, pq)
    requires forall t :: 0 <= t < |p.layer| ==> p.layer[t] in err
    ensures QueueShape(p, r)
    decreases |p.params| - k
  {
    if k == |p.params| then pq else PushAll(p, err, Push(p, err, pq, k, 0), k + 1)
  }

  ghost function BaseErr(p: Problem): (err: map<int, real>)
    requires p.Valid()
    ensures forall t :: 0 <= t < |p.layer| ==> p.layer[t] in err && err[p.layer[t]] == ErrOf(p, Zeros(|p.params|), p.layer[t])
  {
    map l | l in p.layer :: ErrOf(p, Zeros(|p.params|), l)
  }

  /** Everything at the base type, every first upgrade queued. */
  ghost function Start(p: Problem): (s: State)
    requires p.Valid()
    ensures Shape(p, s)
  {
    var z := Zeros(|p.params|);
    State(z, BitsOf(p, z), BaseErr(p), PushAll(p, BaseErr(p), [], 0))
  }

  lemma {:induction false} PushAllQueues(p: Problem, err: map<int, real>, pq: seq<Entry>, k: nat)
    requires p.Valid() && k <= |p.params| && QueueShape(p, pq) && |p.types| > 1
    requires forall t :: 0 <= t < |p.layer| ==> p.layer[t] in err
    ensures pq <= PushAll(p, err, pq, k)
    ensures forall t :: k <= t < |p.params| ==> Queued(PushAll(p, err, pq, k), t, 0)
    decreases |p.params| - k
  {
    if k < |p.params| {
      var next := Push(p, err, pq, k, 0);
      assert next[|pq|].tensor == k && next[|pq|].from == 0;
      PushAllQueues(p, err, next, k + 1);
      QueuedPrefix(next, PushAll(p, err, pq, k), k, 0);
    }
  }

  lemma StartIsSound(p: Problem)
    requires p.Valid() && BitsOf(p, Zeros(|p.params|)) <= p.target
    ensures Ledger(p, Start(p)) && Pending(p, Start(p))
  {
    if |p.types| > 1 {
      PushAllQueues(p, BaseErr(p), [], 0);
    }
  }

  // ---------- The objective never rises ----------

  /** Layers in order of first appearance. */
  function Layers(layer: seq<int>): (ls: seq<int>)
    ensures forall l :: l in ls <==> l in layer
    ensures forall i, j :: 0 <= i < j < |ls| ==> ls[i] != ls[j]
  {
    if layer == [] then []
    else
      var n := |layer| - 1;
      assert layer == layer[..n] + [layer[n]];
      var ls := Layers(layer[..n]);
      if layer[n] in layer[..n] then ls else ls + [layer[n]]
  }

  ghost function SumOver(ls: seq<int>, f: int -> real): real {
    if ls == [] then 0.0 else f(ls[0]) + SumOver(ls[1..], f)
  }

  lemma {:induction false} SumOverMonotone(ls: seq<int>, f: int -> real, g: int -> real)
    requires forall l :: l in ls ==> f(l) <= g(l)
    ensures SumOver(ls, f) <= SumOver(ls, g)
  {
    if ls != [] {
      var l := ls[0];
      assert l in ls;
      assert f(l) <= g(l);
      SumOverMonotone(ls[1..], f, g);
    }
  }

  function Square(x: real): real {
    Times(x, x)
  }

  lemma SquarePositive(x: real)
    requires x > 0.0
    ensures Square(x) > 0.0
  {
    PositiveProduct(x, x);
  }

  ghost function LayerSquare(p: Problem, idx: seq<nat>, l: int): real
    requires |idx| <= |p.layer| == |p.score|
    requires forall t :: 0 <= t < |idx| ==> idx[t] < |p.types|
  {
    Square(ErrOf(p, idx, l))
  }

  /** Sum over the given layers of the squared layer error. */
  ghost function Objective(p: Problem, idx: seq<nat>, ls: seq<int>): real
    requires |idx| <= |p.layer| == |p.score|
    requires forall t :: 0 <= t < |idx| ==> idx[t] < |p.types|
  {
    SumOver(ls, l => LayerSquare(p, idx, l))
  }

  lemma SquareMonotone(a: real, b: real)
    requires 0.0 <= a <= b
    ensures Square(a) <= Square(b)
  {
    var d := b - a;
    assert (a + d) * (a + d) == a * a + (2.0 * a + d) * d;
    assert (2.0 * a + d) * d >= 0.0;
  }

  lemma UpgradeLowersSquare(p: Problem, idx: seq<nat>, t: nat, l: int)
    requires p.Valid() && t < |idx| == |p.params|
    requires forall t :: 0 <= t < |idx| ==> idx[t] < |p.types|
    requires idx[t] + 1 < |p.types|
    ensures LayerSquare(p, idx[t := idx[t] + 1], l) <= LayerSquare(p, idx, l)
  {
    var next := idx[t := idx[t] + 1];
    ErrUpdate(p, idx, t, l);
    ErrNonNegative(p, next, l);
    SquareMonotone(ErrOf(p, next, l), ErrOf(p, idx, l));
  }

  lemma UpgradeLowersObjective(p: Problem, idx: seq<nat>, t: nat, ls: seq<int>)
    requires p.Valid() && t < |idx| == |p.params|
    requires forall t :: 0 <= t < |idx| ==> idx[t] < |p.types|
    requires idx[t] + 1 < |p.types|
    ensures Objective(p, idx[t := idx[t] + 1], ls) <= Objective(p, idx, ls)
  {
    var next := idx[t := idx[t] + 1];
    var f := l => LayerSquare(p, next, l);
    var g := l => LayerSquare(p, idx, l);
    forall l ensures f(l) <= g(l) {
      UpgradeLowersSquare(p, idx, t, l);
    }
    SumOverMonotone(ls, f, g);
  }

  lemma {:induction false} SumOverOneChange(ls: seq<int>, f: int -> real, g: int -> real, l: int)
    requires forall i, j :: 0 <= i < j < |ls| ==> ls[i] != ls[j]
    requires forall k :: k != l ==> f(k) == g(k)
    ensures SumOver(ls, g) - SumOver(ls, f) == if l in ls then g(l) - f(l) else 0.0
  {
    if ls != [] {
      SumOverOneChange(ls[1..], f, g, l);
      assert ls[0] !in ls[1..];
      assert l in ls <==> l == ls[0] || l in ls[1..];
    }
  }

  lemma ValueTimesCost(e: real, gain: real, cost: real)
    requires cost > 0.0
    ensures Times(Value(e, gain, cost), cost) == Square(e) - Square(e - gain)
  {
    var drop := e * e - (e - gain) * (e - gain);
    assert drop / cost * cost == drop;
  }

  /** The value of an upgrade is what it takes off the objective, per bit it adds. */
  lemma ValueIsDropPerBit(p: Problem, idx: seq<nat>, t: nat)
    requires p.Valid() && t < |idx| == |p.params|
    requires forall t :: 0 <= t < |idx| ==> idx[t] < |p.types|
    requires idx[t] + 1 < |p.types|
    ensures var next, ls := idx[t := idx[t] + 1], Layers(p.layer);
            && BitsOf(p, next) - BitsOf(p, idx) == Cost(p, t, idx[t])
            && Objective(p, idx, ls) - Objective(p, next, ls)
               == Times(Value(ErrOf(p, idx, p.layer[t]), Gain(p, t, idx[t]), Cost(p, t, idx[t])), Cost(p, t, idx[t]))
  {
    hide Times, Value, Square, Cost, Gain, ErrOf, BitsOf;
    var next, ls, l := idx[t := idx[t] + 1], Layers(p.layer), p.layer[t];
    BitsUpdate(p, idx, t);
    var f := k => LayerSquare(p, next, k);
    var g := k => LayerSquare(p, idx, k);
    forall k ensures ErrOf(p, next, k) == ErrOf(p, idx, k) - (if p.layer[t] == k then Gain(p, t, idx[t]) else 0.0) {
      ErrUpdate(p, idx, t, k);
    }
    assert l in p.layer;
    SumOverOneChange(ls, f, g, l);
    ValueTimesCost(ErrOf(p, idx, l), Gain(p, t, idx[t]), Cost(p, t, idx[t]));
  }

  lemma StepLowersObjective(p: Problem, s: State, repush: bool, ls: seq<int>)
    requires Shape(p, s) && |s.pq| > 0
    ensures Objective(p, Step(p, s, repush).idx, ls) <= Objective(p, s.idx, ls)
  {
    var e := s.pq[Best(s.pq)];
    if s.idx[e.tensor] == e.from {
      UpgradeLowersObjective(p, s.idx, e.tensor, ls);
    }
  }

  /** The sum of squared layer errors at the end of a run is no larger than at its start. */
  lemma {:induction false} RunLowersObjective(p: Problem, s: State, repush: bool, ls: seq<int>)
    requires Shape(p, s)
    ensures Objective(p, Run(p, s, repush).idx, ls) <= Objective(p, s.idx, ls)
    decreases Slack(p, s.idx), |s.pq|
  {
    if s.pq != [] {
      StepShrinks(p, s, repush);
      StepLowersObjective(p, s, repush, ls);
      RunLowersObjective(p, Step(p, s, repush), repush, ls);
    }
  }

  // ---------- The objective reported on the early return ----------

  lemma {:induction false} SumOverZero(ls: seq<int>, f: int -> real)
    requires forall l :: f(l) >= 0.0
    ensures SumOver(ls, f) >= 0.0
    ensures SumOver(ls, f) == 0.0 <==> forall l :: l in ls ==> f(l) == 0.0
  {
    if ls != [] {
      SumOverZero(ls[1..], f);
      assert forall l :: l in ls <==> l == ls[0] || l in ls[1..];
    }
  }

  lemma {:induction false} ErrZero(p: Problem, idx: seq<nat>, l: int)
    requires p.Valid() && |idx| <= |p.params|
    requires forall t :: 0 <= t < |idx| ==> idx[t] < |p.types|
    ensures ErrOf(p, idx, l) == 0.0 <==> forall t :: 0 <= t < |idx| && p.layer[t] == l ==> Weight(p, t) == 0.0
  {
    if idx != [] {
      var n := |idx| - 1;
      ErrZero(p, idx[..n], l);
      ErrNonNegative(p, idx[..n], l);
      if Weight(p, n) > 0.0 {
        PositiveProduct(Weight(p, n), p.types[idx[n]].noise);
      }
    }
  }

  lemma LayerSquareSign(p: Problem, idx: seq<nat>, l: int)
    requires p.Valid() && |idx| <= |p.params|
    requires forall t :: 0 <= t < |idx| ==> idx[t] < |p.types|
    ensures LayerSquare(p, idx, l) >= 0.0
    ensures LayerSquare(p, idx, l) == 0.0 <==> ErrOf(p, idx, l) == 0.0
  {
    ErrNonNegative(p, idx, l);
    if ErrOf(p, idx, l) > 0.0 {
      SquarePositive(ErrOf(p, idx, l));
    }
  }

  /** The squared layer errors of an assignment sum to zero exactly when no tensor has a positive score. */
  lemma ObjectiveZero(p: Problem, idx: seq<nat>)
    requires p.Valid() && |idx| == |p.params|
    requires forall t :: 0 <= t < |idx| ==> idx[t] < |p.types|
    ensures Objective(p, idx, Layers(p.layer)) == 0.0 <==> forall t :: 0 <= t < |p.score| ==> p.score[t] <= 0.0
  {
    var f := l => LayerSquare(p, idx, l);
    forall l ensures f(l) >= 0.0 && (f(l) == 0.0 <==> ErrOf(p, idx, l) == 0.0) {
      LayerSquareSign(p, idx, l);
    }
    SumOverZero(Layers(p.layer), f);
    if forall l :: l in Layers(p.layer) ==> f(l) == 0.0 {
      forall t | 0 <= t < |p.score| ensures p.score[t] <= 0.0 {
        assert p.layer[t] in Layers(p.layer);
        assert f(p.layer[t]) == 0.0;
        ErrZero(p, idx, p.layer[t]);
        assert Weight(p, t) == 0.0;
      }
    }
    if forall t :: 0 <= t < |p.score| ==> p.score[t] <= 0.0 {
      forall l | l in Layers(p.layer) ensures f(l) == 0.0 {
        ErrZero(p, idx, l);
      }
    }
  }
}
