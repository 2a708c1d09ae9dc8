/**
  The greedy bit allocator of tools/hsic/allocate.py: every tensor starts at the
  cheapest quantization type of a menu and is upgraded one type at a time, by a
  priority queue with lazy deletion, while the bit budget lasts.
  Floating point is modelled over `real`; the `heapq` is a sequence in push order
  from which the entry of highest value (earliest pushed on a tie) is popped.
 */
module Allocator {
  import opened Basics

  datatype QuantType = QuantType(name: string, bpw: real, noise: real)

  /** One allocation problem. Tensors are numbered in sorted-name order. */
  datatype Problem = Problem(types: seq<QuantType>, params: seq<nat>, layer: seq<int>, score: seq<real>, target: real)
  {
    /** What the caller's menu guarantees: more bits, strictly less noise. */
    predicate Valid() {
      && |types| > 0
      && |params| == |layer| == |score|
      && (forall t :: 0 <= t < |params| ==> params[t] > 0)
      && (forall i, j :: 0 <= i < j < |types| ==> types[i].bpw < types[j].bpw && types[i].noise > types[j].noise)
      && (forall i :: 0 <= i < |types| ==> types[i].noise > 0.0)
    }
  }

  datatype Entry = Entry(value: real, tensor: nat, from: nat)

  datatype State = State(idx: seq<nat>, bits: real, err: map<int, real>, pq: seq<Entry>)

  function Weight(p: Problem, t: nat): (w: real)
    requires t < |p.score|
    ensures w >= 0.0
  {
    if p.score[t] > 0.0 then p.score[t] else 0.0
  }

  /** Extra bits of moving tensor t from type i to type i + 1. */
  function Cost(p: Problem, t: nat, i: nat): (c: real)
    requires p.Valid() && t < |p.params| && i + 1 < |p.types|
    ensures c > 0.0
  {
    PositiveProduct(p.types[i + 1].bpw - p.types[i].bpw, p.params[t] as real);
    (p.types[i + 1].bpw - p.types[i].bpw) * p.params[t] as real
  }

  /** Weighted noise removed from the tensor's layer by that move. */
  function Gain(p: Problem, t: nat, i: nat): (g: real)
    requires p.Valid() && t < |p.params| && i + 1 < |p.types|
    ensures g >= 0.0
    ensures Weight(p, t) == 0.0 ==> g == 0.0
  {
    Weight(p, t) * (p.types[i].noise - p.types[i + 1].noise)
  }

  /** Improvement of the squared layer error e per extra bit. */
  function Value(e: real, gain: real, cost: real): real
    requires cost > 0.0
  {
    (e * e - (e - gain) * (e - gain)) / cost
  }

  predicate Shape(p: Problem, s: State) {
    && p.Valid()
    && |s.idx| == |p.params|
    && (forall t :: 0 <= t < |s.idx| ==> s.idx[t] < |p.types|)
    && (forall t :: 0 <= t < |p.layer| ==> p.layer[t] in s.err)
    && QueueShape(p, s.pq)
  }

  predicate QueueShape(p: Problem, pq: seq<Entry>) {
    forall i :: 0 <= i < |pq| ==> pq[i].tensor < |p.params| && pq[i].from + 1 < |p.types|
  }

  function Push(p: Problem, err: map<int, real>, pq: seq<Entry>, t: nat, from: nat): (r: seq<Entry>)
    requires p.Valid() && t < |p.params| && p.layer[t] in err && QueueShape(p, pq)
    ensures QueueShape(p, r)
  {
    if from + 1 >= |p.types| then pq
    else if Cost(p, t, from) <= 0.0 then pq
    else pq + [Entry(Value(err[p.layer[t]], Gain(p, t, from), Cost(p, t, from)), t, from)]
  }

  /** Pushes the next upgrade of every tensor k.. that shares t's layer, except t itself. */
  function PushOthers(p: Problem, err: map<int, real>, idx: seq<nat>, pq: seq<Entry>, t: nat, k: nat): (r: seq<Entry>)
    requires p.Valid() && t < |p.params| && k <= |p.params| == |idx| && QueueShape(p, pq)
    requires forall t :: 0 <= t < |p.layer| ==> p.layer[t] in err
    ensures QueueShape(p, r)
    decreases |p.params| - k
  {
    if k == |p.params| then pq
    else if p.layer[k] == p.layer[t] && k != t then PushOthers(p, err, idx, Push(p, err, pq, k, idx[k]), t, k + 1)
    else PushOthers(p, err, idx, pq, t, k + 1)
  }

  /** Highest value, earliest pushed. */
  predicate IsBest(pq: seq<Entry>, b: nat) {
    && b < |pq|
    && (forall j :: 0 <= j < |pq| ==> pq[j].value <= pq[b].value)
    && (forall j :: 0 <= j < b ==> pq[j].value < pq[b].value)
  }

  /** The entry popped next. */
  function Best(pq: seq<Entry>): (b: nat)
    requires |pq| > 0
    ensures IsBest(pq, b)
  {
    var n := |pq| - 1;
    if n == 0 then 0
    else
      var b := Best(pq[..n]);
      assert forall j :: 0 <= j < n ==> pq[..n][j] == pq[j];
      if pq[n].value > pq[b].value then n else b
  }

  function Remove<T>(s: seq<T>, i: nat): (r: seq<T>)
    requires i < |s|
    ensures |r| == |s| - 1
    ensures forall j :: 0 <= j < i ==> r[j] == s[j]
    ensures forall j :: i <= j < |r| ==> r[j] == s[j + 1]
  {
    s[..i] + s[i + 1..]
  }

  predicate Fits(p: Problem, s: State, t: nat, from: nat)
    requires p.Valid() && t < |p.params| && from + 1 < |p.types|
  {
    s.bits + Cost(p, t, from) <= p.target
  }

  /** One iteration of the greedy loop; `repush` says whether the other tensors of
      the layer are pushed again after an upgrade, as the code does. */
  function Step(p: Problem, s: State, repush: bool): (r: State)
    requires Shape(p, s) && |s.pq| > 0
    ensures Shape(p, r)
  {
    var i := Best(s.pq);
    var e := s.pq[i];
    var rest := Remove(s.pq, i);
    if s.idx[e.tensor] != e.from || !Fits(p, s, e.tensor, e.from) then s.(pq := rest)
    else Upgrade(p, s.(pq := rest), e.tensor, repush)
  }

  function Upgrade(p: Problem, s: State, t: nat, repush: bool): (r: State)
    requires Shape(p, s) && t < |s.idx| && s.idx[t] + 1 < |p.types|
    ensures Shape(p, r)
    ensures r.idx == s.idx[t := s.idx[t] + 1]
  {
    var from := s.idx[t];
    var err := s.err[p.layer[t] := s.err[p.layer[t]] - Gain(p, t, from)];
    var idx := s.idx[t := from + 1];
    var pq := Push(p, err, s.pq, t, from + 1);
    State(idx, s.bits + Cost(p, t, from), err, if repush then PushOthers(p, err, idx, pq, t, 0) else pq)
  }

  /** Upgrades still possible, summed over all tensors: what makes the loop end. */
  function Slack(p: Problem, idx: seq<nat>): (n: nat)
    requires forall t :: 0 <= t < |idx| ==> idx[t] < |p.types|
  {
    if idx == [] then 0
    else
      var n := |idx| - 1;
      Slack(p, idx[..n]) + (|p.types| - 1 - idx[n])
  }

  lemma SlackUpdate(p: Problem, idx: seq<nat>, t: nat, i: nat)
    requires forall t :: 0 <= t < |idx| ==> idx[t] < |p.types|
    requires t < |idx| && i < |p.types|
    ensures Slack(p, idx[t := i]) == Slack(p, idx) + idx[t] - i
  {
    var n := |idx| - 1;
    if t == n {
      assert idx[t := i][..n] == idx[..n];
    } else {
      assert idx[t := i][..n] == idx[..n][t := i];
      SlackUpdate(p, idx[..n], t, i);
    }
  }

  /** The whole greedy loop. */
  function Run(p: Problem, s: State, repush: bool): (r: State)
    requires Shape(p, s)
    ensures Shape(p, r) && r.pq == []
    decreases Slack(p, s.idx), |s.pq|
  {
    if s.pq == [] then s
    else
      StepShrinks(p, s, repush);
      Run(p, Step(p, s, repush), repush)
  }

  lemma StepShrinks(p: Problem, s: State, repush: bool)
    requires Shape(p, s) && |s.pq| > 0
    ensures var r := Step(p, s, repush);
            Slack(p, r.idx) < Slack(p, s.idx) || (r.idx == s.idx && |r.pq| < |s.pq|)
  {
    var e := s.pq[Best(s.pq)];
    if s.idx[e.tensor] == e.from {
      SlackUpdate(p, s.idx, e.tensor, e.from + 1);
    }
  }
}
