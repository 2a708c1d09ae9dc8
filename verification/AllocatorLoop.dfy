/**
  `greedy_l2_allocate` of tools/hsic/allocate.py as the imperative loop it is,
  proved against the step function and the laws about its runs.
 */
module AllocatorLoop {
  import opened Allocator
  import opened AllocatorLaws
  import opened AllocatorTotals
  import opened Basics

  /** Type index per tensor, bits per weight reached and objective reported. */
  datatype Allocation = Allocation(idx: seq<nat>, bpw: real, objective: real)

  /** The problem solved for a target given in bits per weight. */
  function Solved(menu: Problem, targetBpw: real): Problem {
    menu.(target := TargetBits(targetBpw, TotalParams(menu.params)))
  }

  function TargetBits(targetBpw: real, total: nat): real {
    targetBpw * total as real
  }

  method BaseBits(p: Problem) returns (bits: real)
    requires p.Valid()
    ensures bits == BitsOf(p, Zeros(|p.params|))
  {
    bits := 0.0;
    ghost var z := Zeros(|p.params|);
    for t := 0 to |p.params|
      invariant bits == BitsOf(p, z[..t])
    {
      assert z[..t + 1][..t] == z[..t];
      bits := bits + BitsAt(p, t, 0);
    }
    assert z[..|p.params|] == z;
  }

  lemma ErrExtend(p: Problem, idx: seq<nat>, t: nat, l: int)
    requires t < |idx| <= |p.layer| == |p.score|
    requires forall t :: 0 <= t < |idx| ==> idx[t] < |p.types|
    ensures ErrOf(p, idx[..t + 1], l) == ErrOf(p, idx[..t], l) + (if p.layer[t] == l then NoiseAt(p, t, idx[t]) else 0.0)
  {
    assert idx[..t + 1][..t] == idx[..t];
  }

  method BaseErrors(p: Problem) returns (err: map<int, real>)
    requires p.Valid()
    ensures err == BaseErr(p)
  {
    err := map[];
    ghost var z := Zeros(|p.params|);
    ghost var n := |p.params|;
    for t := 0 to |p.params|
      invariant err.Keys == set l | l in p.layer[..t]
      invariant forall l :: l in err ==> err[l] == ErrOf(p, z[..t], l)
      invariant forall l :: l !in err ==> ErrOf(p, z[..t], l) == 0.0
    {
      forall l { ErrExtend(p, z, t, l); }
      assert p.layer[..t + 1] == p.layer[..t] + [p.layer[t]];
      var l := p.layer[t];
      err := err[l := (if l in err then err[l] else 0.0) + NoiseAt(p, t, 0)];
    }
    assert z[..n] == z && p.layer[..n] == p.layer;
  }

  method FirstQueue(p: Problem, err: map<int, real>) returns (pq: seq<Entry>)
    requires p.Valid()
    requires forall t :: 0 <= t < |p.layer| ==> p.layer[t] in err
    ensures QueueShape(p, pq) && pq == PushAll(p, err, [], 0)
  {
    pq := [];
    for t := 0 to |p.params|
      invariant QueueShape(p, pq) && PushAll(p, err, pq, t) == PushAll(p, err, [], 0)
    {
      pq := Push(p, err, pq, t, 0);
    }
  }

  method RepushLayer(p: Problem, err: map<int, real>, idx: seq<nat>, queue: seq<Entry>, t: nat) returns (pq: seq<Entry>)
    requires p.Valid() && t < |p.params| == |idx| && QueueShape(p, queue)
    requires forall t :: 0 <= t < |p.layer| ==> p.layer[t] in err
    ensures pq == PushOthers(p, err, idx, queue, t, 0)
  {
    pq := queue;
    for k := 0 to |p.params|
      invariant QueueShape(p, pq) && PushOthers(p, err, idx, pq, t, k) == PushOthers(p, err, idx, queue, t, 0)
    {
      if p.layer[k] == p.layer[t] && k != t {
        pq := Push(p, err, pq, k, idx[k]);
      }
    }
  }

  /** One iteration of the loop: pop, discard or upgrade, push again. */
  method PopAndUpgrade(p: Problem, s: State) returns (r: State)
    requires Shape(p, s) && s.pq != []
    ensures r == Step(p, s, true)
  {
    hide Push, PushOthers, Cost, Gain;
    var best := Best(s.pq);
    var e := s.pq[best];
    var pq := Remove(s.pq, best);
    if s.idx[e.tensor] != e.from {
      return s.(pq := pq);
    }
    var cost := Cost(p, e.tensor, e.from);
    if s.bits + cost > p.target {
      return s.(pq := pq);
    }
    var l := p.layer[e.tensor];
    var err := s.err[l := s.err[l] - Gain(p, e.tensor, e.from)];
    var idx := s.idx[e.tensor := e.from + 1];
    pq := Push(p, err, pq, e.tensor, e.from + 1);
    pq := RepushLayer(p, err, idx, pq, e.tensor);
    r := State(idx, s.bits + cost, err, pq);
  }

  method GreedyLoop(p: Problem, bits: real, err: map<int, real>) returns (s: State)
    requires p.Valid() && bits == BitsOf(p, Zeros(|p.params|)) && err == BaseErr(p)
    ensures s == Run(p, Start(p), true)
  {
    var pq := FirstQueue(p, err);
    s := State(Zeros(|p.params|), bits, err, pq);
    while s.pq != []
      invariant Shape(p, s)
      invariant Run(p, s, true) == Run(p, Start(p), true)
      decreases Slack(p, s.idx), |s.pq|
    {
      StepShrinks(p, s, true);
      s := PopAndUpgrade(p, s);
    }
  }

  lemma SumOverFrom(ls: seq<int>, i: nat, f: int -> real)
    requires i < |ls|
    ensures SumOver(ls[i..], f) == f(ls[i]) + SumOver(ls[i + 1..], f)
  {
    assert ls[i..][1..] == ls[i + 1..];
  }

  method SumSquares(ls: seq<int>, err: map<int, real>) returns (sum: real)
    requires forall i :: 0 <= i < |ls| ==> ls[i] in err
    ensures sum == SumOver(ls, l => if l in err then Square(err[l]) else 0.0)
  {
    ghost var f := l => if l in err then Square(err[l]) else 0.0;
    sum := 0.0;
    for i := 0 to |ls|
      invariant sum + SumOver(ls[i..], f) == SumOver(ls, f)
    {
      SumOverFrom(ls, i, f);
      sum := sum + Square(err[ls[i]]);
    }
  }

  lemma SquaresAreObjective(p: Problem, s: State)
    requires Ledger(p, s)
    ensures SumOver(Layers(p.layer), l => if l in s.err then Square(s.err[l]) else 0.0) == Objective(p, s.idx, Layers(p.layer))
  {
    var ls := Layers(p.layer);
    var f := l => if l in s.err then Square(s.err[l]) else 0.0;
    var g := l => LayerSquare(p, s.idx, l);
    forall l | l in ls ensures f(l) == g(l) {
      var t :| 0 <= t < |p.layer| && p.layer[t] == l;
      assert s.err[l] == ErrOf(p, s.idx, l);
    }
    SumOverMonotone(ls, f, g);
    SumOverMonotone(ls, g, f);
  }

  /** What the optimizing branch promises of its assignment and reported objective. */
  ghost predicate Optimized(p: Problem, idx: seq<nat>, objective: real)
    requires p.Valid()
  {
    && idx == Run(p, Start(p), true).idx
    && BitsOf(p, idx) <= p.target
    && (forall t :: 0 <= t < |p.params| && idx[t] + 1 < |p.types| ==> BitsOf(p, idx) + Cost(p, t, idx[t]) > p.target)
    && objective == Objective(p, idx, Layers(p.layer)) <= Objective(p, Zeros(|p.params|), Layers(p.layer))
  }

  method Optimize(p: Problem, bits: real, err: map<int, real>) returns (s: State, objective: real)
    requires p.Valid() && bits == BitsOf(p, Zeros(|p.params|)) < p.target && err == BaseErr(p)
    ensures Shape(p, s) && s.bits == BitsOf(p, s.idx) && Optimized(p, s.idx, objective)
  {
    hide Run, Objective, BitsOf, ErrOf, Cost, SumOver, BaseErr, PushAll;
    s := GreedyLoop(p, bits, err);
    RunIsSound(p);
    SquaresAreObjective(p, s);
    var layers := Layers(p.layer);
    forall i | 0 <= i < |layers| ensures layers[i] in s.err {
      assert layers[i] in p.layer;
    }
    objective := SumSquares(layers, s.err);
  }

  lemma RunIsSound(p: Problem)
    requires p.Valid() && BitsOf(p, Zeros(|p.params|)) < p.target
    ensures var s := Run(p, Start(p), true);
            && Ledger(p, s) && Maximal(p, s)
            && Objective(p, s.idx, Layers(p.layer)) <= Objective(p, Zeros(|p.params|), Layers(p.layer))
  {
    hide Run, Objective, BitsOf, ErrOf, Cost, BaseErr, PushAll, Ledger, Maximal, Pending;
    StartIsSound(p);
    RunIsSoundAndMaximal(p, Start(p), true);
    RunLowersObjective(p, Start(p), true, Layers(p.layer));
  }

  /** The contract of an allocation of p: the base assignment when it already meets the
      target, with an objective of 0 reported; an optimized one otherwise. */
  ghost predicate Allocates(p: Problem, idx: seq<nat>, objective: real)
    requires p.Valid()
  {
    if BitsOf(p, Zeros(|p.params|)) >= p.target
    then idx == Zeros(|p.params|) && objective == 0.0
    else Optimized(p, idx, objective)
  }

  method AllocateBits(p: Problem) returns (idx: seq<nat>, bits: real, objective: real)
    requires p.Valid()
    ensures |idx| == |p.params| && forall t :: 0 <= t < |idx| ==> idx[t] < |p.types|
    ensures bits == BitsOf(p, idx) && Allocates(p, idx, objective)
  {
    bits := BaseBits(p);
    if bits >= p.target {
      return Zeros(|p.params|), bits, 0.0;
    }
    var err := BaseErrors(p);
    var s, total := Optimize(p, bits, err);
    return s.idx, s.bits, total;
  }

  /** What is promised in bits per weight: the base assignment when it reaches the target; otherwise
      the target is kept, the next type of any tensor would exceed it, and the objective is the true one. */
  ghost predicate Promised(menu: Problem, targetBpw: real, r: Allocation)
    requires menu.Valid() && menu.params != []
  {
    && |r.idx| == |menu.params|
    && (forall t :: 0 <= t < |r.idx| ==> r.idx[t] < |menu.types|)
    && r.bpw == Average(menu, r.idx)
    && if Average(menu, Zeros(|menu.params|)) >= targetBpw then
         r.idx == Zeros(|menu.params|) && r.objective == 0.0
       else
         && r.bpw <= targetBpw
         && (forall t :: 0 <= t < |r.idx| && r.idx[t] + 1 < |menu.types| ==>
               Average(menu, r.idx[t := r.idx[t] + 1]) > targetBpw)
         && r.objective == Objective(menu, r.idx, Layers(menu.layer)) <= Objective(menu, Zeros(|menu.params|), Layers(menu.layer))
  }

  /** `greedy_l2_allocate`: fails only on an empty tensor list (a division by zero). */
  method Allocate(menu: Problem, targetBpw: real) returns (r: Option<Allocation>)
    requires menu.Valid()
    ensures r.None? <==> menu.params == []
    ensures r.Some? ==> Promised(menu, targetBpw, r.value)
    ensures r.Some? ==> Allocates(Solved(menu, targetBpw), r.value.idx, r.value.objective)
  {
    hide BitsOf, Allocates, Objective;
    var total := TotalParams(menu.params);
    if total == 0 {
      return None;
    }
    var p := Solved(menu, targetBpw);
    var idx, bits, objective := AllocateBits(p);
    BitsIgnoreTarget(menu, p, idx);
    r := Some(Allocation(idx, bits / total as real, objective));
    AllocatesAsPromised(menu, targetBpw, r.value);
  }

  lemma AllocatesAsPromised(menu: Problem, targetBpw: real, r: Allocation)
    requires menu.Valid() && menu.params != [] && |r.idx| == |menu.params|
    requires forall t :: 0 <= t < |r.idx| ==> r.idx[t] < |menu.types|
    requires r.bpw == Average(menu, r.idx) && Allocates(Solved(menu, targetBpw), r.idx, r.objective)
    ensures Promised(menu, targetBpw, r)
  {
    hide BitsOf, Objective, Average, Run, Cost, TotalParams;
    var p, z := Solved(menu, targetBpw), Zeros(|menu.params|);
    AverageAgainstTarget(menu, targetBpw, z);
    AverageAgainstTarget(menu, targetBpw, r.idx);
    if BitsOf(p, z) < p.target {
      forall t | 0 <= t < |r.idx| && r.idx[t] + 1 < |menu.types|
        ensures Average(menu, r.idx[t := r.idx[t] + 1]) > targetBpw
      {
        BitsUpdate(p, r.idx, t);
        AverageAgainstTarget(menu, targetBpw, r.idx[t := r.idx[t] + 1]);
      }
      ObjectiveIgnoresTarget(menu, p, r.idx, Layers(menu.layer));
      ObjectiveIgnoresTarget(menu, p, z, Layers(menu.layer));
    }
  }

  lemma AverageAgainstTarget(menu: Problem, targetBpw: real, idx: seq<nat>)
    requires menu.Valid() && menu.params != [] && |idx| == |menu.params|
    requires forall t :: 0 <= t < |idx| ==> idx[t] < |menu.types|
    ensures var p := Solved(menu, targetBpw);
            && (BitsOf(p, idx) <= p.target <==> Average(menu, idx) <= targetBpw)
            && (BitsOf(p, idx) >= p.target <==> Average(menu, idx) >= targetBpw)
  {
    hide BitsOf, TotalParams;
    var p := Solved(menu, targetBpw);
    BitsIgnoreTarget(menu, p, idx);
    AverageAgainst(BitsOf(p, idx), targetBpw, TotalParams(menu.params));
  }

  /** One tensor of score 1, offered Q4_K alone, with a target that Q4_K already meets. */
  const SETTLED := Problem([QuantType("Q4_K", 4.5, 1.0 / 512.0)], [1], [0], [1.0], 4.5)

  /** The early return reports an objective of 0 for it, which is not the objective of the assignment. */
  lemma ReportedZeroIsNotTrue()
    ensures SETTLED.Valid() && Allocates(SETTLED, [0], 0.0) && Objective(SETTLED, [0], Layers(SETTLED.layer)) != 0.0
  {
    assert Zeros(1) == [0] && [0][..0] == [];
    assert BitsOf(SETTLED, [0]) == BitsAt(SETTLED, 0, 0) == 4.5;
    ObjectiveZero(SETTLED, [0]);
    assert SETTLED.score[0] == 1.0;
  }
}
