/**
  What the totals of the allocator of tools/hsic/allocate.py add up: parameters, bits and
  layer errors, each also summed type by type instead of tensor by tensor.
 */
module AllocatorTotals {
  import opened Allocator
  import opened AllocatorLaws
  import opened Basics

  // ---------- Parameters ----------

  function TotalParams(params: seq<nat>): (n: nat)
    ensures (forall t :: 0 <= t < |params| ==> params[t] > 0) && params != [] ==> n > 0
  {
    if params == [] then 0 else TotalParams(params[..|params| - 1]) + params[|params| - 1]
  }

  /** The total is the sum of the parameter counts: it is determined by these two laws. */
  lemma {:induction false} TotalIsSum(a: seq<nat>, b: seq<nat>, n: nat)
    ensures TotalParams([n]) == n
    ensures TotalParams(a + b) == TotalParams(a) + TotalParams(b)
  {
    assert [n][..0] == [];
    if b == [] {
      assert a + b == a;
    } else {
      var last := |b| - 1;
      assert (a + b)[..|a| + last] == a + b[..last];
      TotalIsSum(a, b[..last], n);
    }
  }

  /** Bits per weight of an assignment. */
  ghost function Average(p: Problem, idx: seq<nat>): real
    requires p.Valid() && p.params != [] && |idx| == |p.params|
    requires forall t :: 0 <= t < |idx| ==> idx[t] < |p.types|
  {
    BitsOf(p, idx) / TotalParams(p.params) as real
  }

  /** Comparing averages is comparing bits with the target in bits. */
  lemma AverageAgainst(bits: real, bpw: real, total: nat)
    requires total > 0
    ensures bits <= bpw * total as real <==> bits / total as real <= bpw
    ensures bits >= bpw * total as real <==> bits / total as real >= bpw
  {
    var t := total as real;
    var a := bits / t;
    assert a * t == bits;
    assert (a - bpw) * t == bits - bpw * t;
    if a > bpw {
      PositiveProduct(a - bpw, t);
    } else if a < bpw {
      PositiveProduct(bpw - a, t);
      assert (bpw - a) * t == bpw * t - bits;
    }
  }

  // ---------- Bits, type by type ----------

  /** Parameter counts of the tensors kept as type i. */
  function KeptAs(params: seq<nat>, idx: seq<nat>, i: nat): seq<nat>
    requires |idx| <= |params|
  {
    if idx == [] then []
    else
      var n := |idx| - 1;
      KeptAs(params, idx[..n], i) + (if idx[n] == i then [params[n]] else [])
  }

  /** Sum over the first k types of their width times the parameters kept in them. */
  ghost function BitsByType(p: Problem, idx: seq<nat>, k: nat): real
    requires |idx| <= |p.params| && k <= |p.types|
  {
    if k == 0 then 0.0
    else BitsByType(p, idx, k - 1) + BitsAsType(p, k - 1, TotalParams(KeptAs(p.params, idx, k - 1)))
  }

  function BitsAsType(p: Problem, i: nat, n: nat): real
    requires i < |p.types|
  {
    p.types[i].bpw * n as real
  }

  lemma BitsAsTypeAdd(p: Problem, i: nat, a: nat, b: nat)
    requires i < |p.types|
    ensures BitsAsType(p, i, a + b) == BitsAsType(p, i, a) + BitsAsType(p, i, b)
  {
    Distributes(p.types[i].bpw, a as real, b as real);
  }

  lemma {:induction false} BitsByTypeGrows(p: Problem, idx: seq<nat>, k: nat)
    requires 0 < |idx| <= |p.params| && k <= |p.types|
    requires forall t :: 0 <= t < |idx| ==> idx[t] < |p.types|
    ensures var n := |idx| - 1;
            BitsByType(p, idx, k) == BitsByType(p, idx[..n], k) + (if idx[n] < k then BitsAsType(p, idx[n], p.params[n]) else 0.0)
  {
    hide BitsAsType, TotalParams;
    if k > 0 {
      var n, i := |idx| - 1, k - 1;
      BitsByTypeGrows(p, idx, i);
      var before := KeptAs(p.params, idx[..n], i);
      TotalIsSum(before, [p.params[n]], p.params[n]);
      assert before + [] == before;
      BitsAsTypeAdd(p, i, TotalParams(before), p.params[n]);
    }
  }

  lemma Distributes(a: real, b: real, c: real)
    ensures a * (b + c) == a * b + a * c
  {
  }

  /** The bits of an assignment are, type by type, its width times the parameters kept in it. */
  lemma {:induction false} BitsAreByType(p: Problem, idx: seq<nat>)
    requires |idx| <= |p.params|
    requires forall t :: 0 <= t < |idx| ==> idx[t] < |p.types|
    ensures BitsOf(p, idx) == BitsByType(p, idx, |p.types|)
  {
    hide BitsByType, TotalParams, KeptAs;
    if idx == [] {
      NothingKept(p, |p.types|);
    } else {
      BitsByTypeGrows(p, idx, |p.types|);
      BitsAreByType(p, idx[..|idx| - 1]);
    }
  }

  lemma {:induction false} NothingKept(p: Problem, k: nat)
    requires k <= |p.types|
    ensures BitsByType(p, [], k) == 0.0
  {
    if k > 0 {
      NothingKept(p, k - 1);
      assert KeptAs(p.params, [], k - 1) == [];
    }
  }

  lemma {:induction false} BitsOfOneType(p: Problem, idx: seq<nat>, i: nat)
    requires |idx| <= |p.params| && i < |p.types|
    requires forall t :: 0 <= t < |idx| ==> idx[t] == i
    ensures BitsOf(p, idx) == BitsAsType(p, i, TotalParams(p.params[..|idx|]))
  {
    if idx == [] {
      assert p.params[..0] == [];
    } else {
      var n := |idx| - 1;
      assert p.params[..|idx|][..n] == p.params[..n];
      BitsOfOneType(p, idx[..n], i);
      BitsAsTypeAdd(p, i, TotalParams(p.params[..n]), p.params[n]);
    }
  }

  /** The bits per weight of tensors all kept as one type are the bits per weight of the type. */
  lemma AverageOfOneType(p: Problem, idx: seq<nat>, i: nat)
    requires p.Valid() && p.params != [] && |idx| == |p.params| && i < |p.types|
    requires forall t :: 0 <= t < |idx| ==> idx[t] == i
    ensures Average(p, idx) == p.types[i].bpw
  {
    hide BitsOf, TotalParams;
    BitsOfOneType(p, idx, i);
    assert p.params[..|idx|] == p.params;
    var bpw, total := p.types[i].bpw, TotalParams(p.params) as real;
    assert bpw * total / total == bpw;
  }

  // ---------- Layer errors, type by type ----------

  /** Sum of the positive scores of layer l's tensors kept as type i. */
  ghost function ScoreKeptAs(p: Problem, idx: seq<nat>, l: int, i: nat): real
    requires |idx| <= |p.layer| == |p.score|
  {
    if idx == [] then 0.0
    else
      var n := |idx| - 1;
      ScoreKeptAs(p, idx[..n], l, i) + (if p.layer[n] == l && idx[n] == i && p.score[n] > 0.0 then p.score[n] else 0.0)
  }

  /** Sum over the first k types of their noise times the score they are to protect. */
  ghost function NoiseByType(p: Problem, idx: seq<nat>, l: int, k: nat): real
    requires |idx| <= |p.layer| == |p.score| && k <= |p.types|
  {
    if k == 0 then 0.0
    else NoiseByType(p, idx, l, k - 1) + p.types[k - 1].noise * ScoreKeptAs(p, idx, l, k - 1)
  }

  lemma {:induction false} NoiseByTypeGrows(p: Problem, idx: seq<nat>, l: int, k: nat)
    requires 0 < |idx| <= |p.layer| == |p.score| && k <= |p.types|
    requires forall t :: 0 <= t < |idx| ==> idx[t] < |p.types|
    ensures var n := |idx| - 1;
            NoiseByType(p, idx, l, k) == NoiseByType(p, idx[..n], l, k)
            + (if p.layer[n] == l && idx[n] < k && p.score[n] > 0.0 then p.types[idx[n]].noise * p.score[n] else 0.0)
  {
    if k > 0 {
      var n, i := |idx| - 1, k - 1;
      NoiseByTypeGrows(p, idx, l, i);
      Distributes(p.types[i].noise, ScoreKeptAs(p, idx[..n], l, i), p.score[n]);
    }
  }

  lemma {:induction false} NothingProtected(p: Problem, l: int, k: nat)
    requires |p.layer| == |p.score| && k <= |p.types|
    ensures NoiseByType(p, [], l, k) == 0.0
  {
    if k > 0 {
      NothingProtected(p, l, k - 1);
    }
  }

  /** The error of a layer is, type by type, its noise times the positive scores kept in it. */
  lemma {:induction false} ErrorsAreByType(p: Problem, idx: seq<nat>, l: int)
    requires |idx| <= |p.layer| == |p.score|
    requires forall t :: 0 <= t < |idx| ==> idx[t] < |p.types|
    ensures ErrOf(p, idx, l) == NoiseByType(p, idx, l, |p.types|)
  {
    if idx == [] {
      NothingProtected(p, l, |p.types|);
    } else {
      NoiseByTypeGrows(p, idx, l, |p.types|);
      ErrorsAreByType(p, idx[..|idx| - 1], l);
    }
  }

  // ---------- The target is no part of the totals ----------

  lemma {:induction false} BitsIgnoreTarget(p: Problem, q: Problem, idx: seq<nat>)
    requires p == q.(target := p.target) && |idx| <= |p.params|
    requires forall t :: 0 <= t < |idx| ==> idx[t] < |p.types|
    ensures BitsOf(p, idx) == BitsOf(q, idx)
  {
    if idx != [] {
      BitsIgnoreTarget(p, q, idx[..|idx| - 1]);
    }
  }

  lemma {:induction false} ErrorsIgnoreTarget(p: Problem, q: Problem, idx: seq<nat>, l: int)
    requires p == q.(target := p.target) && |idx| <= |p.layer| == |p.score|
    requires forall t :: 0 <= t < |idx| ==> idx[t] < |p.types|
    ensures ErrOf(p, idx, l) == ErrOf(q, idx, l)
  {
    if idx != [] {
      ErrorsIgnoreTarget(p, q, idx[..|idx| - 1], l);
    }
  }

  lemma ObjectiveIgnoresTarget(p: Problem, q: Problem, idx: seq<nat>, ls: seq<int>)
    requires p == q.(target := p.target) && |idx| <= |p.layer| == |p.score|
    requires forall t :: 0 <= t < |idx| ==> idx[t] < |p.types|
    ensures Objective(p, idx, ls) == Objective(q, idx, ls)
  {
    var f := l => LayerSquare(p, idx, l);
    var g := l => LayerSquare(q, idx, l);
    forall l ensures f(l) == g(l) {
      ErrorsIgnoreTarget(p, q, idx, l);
    }
    SumOverMonotone(ls, f, g);
    SumOverMonotone(ls, g, f);
  }

  /** Two layers: the first holds scores 1, 3 and -8, the second holds score 2. */
  const TWO_LAYERS := Problem([QuantType("Q2_K", 2.5, 0.5)], [4, 1, 1, 2], [0, 0, 0, 1], [1.0, 3.0, -8.0, 2.0], 0.0)

  /** Its layer errors are 2 and 1, its objective is 2^2 + 1^2. */
  lemma ObjectiveOfTwoLayers()
    ensures Objective(TWO_LAYERS, [0, 0, 0, 0], Layers(TWO_LAYERS.layer)) == 5.0
  {
    hide SumOver, Layers;
    var p, z := TWO_LAYERS, [0, 0, 0, 0];
    forall l ensures ErrOf(p, z, l) == if l == 0 then 2.0 else if l == 1 then 1.0 else 0.0 {
      assert z[..3] == [0, 0, 0] && z[..3][..2] == [0, 0] && z[..3][..2][..1] == [0] && z[..3][..2][..1][..0] == [];
      var none := ErrOf(p, [], l);
      var one := ErrOf(p, [0], l);
      var two := ErrOf(p, [0, 0], l);
      assert ErrOf(p, [0, 0, 0], l) == two;
    }
    LayersOfTwo();
    var f := l => LayerSquare(p, z, l);
    SumOfTwo(0, 1, f);
  }

  lemma LayersOfTwo()
    ensures Layers([0, 0, 0, 1]) == [0, 1]
  {
    var layer := [0, 0, 0, 1];
    assert layer[..3] == [0, 0, 0] && layer[..3][..2] == [0, 0] && layer[..3][..2][..1] == [0] && layer[..3][..2][..1][..0] == [];
    assert Layers([0]) == [0];
    assert Layers([0, 0]) == [0];
    assert Layers([0, 0, 0]) == [0];
  }

  lemma SumOfTwo(a: int, b: int, f: int -> real)
    ensures SumOver([a, b], f) == f(a) + f(b)
  {
    assert [a, b][1..] == [b] && [b][1..] == [];
    assert SumOver([b], f) == f(b);
  }
}
