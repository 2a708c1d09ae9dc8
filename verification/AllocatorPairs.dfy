/**
  Menus of two types in tools/hsic/allocate.py. Each tensor then has a single upgrade, the queue
  orders tensors by their values at the start, and the documented rule can be relied on for more
  scores than on longer menus.
 */
module AllocatorPairs {
  import opened Basics
  import opened Allocator
  import opened AllocatorLaws
  import opened AllocatorRepush
  import opened AllocatorRule
  import opened AllocatorScores

  predicate ThreePositive(score: seq<real>, t: nat, u: nat, v: nat) {
    && t < |score| && u < |score| && v < |score| && t != u && v != t && v != u
    && score[t] > 0.0 && score[u] > 0.0 && score[v] > 0.0
  }

  /** Two positive scores share a layer only if there is no third, or all share that layer and are equal. */
  predicate Calm(layer: seq<int>, score: seq<real>)
    requires |layer| == |score|
  {
    forall t, u, v :: 0 <= t < |score| && 0 <= u < |score| && 0 <= v < |score| && ThreePositive(score, t, u, v) && layer[t] == layer[u] ==>
      layer[v] == layer[t] && score[v] == score[t] == score[u]
  }

  // ---------- The queue orders tensors by their first values ----------

  ghost function FirstValue(p: Problem, t: nat): real
    requires p.Valid() && |p.types| > 1 && t < |p.params|
  {
    CurrentValue(p, Start(p), t)
  }

  ghost predicate Believed(p: Problem, s: State, t: nat)
    requires Shape(p, s) && |p.types| > 1 && t < |s.idx|
  {
    exists j :: 0 <= j < |s.pq| && s.pq[j].tensor == t && s.pq[j].from == 0 && s.pq[j].value == FirstValue(p, t)
  }

  /** Nothing is queued above its first value, every affordable upgrade is queued at it, and the layer
      errors are those of the assignment. */
  ghost predicate ByFirst(p: Problem, s: State) {
    && Shape(p, s) && |p.types| == 2
    && (forall j :: 0 <= j < |s.pq| ==> s.pq[j].from == 0 && s.pq[j].value <= FirstValue(p, s.pq[j].tensor))
    && (forall t :: 0 <= t < |s.idx| && s.idx[t] == 0 && Fits(p, s, t, 0) ==> Believed(p, s, t))
    && ErrTrue(p, s)
  }

  ghost predicate ErrTrue(p: Problem, s: State)
    requires Shape(p, s)
  {
    forall t :: 0 <= t < |p.layer| ==> s.err[p.layer[t]] == ErrOf(p, s.idx, p.layer[t])
  }

  lemma StartByFirst(p: Problem)
    requires p.Valid() && |p.types| == 2
    ensures ByFirst(p, Start(p))
  {
    hide CurrentValue;
    StartQueue(p);
    var s := Start(p);
    forall t | 0 <= t < |s.idx| && s.idx[t] == 0 && Fits(p, s, t, 0) ensures Believed(p, s, t) {
      assert s.pq[t] == Entry(CurrentValue(p, s, t), t, 0);
    }
  }

  /** A lower type never has more noise. */
  lemma {:induction false} ErrBelowStart(p: Problem, idx: seq<nat>, l: int)
    requires p.Valid() && |idx| <= |p.params|
    requires forall t :: 0 <= t < |idx| ==> idx[t] < |p.types|
    ensures ErrOf(p, idx, l) <= ErrOf(p, Zeros(|idx|), l)
  {
    if idx != [] {
      var n := |idx| - 1;
      ErrBelowStart(p, idx[..n], l);
      assert Zeros(|idx|)[..n] == Zeros(n);
      NoiseFalls(p, n, idx[n]);
    }
  }

  lemma NoiseFalls(p: Problem, t: nat, i: nat)
    requires p.Valid() && t < |p.params| && i < |p.types|
    ensures NoiseAt(p, t, i) <= NoiseAt(p, t, 0)
  {
    if i > 0 && Weight(p, t) > 0.0 {
      assert p.types[0].noise > p.types[i].noise;
      PositiveProduct(Weight(p, t), p.types[0].noise - p.types[i].noise);
    }
  }

  /** A layer whose error has changed holds an upgraded tensor of positive score. */
  lemma {:induction false} ChangedLayer(p: Problem, idx: seq<nat>, l: int) returns (t: nat)
    requires p.Valid() && |idx| <= |p.params|
    requires forall t :: 0 <= t < |idx| ==> idx[t] < |p.types|
    requires ErrOf(p, idx, l) != ErrOf(p, Zeros(|idx|), l)
    ensures t < |idx| && p.layer[t] == l && idx[t] != 0 && p.score[t] > 0.0
  {
    var n := |idx| - 1;
    assert Zeros(|idx|)[..n] == Zeros(n);
    if p.layer[n] == l && idx[n] != 0 && p.score[n] > 0.0 {
      t := n;
    } else {
      t := ChangedLayer(p, idx[..n], l);
    }
  }

  lemma {:induction false} ErrHasOwn(p: Problem, idx: seq<nat>, i: nat)
    requires p.Valid() && i < |idx| <= |p.params|
    requires forall t :: 0 <= t < |idx| ==> idx[t] < |p.types|
    ensures ErrOf(p, idx, p.layer[i]) >= NoiseAt(p, i, idx[i])
  {
    var n := |idx| - 1;
    if i == n {
      ErrNonNegative(p, idx[..n], p.layer[i]);
    } else {
      ErrHasOwn(p, idx[..n], i);
      assert NoiseAt(p, n, idx[n]) >= 0.0;
    }
  }


  lemma GainBelowNoise(p: Problem, i: nat)
    requires p.Valid() && i < |p.params| && |p.types| > 1
    ensures 0.0 <= Gain(p, i, 0) <= NoiseAt(p, i, 0)
  {
    var w := Weight(p, i);
    assert w * p.types[0].noise - w * (p.types[0].noise - p.types[1].noise) == w * p.types[1].noise;
    if w > 0.0 {
      PositiveProduct(w, p.types[1].noise);
    }
  }

  // ---------- The order by first values is kept ----------

  lemma FirstValueIs(p: Problem, t: nat)
    requires p.Valid() && |p.types| > 1 && t < |p.params|
    ensures FirstValue(p, t) == Value(ErrOf(p, Zeros(|p.params|), p.layer[t]), Gain(p, t, 0), Cost(p, t, 0))
  {
    StartQueue(p);
  }

  /** No current value is above the first one. */
  lemma CurrentBelowFirst(p: Problem, s: State, t: nat)
    requires Shape(p, s) && |p.types| == 2 && ErrTrue(p, s) && t < |s.idx| && s.idx[t] == 0
    ensures CurrentValue(p, s, t) <= FirstValue(p, t)
  {
    hide Value, Gain, Cost, ErrOf, FirstValue;
    FirstValueIs(p, t);
    ErrBelowStart(p, s.idx, p.layer[t]);
    ValueMonotone(s.err[p.layer[t]], ErrOf(p, Zeros(|p.params|), p.layer[t]), Gain(p, t, 0), Cost(p, t, 0));
  }

  lemma ByFirstAfterDrop(p: Problem, s: State, r: nat)
    requires ByFirst(p, s) && r < |s.pq| && Dead(p, s, s.pq[r])
    ensures ByFirst(p, s.(pq := Remove(s.pq, r)))
  {
    hide FirstValue;
    var s1 := s.(pq := Remove(s.pq, r));
    forall t | 0 <= t < |s.idx| && s.idx[t] == 0 && Fits(p, s1, t, 0) ensures Believed(p, s1, t) {
      assert Fits(p, s, t, 0) && Believed(p, s, t);
      var j :| 0 <= j < |s.pq| && s.pq[j].tensor == t && s.pq[j].from == 0 && s.pq[j].value == FirstValue(p, t);
      assert s1.pq[if j < r then j else j - 1] == s.pq[j];
    }
  }

  /** The upgrade itself, before anything is pushed again. */
  lemma ByFirstAfterUpgrade(p: Problem, s: State, r: nat)
    requires ByFirst(p, s) && r < |s.pq| && !Dead(p, s, s.pq[r])
    ensures Shape(p, s.(pq := Remove(s.pq, r)))
    ensures ByFirst(p, Upgrade(p, s.(pq := Remove(s.pq, r)), s.pq[r].tensor, false))
  {
    hide FirstValue, ErrOf, Gain;
    var rest := s.(pq := Remove(s.pq, r));
    var x := s.pq[r].tensor;
    var u := Upgrade(p, rest, x, false);
    assert u.pq == rest.pq;
    forall t | 0 <= t < |u.idx| && u.idx[t] == 0 && Fits(p, u, t, 0) ensures Believed(p, u, t) {
      assert t != x && Fits(p, s, t, 0) && Believed(p, s, t);
      var j :| 0 <= j < |s.pq| && s.pq[j].tensor == t && s.pq[j].from == 0 && s.pq[j].value == FirstValue(p, t);
      assert u.pq[if j < r then j else j - 1] == s.pq[j];
    }
    forall t | 0 <= t < |p.layer| ensures u.err[p.layer[t]] == ErrOf(p, u.idx, p.layer[t]) {
      ErrUpdate(p, s.idx, x, p.layer[t]);
    }
  }

  lemma {:induction false} ByFirstAfterRepush(p: Problem, s: State, t: nat, k: nat)
    requires ByFirst(p, s) && t < |p.params| && k <= |p.params|
    ensures ByFirst(p, Repushed(p, s, t, k))
    decreases |p.params| - k
  {
    hide PushOthers, FirstValue, CurrentValue, ErrOf;
    if k < |p.params| {
      var next := RepushedNext(p, s, t, k);
      if next != s {
        CurrentBelowFirst(p, s, k);
        ByFirstLonger(p, s, next);
      }
      ByFirstAfterRepush(p, next, t, k + 1);
    } else {
      NothingRepushed(p, s, t);
    }
  }

  lemma ByFirstLonger(p: Problem, s: State, next: State)
    requires ByFirst(p, s) && Shape(p, next) && s.pq <= next.pq && |next.pq| == |s.pq| + 1 && next == s.(pq := next.pq)
    requires var e := next.pq[|s.pq|]; e.from == 0 && e.value <= FirstValue(p, e.tensor)
    ensures ByFirst(p, next)
  {
    hide FirstValue, ErrOf;
    forall t | 0 <= t < |next.idx| && next.idx[t] == 0 && Fits(p, next, t, 0) ensures Believed(p, next, t) {
      assert Fits(p, s, t, 0) && Believed(p, s, t);
      var j :| 0 <= j < |s.pq| && s.pq[j].tensor == t && s.pq[j].from == 0 && s.pq[j].value == FirstValue(p, t);
      assert next.pq[j] == s.pq[j];
    }
  }

  lemma ByFirstAfterStep(p: Problem, s: State)
    requires ByFirst(p, s) && |s.pq| > 0
    ensures ByFirst(p, Step(p, s, true))
  {
    hide FirstValue, ErrOf, Best, Upgrade, Step, PushOthers;
    var r := Best(s.pq);
    if Dead(p, s, s.pq[r]) {
      StepDead(p, s, true);
      ByFirstAfterDrop(p, s, r);
    } else {
      var rest, t := s.(pq := Remove(s.pq, r)), s.pq[r].tensor;
      ByFirstAfterUpgrade(p, s, r);
      RestIsReady(p, s);
      StepLive(p, s, true);
      UpgradeRepush(p, rest, t);
      ByFirstAfterRepush(p, Upgrade(p, rest, t, false), t, 0);
    }
  }

  // ---------- Calm scores keep the rule ----------

  /** An upgrade that is popped has the highest first value of all that are affordable. */
  lemma PopsHighestFirst(p: Problem, s: State, t: nat)
    requires ByFirst(p, s) && |s.pq| > 0 && !Dead(p, s, s.pq[Best(s.pq)])
    requires t < |s.idx| && s.idx[t] == 0 && Fits(p, s, t, 0)
    ensures FirstValue(p, t) <= FirstValue(p, s.pq[Best(s.pq)].tensor)
  {
    hide FirstValue, ErrOf;
    assert Believed(p, s, t);
    var b := Best(s.pq);
    var j :| 0 <= j < |s.pq| && s.pq[j].tensor == t && s.pq[j].from == 0 && s.pq[j].value == FirstValue(p, t);
    assert s.pq[j].value <= s.pq[b].value <= FirstValue(p, s.pq[b].tensor);
  }

  lemma CurrentNonNegative(p: Problem, s: State, i: nat)
    requires Shape(p, s) && |p.types| == 2 && ErrTrue(p, s) && i < |s.idx| && s.idx[i] == 0
    ensures CurrentValue(p, s, i) >= 0.0
    ensures p.score[i] <= 0.0 ==> CurrentValue(p, s, i) == 0.0
  {
    hide ErrOf;
    var e, g, c := s.err[p.layer[i]], Gain(p, i, 0), Cost(p, i, 0);
    ErrHasOwn(p, s.idx, i);
    GainBelowNoise(p, i);
    ValueSign(e, g, c);
  }

  lemma ValueSign(e: real, g: real, c: real)
    requires 0.0 <= g <= e && c > 0.0
    ensures Value(e, g, c) >= 0.0 && (g == 0.0 ==> Value(e, g, c) == 0.0)
  {
    var drop := e * e - (e - g) * (e - g);
    assert drop == g * (2.0 * e - g);
    if g > 0.0 {
      PositiveProduct(g, 2.0 * e - g);
    }
    assert drop / c * c == drop;
    if drop / c < 0.0 {
      ScaleLess(drop / c, 0.0, c);
    }
  }

  /** Equal gains in one layer: the order of values does not depend on the error of the layer. */
  lemma SameOrder(low: real, high: real, g: real, c: real, d: real)
    requires 0.0 < g <= low <= high && c > 0.0 && d > 0.0 && Value(high, g, c) <= Value(high, g, d)
    ensures Value(low, g, c) <= Value(low, g, d)
  {
    var a, b := high * high - (high - g) * (high - g), low * low - (low - g) * (low - g);
    assert a == g * (2.0 * high - g) && b == g * (2.0 * low - g);
    PositiveProduct(g, 2.0 * high - g);
    PositiveProduct(g, 2.0 * low - g);
    CrossLess(a, d, a, c);
    CrossLess(b, d, b, c);
    ScaleLess(c, d, a);
    ScaleLess(c, d, b);
    Swapped(a, b, c, d);
  }

  lemma Swapped(a: real, b: real, c: real, d: real)
    ensures a * c == c * a && a * d == d * a && b * c == c * b && b * d == d * b
  {
  }

  lemma CalmPicksHighest(p: Problem, s: State)
    requires ByFirst(p, s) && |s.pq| > 0 && Calm(p.layer, p.score)
    ensures PicksHighest(p, s)
  {
    hide CurrentValue, FirstValue, ErrOf, Calm, Best;
    var e := s.pq[Best(s.pq)];
    if !Dead(p, s, e) {
      forall t | 0 <= t < |s.idx| && s.idx[t] + 1 < |p.types| && Fits(p, s, t, s.idx[t])
        ensures CurrentValue(p, s, t) <= CurrentValue(p, s, e.tensor)
      {
        CalmCompares(p, s, t);
      }
    }
  }

  lemma CalmCompares(p: Problem, s: State, t: nat)
    requires ByFirst(p, s) && |s.pq| > 0 && Calm(p.layer, p.score) && !Dead(p, s, s.pq[Best(s.pq)])
    requires t < |s.idx| && s.idx[t] == 0 && Fits(p, s, t, 0)
    ensures var i := s.pq[Best(s.pq)].tensor; s.idx[i] == 0 && CurrentValue(p, s, t) <= CurrentValue(p, s, i)
  {
    hide ErrOf, Best, Value, Gain, Cost;
    var i := s.pq[Best(s.pq)].tensor;
    PopsHighestFirst(p, s, t);
    CurrentBelowFirst(p, s, t);
    CurrentNonNegative(p, s, i);
    CurrentNonNegative(p, s, t);
    FirstValueIs(p, i);
    FirstValueIs(p, t);
    var l, z := p.layer[i], Zeros(|p.params|);
    if ErrOf(p, s.idx, l) != ErrOf(p, z, l) && p.score[t] > 0.0 && p.score[i] > 0.0 && t != i {
      var x := ChangedLayer(p, s.idx, l);
      assert ThreePositive(p.score, x, i, t);
      EqualGains(p, s, i, t);
    } else if p.score[i] <= 0.0 {
      CurrentNonNegative(p, Start(p), i);
      StartQueue(p);
    }
  }

  lemma PositiveGain(p: Problem, i: nat)
    requires p.Valid() && |p.types| > 1 && i < |p.params| && p.score[i] > 0.0
    ensures Gain(p, i, 0) > 0.0
  {
    GainOf(p, i, 0);
    PositiveProduct(p.score[i], p.types[0].noise - p.types[1].noise);
  }

  lemma SameGain(p: Problem, i: nat, t: nat)
    requires p.Valid() && |p.types| > 1 && i < |p.params| && t < |p.params| && p.score[i] == p.score[t]
    ensures Gain(p, i, 0) == Gain(p, t, 0)
  {
    SameProduct(Weight(p, i), Weight(p, t), p.types[0].noise - p.types[1].noise);
  }

  lemma SameProduct(a: real, b: real, c: real)
    requires a == b
    ensures a * c == b * c
  {
  }

  lemma EqualGains(p: Problem, s: State, i: nat, t: nat)
    requires ByFirst(p, s) && i < |s.idx| && t < |s.idx| && s.idx[i] == s.idx[t] == 0
    requires p.layer[i] == p.layer[t] && p.score[i] == p.score[t] && p.score[i] > 0.0 && FirstValue(p, t) <= FirstValue(p, i)
    ensures CurrentValue(p, s, t) <= CurrentValue(p, s, i)
  {
    hide ErrOf, Value, Cost, FirstValue, Gain, NoiseAt;
    FirstValueIs(p, i);
    FirstValueIs(p, t);
    ErrBelowStart(p, s.idx, p.layer[i]);
    ErrHasOwn(p, s.idx, i);
    GainBelowNoise(p, i);
    PositiveGain(p, i);
    SameGain(p, i, t);
    SameOrder(s.err[p.layer[i]], ErrOf(p, Zeros(|p.params|), p.layer[i]), Gain(p, i, 0), Cost(p, t, 0), Cost(p, i, 0));
  }

  lemma {:induction false} CalmRunIsGreedy(p: Problem, s: State)
    requires ByFirst(p, s) && Calm(p.layer, p.score)
    ensures GreedyRun(p, s)
    decreases Slack(p, s.idx), |s.pq|
  {
    if s.pq != [] {
      hide ByFirst, PicksHighest, Step, Calm;
      StepShrinks(p, s, true);
      CalmPicksHighest(p, s);
      ByFirstAfterStep(p, s);
      CalmRunIsGreedy(p, Step(p, s, true));
    }
  }

  // ---------- Other scores break it ----------

  /** Rate of i's upgrade once t has been upgraded. */
  ghost function RateAfter(q: Problem, t: nat, i: nat): real
    requires q.Valid() && |q.types| > 1 && i < |q.params| && t < |q.params|
  {
    var e := BaseError(q, q.layer[i]) - if q.layer[i] == q.layer[t] then Gain(q, t, 0) else 0.0;
    Over(Drop(e, Gain(q, i, 0)), StepBits(q, 0))
  }

  lemma ValueAfter(p: Problem, q: Problem, t: nat, i: nat)
    requires SameButSizes(p, q) && |p.types| > 1 && |p.params| == |q.params| && t < |p.params| && i < |p.params| && i != t
    ensures |Upgraded(p, t).idx| == |p.params| && Upgraded(p, t).idx[i] == 0
    ensures CurrentValue(p, Upgraded(p, t), i) == Over(RateAfter(q, t, i), p.params[i] as real)
  {
    hide ErrOf, Value, Drop, Upgraded, Start, BaseError, Gain, Cost, Rate, QueueShape, Over, StepBits;
    UpgradedIs(p, t);
    StartValue(p, q, t);
    StartValue(p, q, i);
    Sized(p, q, t, 0);
    Sized(p, q, i, 0);
    var e := BaseError(q, q.layer[i]) - if q.layer[i] == q.layer[t] then Gain(q, t, 0) else 0.0;
    ValueIsDrop(e, Gain(q, i, 0), StepBits(q, 0), p.params[i], Cost(p, i, 0));
  }

  /** Sizes for which u beats v at first and v beats u afterwards, and t beats both. */
  lemma ReversingSizes(t0: real, u0: real, v0: real, u1: real, v1: real) returns (a: nat, b: nat, c: nat)
    requires t0 > 0.0 && u0 > 0.0 && v0 > 0.0 && u1 > 0.0 && v1 > 0.0 && Times(v0, u1) < Times(v1, u0)
    ensures a > 0 && b > 0 && c > 0
    ensures Over(v0, c as real) < Over(u0, b as real) < Over(t0, a as real)
    ensures Over(u1, b as real) < Over(v1, c as real)
  {
    var n, d := FractionOf(v0, u0, v1, u1);
    var x, y := d as real, n as real;
    var w := t0 * x;
    PositiveProduct(t0, x);
    var k := Above(Over(u0, w));
    var z := k as real;
    a, b, c := 1, d * k, n * k;
    assert b as real == x * z && c as real == y * z;
    hide Over;
    Grown(v0, u0, x, y, z);
    Grown(u1, v1, y, x, z);
    FirstBeats(t0, u0, x, z, w);
  }

  /** A fraction between the two ratios. */
  lemma FractionOf(v0: real, u0: real, v1: real, u1: real) returns (n: nat, d: nat)
    requires u0 > 0.0 && v0 > 0.0 && u1 > 0.0 && v1 > 0.0 && Times(v0, u1) < Times(v1, u0)
    ensures n > 0 && d > 0 && v0 * d as real < u0 * n as real && u1 * n as real < v1 * d as real
  {
    CrossLess(v0, u0, v1, u1);
    CrossLess(0.0, 1.0, v0, u0);
    assert 0.0 / 1.0 == 0.0;
    n, d := FractionBetween(v0 / u0, v1 / u1);
    BelowQuotient(v0, u0, d as real, n as real);
    AboveQuotient(v1, u1, d as real, n as real);
  }

  lemma BelowQuotient(w: real, v: real, x: real, y: real)
    requires v > 0.0 && (w / v) * x < y
    ensures w * x < v * y
  {
    ScaleLess((w / v) * x, y, v);
    Swap(w / v, x, v);
    assert (w / v) * v == w;
    assert y * v == v * y;
  }

  lemma AboveQuotient(v: real, u: real, x: real, y: real)
    requires u > 0.0 && y < (v / u) * x
    ensures u * y < v * x
  {
    ScaleLess(y, (v / u) * x, u);
    Swap(v / u, x, u);
    assert (v / u) * u == v;
    assert y * u == u * y;
  }

  /** A comparison kept when both sizes grow by the same factor. */
  lemma Grown(w: real, v: real, x: real, y: real, z: real)
    requires x > 0.0 && y > 0.0 && z > 0.0 && w * x < v * y
    ensures y * z > 0.0 && x * z > 0.0 && Over(w, y * z) < Over(v, x * z)
  {
    PositiveProduct(x, z);
    PositiveProduct(y, z);
    ScaleLess(w * x, v * y, z);
    Commute(w, x, z);
    Commute(v, y, z);
    CrossLess(w, y * z, v, x * z);
  }

  lemma FirstBeats(t0: real, u0: real, x: real, z: real, w: real)
    requires t0 > 0.0 && u0 > 0.0 && x > 0.0 && z > 0.0 && w == t0 * x && w > 0.0 && Over(u0, w) < z
    ensures x * z > 0.0 && Over(u0, x * z) < Over(t0, 1.0)
  {
    PositiveProduct(x, z);
    CrossLess(u0, w, z, 1.0);
    assert z / 1.0 == z;
    Commute(t0, x, z);
    assert z * w == w * z;
    CrossLess(u0, x * z, t0, 1.0);
  }

  /** Positive scores in one layer: rates fall when another tensor of the layer is upgraded, and stay positive. */
  lemma RatesFall(q: Problem, t: nat, u: nat)
    requires q.Valid() && |q.types| > 1 && t < |q.params| && u < |q.params| && t != u && q.layer[t] == q.layer[u]
    requires q.score[t] > 0.0 && q.score[u] > 0.0
    ensures 0.0 < RateAfter(q, t, u) < Rate(q, u)
    ensures var e, g, c := BaseError(q, q.layer[t]), Gain(q, t, 0), Gain(q, u, 0);
            g > 0.0 && c > 0.0 && 2.0 * (e - g) - c > 0.0
  {
    hide ErrOf, Gain, NoiseAt, StepBits, Drop, Over, BaseError;
    var e, g, c := BaseError(q, q.layer[t]), Gain(q, t, 0), Gain(q, u, 0);
    TwoNoises(q, t, u);
    PositiveGain(q, t);
    PositiveGain(q, u);
    StrictGain(q, t);
    StrictGain(q, u);
    OtherLosesValue(e, g, c, StepBits(q, 0));
    RateIs(q, u);
  }

  /** The error of a layer covers the noise of any two of its tensors. */
  lemma TwoNoises(q: Problem, t: nat, u: nat)
    requires q.Valid() && t < |q.params| && u < |q.params| && t != u && q.layer[t] == q.layer[u]
    ensures BaseError(q, q.layer[t]) >= NoiseAt(q, t, 0) + NoiseAt(q, u, 0)
  {
    hide ErrOf, NoiseAt;
    if t < u {
      ErrorAtLeast(q, |q.params|, t, u);
    } else {
      ErrorAtLeast(q, |q.params|, u, t);
    }
  }

  lemma StrictGain(p: Problem, i: nat)
    requires p.Valid() && i < |p.params| && |p.types| > 1 && p.score[i] > 0.0
    ensures Gain(p, i, 0) < NoiseAt(p, i, 0)
  {
    var w := Weight(p, i);
    assert w * p.types[0].noise - w * (p.types[0].noise - p.types[1].noise) == w * p.types[1].noise;
    PositiveProduct(w, p.types[1].noise);
  }

  lemma RatePositive(q: Problem, v: nat)
    requires q.Valid() && |q.types| > 1 && v < |q.params| && q.score[v] > 0.0
    ensures Rate(q, v) > 0.0
  {
    hide ErrOf, Gain, NoiseAt, StepBits, Drop, Over;
    PositiveGain(q, v);
    GainBelowNoise(q, v);
    ErrHasOwn(q, Zeros(|q.params|), v);
    RateIs(q, v);
    DropPositive(BaseError(q, q.layer[v]), Gain(q, v, 0), StepBits(q, 0));
  }

  lemma DropPositive(e: real, g: real, step: real)
    requires 0.0 < g <= e && step > 0.0
    ensures Over(Drop(e, g), step) > 0.0
  {
    PositiveProduct(g, 2.0 * e - g);
    CrossLess(0.0, 1.0, Drop(e, g), step);
    assert 0.0 / 1.0 == 0.0;
  }

  /** In one layer the tensor of the larger score loses relatively more. */
  lemma LargerLosesMore(e: real, g: real, c: real, d: real, step: real)
    requires g > 0.0 && c > d > 0.0 && step > 0.0
    ensures Times(Over(Drop(e, d), step), Over(Drop(e - g, c), step)) < Times(Over(Drop(e - g, d), step), Over(Drop(e, c), step))
  {
    var x := 2.0 * e;
    var v0, u1, v1, u0 := d * (x - d), c * (x - 2.0 * g - c), d * (x - 2.0 * g - d), c * (x - c);
    assert Drop(e, d) == v0 && Drop(e - g, c) == u1 && Drop(e - g, d) == v1 && Drop(e, c) == u0;
    hide Times;
    CrossDrops(x, g, c, d);
    QuotientProduct(v0, u1, v1, u0, step);
  }

  lemma CrossDrops(x: real, g: real, c: real, d: real)
    requires g > 0.0 && c > d > 0.0
    ensures Times(d * (x - d), c * (x - 2.0 * g - c)) < Times(d * (x - 2.0 * g - d), c * (x - c))
  {
    var k := c * d;
    PositiveProduct(c, d);
    PositiveProduct(g, c - d);
    var low, high := (x - d) * (x - 2.0 * g - c), (x - 2.0 * g - d) * (x - c);
    assert high - low == 2.0 * (g * (c - d));
    ScaleLess(low, high, k);
    FourFactors(d, x - d, c, x - 2.0 * g - c);
    FourFactors(d, x - 2.0 * g - d, c, x - c);
  }

  lemma FourFactors(d: real, a: real, c: real, b: real)
    ensures (d * a) * (c * b) == (a * b) * (c * d)
  {
  }

  lemma QuotientProduct(a: real, b: real, c: real, d: real, step: real)
    requires step > 0.0 && Times(a, b) < Times(c, d)
    ensures Times(Over(a, step), Over(b, step)) < Times(Over(c, step), Over(d, step))
  {
    var p, q, r, s := a / step, b / step, c / step, d / step;
    assert a == p * step && b == q * step && c == r * step && d == s * step;
    FourFactors(p, step, q, step);
    FourFactors(r, step, s, step);
    PositiveProduct(step, step);
    ScaleLess(p * q, r * s, step * step);
    assert (step * step) * (q * p) == (p * q) * (step * step) && (step * step) * (s * r) == (r * s) * (step * step);
  }

  /** t and u share a layer; v is in another one, or in the same with a smaller score than u. */
  ghost predicate Uneasy(layer: seq<int>, score: seq<real>, t: nat, u: nat, v: nat) {
    && |layer| == |score| && ThreePositive(score, t, u, v) && layer[t] == layer[u]
    && (layer[v] != layer[t] || score[v] < score[u])
  }

  /** Then v loses relatively less than u when t is upgraded. */
  lemma RatesReverse(q: Problem, t: nat, u: nat, v: nat)
    requires q.Valid() && |q.types| > 1 && Uneasy(q.layer, q.score, t, u, v)
    ensures Rate(q, t) > 0.0 && Rate(q, u) > 0.0 && Rate(q, v) > 0.0 && RateAfter(q, t, u) > 0.0 && RateAfter(q, t, v) > 0.0
    ensures Times(Rate(q, v), RateAfter(q, t, u)) < Times(RateAfter(q, t, v), Rate(q, u))
  {
    hide Rate, BaseError, Gain, StepBits, Drop, Over, Times;
    RatePositive(q, t);
    RatePositive(q, u);
    RatePositive(q, v);
    RatesFall(q, t, u);
    if q.layer[v] != q.layer[t] {
      RateIs(q, v);
      TimesLess(Rate(q, v), RateAfter(q, t, u), Rate(q, u));
    } else {
      RatesFall(q, t, v);
      RateIs(q, v);
      RateIs(q, u);
      LargerGain(q, u, v);
      LargerLosesMore(BaseError(q, q.layer[t]), Gain(q, t, 0), Gain(q, u, 0), Gain(q, v, 0), StepBits(q, 0));
    }
  }

  lemma TimesLess(r: real, x: real, y: real)
    requires r > 0.0 && x < y
    ensures Times(r, x) < Times(r, y)
  {
    ScaleLess(x, y, r);
    assert x * r == r * x && y * r == r * y;
  }

  lemma LargerGain(q: Problem, u: nat, v: nat)
    requires q.Valid() && |q.types| > 1 && u < |q.params| && v < |q.params| && 0.0 < q.score[v] < q.score[u]
    ensures Gain(q, u, 0) > Gain(q, v, 0)
  {
    hide Times;
    var step := q.types[0].noise - q.types[1].noise;
    TimesLess(step, q.score[v], q.score[u]);
    GainByStep(q, u);
    GainByStep(q, v);
  }

  lemma GainByStep(q: Problem, i: nat)
    requires q.Valid() && |q.types| > 1 && i < |q.params| && q.score[i] > 0.0
    ensures Gain(q, i, 0) == Times(q.types[0].noise - q.types[1].noise, q.score[i])
  {
  }

  /** Sizes of the trap: given for t, u and v, large enough elsewhere to lose against u. */
  ghost function PairSizes(q: Problem, t: nat, u: nat, v: nat, a: nat, b: nat, c: nat): (params: seq<nat>)
    requires q.Valid() && |q.types| > 1 && t < |q.params| && u < |q.params| && v < |q.params| && a > 0 && b > 0 && c > 0
    ensures |params| == |q.params| && forall i :: 0 <= i < |params| ==> params[i] == PairSize(q, t, u, v, a, b, c, i)
  {
    seq(|q.params|, i requires 0 <= i < |q.params| => PairSize(q, t, u, v, a, b, c, i))
  }

  ghost function PairSize(q: Problem, t: nat, u: nat, v: nat, a: nat, b: nat, c: nat, i: nat): (n: nat)
    requires q.Valid() && |q.types| > 1 && t < |q.params| && u < |q.params| && a > 0 && b > 0 && c > 0 && i < |q.params|
    ensures n > 0
  {
    if i == t then a else if i == u then b else if i == v then c
    else if Rate(q, u) > 0.0 then Above(Rate(q, i) * b as real / Rate(q, u)) else 1
  }

  lemma OtherLosesToU(p: Problem, q: Problem, t: nat, u: nat, v: nat, a: nat, b: nat, c: nat, i: nat)
    requires SameButSizes(p, q) && |q.types| > 1 && |p.params| == |q.params| && a > 0 && b > 0 && c > 0
    requires t < |q.params| && u < |q.params| && v < |q.params| && i < |q.params| && i != t && i != u && u != t && u != v
    requires Rate(q, u) > 0.0 && p.params[u] == b && p.params[v] == c && Over(Rate(q, v), c as real) < Over(Rate(q, u), b as real)
    requires p.params[i] == PairSize(q, t, u, v, a, b, c, i)
    ensures |Start(p).idx| == |p.params| && Start(p).idx[i] == Start(p).idx[u] == 0
    ensures CurrentValue(p, Start(p), i) < CurrentValue(p, Start(p), u)
  {
    hide Over, Rate, Start, CurrentValue, BaseError, ErrOf;
    StartValue(p, q, i);
    StartValue(p, q, u);
    var rate, best := Rate(q, i), Rate(q, u);
    if i != v {
      assert rate * b as real / best < p.params[i] as real;
      LosesToU(rate, best, b, p.params[i]);
    }
  }

  /** Uneasy scores have a trap. */
  lemma PairTrap(q: Problem, t: nat, u: nat, v: nat) returns (p: Problem)
    requires q.Valid() && |q.types| == 2 && Uneasy(q.layer, q.score, t, u, v)
    ensures SameButSizes(p, q) && |p.params| == |q.params| && Distinct(p, t, u, v) && Trap(p, t, u, v)
  {
    hide Gain, Over, Rate, RateAfter, StepBits, BaseError, Cost, Start, Upgraded, CurrentValue, BitsOf, ErrOf;
    RatesReverse(q, t, u, v);
    var a, b, c := ReversingSizes(Rate(q, t), Rate(q, u), Rate(q, v), RateAfter(q, t, u), RateAfter(q, t, v));
    var params := PairSizes(q, t, u, v, a, b, c);
    p := EnoughTarget(q.(params := params), t, u, v);
    StartValue(p, q, t);
    StartValue(p, q, u);
    ValueAfter(p, q, t, u);
    ValueAfter(p, q, t, v);
    forall i | 0 <= i < |p.params| && i != t && i != u
      ensures |Start(p).idx| == |p.params| && Start(p).idx[i] == 0 && CurrentValue(p, Start(p), i) < CurrentValue(p, Start(p), u)
    {
      OtherLosesToU(p, q, t, u, v, a, b, c, i);
    }
  }

  /** Scores that are not calm are uneasy in some order. */
  lemma NotCalm(layer: seq<int>, score: seq<real>) returns (t: nat, u: nat, v: nat)
    requires |layer| == |score| && !Calm(layer, score)
    ensures Uneasy(layer, score, t, u, v)
  {
    var x, y, z :| 0 <= x < |score| && 0 <= y < |score| && 0 <= z < |score| && ThreePositive(score, x, y, z) && layer[x] == layer[y]
                   && !(layer[z] == layer[x] && score[z] == score[x] == score[y]);
    if layer[z] != layer[x] || score[z] < score[y] {
      t, u, v := x, y, z;
    } else if score[z] > score[y] {
      t, u, v := x, z, y;
    } else if score[x] < score[y] {
      t, u, v := z, y, x;
    } else {
      t, u, v := z, x, y;
    }
  }

  /** On a menu of two types the documented rule can be relied on for exactly the calm scores. */
  lemma GreedyIffCalm(types: seq<QuantType>, layer: seq<int>, score: seq<real>)
    requires ValidTypes(types) && |types| == 2 && |layer| == |score|
    ensures AlwaysGreedy(types, layer, score) <==> Calm(layer, score)
  {
    if Calm(layer, score) {
      forall params: seq<nat>, target: real | Problem(types, params, layer, score, target).Valid()
        ensures GreedyRun(Problem(types, params, layer, score, target), Start(Problem(types, params, layer, score, target)))
      {
        var p := Problem(types, params, layer, score, target);
        StartByFirst(p);
        CalmRunIsGreedy(p, Start(p));
      }
    } else {
      var t, u, v := NotCalm(layer, score);
      var p := PairTrap(Unit(types, layer, score), t, u, v);
      TrapBreaksRule(p, t, u, v);
      assert p == Problem(types, p.params, layer, score, p.target);
    }
  }

  /** On a menu of one type nothing is ever upgraded. */
  lemma GreedyOnOneType(types: seq<QuantType>, layer: seq<int>, score: seq<real>)
    requires ValidTypes(types) && |types| == 1
    ensures AlwaysGreedy(types, layer, score)
  {
    forall params: seq<nat>, target: real | Problem(types, params, layer, score, target).Valid()
      ensures GreedyRun(Problem(types, params, layer, score, target), Start(Problem(types, params, layer, score, target)))
    {
      var p := Problem(types, params, layer, score, target);
      NothingQueued(p, BaseErr(p), 0);
    }
  }

  lemma {:induction false} NothingQueued(p: Problem, err: map<int, real>, k: nat)
    requires p.Valid() && |p.types| == 1 && k <= |p.params|
    requires forall t :: 0 <= t < |p.layer| ==> p.layer[t] in err
    ensures PushAll(p, err, [], k) == []
    decreases |p.params| - k
  {
    if k < |p.params| {
      NothingQueued(p, err, k + 1);
    }
  }
}
