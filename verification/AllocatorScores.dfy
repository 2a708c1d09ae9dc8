/**
  For which scores the documented rule of tools/hsic/allocate.py can be relied on. Two tensors of
  positive score in one layer are enough to break it: a problem is built on which the second pop
  takes an out-of-date entry of the one although the other has the better upgrade.
 */
module AllocatorScores {
  import opened Basics
  import opened Allocator
  import opened AllocatorLaws
  import opened AllocatorRepush
  import opened AllocatorRule
  import opened AllocatorTotals

  // ---------- Numbers ----------

  lemma ScaleLess(x: real, y: real, k: real)
    requires k > 0.0
    ensures x < y <==> x * k < y * k
  {
    if x < y {
      PositiveProduct(y - x, k);
    } else if y < x {
      PositiveProduct(x - y, k);
    }
  }

  /** Comparing fractions by cross multiplication. */
  lemma CrossLess(a: real, b: real, c: real, d: real)
    requires b > 0.0 && d > 0.0
    ensures a / b < c / d <==> a * d < c * b
  {
    var x, y := a / b, c / d;
    assert a == x * b && c == y * d;
    Commute(x, b, d);
    Commute(y, d, b);
    PositiveProduct(b, d);
    ScaleLess(x, y, b * d);
    assert d * b == b * d;
  }

  lemma Commute(x: real, b: real, d: real)
    ensures (x * b) * d == x * (b * d)
  {
  }

  /** Some positive whole number above x. */
  function Above(x: real): (k: nat)
    ensures k > 0 && k as real > x
  {
    if x < 0.0 then 1 else x.Floor + 1
  }

  /** A fraction of whole numbers strictly between two bounds. */
  lemma FractionBetween(low: real, high: real) returns (n: nat, d: nat)
    requires 0.0 <= low < high
    ensures n > 0 && d > 0 && low * d as real < n as real < high * d as real
  {
    var gap := high - low;
    d := Above(1.0 / gap);
    var k := d as real;
    ScaleLess(1.0 / gap, k, gap);
    assert (1.0 / gap) * gap == 1.0;
    var base := low * k;
    assert base >= 0.0;
    n := Above(base);
    NearLow(low, high, k, n as real);
  }

  lemma NearLow(low: real, high: real, k: real, y: real)
    requires 1.0 < k * (high - low) && y <= low * k + 1.0
    ensures y < high * k
  {
    Spread(low, high, k);
  }

  lemma Spread(low: real, high: real, k: real)
    ensures high * k == low * k + k * (high - low)
  {
  }

  /** What an upgrade takes off the square of a layer error. */
  function Drop(e: real, gain: real): real {
    gain * (2.0 * e - gain)
  }

  /** A quotient kept as a term of its own. */
  function Over(a: real, b: real): real
    requires b > 0.0
  {
    a / b
  }

  lemma ValueIsDrop(e: real, gain: real, perParam: real, params: nat, cost: real)
    requires perParam > 0.0 && params > 0 && cost == perParam * params as real
    ensures cost > 0.0 && Value(e, gain, cost) == Over(Over(Drop(e, gain), perParam), params as real)
  {
    var k := params as real;
    assert perParam * k > 0.0;
    assert e * e - (e - gain) * (e - gain) == Drop(e, gain);
    var x := Drop(e, gain) / (perParam * k);
    assert x * (perParam * k) == Drop(e, gain);
    assert (x * k) * perParam == Drop(e, gain);
    assert x * k == Drop(e, gain) / perParam;
  }

  // ---------- The four rates ----------

  /** Noise and bits of the first three types of a menu. */
  datatype Menu3 = Menu3(n0: real, n1: real, n2: real, step1: real, step2: real)
  {
    /** The second step removes no more noise per bit than the first. */
    predicate Diminishing() {
      && n0 > n1 > n2 > 0.0 && step1 > 0.0 && step2 > 0.0
      && (n1 - n2) * step1 <= (n0 - n1) * step2
    }
  }

  lemma GainBounds(m: Menu3, a: real, b: real, e: real)
    requires m.Diminishing() && a > 0.0 && b > 0.0 && e >= (a + b) * m.n0
    ensures var g, h, c := a * (m.n0 - m.n1), a * (m.n1 - m.n2), b * (m.n0 - m.n1);
            g > 0.0 && h > 0.0 && c > 0.0 && 2.0 * (e - g) - c > 0.0 && 2.0 * (e - g) - h > 0.0
  {
    assert (a + b) * m.n0 == a * m.n0 + b * m.n0;
    assert a * m.n0 - a * (m.n0 - m.n1) == a * m.n1 > 0.0;
    assert b * m.n0 - b * (m.n0 - m.n1) == b * m.n1 > 0.0;
    assert a * m.n0 - (a * (m.n0 - m.n1) + a * (m.n1 - m.n2)) == a * m.n2 > 0.0;
    assert b * m.n0 > 0.0;
    assert a * (m.n0 - m.n1) > 0.0;
    assert a * (m.n1 - m.n2) > 0.0;
    assert b * (m.n0 - m.n1) > 0.0;
  }

  lemma SameDenominator(a: real, b: real, d: real)
    requires d > 0.0 && 0.0 < a < b
    ensures 0.0 < a / d < b / d
  {
    ScaleLess(a, b, d);
    CrossLess(a, d, b, d);
    CrossLess(0.0, 1.0, a, d);
    assert 0.0 / 1.0 == 0.0;
  }

  lemma ProductLess(x: real, y: real, v: real, w: real)
    requires 0.0 < x <= y && 0.0 < v < w
    ensures x * v < y * w
  {
    ScaleLess(v, w, x);
    if x < y {
      ScaleLess(x, y, w);
    }
    assert v * x == x * v && w * x == x * w;
  }

  /** The first tensor's second upgrade is worse than its first, for its size. */
  lemma SecondStepWorse(e: real, g: real, h: real, step1: real, step2: real)
    requires g > 0.0 && h > 0.0 && step1 > 0.0 && step2 > 0.0 && h * step1 <= g * step2 && 2.0 * (e - g) - h > 0.0
    ensures 0.0 < Over(Drop(e - g, h), step2) < Over(Drop(e, g), step1)
  {
    var y, x := 2.0 * (e - g) - h, 2.0 * e - g;
    PositiveProduct(h, step1);
    ProductLess(h * step1, g * step2, y, x);
    Swap(h, y, step1);
    Swap(g, x, step2);
    CrossLess(Drop(e - g, h), step2, Drop(e, g), step1);
    PositiveProduct(h, y);
    CrossLess(0.0, 1.0, Drop(e - g, h), step2);
    assert 0.0 / 1.0 == 0.0;
  }

  lemma GainsDiminish(m: Menu3, a: real)
    requires m.Diminishing() && a > 0.0
    ensures (a * (m.n1 - m.n2)) * m.step1 <= (a * (m.n0 - m.n1)) * m.step2
  {
    var low, high := (m.n1 - m.n2) * m.step1, (m.n0 - m.n1) * m.step2;
    Commute(a, m.n1 - m.n2, m.step1);
    Commute(a, m.n0 - m.n1, m.step2);
    if low < high {
      ScaleLess(low, high, a);
    }
    assert low * a == a * low && high * a == a * high;
  }

  lemma Swap(h: real, y: real, k: real)
    ensures (h * y) * k == (h * k) * y
  {
  }

  /** The second tensor's upgrade loses value when the first is upgraded. */
  lemma OtherLosesValue(e: real, g: real, c: real, step: real)
    requires g > 0.0 && c > 0.0 && step > 0.0 && 2.0 * (e - g) - c > 0.0
    ensures 0.0 < Over(Drop(e - g, c), step) < Over(Drop(e, c), step)
  {
    PositiveProduct(c, 2.0 * (e - g) - c);
    ScaleLess(2.0 * (e - g) - c, 2.0 * e - c, c);
    assert Drop(e, c) == (2.0 * e - c) * c && Drop(e - g, c) == (2.0 * (e - g) - c) * c;
    SameDenominator(Drop(e - g, c), Drop(e, c), step);
  }

  /** Sizes that put the first tensor's two values around the second tensor's old value and above its new one. */
  lemma Sizes(first: real, second: real, stale: real, current: real) returns (a: nat, b: nat)
    requires 0.0 < second < first && 0.0 < current < stale
    ensures a > 0 && b > 0
    ensures Over(current, b as real) < Over(second, a as real) < Over(stale, b as real) < Over(first, a as real)
  {
    SameDenominator(current, stale, second);
    PositiveProduct(stale, second);
    ScaleLess(second, first, stale);
    assert stale * second == second * stale && stale * first == first * stale;
    CrossLess(stale, first, stale, second);
    var low := if current / second < stale / first then stale / first else current / second;
    b, a := FractionBetween(low, stale / second);
    var x, y := a as real, b as real;
    FractionSide(current, second, y, x, low);
    FractionSide(stale, first, y, x, low);
    assert (stale / second) * second == stale;
    ScaleLess(y, (stale / second) * x, second);
    Swap(stale / second, x, second);
    CrossLess(second, x, stale, y);
    assert second * y == y * second;
  }

  lemma FractionSide(v: real, w: real, y: real, x: real, low: real)
    requires w > 0.0 && x > 0.0 && y > 0.0 && v / w <= low && low * x < y
    ensures v / y < w / x
  {
    assert (v / w) * x <= low * x by {
      if v / w < low {
        ScaleLess(v / w, low, x);
      }
    }
    ScaleLess((v / w) * x, y, w);
    Swap(v / w, x, w);
    assert (v / w) * w == v;
    CrossLess(v, y, w, x);
    assert y * w == w * y;
  }

  // ---------- Two pops ----------

  /** The first queue: one entry for each tensor, in order. */
  lemma {:induction false} PushAllExact(p: Problem, err: map<int, real>, pq: seq<Entry>, k: nat)
    requires p.Valid() && k <= |p.params| && QueueShape(p, pq) && |p.types| > 1
    requires forall t :: 0 <= t < |p.layer| ==> p.layer[t] in err
    ensures var r := PushAll(p, err, pq, k);
            && |r| == |pq| + |p.params| - k && pq <= r
            && forall i :: k <= i < |p.params| ==>
                 r[|pq| + i - k] == Entry(Value(err[p.layer[i]], Gain(p, i, 0), Cost(p, i, 0)), i, 0)
    decreases |p.params| - k
  {
    hide Gain, Cost, Value;
    if k < |p.params| {
      var next := Push(p, err, pq, k, 0);
      assert next == pq + [Entry(Value(err[p.layer[k]], Gain(p, k, 0), Cost(p, k, 0)), k, 0)];
      PushAllExact(p, err, next, k + 1);
      var r := PushAll(p, err, next, k + 1);
      assert r[|pq|] == next[|pq|];
      forall i | k <= i < |p.params|
        ensures r[|pq| + i - k] == Entry(Value(err[p.layer[i]], Gain(p, i, 0), Cost(p, i, 0)), i, 0)
      {
        if i > k {
          assert r[|next| + i - (k + 1)] == Entry(Value(err[p.layer[i]], Gain(p, i, 0), Cost(p, i, 0)), i, 0);
        }
      }
    }
  }

  lemma StartQueue(p: Problem)
    requires p.Valid() && |p.types| > 1
    ensures var s := Start(p);
            && |s.pq| == |s.idx| == |p.params|
            && forall i :: 0 <= i < |p.params| ==> s.idx[i] == 0 && s.pq[i] == Entry(CurrentValue(p, s, i), i, 0)
  {
    hide Gain, Cost, Value;
    PushAllExact(p, BaseErr(p), [], 0);
    var s := Start(p);
    forall i | 0 <= i < |p.params| ensures s.idx[i] == 0 && s.pq[i] == Entry(CurrentValue(p, s, i), i, 0) {
      assert s.pq[0 + i - 0] == Entry(Value(s.err[p.layer[i]], Gain(p, i, 0), Cost(p, i, 0)), i, 0);
    }
  }

  /** No entry beats the value v, and only an entry of tensor u's first upgrade has it. */
  ghost predicate Topped(pq: seq<Entry>, u: nat, v: real) {
    forall i :: 0 <= i < |pq| ==> pq[i].value <= v && (pq[i].value == v ==> pq[i].tensor == u && pq[i].from == 0)
  }

  lemma {:induction false} ToppedAfterRepush(p: Problem, s: State, t: nat, k: nat, u: nat, v: real)
    requires Shape(p, s) && t < |p.params| && k <= |p.params| && Topped(s.pq, u, v)
    requires forall i :: 0 <= i < |s.idx| && s.idx[i] + 1 < |p.types| ==> CurrentValue(p, s, i) < v
    ensures s.pq <= Repushed(p, s, t, k).pq && Topped(Repushed(p, s, t, k).pq, u, v)
    decreases |p.params| - k
  {
    hide CurrentValue, PushOthers;
    if k < |p.params| {
      var next := RepushedNext(p, s, t, k);
      SameValues(p, s, next);
      ToppedAfterRepush(p, next, t, k + 1, u, v);
    } else {
      NothingRepushed(p, s, t);
    }
  }

  /** Values do not depend on the queue. */
  lemma SameValues(p: Problem, s: State, r: State)
    requires Shape(p, s) && Shape(p, r) && r.idx == s.idx && r.err == s.err
    ensures forall i :: 0 <= i < |s.idx| && s.idx[i] + 1 < |p.types| ==> CurrentValue(p, r, i) == CurrentValue(p, s, i)
  {
  }

  /** The state after the first upgrade of t, before the others of its layer are pushed again. */
  ghost function Upgraded(p: Problem, t: nat): (r: State)
    requires p.Valid() && |p.types| > 1 && t < |p.params|
    ensures Shape(p, r)
  {
    StartQueue(p);
    Upgrade(p, Start(p).(pq := Remove(Start(p).pq, t)), t, false)
  }

  /** Type of v once t alone has been upgraded. */
  function TypeAfter(t: nat, v: nat): nat {
    if v == t then 1 else 0
  }

  ghost predicate Distinct(p: Problem, t: nat, u: nat, v: nat) {
    p.Valid() && |p.types| > 1 && t < |p.params| && u < |p.params| && v < |p.params| && t != u && v != u && (v == t ==> |p.types| > 2)
  }

  /** t's first upgrade is the best at the start, u's the best of the others; afterwards the next
      upgrade of v, which may be t, is better than u's. */
  ghost predicate Trap(p: Problem, t: nat, u: nat, v: nat)
    requires Distinct(p, t, u, v)
  {
    var s, r := Start(p), Upgraded(p, t);
    UpgradedIs(p, t);
    StartQueue(p);
    && (forall i :: 0 <= i < |p.params| && i != t && i != u ==> CurrentValue(p, s, i) < CurrentValue(p, s, u))
    && CurrentValue(p, s, u) < CurrentValue(p, s, t)
    && (|p.types| > 2 ==> CurrentValue(p, r, t) < CurrentValue(p, s, u))
    && CurrentValue(p, r, u) < CurrentValue(p, r, v)
    && s.bits + Cost(p, t, 0) + Cost(p, u, 0) <= p.target
    && s.bits + Cost(p, t, 0) + Cost(p, v, TypeAfter(t, v)) <= p.target
  }

  lemma UpgradedIs(p: Problem, t: nat)
    requires p.Valid() && |p.types| > 1 && t < |p.params|
    ensures |Start(p).pq| == |p.params|
    ensures var s, r := Start(p), Upgraded(p, t);
            && r.idx == s.idx[t := 1] && |s.idx| == |p.params| && r.bits == s.bits + Cost(p, t, 0)
            && r.err == s.err[p.layer[t] := s.err[p.layer[t]] - Gain(p, t, 0)]
            && r.pq == Remove(s.pq, t) + if |p.types| > 2 then [Entry(CurrentValue(p, r, t), t, 1)] else []
  {
    hide Gain, Cost, Value;
    StartQueue(p);
  }

  lemma FirstPop(p: Problem, t: nat, u: nat, v: nat)
    requires Distinct(p, t, u, v) && Trap(p, t, u, v)
    ensures |Start(p).pq| > 0 && Best(Start(p).pq) == t
    ensures Step(p, Start(p), true) == Repushed(p, Upgraded(p, t), t, 0)
  {
    hide CurrentValue, Upgrade;
    StartQueue(p);
    var s := Start(p);
    assert s.pq[t] == Entry(CurrentValue(p, s, t), t, 0);
    forall i | 0 <= i < |s.pq| && i != t ensures s.pq[i].value < s.pq[t].value {
      assert s.pq[i] == Entry(CurrentValue(p, s, i), i, 0);
    }
    BestIs(s.pq, t);
    StepLive(p, s, true);
    UpgradeRepush(p, s.(pq := Remove(s.pq, t)), t);
  }

  /** Every value after the upgrade is below u's old value. */
  lemma ValuesAfter(p: Problem, t: nat, u: nat, v: nat, i: nat)
    requires Distinct(p, t, u, v) && Trap(p, t, u, v)
    requires i < |p.params| && |Upgraded(p, t).idx| == |p.params| && Upgraded(p, t).idx[i] + 1 < |p.types|
    ensures CurrentValue(p, Upgraded(p, t), i) < CurrentValue(p, Start(p), u)
  {
    hide CurrentValue, Upgraded;
    UpgradedIs(p, t);
    StartQueue(p);
    if i != t && i != u {
      NotAbove(p, t, i);
    } else if i == u && v != t {
      NotAbove(p, t, v);
    }
  }

  /** The upgrade of t raises no value of another tensor. */
  lemma NotAbove(p: Problem, t: nat, i: nat)
    requires p.Valid() && |p.types| > 1 && t < |p.params| && i < |p.params| && i != t
    ensures Start(p).idx[i] == 0 && |Upgraded(p, t).idx| == |p.params| && Upgraded(p, t).idx[i] == 0
    ensures CurrentValue(p, Upgraded(p, t), i) <= CurrentValue(p, Start(p), i)
  {
    hide Gain, Cost, Value, Upgraded;
    UpgradedIs(p, t);
    StartQueue(p);
    var s, r := Start(p), Upgraded(p, t);
    ValueMonotone(r.err[p.layer[i]], s.err[p.layer[i]], Gain(p, i, 0), Cost(p, i, 0));
  }

  lemma ToppedUpgraded(p: Problem, t: nat, u: nat, v: nat)
    requires Distinct(p, t, u, v) && Trap(p, t, u, v)
    ensures var r, top, j := Upgraded(p, t), CurrentValue(p, Start(p), u), if u < t then u else u - 1;
            && Topped(r.pq, u, top) && j < |r.pq| && r.pq[j].value == top
  {
    hide CurrentValue, Upgraded, Gain, Cost;
    UpgradedIs(p, t);
    StartQueue(p);
    var s, r, top := Start(p), Upgraded(p, t), CurrentValue(p, Start(p), u);
    forall i | 0 <= i < |r.pq| ensures r.pq[i].value <= top && (r.pq[i].value == top ==> r.pq[i].tensor == u && r.pq[i].from == 0) {
      if i < |p.params| - 1 {
        var j := if i < t then i else i + 1;
        assert r.pq[i] == s.pq[j] == Entry(CurrentValue(p, s, j), j, 0);
      }
    }
    assert r.pq[if u < t then u else u - 1] == s.pq[u];
  }

  lemma SecondPop(p: Problem, t: nat, u: nat, v: nat)
    requires Distinct(p, t, u, v) && Trap(p, t, u, v)
    ensures var r := Repushed(p, Upgraded(p, t), t, 0);
            && |r.pq| > 0 && r.pq[Best(r.pq)].tensor == u && r.pq[Best(r.pq)].from == 0
  {
    hide CurrentValue, Upgraded, Repushed, Trap;
    var r, top := Upgraded(p, t), CurrentValue(p, Start(p), u);
    UpgradedIs(p, t);
    ToppedUpgraded(p, t, u, v);
    forall i | 0 <= i < |r.idx| && r.idx[i] + 1 < |p.types| ensures CurrentValue(p, r, i) < top {
      ValuesAfter(p, t, u, v, i);
    }
    ToppedAfterRepush(p, r, t, 0, u, top);
    var q, j := Repushed(p, r, t, 0).pq, if u < t then u else u - 1;
    assert q[j] == r.pq[j];
    var b := Best(q);
    assert IsBest(q, b);
    assert q[b].value == top;
  }

  /** The second pop of a trap breaks the documented rule. */
  lemma TrapBreaksRule(p: Problem, t: nat, u: nat, v: nat)
    requires Distinct(p, t, u, v) && Trap(p, t, u, v)
    ensures !GreedyRun(p, Start(p))
  {
    hide CurrentValue, Upgraded, Best;
    var s, r := Start(p), Upgraded(p, t);
    FirstPop(p, t, u, v);
    SecondPop(p, t, u, v);
    UpgradedIs(p, t);
    StartQueue(p);
    var next := Repushed(p, r, t, 0);
    SameValues(p, r, next);
    HigherElsewhere(p, next, v);
    if GreedyRun(p, s) {
      GreedyUnfolds(p, s);
    }
  }

  // ---------- Building the trap ----------

  /** More bits, strictly less noise: what `Problem.Valid` asks of a menu. */
  predicate ValidTypes(types: seq<QuantType>) {
    && |types| > 0
    && (forall i, j :: 0 <= i < j < |types| ==> types[i].bpw < types[j].bpw && types[i].noise > types[j].noise)
    && (forall i :: 0 <= i < |types| ==> types[i].noise > 0.0)
  }

  function FirstThree(types: seq<QuantType>): Menu3
    requires |types| > 2
  {
    Menu3(types[0].noise, types[1].noise, types[2].noise, types[1].bpw - types[0].bpw, types[2].bpw - types[1].bpw)
  }

  /** A menu of three types or more whose second step removes no more noise per bit than its first,
      as with noise 2 to the power -2 bpw. */
  predicate Diminishing(types: seq<QuantType>) {
    ValidTypes(types) && |types| > 2 && FirstThree(types).Diminishing()
  }

  /** The problem with one parameter for each tensor: layer errors and gains do not depend on sizes. */
  function Unit(types: seq<QuantType>, layer: seq<int>, score: seq<real>): Problem {
    Problem(types, seq(|layer|, _ => 1), layer, score, 0.0)
  }

  predicate SameButSizes(p: Problem, q: Problem) {
    p.Valid() && q.Valid() && p.types == q.types && p.layer == q.layer && p.score == q.score
  }

  lemma {:induction false} ErrIgnoresSizes(p: Problem, q: Problem, idx: seq<nat>, l: int)
    requires SameButSizes(p, q) && |idx| <= |p.params|
    requires forall t :: 0 <= t < |idx| ==> idx[t] < |p.types|
    ensures ErrOf(p, idx, l) == ErrOf(q, idx, l)
  {
    if idx != [] {
      ErrIgnoresSizes(p, q, idx[..|idx| - 1], l);
    }
  }

  ghost function BaseError(q: Problem, l: int): real
    requires q.Valid()
  {
    ErrOf(q, Zeros(|q.params|), l)
  }

  function StepBits(q: Problem, k: nat): (r: real)
    requires q.Valid() && k + 1 < |q.types|
    ensures r > 0.0
  {
    q.types[k + 1].bpw - q.types[k].bpw
  }

  lemma Sized(p: Problem, q: Problem, i: nat, k: nat)
    requires SameButSizes(p, q) && k + 1 < |p.types| && i < |p.params|
    ensures Gain(p, i, k) == Gain(q, i, k)
    ensures Cost(p, i, k) == StepBits(q, k) * p.params[i] as real
  {
  }

  /** Value of a first upgrade, for one parameter. */
  ghost function Rate(q: Problem, i: nat): real
    requires q.Valid() && |q.types| > 1 && i < |q.params|
  {
    Over(Drop(BaseError(q, q.layer[i]), Gain(q, i, 0)), StepBits(q, 0))
  }

  lemma StartValue(p: Problem, q: Problem, i: nat)
    requires SameButSizes(p, q) && |p.types| > 1 && i < |p.params|
    ensures |Start(p).idx| == |p.params| && Start(p).idx[i] == 0 && p.layer[i] in Start(p).err
    ensures Start(p).err[p.layer[i]] == BaseError(q, q.layer[i])
    ensures CurrentValue(p, Start(p), i) == Over(Rate(q, i), p.params[i] as real)
  {
    hide ErrOf, Value, Drop, Gain, Cost, Over, StepBits;
    ErrIgnoresSizes(p, q, Zeros(|p.params|), p.layer[i]);
    Sized(p, q, i, 0);
    ValueIsDrop(BaseError(q, q.layer[i]), Gain(q, i, 0), StepBits(q, 0), p.params[i], Cost(p, i, 0));
  }

  /** Values of t's second and u's first upgrade once t has been upgraded. */
  lemma NextValues(p: Problem, q: Problem, t: nat, u: nat)
    requires SameButSizes(p, q) && |p.types| > 2 && t < u < |p.params| && p.layer[t] == p.layer[u]
    ensures var r, e := Upgraded(p, t), BaseError(q, q.layer[t]) - Gain(q, t, 0);
            && |r.idx| == |p.params| && r.idx[t] == 1 && r.idx[u] == 0
            && CurrentValue(p, r, t) == Over(Over(Drop(e, Gain(q, t, 1)), StepBits(q, 1)), p.params[t] as real)
            && CurrentValue(p, r, u) == Over(Over(Drop(e, Gain(q, u, 0)), StepBits(q, 0)), p.params[u] as real)
  {
    hide ErrOf, Value, Drop, Upgraded, Start, BaseError, Gain, Cost, Rate, QueueShape, Over, StepBits;
    UpgradedIs(p, t);
    StartValue(p, q, t);
    StartValue(p, q, u);
    Sized(p, q, t, 0);
    Sized(p, q, t, 1);
    Sized(p, q, u, 0);
    var e := BaseError(q, q.layer[t]) - Gain(q, t, 0);
    ValueIsDrop(e, Gain(q, t, 1), StepBits(q, 1), p.params[t], Cost(p, t, 1));
    ValueIsDrop(e, Gain(q, u, 0), StepBits(q, 0), p.params[u], Cost(p, u, 0));
  }

  ghost function NoiseUpTo(q: Problem, n: nat, t: nat): real
    requires q.Valid() && t < |q.params|
  {
    if t < n then NoiseAt(q, t, 0) else 0.0
  }

  lemma {:induction false} ErrorAtLeast(q: Problem, n: nat, t: nat, u: nat)
    requires q.Valid() && n <= |q.params| && t < u < |q.params| && q.layer[t] == q.layer[u]
    ensures ErrOf(q, Zeros(n), q.layer[t]) >= NoiseUpTo(q, n, t) + NoiseUpTo(q, n, u)
  {
    if n > 0 {
      ErrorAtLeast(q, n - 1, t, u);
      assert Zeros(n)[..n - 1] == Zeros(n - 1);
      assert NoiseAt(q, n - 1, 0) >= 0.0;
    }
  }

  lemma Distribute(a: real, b: real, n: real)
    ensures a * n + b * n == (a + b) * n
  {
  }

  lemma GainOf(q: Problem, i: nat, k: nat)
    requires q.Valid() && i < |q.params| && k + 1 < |q.types| && q.score[i] > 0.0
    ensures Gain(q, i, k) == q.score[i] * (q.types[k].noise - q.types[k + 1].noise)
    ensures NoiseAt(q, i, k) == q.score[i] * q.types[k].noise
  {
  }

  /** The four rates around t and u, in the order a trap needs. */
  lemma RatesInOrder(q: Problem, t: nat, u: nat)
    requires q.Valid() && Diminishing(q.types) && t < u < |q.params| && q.layer[t] == q.layer[u]
    requires q.score[t] > 0.0 && q.score[u] > 0.0
    ensures |q.types| > 2
    ensures var e, g := BaseError(q, q.layer[t]), Gain(q, t, 0);
            && 0.0 < Over(Drop(e - g, Gain(q, t, 1)), StepBits(q, 1)) < Rate(q, t)
            && 0.0 < Over(Drop(e - g, Gain(q, u, 0)), StepBits(q, 0)) < Rate(q, u)
  {
    hide ErrOf, Drop, Gain, Over, Rate, StepBits, BaseError;
    var e, g := BaseError(q, q.layer[t]), Gain(q, t, 0);
    GainFacts(q, t, u);
    SecondStepWorse(e, g, Gain(q, t, 1), StepBits(q, 0), StepBits(q, 1));
    OtherLosesValue(e, g, Gain(q, u, 0), StepBits(q, 0));
    RateIs(q, t);
    RateIs(q, u);
  }

  lemma RateIs(q: Problem, i: nat)
    requires q.Valid() && |q.types| > 1 && i < |q.params|
    ensures Rate(q, i) == Over(Drop(BaseError(q, q.layer[i]), Gain(q, i, 0)), StepBits(q, 0))
  {
  }

  /** Gains of two scored tensors of a layer, against the error of that layer. */
  lemma GainFacts(q: Problem, t: nat, u: nat)
    requires q.Valid() && Diminishing(q.types) && t < u < |q.params| && q.layer[t] == q.layer[u]
    requires q.score[t] > 0.0 && q.score[u] > 0.0
    ensures |q.types| > 2
    ensures var e, g, h, c := BaseError(q, q.layer[t]), Gain(q, t, 0), Gain(q, t, 1), Gain(q, u, 0);
            && g > 0.0 && h > 0.0 && c > 0.0 && 2.0 * (e - g) - c > 0.0 && 2.0 * (e - g) - h > 0.0
            && h * StepBits(q, 0) <= g * StepBits(q, 1)
  {
    hide ErrOf, Gain, NoiseAt, StepBits;
    var m, e := FirstThree(q.types), BaseError(q, q.layer[t]);
    var a, b := q.score[t], q.score[u];
    ErrorAtLeast(q, |q.params|, t, u);
    Distribute(a, b, m.n0);
    GainOf(q, t, 0);
    GainOf(q, t, 1);
    GainOf(q, u, 0);
    GainBounds(m, a, b, e);
    GainsDiminish(m, a);
    StepBitsAre(q);
  }

  lemma StepBitsAre(q: Problem)
    requires q.Valid() && |q.types| > 2
    ensures StepBits(q, 0) == FirstThree(q.types).step1 && StepBits(q, 1) == FirstThree(q.types).step2
  {
  }

  /** Sizes of a trap: given for t and u, and large enough elsewhere to lose against u. */
  ghost function TrapSizes(q: Problem, t: nat, u: nat, a: nat, b: nat): (params: seq<nat>)
    requires q.Valid() && |q.types| > 1 && t < u < |q.params| && a > 0 && b > 0
    ensures |params| == |q.params| && forall i :: 0 <= i < |params| ==> params[i] == TrapSize(q, t, u, a, b, i)
  {
    seq(|q.params|, i requires 0 <= i < |q.params| => TrapSize(q, t, u, a, b, i))
  }

  ghost function TrapSize(q: Problem, t: nat, u: nat, a: nat, b: nat, i: nat): (n: nat)
    requires q.Valid() && |q.types| > 1 && t < u < |q.params| && a > 0 && b > 0 && i < |q.params|
    ensures n > 0
  {
    if i == t then a else if i == u then b
    else if Rate(q, u) > 0.0 then Above(Rate(q, i) * b as real / Rate(q, u)) else 1
  }

  lemma LosesToU(rate: real, best: real, b: nat, size: nat)
    requires best > 0.0 && b > 0 && size > 0 && rate * b as real / best < size as real
    ensures Over(rate, size as real) < Over(best, b as real)
  {
    CrossLess(rate * b as real, best, size as real, 1.0);
    assert size as real / 1.0 == size as real;
    CrossLess(rate, size as real, best, b as real);
    assert size as real * best == best * size as real;
  }

  lemma OthersLose(p: Problem, q: Problem, t: nat, u: nat, a: nat, b: nat, i: nat)
    requires SameButSizes(p, q) && |q.types| > 1 && |p.params| == |q.params| && t < u < |q.params| && a > 0 && b > 0 && Rate(q, u) > 0.0
    requires i < |q.params| && i != t && i != u
    requires p.params[u] == b && p.params[i] == TrapSize(q, t, u, a, b, i)
    ensures |Start(p).idx| == |p.params| && Start(p).idx[i] == Start(p).idx[u] == 0
    ensures CurrentValue(p, Start(p), i) < CurrentValue(p, Start(p), u)
  {
    hide Over, Rate, Start, CurrentValue, BaseError, ErrOf;
    StartValue(p, q, i);
    StartValue(p, q, u);
    var rate, best := Rate(q, i), Rate(q, u);
    assert rate * b as real / best < p.params[i] as real;
    LosesToU(rate, best, b, p.params[i]);
  }

  lemma ValuesOfTrap(p: Problem, q: Problem, t: nat, u: nat)
    requires SameButSizes(p, q) && |p.types| > 2 && |p.params| == |q.params| && t < u < |p.params| && p.layer[t] == p.layer[u]
    requires var e := BaseError(q, q.layer[t]) - Gain(q, t, 0);
             var second, current := Over(Drop(e, Gain(q, t, 1)), StepBits(q, 1)), Over(Drop(e, Gain(q, u, 0)), StepBits(q, 0));
             var a, b := p.params[t] as real, p.params[u] as real;
             Over(current, b) < Over(second, a) < Over(Rate(q, u), b) < Over(Rate(q, t), a)
    ensures var s, r := Start(p), Upgraded(p, t);
            && |s.idx| == |r.idx| == |p.params| && s.idx[u] == s.idx[t] == r.idx[u] == 0 && r.idx[t] == 1
            && CurrentValue(p, s, u) < CurrentValue(p, s, t)
            && CurrentValue(p, r, u) < CurrentValue(p, r, t) < CurrentValue(p, s, u)
  {
    hide Over, Rate, Start, Upgraded, CurrentValue, Drop, Gain, StepBits, BaseError;
    NextValues(p, q, t, u);
    StartValue(p, q, t);
    StartValue(p, q, u);
  }

  /** The trap for two scored tensors of one layer. */
  lemma TrapFor(q: Problem, t: nat, u: nat) returns (p: Problem)
    requires q.Valid() && Diminishing(q.types) && t < u < |q.params| && q.layer[t] == q.layer[u]
    requires q.score[t] > 0.0 && q.score[u] > 0.0
    ensures SameButSizes(p, q) && |p.params| == |q.params| && Distinct(p, t, u, t) && Trap(p, t, u, t)
  {
    hide Drop, Gain, Over, Rate, StepBits, BaseError, Cost, Start, Upgraded, CurrentValue, BitsOf, ErrOf;
    RatesInOrder(q, t, u);
    var e := BaseError(q, q.layer[t]) - Gain(q, t, 0);
    var second, current := Over(Drop(e, Gain(q, t, 1)), StepBits(q, 1)), Over(Drop(e, Gain(q, u, 0)), StepBits(q, 0));
    var a, b := Sizes(Rate(q, t), second, Rate(q, u), current);
    var params := TrapSizes(q, t, u, a, b);
    p := EnoughTarget(q.(params := params), t, u, t);
    ValuesOfTrap(p, q, t, u);
    forall i | 0 <= i < |p.params| && i != t && i != u
      ensures |Start(p).idx| == |p.params| && Start(p).idx[i] == 0 && CurrentValue(p, Start(p), i) < CurrentValue(p, Start(p), u)
    {
      OthersLose(p, q, t, u, a, b, i);
    }
  }

  /** A target that leaves room for t's first upgrade, u's and v's next. */
  lemma EnoughTarget(q: Problem, t: nat, u: nat, v: nat) returns (p: Problem)
    requires Distinct(q, t, u, v)
    ensures p == q.(target := p.target) && p.Valid()
    ensures Start(p).bits + Cost(p, t, 0) + Cost(p, u, 0) <= p.target
    ensures Start(p).bits + Cost(p, t, 0) + Cost(p, v, TypeAfter(t, v)) <= p.target
  {
    hide Cost;
    var z := Zeros(|q.params|);
    p := q.(target := BitsOf(q, z) + Cost(q, t, 0) + Cost(q, u, 0) + Cost(q, v, TypeAfter(t, v)));
    BitsIgnoreTarget(p, q, z);
    CostIgnoresTarget(p, q, t, 0);
    CostIgnoresTarget(p, q, u, 0);
    CostIgnoresTarget(p, q, v, TypeAfter(t, v));
  }

  lemma CostIgnoresTarget(p: Problem, q: Problem, i: nat, k: nat)
    requires p == q.(target := p.target) && p.Valid() && q.Valid() && i < |p.params| && k + 1 < |p.types|
    ensures Cost(p, i, k) == Cost(q, i, k)
  {
  }

  // ---------- The exact condition ----------

  /** Whatever the sizes and the target, every upgrade of the run has the highest improvement per bit. */
  ghost predicate AlwaysGreedy(types: seq<QuantType>, layer: seq<int>, score: seq<real>) {
    forall params: seq<nat>, target: real ::
      Problem(types, params, layer, score, target).Valid() ==>
      GreedyRun(Problem(types, params, layer, score, target), Start(Problem(types, params, layer, score, target)))
  }

  /** On a menu of diminishing returns the documented rule can be relied on for exactly those scores
      that leave at most one positive in each layer. */
  lemma GreedyIffSeparate(types: seq<QuantType>, layer: seq<int>, score: seq<real>)
    requires Diminishing(types) && |layer| == |score|
    ensures AlwaysGreedy(types, layer, score) <==> SeparateLayers(layer, score)
  {
    if SeparateLayers(layer, score) {
      forall params: seq<nat>, target: real | Problem(types, params, layer, score, target).Valid()
        ensures GreedyRun(Problem(types, params, layer, score, target), Start(Problem(types, params, layer, score, target)))
      {
        SeparateLayersAreGreedy(Problem(types, params, layer, score, target));
      }
    } else {
      var t, u :| 0 <= t < u < |score| && layer[t] == layer[u] && score[t] > 0.0 && score[u] > 0.0;
      var p := TrapFor(Unit(types, layer, score), t, u);
      TrapBreaksRule(p, t, u, t);
      assert p == Problem(types, p.params, layer, score, p.target);
    }
  }

  /** Over all menus the condition is the same. */
  lemma GreedyOnEveryMenu(layer: seq<int>, score: seq<real>)
    requires |layer| == |score|
    ensures (forall types :: ValidTypes(types) ==> AlwaysGreedy(types, layer, score)) <==> SeparateLayers(layer, score)
  {
    if SeparateLayers(layer, score) {
      forall types | ValidTypes(types) ensures AlwaysGreedy(types, layer, score) {
        forall params: seq<nat>, target: real | Problem(types, params, layer, score, target).Valid()
          ensures GreedyRun(Problem(types, params, layer, score, target), Start(Problem(types, params, layer, score, target)))
        {
          SeparateLayersAreGreedy(Problem(types, params, layer, score, target));
        }
      }
    } else {
      assert Diminishing(SAMPLE);
      GreedyIffSeparate(SAMPLE, layer, score);
    }
  }

  /** Three types one bit apart; each bit takes the noise to a quarter. */
  const SAMPLE := [QuantType("A", 1.0, 16.0), QuantType("B", 2.0, 4.0), QuantType("C", 3.0, 1.0)]
}
