/**
  The rule that tools/hsic/allocate.py documents, that every upgrade has the highest
  improvement per bit, against the queue it uses: where the rule holds and where it fails.
 */
module AllocatorRule {
  import opened Allocator
  import opened AllocatorLaws
  import opened AllocatorRepush

  // ---------- The documented greedy rule ----------

  /** The documented rule for one pop: if it upgrades a tensor, no affordable upgrade
      has a higher improvement per bit at that moment. */
  ghost predicate PicksHighest(p: Problem, s: State)
    requires Shape(p, s) && |s.pq| > 0
  {
    var e := s.pq[Best(s.pq)];
    !Dead(p, s, e) ==>
      forall t :: 0 <= t < |s.idx| && s.idx[t] + 1 < |p.types| && Fits(p, s, t, s.idx[t]) ==>
        CurrentValue(p, s, t) <= CurrentValue(p, s, e.tensor)
  }

  /** Every pop of a run follows the documented rule. */
  ghost predicate GreedyRun(p: Problem, s: State)
    requires Shape(p, s)
    decreases Slack(p, s.idx), |s.pq|
  {
    s.pq == [] || (StepShrinks(p, s, true); PicksHighest(p, s) && GreedyRun(p, Step(p, s, true)))
  }

  /** No layer holds two tensors of positive score. */
  predicate SeparateLayers(layer: seq<int>, score: seq<real>)
    requires |layer| == |score|
  {
    forall t, u :: 0 <= t < u < |score| && layer[t] == layer[u] ==> score[t] <= 0.0 || score[u] <= 0.0
  }

  /** No queued entry of a tensor's current type is out of date. */
  ghost predicate Fresh(p: Problem, s: State)
    requires Shape(p, s)
  {
    forall i :: 0 <= i < |s.pq| ==> FreshEntry(p, s, s.pq[i])
  }

  ghost predicate FreshEntry(p: Problem, s: State, e: Entry)
    requires Shape(p, s) && e.tensor < |s.idx| && e.from + 1 < |p.types|
  {
    e.from <= s.idx[e.tensor] && (e.from == s.idx[e.tensor] ==> e.value == CurrentValue(p, s, e.tensor))
  }

  /** A pop of an up-to-date queue that holds every affordable upgrade follows the rule. */
  lemma FreshPicksHighest(p: Problem, s: State)
    requires Shape(p, s) && |s.pq| > 0 && Fresh(p, s) && Pending(p, s)
    ensures PicksHighest(p, s)
  {
    var b := Best(s.pq);
    if !Dead(p, s, s.pq[b]) {
      forall t | 0 <= t < |s.idx| && s.idx[t] + 1 < |p.types| && Fits(p, s, t, s.idx[t])
        ensures CurrentValue(p, s, t) <= CurrentValue(p, s, s.pq[b].tensor)
      {
        assert Queued(s.pq, t, s.idx[t]);
        var i :| 0 <= i < |s.pq| && s.pq[i].tensor == t && s.pq[i].from == s.idx[t];
        assert FreshEntry(p, s, s.pq[i]) && FreshEntry(p, s, s.pq[b]);
      }
    }
  }

  lemma {:induction false} FreshAfterPushOthers(p: Problem, s: State, t: nat, k: nat)
    requires Shape(p, s) && Fresh(p, s) && t < |p.params| && k <= |p.params|
    ensures Fresh(p, Repushed(p, s, t, k))
    decreases |p.params| - k
  {
    if k < |p.params| {
      var next := RepushedNext(p, s, t, k);
      assert Fresh(p, next);
      FreshAfterPushOthers(p, next, t, k + 1);
    }
  }

  lemma FreshAfterUpgrade(p: Problem, s: State, t: nat)
    requires Shape(p, s) && Fresh(p, s) && SeparateLayers(p.layer, p.score) && t < |s.idx| && s.idx[t] + 1 < |p.types|
    ensures Fresh(p, Upgrade(p, s, t, false))
  {
    var u := Upgrade(p, s, t, false);
    forall i | 0 <= i < |u.pq| ensures FreshEntry(p, u, u.pq[i]) {
      if i < |s.pq| {
        var e := s.pq[i];
        assert FreshEntry(p, s, e) && u.pq[i] == e;
        if e.tensor != t && e.from == s.idx[e.tensor] && p.layer[e.tensor] == p.layer[t] {
          assert Gain(p, t, s.idx[t]) == 0.0 || Gain(p, e.tensor, e.from) == 0.0;
          if Gain(p, e.tensor, e.from) == 0.0 {
            ZeroGainZeroValue(s.err[p.layer[t]], u.err[p.layer[t]], Cost(p, e.tensor, e.from));
          }
        }
      }
    }
  }

  lemma ZeroGainZeroValue(a: real, b: real, cost: real)
    requires cost > 0.0
    ensures Value(a, 0.0, cost) == Value(b, 0.0, cost)
  {}

  lemma FreshAfterStep(p: Problem, s: State)
    requires Shape(p, s) && Fresh(p, s) && SeparateLayers(p.layer, p.score) && |s.pq| > 0
    ensures Fresh(p, Step(p, s, true))
  {
    var b := Best(s.pq);
    var rest := s.(pq := Remove(s.pq, b));
    assert Fresh(p, rest) by {
      forall i | 0 <= i < |rest.pq| ensures FreshEntry(p, rest, rest.pq[i]) {
        assert FreshEntry(p, s, s.pq[if i < b then i else i + 1]);
      }
    }
    if Dead(p, s, s.pq[b]) {
      StepDead(p, s, true);
    } else {
      var t := s.pq[b].tensor;
      StepLive(p, s, true);
      UpgradeRepush(p, rest, t);
      FreshAfterUpgrade(p, rest, t);
      FreshAfterPushOthers(p, Upgrade(p, rest, t, false), t, 0);
    }
  }

  lemma {:induction false} FreshRunIsGreedy(p: Problem, s: State)
    requires Shape(p, s) && Fresh(p, s) && Pending(p, s) && SeparateLayers(p.layer, p.score)
    ensures GreedyRun(p, s)
    decreases Slack(p, s.idx), |s.pq|
  {
    if s.pq != [] {
      StepShrinks(p, s, true);
      FreshPicksHighest(p, s);
      FreshAfterStep(p, s);
      StepPending(p, s, true);
      FreshRunIsGreedy(p, Step(p, s, true));
    }
  }

  /** With at most one scored tensor per layer, every upgrade is the documented one. */
  lemma SeparateLayersAreGreedy(p: Problem)
    requires p.Valid() && SeparateLayers(p.layer, p.score)
    ensures GreedyRun(p, Start(p))
  {
    var s := Start(p);
    PushAllFirst(p, BaseErr(p), [], 0);
    if |p.types| > 1 {
      PushAllQueues(p, BaseErr(p), [], 0);
    }
    assert forall i :: 0 <= i < |s.pq| ==> FreshEntry(p, s, s.pq[i]);
    FreshRunIsGreedy(p, s);
  }

  /** The guard the code lacks: when the popped entry's stored value is still its
      tensor's current value, the pop follows the documented rule, whatever else is stale. */
  lemma UpToDatePopPicksHighest(p: Problem, s: State, mask: seq<bool>)
    requires Sim(p, s, mask) && |s.pq| > 0
    requires var e := s.pq[Best(s.pq)]; !Dead(p, s, e) ==> e.value == CurrentValue(p, s, e.tensor)
    ensures PicksHighest(p, s)
  {
    var b := Best(s.pq);
    if !Dead(p, s, s.pq[b]) {
      forall t | 0 <= t < |s.idx| && s.idx[t] + 1 < |p.types| && Fits(p, s, t, s.idx[t])
        ensures CurrentValue(p, s, t) <= CurrentValue(p, s, s.pq[b].tensor)
      {
        var j :| 0 <= j < |s.pq| && Leads(p, s, mask, t, j);
        assert s.pq[j].value <= s.pq[b].value;
      }
    }
  }

  /** Every pop of a run that upgrades a tensor has a stored value that is still current. */
  ghost predicate UpToDateRun(p: Problem, s: State)
    requires Shape(p, s)
    decreases Slack(p, s.idx), |s.pq|
  {
    s.pq == [] ||
    (StepShrinks(p, s, true);
     && (var e := s.pq[Best(s.pq)]; !Dead(p, s, e) ==> e.value == CurrentValue(p, s, e.tensor))
     && UpToDateRun(p, Step(p, s, true)))
  }

  /** A run whose upgrading pops are all up to date follows the rule throughout. */
  lemma {:induction false} UpToDateRunFollowsRule(p: Problem, s: State, mask: seq<bool>)
    requires Sim(p, s, mask) && UpToDateRun(p, s)
    ensures GreedyRun(p, s)
    decreases Slack(p, s.idx), |s.pq|
  {
    if s.pq != [] {
      hide Sim, PicksHighest, Step, CurrentValue;
      var r := Best(s.pq);
      StepShrinks(p, s, true);
      UpToDatePopPicksHighest(p, s, mask);
      if Dead(p, s, s.pq[r]) {
        SimAfterDrop(p, s, mask, r);
        StepDead(p, s, true);
        UpToDateRunFollowsRule(p, Step(p, s, true), Remove(mask, r));
      } else {
        var m := LeanUpgrade(p, s, mask);
        UpToDateRunFollowsRule(p, Step(p, s, true), m);
      }
    }
  }

  lemma UpToDateRunIsGreedy(p: Problem)
    requires p.Valid() && UpToDateRun(p, Start(p))
    ensures GreedyRun(p, Start(p))
  {
    StartSim(p);
    UpToDateRunFollowsRule(p, Start(p), seq(|Start(p).pq|, _ => true));
  }

  // ---------- A problem on which the rule fails ----------

  /** Two equal tensors in layer 0 and a heavier one alone in layer 1, types Q4_K and Q5_K
      (noise 2 to the power minus twice the bits per weight). */
  const STALE := Problem(
    [QuantType("Q4_K", 4.5, 1.0 / 512.0), QuantType("Q5_K", 5.5, 1.0 / 2048.0)],
    [1, 1, 1], [0, 0, 1], [1.0, 1.0, 1.5], 100.0)

  const UNIT := 1.0 / 4194304.0

  lemma StaleMoves()
    ensures STALE.Valid()
    ensures Cost(STALE, 0, 0) == Cost(STALE, 1, 0) == Cost(STALE, 2, 0) == 1.0
    ensures Gain(STALE, 0, 0) == Gain(STALE, 1, 0) == 3.0 / 2048.0 && Gain(STALE, 2, 0) == 4.5 / 2048.0
    ensures Value(8.0 / 2048.0, 3.0 / 2048.0, 1.0) == 39.0 * UNIT
    ensures Value(5.0 / 2048.0, 3.0 / 2048.0, 1.0) == 21.0 * UNIT
    ensures Value(6.0 / 2048.0, 4.5 / 2048.0, 1.0) == 33.75 * UNIT
  {}

  lemma StaleStart()
    ensures STALE.Valid()
    ensures var s := Start(STALE);
            && s.idx == [0, 0, 0] && s.bits == 13.5 && 0 in s.err && 1 in s.err
            && s.err[0] == 8.0 / 2048.0 && s.err[1] == 6.0 / 2048.0
            && s.pq == [Entry(39.0 * UNIT, 0, 0), Entry(39.0 * UNIT, 1, 0), Entry(33.75 * UNIT, 2, 0)]
  {
    StaleMoves();
    var p := STALE;
    var z := Zeros(3);
    assert z == [0, 0, 0] && z[..2] == [0, 0] && z[..2][..1] == [0] && z[..2][..1][..0] == [];
    assert BitsOf(p, [0]) == 4.5 && BitsOf(p, [0, 0]) == 9.0 by { assert [0, 0][..1] == [0] && [0][..0] == []; }
    assert ErrOf(p, [0], 0) == 4.0 / 2048.0 && ErrOf(p, [0], 1) == 0.0 by { assert [0][..0] == []; }
    assert ErrOf(p, [0, 0], 0) == 8.0 / 2048.0 && ErrOf(p, [0, 0], 1) == 0.0 by { assert [0, 0][..1] == [0]; }
    assert p.layer[0] == 0 && p.layer[2] == 1;
    var err := BaseErr(p);
    assert err[0] == 8.0 / 2048.0 && err[1] == 6.0 / 2048.0;
    var q1 := Push(p, err, [], 0, 0);
    var q2 := Push(p, err, q1, 1, 0);
    var q3 := Push(p, err, q2, 2, 0);
    assert q1 == [Entry(39.0 * UNIT, 0, 0)];
    assert q2 == [Entry(39.0 * UNIT, 0, 0), Entry(39.0 * UNIT, 1, 0)];
    assert q3 == [Entry(39.0 * UNIT, 0, 0), Entry(39.0 * UNIT, 1, 0), Entry(33.75 * UNIT, 2, 0)];
    assert PushAll(p, err, [], 0) == PushAll(p, err, q1, 1) == PushAll(p, err, q2, 2) == PushAll(p, err, q3, 3) == q3;
  }

  lemma StaleRepush(u: State)
    requires Shape(STALE, u) && u.idx == [1, 0, 0] && 0 in u.err && u.err[0] == 5.0 / 2048.0
    ensures PushOthers(STALE, u.err, u.idx, u.pq, 0, 0) == u.pq + [Entry(21.0 * UNIT, 1, 0)]
  {
    StaleMoves();
    var p := STALE;
    var q := Push(p, u.err, u.pq, 1, 0);
    assert q == u.pq + [Entry(21.0 * UNIT, 1, 0)];
    assert PushOthers(p, u.err, u.idx, u.pq, 0, 0) == PushOthers(p, u.err, u.idx, u.pq, 0, 1);
    assert PushOthers(p, u.err, u.idx, u.pq, 0, 1) == PushOthers(p, u.err, u.idx, q, 0, 2);
    assert PushOthers(p, u.err, u.idx, q, 0, 2) == PushOthers(p, u.err, u.idx, q, 0, 3) == q;
  }

  lemma StaleUpgrade(s: State) returns (u: State)
    requires Shape(STALE, s) && s.idx == [0, 0, 0] && s.bits == 13.5 && 0 in s.err && s.err[0] == 8.0 / 2048.0
    ensures u == Upgrade(STALE, s, 0, false)
    ensures u.idx == [1, 0, 0] && u.bits == 14.5 && u.err == s.err[0 := 5.0 / 2048.0] && u.pq == s.pq
  {
    StaleMoves();
    u := Upgrade(STALE, s, 0, false);
  }

  lemma StaleFirst() returns (rest: State)
    ensures STALE.Valid() && |Start(STALE).pq| > 0
    ensures rest == Start(STALE).(pq := [Entry(39.0 * UNIT, 1, 0), Entry(33.75 * UNIT, 2, 0)])
    ensures Shape(STALE, rest) && Step(STALE, Start(STALE), true) == Upgrade(STALE, rest, 0, true)
  {
    hide Start, Best, Upgrade, Step, Value, Gain, Cost;
    StaleStart();
    var s := Start(STALE);
    BestIs(s.pq, 0);
    StaleMoves();
    StepLive(STALE, s, true);
    rest := s.(pq := Remove(s.pq, 0));
  }

  lemma StaleSecond()
    ensures STALE.Valid() && |Start(STALE).pq| > 0
    ensures var s := Step(STALE, Start(STALE), true);
            && s.idx == [1, 0, 0] && s.bits == 14.5 && 0 in s.err && 1 in s.err
            && s.err[0] == 5.0 / 2048.0 && s.err[1] == 6.0 / 2048.0
            && s.pq == [Entry(39.0 * UNIT, 1, 0), Entry(33.75 * UNIT, 2, 0), Entry(21.0 * UNIT, 1, 0)]
  {
    var rest := StaleFirst();
    StaleStart();
    UpgradeRepush(STALE, rest, 0);
    var u := StaleUpgrade(rest);
    StaleRepush(u);
  }

  lemma StaleValues(s: State)
    requires Shape(STALE, s) && s.idx == [1, 0, 0] && 0 in s.err && 1 in s.err
    requires s.err[0] == 5.0 / 2048.0 && s.err[1] == 6.0 / 2048.0 && s.bits == 14.5
    ensures CurrentValue(STALE, s, 1) < CurrentValue(STALE, s, 2)
    ensures Fits(STALE, s, 1, 0) && Fits(STALE, s, 2, 0)
  {
    StaleMoves();
  }

  lemma GreedyUnfolds(p: Problem, s: State)
    requires Shape(p, s) && |s.pq| > 0 && GreedyRun(p, s)
    ensures GreedyRun(p, Step(p, s, true))
  {}

  lemma HigherElsewhere(p: Problem, s: State, t: nat)
    requires Shape(p, s) && |s.pq| > 0 && !Dead(p, s, s.pq[Best(s.pq)])
    requires t < |s.idx| && s.idx[t] + 1 < |p.types| && Fits(p, s, t, s.idx[t])
    requires CurrentValue(p, s, s.pq[Best(s.pq)].tensor) < CurrentValue(p, s, t)
    ensures !GreedyRun(p, s)
  {
  }

  /** The documented rule fails: after the first upgrade in layer 0 the code upgrades the
      second tensor of that layer, though the tensor of layer 1 improves more per bit. */
  lemma GreedyRuleFails()
    ensures STALE.Valid() && !GreedyRun(STALE, Start(STALE))
  {
    StaleSecond();
    var s := Step(STALE, Start(STALE), true);
    StaleValues(s);
    BestIs(s.pq, 0);
    HigherElsewhere(STALE, s, 2);
    if GreedyRun(STALE, Start(STALE)) {
      GreedyUnfolds(STALE, Start(STALE));
    }
  }
}
