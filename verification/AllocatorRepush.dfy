/**
  tools/hsic/allocate.py pushes the upgrades of a whole layer again after each
  upgrade in it, because their values have dropped, but leaves the old entries in
  the queue. The old entries carry the higher values, so they are always popped
  first, and the re-push loop changes nothing.
 */
module AllocatorRepush {
  import opened Allocator
  import opened AllocatorLaws

  /** The upgrade value of tensor t under the layer error of state s. */
  ghost function CurrentValue(p: Problem, s: State, t: nat): real
    requires Shape(p, s) && t < |s.idx| && s.idx[t] + 1 < |p.types|
  {
    Value(s.err[p.layer[t]], Gain(p, t, s.idx[t]), Cost(p, t, s.idx[t]))
  }

  /** A lower layer error means a lower value. */
  lemma ValueMonotone(low: real, high: real, gain: real, cost: real)
    requires low <= high && gain >= 0.0 && cost > 0.0
    ensures Value(low, gain, cost) <= Value(high, gain, cost)
  {
    var a := low * low - (low - gain) * (low - gain);
    var b := high * high - (high - gain) * (high - gain);
    assert b - a == 2.0 * (gain * (high - low));
    assert gain * (high - low) >= 0.0;
    assert b / cost - a / cost == (b - a) / cost;
    assert (b - a) / cost >= 0.0;
  }

  // ---------- Selecting the first-time entries of a queue ----------

  ghost function Select(pq: seq<Entry>, mask: seq<bool>): (sel: seq<Entry>)
    requires |pq| == |mask|
    ensures forall e :: e in sel ==> e in pq
  {
    if pq == [] then []
    else Select(pq[..|pq| - 1], mask[..|pq| - 1]) + (if mask[|pq| - 1] then [pq[|pq| - 1]] else [])
  }

  lemma {:induction false} SelectConcat(a: seq<Entry>, ma: seq<bool>, b: seq<Entry>, mb: seq<bool>)
    requires |a| == |ma| && |b| == |mb|
    ensures Select(a + b, ma + mb) == Select(a, ma) + Select(b, mb)
  {
    if b == [] {
      assert a + b == a && ma + mb == ma;
    } else {
      var n := |b| - 1;
      assert (a + b)[..|a + b| - 1] == a + b[..n];
      assert (ma + mb)[..|a + b| - 1] == ma + mb[..n];
      SelectConcat(a, ma, b[..n], mb[..n]);
    }
  }

  lemma SelectOne(e: Entry, m: bool)
    ensures Select([e], [m]) == if m then [e] else []
  {
    assert [e][..0] == [] && [m][..0] == [];
  }

  /** A selection cut at position r, with and without the entry there. */
  lemma SelectAround(pq: seq<Entry>, mask: seq<bool>, r: nat)
    requires |pq| == |mask| && r < |pq|
    ensures Select(pq, mask) == Select(pq[..r], mask[..r]) + (if mask[r] then [pq[r]] else []) + Select(pq[r + 1..], mask[r + 1..])
    ensures Select(Remove(pq, r), Remove(mask, r)) == Select(pq[..r], mask[..r]) + Select(pq[r + 1..], mask[r + 1..])
  {
    hide Select, Remove;
    CutAt(pq, r);
    CutAt(mask, r);
    SelectThree(pq[..r], mask[..r], pq[r], mask[r], pq[r + 1..], mask[r + 1..]);
    SelectConcat(pq[..r], mask[..r], pq[r + 1..], mask[r + 1..]);
  }

  lemma CutAt<T>(s: seq<T>, r: nat)
    requires r < |s|
    ensures s == s[..r] + [s[r]] + s[r + 1..] && Remove(s, r) == s[..r] + s[r + 1..]
  {
  }

  lemma SelectThree(a: seq<Entry>, ma: seq<bool>, e: Entry, m: bool, c: seq<Entry>, mc: seq<bool>)
    requires |a| == |ma| && |c| == |mc|
    ensures Select(a + [e] + c, ma + [m] + mc) == Select(a, ma) + (if m then [e] else []) + Select(c, mc)
  {
    hide Select;
    SelectConcat(a, ma, [e], [m]);
    SelectOne(e, m);
    SelectConcat(a + [e], ma + [m], c, mc);
  }

  lemma BestIs(pq: seq<Entry>, b: nat)
    requires IsBest(pq, b)
    ensures Best(pq) == b
  {
    assert IsBest(pq, Best(pq));
  }

  /** Popping a selected entry from the full queue pops the same entry from the selection. */
  lemma SelectBest(pq: seq<Entry>, mask: seq<bool>, i: nat) returns (k: nat)
    requires |pq| == |mask| && IsBest(pq, i) && mask[i]
    ensures IsBest(Select(pq, mask), k)
    ensures Select(pq, mask)[k] == pq[i]
    ensures Remove(Select(pq, mask), k) == Select(Remove(pq, i), Remove(mask, i))
  {
    SelectAround(pq, mask, i);
    var sa, sc := Select(pq[..i], mask[..i]), Select(pq[i + 1..], mask[i + 1..]);
    var sel := Select(pq, mask);
    assert sel == sa + [pq[i]] + sc;
    k := |sa|;
    assert sel[k] == pq[i];
    forall j | 0 <= j < k ensures sel[j].value < pq[i].value {
      assert sel[j] == sa[j] && sa[j] in pq[..i];
    }
    forall j | k < j < |sel| ensures sel[j].value <= pq[i].value {
      assert sel[j] == sc[j - k - 1] && sel[j] in pq[i + 1..];
    }
    assert Remove(sel, k) == sa + sc;
  }

  // ---------- Simulation between the two loops ----------

  ghost predicate Dominated(pq: seq<Entry>, mask: seq<bool>, i: nat)
    requires |pq| == |mask| && i < |pq|
  {
    exists j :: 0 <= j < i && mask[j] && Dominates(pq[j], pq[i])
  }

  ghost predicate Dominates(y: Entry, x: Entry) {
    y.tensor == x.tensor && y.from == x.from && y.value >= x.value
  }

  /** An entry that will be popped without effect. */
  ghost predicate Dead(p: Problem, s: State, e: Entry)
    requires Shape(p, s) && e.tensor < |s.idx| && e.from + 1 < |p.types|
  {
    s.idx[e.tensor] != e.from || !Fits(p, s, e.tensor, e.from)
  }

  ghost predicate Leads(p: Problem, s: State, mask: seq<bool>, t: nat, j: nat)
    requires Shape(p, s) && |mask| == |s.pq| && t < |s.idx| && s.idx[t] + 1 < |p.types| && j < |s.pq|
  {
    mask[j] && s.pq[j].tensor == t && s.pq[j].from == s.idx[t] && s.pq[j].value >= CurrentValue(p, s, t)
  }

  /** `mask` marks the entries of the lean queue inside the full one. Every other
      entry is dead or comes after a marked entry that is at least as good, and
      every affordable upgrade has a marked entry of at least its current value. */
  ghost predicate Sim(p: Problem, s: State, mask: seq<bool>) {
    && Shape(p, s)
    && |mask| == |s.pq|
    && (forall i :: 0 <= i < |s.pq| ==> s.pq[i].from <= s.idx[s.pq[i].tensor])
    && (forall i :: 0 <= i < |s.pq| && !mask[i] ==> Excused(p, s, mask, i))
    && (forall t :: 0 <= t < |s.idx| && s.idx[t] + 1 < |p.types| && Fits(p, s, t, s.idx[t]) ==>
          exists j :: 0 <= j < |s.pq| && Leads(p, s, mask, t, j))
  }

  lemma DominatedAfterRemove(pq: seq<Entry>, mask: seq<bool>, r: nat, i: nat)
    requires |pq| == |mask| && r < |pq| && i < |pq| && i != r
    requires Dominated(pq, mask, i) && !(mask[r] && Dominates(pq[r], pq[i]))
    ensures Dominated(Remove(pq, r), Remove(mask, r), if i < r then i else i - 1)
  {
    var j :| 0 <= j < i && mask[j] && Dominates(pq[j], pq[i]);
    var k := if j < r then j else j - 1;
    assert Remove(pq, r)[k] == pq[j] && Remove(mask, r)[k] == mask[j];
  }

  lemma ExcusedAfterDrop(p: Problem, s: State, mask: seq<bool>, r: nat, i: nat)
    requires Shape(p, s) && |mask| == |s.pq| && r < |s.pq| && Dead(p, s, s.pq[r])
    requires i < |s.pq| && i != r && Excused(p, s, mask, i)
    ensures Excused(p, s.(pq := Remove(s.pq, r)), Remove(mask, r), if i < r then i else i - 1)
  {
    var s1 := s.(pq := Remove(s.pq, r));
    var k := if i < r then i else i - 1;
    assert s1.pq[k] == s.pq[i];
    if Dead(p, s, s.pq[i]) {
      assert Dead(p, s1, s1.pq[k]);
    } else {
      DominatedAfterRemove(s.pq, mask, r, i);
    }
  }

  lemma LeadsAfterDrop(p: Problem, s: State, mask: seq<bool>, r: nat, s1: State, m1: seq<bool>, t: nat, j: nat) returns (k: nat)
    requires Shape(p, s) && |mask| == |s.pq| && r < |s.pq| && Dead(p, s, s.pq[r])
    requires s1 == s.(pq := Remove(s.pq, r)) && m1 == Remove(mask, r)
    requires t < |s.idx| && s.idx[t] + 1 < |p.types| && Fits(p, s, t, s.idx[t])
    requires j < |s.pq| && Leads(p, s, mask, t, j)
    ensures k < |s1.pq| && Leads(p, s1, m1, t, k)
  {
    k := if j < r then j else j - 1;
    assert s1.pq[k] == s.pq[j] && m1[k] == mask[j];
  }

  /** Dropping a dead entry keeps the simulation. */
  lemma SimAfterDrop(p: Problem, s: State, mask: seq<bool>, r: nat)
    requires Sim(p, s, mask) && r < |s.pq| && Dead(p, s, s.pq[r])
    ensures Sim(p, s.(pq := Remove(s.pq, r)), Remove(mask, r))
  {
    var s1, m1 := s.(pq := Remove(s.pq, r)), Remove(mask, r);
    forall i | 0 <= i < |s1.pq| && !m1[i] ensures Excused(p, s1, m1, i) {
      var i0 := if i < r then i else i + 1;
      assert m1[i] == mask[i0];
      ExcusedAfterDrop(p, s, mask, r, i0);
    }
    forall t | 0 <= t < |s.idx| && s.idx[t] + 1 < |p.types| && Fits(p, s1, t, s1.idx[t])
      ensures exists j :: 0 <= j < |s1.pq| && Leads(p, s1, m1, t, j)
    {
      assert Fits(p, s, t, s.idx[t]);
      var j :| 0 <= j < |s.pq| && Leads(p, s, mask, t, j);
      var k := LeadsAfterDrop(p, s, mask, r, s1, m1, t, j);
    }
  }

  ghost predicate Excused(p: Problem, s: State, mask: seq<bool>, i: nat)
    requires Shape(p, s) && |mask| == |s.pq| && i < |s.pq|
  {
    Dead(p, s, s.pq[i]) || Dominated(s.pq, mask, i)
  }

  lemma ExcusedAfterUpgrade(p: Problem, s: State, mask: seq<bool>, r: nat, s1: State, m1: seq<bool>, i: nat)
    requires Sim(p, s, mask) && r < |s.pq| && !Dead(p, s, s.pq[r])
    requires s1 == Upgrade(p, s.(pq := Remove(s.pq, r)), s.pq[r].tensor, false)
    requires |m1| == |s1.pq| && Remove(s.pq, r) <= s1.pq && Remove(mask, r) <= m1
    requires i < |s.pq| - 1 && !m1[i]
    ensures Excused(p, s1, m1, i)
  {
    hide Push, PushOthers, Value, Gain, Leads, Dominated;
    var e := s.pq[r];
    var rest, mrest := Remove(s.pq, r), Remove(mask, r);
    var i0 := if i < r then i else i + 1;
    assert s1.pq[i] == rest[i] == s.pq[i0] && m1[i] == mrest[i] == mask[i0];
    if s.pq[i0].tensor == e.tensor || Dead(p, s, s.pq[i0]) {
      assert Dead(p, s1, s1.pq[i]);
    } else {
      assert Excused(p, s, mask, i0);
      DominatedAfterRemove(s.pq, mask, r, i0);
      DominatedInLonger(rest, mrest, s1.pq, m1, i);
    }
  }

  lemma DominatedInLonger(pq: seq<Entry>, mask: seq<bool>, pq1: seq<Entry>, mask1: seq<bool>, i: nat)
    requires |pq| == |mask| && |pq1| == |mask1| && pq <= pq1 && mask <= mask1
    requires i < |pq| && Dominated(pq, mask, i)
    ensures Dominated(pq1, mask1, i)
  {
    var j :| 0 <= j < i && mask[j] && Dominates(pq[j], pq[i]);
    assert pq1[j] == pq[j] && mask1[j] == mask[j];
  }

  lemma LeadsAfterUpgrade(p: Problem, s: State, mask: seq<bool>, r: nat, s1: State, m1: seq<bool>, t: nat) returns (k: nat)
    requires Sim(p, s, mask) && r < |s.pq| && !Dead(p, s, s.pq[r])
    requires s1 == Upgrade(p, s.(pq := Remove(s.pq, r)), s.pq[r].tensor, false)
    requires |m1| == |s1.pq| && Remove(s.pq, r) <= s1.pq && Remove(mask, r) <= m1
    requires t < |s1.idx| && t != s.pq[r].tensor && s1.idx[t] + 1 < |p.types| && Fits(p, s1, t, s1.idx[t])
    ensures k < |s1.pq| && Leads(p, s1, m1, t, k)
  {
    hide Push, PushOthers, QueueShape, Value;
    assert Fits(p, s, t, s.idx[t]);
    var j :| 0 <= j < |s.pq| && Leads(p, s, mask, t, j);
    assert j != r;
    k := if j < r then j else j - 1;
    assert s1.pq[k] == Remove(s.pq, r)[k] && m1[k] == Remove(mask, r)[k];
    ValueMonotone(s1.err[p.layer[t]], s.err[p.layer[t]], Gain(p, t, s.idx[t]), Cost(p, t, s.idx[t]));
  }

  /** Upgrading the tensor of a popped live entry, before any push of others. */
  lemma SimAfterUpgrade(p: Problem, s: State, mask: seq<bool>, r: nat)
    requires Sim(p, s, mask) && r < |s.pq| && !Dead(p, s, s.pq[r])
    ensures var s1 := Upgrade(p, s.(pq := Remove(s.pq, r)), s.pq[r].tensor, false);
            Sim(p, s1, Remove(mask, r) + (if |s1.pq| == |s.pq| then [true] else []))
  {
    var rest := Remove(s.pq, r);
    var s1 := Upgrade(p, s.(pq := rest), s.pq[r].tensor, false);
    var m1 := Remove(mask, r) + (if |s1.pq| == |s.pq| then [true] else []);
    assert rest <= s1.pq && |m1| == |s1.pq|;
    forall i | 0 <= i < |s1.pq| && !m1[i] ensures Excused(p, s1, m1, i) {
      ExcusedAfterUpgrade(p, s, mask, r, s1, m1, i);
    }
    forall t | 0 <= t < |s1.idx| && s1.idx[t] + 1 < |p.types| && Fits(p, s1, t, s1.idx[t])
      ensures exists j :: 0 <= j < |s1.pq| && Leads(p, s1, m1, t, j)
    {
      if t == s.pq[r].tensor {
        assert Leads(p, s1, m1, t, |rest|);
      } else {
        var k := LeadsAfterUpgrade(p, s, mask, r, s1, m1, t);
      }
    }
  }

  ghost function Repushed(p: Problem, s: State, t: nat, k: nat): (r: State)
    requires Shape(p, s) && t < |p.params| && k <= |p.params|
    ensures Shape(p, r)
  {
    s.(pq := PushOthers(p, s.err, s.idx, s.pq, t, k))
  }

  lemma RepushedNext(p: Problem, s: State, t: nat, k: nat) returns (next: State)
    requires Shape(p, s) && t < |p.params| && k < |p.params|
    ensures Shape(p, next) && Repushed(p, s, t, k) == Repushed(p, next, t, k + 1)
    ensures next == s ||
            (s.idx[k] + 1 < |p.types| && next == s.(pq := s.pq + [Entry(CurrentValue(p, s, k), k, s.idx[k])]))
  {
    next := if p.layer[k] == p.layer[t] && k != t then s.(pq := Push(p, s.err, s.pq, k, s.idx[k])) else s;
  }

  lemma NothingRepushed(p: Problem, s: State, t: nat)
    requires Shape(p, s) && t < |p.params|
    ensures Repushed(p, s, t, |p.params|) == s
  {
  }

  /** Pushing again what is already queued or no longer fits adds only unmarked entries. */
  lemma {:induction false} SimAfterPushOthers(p: Problem, s: State, mask: seq<bool>, t: nat, k: nat) returns (m: seq<bool>)
    requires Sim(p, s, mask) && t < |p.params| && k <= |p.params|
    ensures Sim(p, Repushed(p, s, t, k), m) && Select(Repushed(p, s, t, k).pq, m) == Select(s.pq, mask)
    decreases |p.params| - k
  {
    hide Select, PushOthers, CurrentValue, Excused, Leads;
    if k == |p.params| {
      NothingRepushed(p, s, t);
      m := mask;
    } else {
      var next := RepushedNext(p, s, t, k);
      if next == s {
        m := SimAfterPushOthers(p, next, mask, t, k + 1);
      } else {
        SimAfterOnePush(p, s, mask, next, k);
        m := SimAfterPushOthers(p, next, mask + [false], t, k + 1);
      }
    }
  }

  lemma SimAfterOnePush(p: Problem, s: State, mask: seq<bool>, next: State, k: nat)
    requires Sim(p, s, mask) && k < |s.idx| && s.idx[k] + 1 < |p.types|
    requires next == s.(pq := s.pq + [Entry(CurrentValue(p, s, k), k, s.idx[k])])
    ensures Sim(p, next, mask + [false])
    ensures Select(next.pq, mask + [false]) == Select(s.pq, mask)
  {
    hide Select, Value, Gain;
    SelectConcat(s.pq, mask, next.pq[|s.pq|..], [false]);
    SelectOne(next.pq[|s.pq|], false);
    assert next.pq[|s.pq|..] == [next.pq[|s.pq|]];
    var m := mask + [false];
    var n := |s.pq|;
    forall i | 0 <= i < |next.pq| && !m[i] ensures Excused(p, next, m, i) {
      if i < n {
        assert Excused(p, s, mask, i);
        if !Dead(p, s, s.pq[i]) {
          DominatedInLonger(s.pq, mask, next.pq, m, i);
        }
      } else if Fits(p, s, k, s.idx[k]) {
        var j :| 0 <= j < n && Leads(p, s, mask, k, j);
        assert next.pq[j] == s.pq[j] && m[j];
        assert Dominates(next.pq[j], next.pq[i]);
      }
    }
    forall t | 0 <= t < |s.idx| && s.idx[t] + 1 < |p.types| && Fits(p, s, t, s.idx[t])
      ensures exists j :: 0 <= j < |next.pq| && Leads(p, next, m, t, j)
    {
      var j :| 0 <= j < n && Leads(p, s, mask, t, j);
      assert next.pq[j] == s.pq[j];
      assert Leads(p, next, m, t, j);
    }
  }

  /** The outcome of a run, without the queue. */
  ghost predicate SameOutcome(a: State, b: State) {
    a.idx == b.idx && a.bits == b.bits && a.err == b.err
  }

  /** The same state with only the marked entries queued. */
  ghost function Lean(p: Problem, s: State, mask: seq<bool>): (lean: State)
    requires Shape(p, s) && |mask| == |s.pq|
    ensures Shape(p, lean)
  {
    var sel := Select(s.pq, mask);
    assert forall i :: 0 <= i < |sel| ==> sel[i] in s.pq;
    s.(pq := sel)
  }

  /** The lean queue pops what the full queue pops, when that entry is marked. */
  lemma LeanPops(p: Problem, s: State, mask: seq<bool>)
    requires Shape(p, s) && |mask| == |s.pq| > 0 && mask[Best(s.pq)]
    ensures var lean := Lean(p, s, mask);
            var r := Best(s.pq);
            && |lean.pq| > 0
            && lean.pq[Best(lean.pq)] == s.pq[r]
            && Remove(lean.pq, Best(lean.pq)) == Select(Remove(s.pq, r), Remove(mask, r))
  {
    var k := SelectBest(s.pq, mask, Best(s.pq));
    BestIs(Select(s.pq, mask), k);
  }

  lemma StepDead(p: Problem, s: State, repush: bool)
    requires Shape(p, s) && |s.pq| > 0 && Dead(p, s, s.pq[Best(s.pq)])
    ensures Step(p, s, repush) == s.(pq := Remove(s.pq, Best(s.pq)))
  {}

  lemma StepLive(p: Problem, s: State, repush: bool)
    requires Shape(p, s) && |s.pq| > 0 && !Dead(p, s, s.pq[Best(s.pq)])
    ensures Step(p, s, repush) == Upgrade(p, s.(pq := Remove(s.pq, Best(s.pq))), s.pq[Best(s.pq)].tensor, repush)
  {}

  lemma UpgradeRepush(p: Problem, s: State, t: nat)
    requires Shape(p, s) && t < |s.idx| && s.idx[t] + 1 < |p.types|
    ensures var u := Upgrade(p, s, t, false);
            Upgrade(p, s, t, true) == u.(pq := PushOthers(p, u.err, u.idx, u.pq, t, 0))
  {}

  /** An upgrade without re-push appends one entry at most, the same whatever is queued. */
  lemma UpgradeAppends(p: Problem, s: State, t: nat, pq: seq<Entry>)
    requires Shape(p, s) && t < |s.idx| && s.idx[t] + 1 < |p.types| && QueueShape(p, pq)
    ensures var u := Upgrade(p, s, t, false);
            && s.pq <= u.pq && |u.pq| <= |s.pq| + 1
            && Upgrade(p, s.(pq := pq), t, false) == u.(pq := pq + u.pq[|s.pq|..])
  {
    var u := Upgrade(p, s, t, false);
    var v := Upgrade(p, s.(pq := pq), t, false);
    assert v.pq == pq + u.pq[|s.pq|..];
  }

  /** Dropping a dead entry from the full queue drops it from the lean one, if it is there. */
  lemma LeanDrop(p: Problem, s: State, mask: seq<bool>)
    requires Shape(p, s) && |mask| == |s.pq| > 0 && Dead(p, s, s.pq[Best(s.pq)])
    ensures var r := Best(s.pq);
            var lean := Lean(p, s, mask);
            var next := Lean(p, s.(pq := Remove(s.pq, r)), Remove(mask, r));
            if mask[r] then |lean.pq| > 0 && next == Step(p, lean, false) else next == lean
  {
    hide Select, Remove, Step, Best, Shape;
    var r := Best(s.pq);
    if mask[r] {
      LeanPops(p, s, mask);
      StepDead(p, Lean(p, s, mask), false);
    } else {
      SelectAround(s.pq, mask, r);
    }
  }

  lemma LeanUpgrade(p: Problem, s: State, mask: seq<bool>) returns (m: seq<bool>)
    requires Sim(p, s, mask) && |s.pq| > 0 && !Dead(p, s, s.pq[Best(s.pq)])
    ensures Sim(p, Step(p, s, true), m)
    ensures |Lean(p, s, mask).pq| > 0
    ensures Lean(p, Step(p, s, true), m) == Step(p, Lean(p, s, mask), false)
  {
    hide Push, PushOthers, Step, Value, Gain, Best, Select, Upgrade, Dead, QueueShape;
    var r := Best(s.pq);
    LivePopIsMarked(p, s, mask);
    LeanPops(p, s, mask);
    SimAfterUpgrade(p, s, mask, r);
    var t := s.pq[r].tensor;
    var rest := s.(pq := Remove(s.pq, r));
    RestIsReady(p, s);
    StepLive(p, s, true);
    UpgradeRepush(p, rest, t);
    var u := Upgrade(p, rest, t, false);
    var flags := if |u.pq| == |s.pq| then [true] else [];
    m := SimAfterPushOthers(p, u, Remove(mask, r) + flags, t, 0);
    LeanStep(p, s, mask, u, flags);
  }

  /** What remains queued after a live pop, and the tensor to be upgraded. */
  lemma RestIsReady(p: Problem, s: State)
    requires Shape(p, s) && |s.pq| > 0 && !Dead(p, s, s.pq[Best(s.pq)])
    ensures var r := Best(s.pq); var rest, t := s.(pq := Remove(s.pq, r)), s.pq[r].tensor;
            Shape(p, rest) && t < |rest.idx| && rest.idx[t] + 1 < |p.types|
  {
    hide Best;
  }

  /** An entry that upgrades a tensor is one of the lean queue: no unmarked one is popped before it. */
  lemma LivePopIsMarked(p: Problem, s: State, mask: seq<bool>)
    requires Sim(p, s, mask) && |s.pq| > 0 && !Dead(p, s, s.pq[Best(s.pq)])
    ensures mask[Best(s.pq)]
  {
    var r := Best(s.pq);
    assert mask[r] || Excused(p, s, mask, r);
  }

  /** The lean queue after the same pop and upgrade, before anything is pushed again. */
  lemma LeanStep(p: Problem, s: State, mask: seq<bool>, u: State, flags: seq<bool>)
    requires Shape(p, s) && |mask| == |s.pq| > 0 && mask[Best(s.pq)] && !Dead(p, s, s.pq[Best(s.pq)])
    requires var r := Best(s.pq); var rest, t := s.(pq := Remove(s.pq, r)), s.pq[r].tensor;
             Shape(p, rest) && rest.idx[t] + 1 < |p.types| && u == Upgrade(p, rest, t, false)
    requires flags == if |u.pq| == |s.pq| then [true] else []
    ensures var r := Best(s.pq); |u.pq| == |Remove(mask, r) + flags|
    ensures |Lean(p, s, mask).pq| > 0
    ensures Step(p, Lean(p, s, mask), false) == u.(pq := Select(u.pq, Remove(mask, Best(s.pq)) + flags))
  {
    hide Push, PushOthers, Step, Value, Gain, Best, Select, Upgrade, QueueShape;
    var r := Best(s.pq);
    LeanPops(p, s, mask);
    var lean := Lean(p, s, mask);
    var t := s.pq[r].tensor;
    var rest, mrest := s.(pq := Remove(s.pq, r)), Remove(mask, r);
    StepLive(p, lean, false);
    RestIsReady(p, lean);
    var lrest := lean.(pq := Remove(lean.pq, Best(lean.pq)));
    UpgradeAppends(p, rest, t, lrest.pq);
    LeanPush(u.pq, rest.pq, mrest, flags);
    assert rest.(pq := lrest.pq) == lrest;
  }

  lemma LeanPush(pq: seq<Entry>, rest: seq<Entry>, mask: seq<bool>, added: seq<bool>)
    requires |rest| == |mask| && rest <= pq && |pq| == |rest| + |added|
    requires added == [] || added == [true]
    ensures Select(pq, mask + added) == Select(rest, mask) + pq[|rest|..]
  {
    if added == [] {
      assert pq == rest && mask + added == mask;
    } else {
      var n := |rest|;
      assert pq[..n] == rest && (mask + added)[..n] == mask;
    }
  }

  /** The loop with re-pushes ends where the loop without them ends. */
  lemma {:induction false} RepushSimulation(p: Problem, s: State, mask: seq<bool>)
    requires Sim(p, s, mask)
    ensures SameOutcome(Run(p, s, true), Run(p, Lean(p, s, mask), false))
    decreases Slack(p, s.idx), |s.pq|
  {
    if s.pq != [] {
      var r := Best(s.pq);
      StepShrinks(p, s, true);
      if Dead(p, s, s.pq[r]) {
        SimAfterDrop(p, s, mask, r);
        StepDead(p, s, true);
        LeanDrop(p, s, mask);
        RepushSimulation(p, Step(p, s, true), Remove(mask, r));
      } else {
        var m := LeanUpgrade(p, s, mask);
        RepushSimulation(p, Step(p, s, true), m);
      }
    }
  }

  // ---------- From the start of a run ----------

  lemma {:induction false} SelectAll(pq: seq<Entry>, mask: seq<bool>)
    requires |pq| == |mask| && forall i :: 0 <= i < |mask| ==> mask[i]
    ensures Select(pq, mask) == pq
  {
    if pq != [] {
      SelectAll(pq[..|pq| - 1], mask[..|pq| - 1]);
    }
  }

  /** The initial queue holds each tensor's first upgrade, at its current value. */
  ghost predicate FirstEntries(p: Problem, err: map<int, real>, pq: seq<Entry>)
    requires p.Valid() && QueueShape(p, pq)
    requires forall t :: 0 <= t < |p.layer| ==> p.layer[t] in err
  {
    forall i :: 0 <= i < |pq| ==>
      pq[i].from == 0 && pq[i].value == Value(err[p.layer[pq[i].tensor]], Gain(p, pq[i].tensor, 0), Cost(p, pq[i].tensor, 0))
  }

  lemma {:induction false} PushAllFirst(p: Problem, err: map<int, real>, pq: seq<Entry>, k: nat)
    requires p.Valid() && k <= |p.params| && QueueShape(p, pq)
    requires forall t :: 0 <= t < |p.layer| ==> p.layer[t] in err
    requires FirstEntries(p, err, pq)
    ensures FirstEntries(p, err, PushAll(p, err, pq, k))
    decreases |p.params| - k
  {
    if k < |p.params| {
      PushAllFirst(p, err, Push(p, err, pq, k, 0), k + 1);
    }
  }

  lemma StartSim(p: Problem)
    requires p.Valid()
    ensures Sim(p, Start(p), seq(|Start(p).pq|, _ => true))
  {
    var s := Start(p);
    var mask := seq(|s.pq|, _ => true);
    PushAllFirst(p, BaseErr(p), [], 0);
    if |p.types| > 1 {
      PushAllQueues(p, BaseErr(p), [], 0);
    }
    forall t | 0 <= t < |s.idx| && s.idx[t] + 1 < |p.types| && Fits(p, s, t, s.idx[t])
      ensures exists j :: 0 <= j < |s.pq| && Leads(p, s, mask, t, j)
    {
      assert Queued(s.pq, t, 0);
      var j :| 0 <= j < |s.pq| && s.pq[j].tensor == t && s.pq[j].from == 0;
      assert Leads(p, s, mask, t, j);
    }
  }

  /** The re-push loop has no effect: on every problem the allocator returns what it
      would return had it only ever pushed the next upgrade of the tensor it just upgraded. */
  lemma RepushHasNoEffect(p: Problem)
    requires p.Valid()
    ensures SameOutcome(Run(p, Start(p), true), Run(p, Start(p), false))
  {
    var s := Start(p);
    var mask := seq(|s.pq|, _ => true);
    StartSim(p);
    SelectAll(s.pq, mask);
    RepushSimulation(p, s, mask);
  }
}
