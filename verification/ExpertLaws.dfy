/** Expert gathering loses nothing and does not depend on the order of arrival. */
module ExpertLaws {
  import opened Experts

  ghost predicate DistinctNames<T>(es: seq<Event<T>>) {
    forall i, j :: 0 <= i < j < |es| ==> es[i].name != es[j].name
  }

  /** All tensors by name. */
  ghost function Table<T>(es: seq<Event<T>>): (m: map<Name, T>)
    ensures forall name :: name in m <==> exists i :: 0 <= i < |es| && es[i].name == name
  {
    if es == [] then map[]
    else
      var n := |es| - 1;
      assert forall i :: 0 <= i < n ==> es[..n][i] == es[i];
      Table(es[..n])[es[n].name := es[n].tensor]
  }

  /** The names seen so far for one block. */
  ghost function Names<T>(m: map<Name, T>, b: nat): set<Name> {
    set name | name in m && name.layer == b
  }

  /** The three names of one expert. */
  ghost function OfExpert(b: nat, x: nat): set<Name> {
    {Expert(b, x, W1), Expert(b, x, W2), Expert(b, x, W3)}
  }

  lemma ExpectedGrows(n: nat, b: nat)
    ensures Expected(n + 1, b) == Expected(n, b) + OfExpert(b, n) && Expected(n, b) !! OfExpert(b, n)
  {
    forall name | name in Expected(n + 1, b) ensures name in Expected(n, b) + OfExpert(b, n) {
      if name.xid == n {
        match name.weight
        case W1 =>
        case W2 =>
        case W3 =>
      } else {
        assert name == Expert(b, name.xid, name.weight);
      }
    }
  }

  lemma {:induction false} ExpectedSize(n: nat, b: nat)
    ensures |Expected(n, b)| == 3 * n
  {
    if n == 0 {
      assert Expected(0, b) == {};
    } else {
      hide *;
      ExpectedSize(n - 1, b);
      ExpectedGrows(n - 1, b);
      ThreeOfExpert(b, n - 1);
    }
  }

  lemma ThreeOfExpert(b: nat, x: nat)
    ensures |OfExpert(b, x)| == 3
  {
  }

  ghost predicate Grouped<T>(groups: seq<Group<T>>, b: nat) {
    exists i :: 0 <= i < |groups| && groups[i].layer == b
  }

  /** One block between calls: all it received is waiting, or it was stacked once and only
      what does not belong to it is waiting; fewer than three tensors per expert wait. */
  ghost predicate BlockOk<T>(n: nat, m: map<Name, T>, pending: map<Name, T>, grouped: bool, b: nat) {
    && |pending| < 3 * n
    && (forall name :: name in pending ==> name in m && pending[name] == m[name])
    && (if grouped then Expected(n, b) <= m.Keys && pending.Keys == Names(m, b) - Expected(n, b) else pending.Keys == Names(m, b))
  }

  /** What every state of a run that has not failed keeps. */
  ghost predicate Inv<T>(n: nat, blocks: nat, m: map<Name, T>, p: Progress<T>) {
    && p.Going?
    && |p.pending| == blocks
    && (forall name :: name in m ==> name.layer < blocks)
    && (forall b :: 0 <= b < blocks ==> BlockOk(n, m, p.pending[b], Grouped(p.groups, b), b))
    && (forall i :: 0 <= i < |p.groups| ==> GroupOk(n, m, p.groups[i]))
    && (forall i, j :: 0 <= i < j < |p.groups| ==> p.groups[i].layer != p.groups[j].layer)
  }

  /** A group holds exactly its block's tensors, in expert order. */
  ghost predicate GroupOk<T>(n: nat, m: map<Name, T>, g: Group<T>) {
    Expected(n, g.layer) <= m.Keys && g == GroupOf(n, g.layer, m)
  }

  lemma GroupOfGrows<T>(n: nat, b: nat, m: map<Name, T>, m1: map<Name, T>)
    requires Expected(n, b) <= m.Keys <= m1.Keys && forall name :: name in Expected(n, b) ==> m1[name] == m[name]
    ensures GroupOf(n, b, m1) == GroupOf(n, b, m)
  {
    forall w: Weight ensures Stack(n, b, w, m1) == Stack(n, b, w, m) {
      forall x | 0 <= x < n ensures m1[Expert(b, x, w)] == m[Expert(b, x, w)] {
        assert Expert(b, x, w) in Expected(n, b);
      }
    }
  }

  lemma NamesAdd<T>(m: map<Name, T>, name: Name, t: T, b: nat)
    ensures Names(m[name := t], b) == Names(m, b) + (if name.layer == b then {name} else {})
  {}

  /** Another block is not touched. */
  lemma OtherBlock<T>(n: nat, m: map<Name, T>, pending: map<Name, T>, grouped: bool, c: nat, e: Event<T>)
    requires BlockOk(n, m, pending, grouped, c) && e.name !in m && e.name.layer != c
    ensures BlockOk(n, m[e.name := e.tensor], pending, grouped, c)
  {
    NamesAdd(m, e.name, e.tensor, c);
  }

  /** A block that has one more tensor waiting. */
  lemma HoldBlock<T>(n: nat, m: map<Name, T>, pending: map<Name, T>, grouped: bool, e: Event<T>)
    requires BlockOk(n, m, pending, grouped, e.name.layer) && e.name !in m
    requires |pending[e.name := e.tensor]| < 3 * n
    ensures BlockOk(n, m[e.name := e.tensor], pending[e.name := e.tensor], grouped, e.name.layer)
  {
    NamesAdd(m, e.name, e.tensor, e.name.layer);
  }

  /** A block whose last tensor arrived: it was not stacked before, and all its tensors leave. */
  lemma StackBlock<T>(n: nat, m: map<Name, T>, pending: map<Name, T>, grouped: bool, e: Event<T>)
    requires n > 0 && BlockOk(n, m, pending, grouped, e.name.layer) && e.name !in m
    requires Expected(n, e.name.layer) <= pending[e.name := e.tensor].Keys
    ensures !grouped
    ensures var b, m1, waiting := e.name.layer, m[e.name := e.tensor], pending[e.name := e.tensor];
            && BlockOk(n, m1, waiting - Expected(n, b), true, b)
            && Expected(n, b) <= m1.Keys
            && GroupOf(n, b, waiting) == GroupOf(n, b, m1)
  {
    var b, m1, waiting := e.name.layer, m[e.name := e.tensor], pending[e.name := e.tensor];
    NamesAdd(m, e.name, e.tensor, b);
    var first := Expert(b, 0, W1);
    assert first in Expected(n, b);
    assert !grouped;
    assert waiting.Keys == Names(m1, b);
    GroupOfGrows(n, b, waiting, m1);
    var left := waiting - Expected(n, b);
    assert left.Keys == waiting.Keys - Expected(n, b);
    assert left.Keys < waiting.Keys;
    SmallerSet(left.Keys, waiting.Keys);
    assert |waiting.Keys| <= |pending.Keys| + 1 by { assert waiting.Keys == pending.Keys + {e.name}; }
  }

  lemma {:induction false} SmallerSet(a: set<Name>, b: set<Name>)
    requires a < b
    ensures |a| < |b|
  {
    var rest := b - a;
    assert b == a + rest && rest != {};
    assert |b| == |a| + |rest|;
  }

  lemma GroupedNext<T>(g: seq<Group<T>>, h: seq<Group<T>>, c: nat)
    requires g <= h && |h| <= |g| + 1
    ensures Grouped(h, c) <==> Grouped(g, c) || (|h| > |g| && h[|g|].layer == c)
  {
    if Grouped(g, c) {
      var i :| 0 <= i < |g| && g[i].layer == c;
      assert h[i].layer == c;
    }
  }

  lemma OldGroups<T>(n: nat, m: map<Name, T>, e: Event<T>, g: Group<T>)
    requires GroupOk(n, m, g) && e.name !in m
    ensures GroupOk(n, m[e.name := e.tensor], g)
  {
    GroupOfGrows(n, g.layer, m, m[e.name := e.tensor]);
  }

  /** A call that only stores the tensor. */
  lemma HoldKeeps<T>(n: nat, blocks: nat, m: map<Name, T>, p: Progress<T>, e: Event<T>)
    requires n > 0 && Inv(n, blocks, m, p) && e.name !in m && e.name.layer < blocks
    requires |p.pending[e.name.layer][e.name := e.tensor]| < 3 * n
    ensures Inv(n, blocks, m[e.name := e.tensor], Step(n, p, e))
  {
    var b, m1, q := e.name.layer, m[e.name := e.tensor], Step(n, p, e);
    HoldBlock(n, m, p.pending[b], Grouped(p.groups, b), e);
    hide BlockOk, GroupOk, Grouped;
    forall c | 0 <= c < blocks ensures BlockOk(n, m1, q.pending[c], Grouped(q.groups, c), c) {
      if c != b {
        OtherBlock(n, m, p.pending[c], Grouped(p.groups, c), c, e);
      }
    }
    forall i | 0 <= i < |q.groups| ensures GroupOk(n, m1, q.groups[i]) {
      OldGroups(n, m, e, p.groups[i]);
    }
  }

  /** A call that completes and stacks a block. */
  lemma StackKeeps<T>(n: nat, blocks: nat, m: map<Name, T>, p: Progress<T>, e: Event<T>)
    requires n > 0 && Inv(n, blocks, m, p) && e.name !in m && e.name.layer < blocks
    requires |p.pending[e.name.layer][e.name := e.tensor]| >= 3 * n
    requires Expected(n, e.name.layer) <= p.pending[e.name.layer][e.name := e.tensor].Keys
    ensures Inv(n, blocks, m[e.name := e.tensor], Step(n, p, e))
  {
    var b, m1, q := e.name.layer, m[e.name := e.tensor], Step(n, p, e);
    StackBlock(n, m, p.pending[b], Grouped(p.groups, b), e);
    assert forall i :: 0 <= i < |p.groups| ==> p.groups[i].layer != b;
    assert GroupOk(n, m1, q.groups[|p.groups|]);
    hide BlockOk, GroupOk, Grouped;
    forall c | 0 <= c < blocks ensures BlockOk(n, m1, q.pending[c], Grouped(q.groups, c), c) {
      GroupedNext(p.groups, q.groups, c);
      if c != b {
        OtherBlock(n, m, p.pending[c], Grouped(p.groups, c), c, e);
      }
    }
    forall i | 0 <= i < |q.groups| ensures GroupOk(n, m1, q.groups[i]) {
      if i < |p.groups| {
        OldGroups(n, m, e, p.groups[i]);
      }
    }
  }

  /** Every call keeps the invariant or fails. */
  lemma StepKeeps<T>(n: nat, blocks: nat, m: map<Name, T>, p: Progress<T>, e: Event<T>)
    requires n > 0 && Inv(n, blocks, m, p) && e.name !in m && Step(n, p, e).Going?
    ensures Inv(n, blocks, m[e.name := e.tensor], Step(n, p, e))
  {
    if |p.pending[e.name.layer][e.name := e.tensor]| < 3 * n {
      HoldKeeps(n, blocks, m, p, e);
    } else {
      StackKeeps(n, blocks, m, p, e);
    }
  }

  lemma FreshName<T>(es: seq<Event<T>>)
    requires es != [] && DistinctNames(es)
    ensures var k := |es| - 1; DistinctNames(es[..k]) && es[k].name !in Table(es[..k])
  {
    var k := |es| - 1;
    assert forall i :: 0 <= i < k ==> es[..k][i] == es[i];
  }

  /** Safety of every run: as long as no call has failed, each block waits with fewer than
      three tensors per expert and has been stacked at most once, correctly. */
  lemma {:induction false} RunKeeps<T>(n: nat, blocks: nat, es: seq<Event<T>>)
    requires n > 0 && DistinctNames(es) && Run(n, blocks, es).Going?
    ensures Inv(n, blocks, Table(es), Run(n, blocks, es))
  {
    if es == [] {
      assert forall b :: 0 <= b < blocks ==> Names<T>(map[], b) == {};
    } else {
      var k := |es| - 1;
      FreshName(es);
      RunKeeps(n, blocks, es[..k]);
      StepKeeps(n, blocks, Table(es[..k]), Run(n, blocks, es[..k]), es[k]);
    }
  }

  // ---------- When a conversion succeeds ----------

  /** Every block got no expert tensor at all or exactly the expected ones. */
  ghost predicate Whole<T>(n: nat, blocks: nat, m: map<Name, T>) {
    && (forall name :: name in m ==> name.layer < blocks)
    && (forall b :: 0 <= b < blocks ==> Names(m, b) == {} || Names(m, b) == Expected(n, b))
  }

  /** A part of a whole collection: nothing in it is out of place. */
  ghost predicate Within<T>(n: nat, blocks: nat, m: map<Name, T>) {
    forall name :: name in m ==> name.layer < blocks && name in Expected(n, name.layer)
  }

  lemma StepWithin<T>(n: nat, blocks: nat, m: map<Name, T>, p: Progress<T>, e: Event<T>)
    requires n > 0 && Inv(n, blocks, m, p) && e.name !in m && Within(n, blocks, m[e.name := e.tensor])
    ensures Step(n, p, e).Going?
  {
    var b, m1 := e.name.layer, m[e.name := e.tensor];
    var waiting := p.pending[b][e.name := e.tensor];
    assert e.name in m1;
    assert BlockOk(n, m, p.pending[b], Grouped(p.groups, b), b);
    if |waiting| >= 3 * n {
      assert !Grouped(p.groups, b);
      assert waiting.Keys <= Expected(n, b) by {
        forall name | name in waiting ensures name in Expected(n, b) {
          assert name in m1;
        }
      }
      ExpectedSize(n, b);
      SameSize(waiting.Keys, Expected(n, b));
    }
  }

  lemma SameSize(a: set<Name>, b: set<Name>)
    requires a <= b && |a| >= |b|
    ensures a == b
  {
    if a != b {
      SmallerSet(a, b);
    }
  }

  lemma {:induction false} RunWithin<T>(n: nat, blocks: nat, es: seq<Event<T>>)
    requires n > 0 && DistinctNames(es) && Within(n, blocks, Table(es))
    ensures Run(n, blocks, es).Going?
  {
    if es != [] {
      var k := |es| - 1;
      FreshName(es);
      assert Within(n, blocks, Table(es[..k])) by {
        assert forall name :: name in Table(es[..k]) ==> name in Table(es);
      }
      RunWithin(n, blocks, es[..k]);
      RunKeeps(n, blocks, es[..k]);
      StepWithin(n, blocks, Table(es[..k]), Run(n, blocks, es[..k]), es[k]);
    }
  }

  /** The groups a whole collection must give, one per block that received anything. */
  ghost predicate Stacked<T>(n: nat, m: map<Name, T>, groups: seq<Group<T>>) {
    && (forall i, j :: 0 <= i < j < |groups| ==> groups[i].layer != groups[j].layer)
    && (forall i :: 0 <= i < |groups| ==> GroupOk(n, m, groups[i]))
    && (forall name :: name in m ==> Grouped(groups, name.layer) && name in Expected(n, name.layer))
  }

  /** Whatever the order of arrival, the conversion succeeds if and only if every block got
      nothing or exactly its expected tensors; then every tensor that arrived was written
      exactly once, in the stack of its block and weight, at its expert's place. */
  lemma GatheringIsExact<T>(n: nat, blocks: nat, es: seq<Event<T>>)
    requires n > 0 && DistinctNames(es)
    ensures var r := Finish(Run(n, blocks, es));
            && (r.Some? <==> Whole(n, blocks, Table(es)))
            && (r.Some? ==> Stacked(n, Table(es), r.value))
  {
    var m, p := Table(es), Run(n, blocks, es);
    if p.Going? {
      RunKeeps(n, blocks, es);
      if Finish(p).Some? {
        FinishedIsWhole(n, blocks, m, p);
      }
    }
    if Whole(n, blocks, m) {
      WholeIsWithin(n, blocks, m);
      RunWithin(n, blocks, es);
      RunKeeps(n, blocks, es);
      WholeFinishes(n, blocks, m, p);
    }
  }

  lemma WholeIsWithin<T>(n: nat, blocks: nat, m: map<Name, T>)
    requires Whole(n, blocks, m)
    ensures Within(n, blocks, m)
  {
    forall name | name in m ensures name.layer < blocks && name in Expected(n, name.layer) {
      assert name in Names(m, name.layer);
    }
  }

  lemma FinishedIsWhole<T>(n: nat, blocks: nat, m: map<Name, T>, p: Progress<T>)
    requires n > 0 && Inv(n, blocks, m, p) && Finish(p).Some?
    ensures Whole(n, blocks, m) && Stacked(n, m, p.groups)
  {
    forall b | 0 <= b < blocks
      ensures Names(m, b) == {} || Names(m, b) == Expected(n, b)
      ensures Names(m, b) == {} || Grouped(p.groups, b)
    {
      assert BlockOk(n, m, p.pending[b], Grouped(p.groups, b), b);
      assert p.pending[b].Keys == {};
      if Grouped(p.groups, b) {
        forall name | name in Expected(n, b) ensures name in Names(m, b) {
          assert name in m;
        }
      }
    }
    forall name | name in m ensures Grouped(p.groups, name.layer) && name in Expected(n, name.layer) {
      assert name in Names(m, name.layer);
    }
  }

  lemma WholeFinishes<T>(n: nat, blocks: nat, m: map<Name, T>, p: Progress<T>)
    requires n > 0 && Inv(n, blocks, m, p) && Whole(n, blocks, m)
    ensures Finish(p).Some?
  {
    forall b | 0 <= b < blocks ensures |p.pending[b]| == 0 {
      assert BlockOk(n, m, p.pending[b], Grouped(p.groups, b), b);
      ExpectedSize(n, b);
      assert p.pending[b].Keys == {};
    }
  }

  lemma {:induction false} TableValue<T>(es: seq<Event<T>>, i: nat)
    requires DistinctNames(es) && i < |es|
    ensures es[i].name in Table(es) && Table(es)[es[i].name] == es[i].tensor
  {
    var k := |es| - 1;
    if i < k {
      assert es[..k][i] == es[i];
      TableValue(es[..k], i);
    }
  }

  lemma TableWithin<T>(es: seq<Event<T>>, fs: seq<Event<T>>)
    requires DistinctNames(es) && DistinctNames(fs) && multiset(es) == multiset(fs)
    ensures forall name :: name in Table(es) ==> name in Table(fs) && Table(fs)[name] == Table(es)[name]
  {
    forall name | name in Table(es) ensures name in Table(fs) && Table(fs)[name] == Table(es)[name] {
      var i :| 0 <= i < |es| && es[i].name == name;
      assert es[i] in multiset(fs);
      var j :| 0 <= j < |fs| && fs[j] == es[i];
      TableValue(es, i);
      TableValue(fs, j);
    }
  }

  /** Two arrivals of the same tensors in different orders succeed or fail together, and
      write the same stacks. */
  lemma OrderDoesNotMatter<T>(n: nat, blocks: nat, es: seq<Event<T>>, fs: seq<Event<T>>)
    requires n > 0 && DistinctNames(es) && DistinctNames(fs) && multiset(es) == multiset(fs)
    ensures var r, s := Finish(Run(n, blocks, es)), Finish(Run(n, blocks, fs));
            && (r.Some? <==> s.Some?)
            && (r.Some? ==> forall g :: g in r.value <==> g in s.value)
  {
    TableWithin(es, fs);
    TableWithin(fs, es);
    assert Table(es) == Table(fs);
    GatheringIsExact(n, blocks, es);
    GatheringIsExact(n, blocks, fs);
    var r, s := Finish(Run(n, blocks, es)), Finish(Run(n, blocks, fs));
    if r.Some? {
      SameGroups(n, Table(es), r.value, s.value);
      SameGroups(n, Table(es), s.value, r.value);
    }
  }

  lemma SameGroups<T>(n: nat, m: map<Name, T>, gs: seq<Group<T>>, hs: seq<Group<T>>)
    requires n > 0 && Stacked(n, m, gs) && Stacked(n, m, hs)
    ensures forall g :: g in gs ==> g in hs
  {
    forall g | g in gs ensures g in hs {
      assert GroupOk(n, m, g);
      var first := Expert(g.layer, 0, W1);
      assert first in Expected(n, g.layer) && first in m;
      assert Grouped(hs, g.layer);
      var j :| 0 <= j < |hs| && hs[j].layer == g.layer;
      assert GroupOk(n, m, hs[j]);
    }
  }

  /** The tensor that arrived as this expert and weight of a block. */
  ghost predicate Arrived<T>(es: seq<Event<T>>, b: nat, x: nat, w: Weight, tensor: T) {
    exists i :: 0 <= i < |es| && es[i] == Event(Expert(b, x, w), tensor)
  }

  /** Every stack written holds, in expert order, the tensors that arrived under their names. */
  lemma StacksHoldArrivals<T>(n: nat, blocks: nat, es: seq<Event<T>>, g: Group<T>, x: nat)
    requires n > 0 && DistinctNames(es) && x < n
    requires Finish(Run(n, blocks, es)).Some? && g in Finish(Run(n, blocks, es)).value
    ensures |g.w1| == |g.w2| == |g.w3| == n
    ensures Arrived(es, g.layer, x, W1, g.w1[x]) && Arrived(es, g.layer, x, W2, g.w2[x]) && Arrived(es, g.layer, x, W3, g.w3[x])
  {
    hide Run, Finish, Table;
    GatheringIsExact(n, blocks, es);
    assert GroupOk(n, Table(es), g);
    TensorArrived(es, g.layer, x, W1);
    TensorArrived(es, g.layer, x, W2);
    TensorArrived(es, g.layer, x, W3);
  }

  lemma TensorArrived<T>(es: seq<Event<T>>, b: nat, x: nat, w: Weight)
    requires DistinctNames(es) && Expert(b, x, w) in Table(es)
    ensures Arrived(es, b, x, w, Table(es)[Expert(b, x, w)])
  {
    var i :| 0 <= i < |es| && es[i].name == Expert(b, x, w);
    TableValue(es, i);
    assert es[i] == Event(Expert(b, x, w), Table(es)[Expert(b, x, w)]);
  }

  /** A tensor of a name that is still waiting takes the place of the one that waits. */
  lemma WaitingIsReplaced<T>(n: nat, p: Progress<T>, e: Event<T>)
    requires p.Going? && e.name.layer < |p.pending|
    ensures var b := e.name.layer;
            Step(n, p, e) == Step(n, p.(pending := p.pending[b := p.pending[b] - {e.name}]), e)
  {
    hide Expected;
    var b := e.name.layer;
    var m, without := p.pending[b], p.pending[b] - {e.name};
    ReplacedEntry(m, e.name, e.tensor);
    var q := p.(pending := p.pending[b := without]);
    var now := m[e.name := e.tensor];
    assert q.pending[b := now] == p.pending[b := now];
    assert q.pending[b := now - Expected(n, b)] == p.pending[b := now - Expected(n, b)];
  }

  lemma ReplacedEntry<T>(m: map<Name, T>, name: Name, tensor: T)
    ensures (m - {name})[name := tensor] == m[name := tensor]
  {
  }
}
