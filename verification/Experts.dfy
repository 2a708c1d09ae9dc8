/**
  Expert gathering in `LlamaModel.modify_tensors` and `prepare_tensors` of
  convert_hf_to_gguf.py: expert tensors arrive in any order, wait in one dictionary per
  block, and are stacked when a block holds three per expert. Tensor names are abstract:
  `Expert` is the one name built for a block, an expert and a weight, `Other` is any other
  name routed to the same dictionary. Tensors are values of any type.
 */
module Experts {
  import opened Basics

  datatype Weight = W1 | W2 | W3

  datatype Name = Expert(layer: nat, xid: nat, weight: Weight) | Other(layer: nat, id: nat)

  datatype Event<T> = Event(name: Name, tensor: T)

  /** The three stacked tensors of one block, each in expert order. */
  datatype Group<T> = Group(layer: nat, w1: seq<T>, w2: seq<T>, w3: seq<T>)

  /** Failed stands for the IndexError or KeyError that ends the conversion. */
  datatype Progress<T> = Failed | Going(pending: seq<map<Name, T>>, groups: seq<Group<T>>)

  function Expected(n: nat, b: nat): set<Name> {
    set x, w: Weight | 0 <= x < n :: Expert(b, x, w)
  }

  /** The names of one weight over all experts. */
  function Column(n: nat, b: nat, w: Weight): set<Name> {
    set x | 0 <= x < n :: Expert(b, x, w)
  }

  lemma ColumnsAreExpected(n: nat, b: nat)
    ensures Expected(n, b) == Column(n, b, W1) + Column(n, b, W2) + Column(n, b, W3)
    ensures forall v, w :: v != w ==> Column(n, b, v) !! Column(n, b, w)
  {
    forall name | name in Expected(n, b) ensures name in Column(n, b, W1) + Column(n, b, W2) + Column(n, b, W3) {
      match name.weight
      case W1 => assert name in Column(n, b, W1);
      case W2 => assert name in Column(n, b, W2);
      case W3 => assert name in Column(n, b, W3);
    }
  }

  function Stack<T>(n: nat, b: nat, w: Weight, m: map<Name, T>): (r: seq<T>)
    requires Expected(n, b) <= m.Keys
    ensures |r| == n && forall x :: 0 <= x < n ==> Expert(b, x, w) in m && r[x] == m[Expert(b, x, w)]
  {
    assert forall x :: 0 <= x < n ==> Expert(b, x, w) in Expected(n, b);
    seq(n, x requires 0 <= x < n => m[Expert(b, x, w)])
  }

  function GroupOf<T>(n: nat, b: nat, m: map<Name, T>): Group<T>
    requires Expected(n, b) <= m.Keys
  {
    Group(b, Stack(n, b, W1, m), Stack(n, b, W2, m), Stack(n, b, W3, m))
  }

  /** One call of `modify_tensors` on an expert tensor. */
  function Step<T>(n: nat, p: Progress<T>, e: Event<T>): Progress<T> {
    if p.Failed? || e.name.layer >= |p.pending| then Failed
    else
      var b := e.name.layer;
      var m := p.pending[b][e.name := e.tensor];
      if |m| < 3 * n then p.(pending := p.pending[b := m])
      else if !(Expected(n, b) <= m.Keys) then Failed
      else Going(p.pending[b := m - Expected(n, b)], p.groups + [GroupOf(n, b, m)])
  }

  function Start<T>(blocks: nat): Progress<T> {
    Going(seq(blocks, _ => map[]), [])
  }

  function Run<T>(n: nat, blocks: nat, es: seq<Event<T>>): Progress<T> {
    if es == [] then Start(blocks) else Step(n, Run(n, blocks, es[..|es| - 1]), es[|es| - 1])
  }

  /** `prepare_tensors`: leftover expert tensors are an error. */
  function Finish<T>(p: Progress<T>): Option<seq<Group<T>>> {
    if p.Failed? || exists b :: 0 <= b < |p.pending| && |p.pending[b]| > 0 then None else Some(p.groups)
  }

  // ---------- The object ----------

  class Gatherer<T> {
    const experts: nat
    var pending: seq<map<Name, T>>
    ghost var groups: seq<Group<T>>

    ghost function Progress(): Progress<T>
      reads this
    {
      Going(pending, groups)
    }

    constructor (experts: nat, blocks: nat)
      ensures this.experts == experts && Progress() == Start(blocks)
    {
      this.experts := experts;
      pending, groups := seq(blocks, _ => map[]), [];
    }

    /** One pass of the inner loop: stacks a weight over all experts and deletes what it took. */
    method TakeWeight(b: nat, w: Weight) returns (r: Option<seq<T>>)
      requires b < |pending|
      modifies this`pending
      ensures |pending| == |old(pending)|
      ensures forall i :: 0 <= i < |pending| && i != b ==> pending[i] == old(pending)[i]
      ensures r.Some? <==> Column(experts, b, w) <= old(pending)[b].Keys
      ensures r.Some? ==> |r.value| == experts
      ensures r.Some? ==> forall x :: 0 <= x < experts ==> Expert(b, x, w) in old(pending)[b] && r.value[x] == old(pending)[b][Expert(b, x, w)]
      ensures r.Some? ==> pending[b] == old(pending)[b] - Column(experts, b, w)
    {
      var datas: seq<T> := [];
      for x := 0 to experts
        invariant |pending| == |old(pending)| && |datas| == x
        invariant forall i :: 0 <= i < |pending| && i != b ==> pending[i] == old(pending)[i]
        invariant forall y :: 0 <= y < x ==> Expert(b, y, w) in old(pending)[b] && datas[y] == old(pending)[b][Expert(b, y, w)]
        invariant pending[b] == old(pending)[b] - (set y | 0 <= y < x :: Expert(b, y, w))
      {
        var name := Expert(b, x, w);
        if name !in pending[b] {
          assert name in Column(experts, b, w);
          return None;
        }
        datas := datas + [pending[b][name]];
        pending := pending[b := pending[b] - {name}];
      }
      r := Some(datas);
    }
  
    /** The merge loop over the three weights. */
    method TakeAll(b: nat) returns (r: Option<Group<T>>)
      requires b < |pending|
      modifies this`pending
      ensures r.Some? <==> Expected(experts, b) <= old(pending)[b].Keys
      ensures r.Some? ==> r.value == GroupOf(experts, b, old(pending)[b]) && pending == old(pending)[b := old(pending)[b] - Expected(experts, b)]
    {
      ColumnsAreExpected(experts, b);
      hide Expected;
      ghost var m := pending[b];
      var w1 := TakeWeight(b, W1);
      if w1.None? {
        return None;
      }
      var w2 := TakeWeight(b, W2);
      if w2.None? {
        return None;
      }
      var w3 := TakeWeight(b, W3);
      if w3.None? {
        return None;
      }
      assert pending[b] == m - Expected(experts, b);
      assert pending == old(pending)[b := m - Expected(experts, b)];
      r := Some(Group(b, w1.value, w2.value, w3.value));
    }

    /** `modify_tensors` on an expert tensor: the tensors to write, or None for an exception. */
    method Modify(e: Event<T>) returns (r: Option<seq<Group<T>>>)
      modifies this
      ensures var p, q := old(Progress()), Step(experts, old(Progress()), e);
              if q.Failed? then r.None? else r.Some? && Progress() == q && q.groups == p.groups + r.value && |r.value| <= 1
    {
      var b := e.name.layer;
      if b >= |pending| {
        return None;
      }
      pending := pending[b := pending[b][e.name := e.tensor]];
      if |pending[b]| < 3 * experts {
        return Some([]);
      }
      var g := TakeAll(b);
      if g.None? {
        return None;
      }
      groups := groups + [g.value];
      r := Some([g.value]);
    }

    /** The check at the end of `prepare_tensors`. */
    method Close() returns (ok: bool)
      ensures ok == Finish(Progress()).Some?
    {
      for b := 0 to |pending|
        invariant forall i :: 0 <= i < b ==> |pending[i]| == 0
      {
        if |pending[b]| > 0 {
          return false;
        }
      }
      ok := true;
    }
  }
}
