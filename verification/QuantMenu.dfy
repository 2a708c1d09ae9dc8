/**
  The quantization menu of tools/hsic/allocate.py: the types between a base and a largest
  type, one for each number of bits per weight, in increasing order.
 */
module QuantMenu {
  import opened Basics
  import Allocator

  /** `preference` is the rank of the type's family, lower preferred. */
  datatype MenuType = MenuType(name: string, bpw: real, preference: nat)

  predicate Increasing(ks: seq<real>) {
    forall i, j :: 0 <= i < j < |ks| ==> ks[i] < ks[j]
  }

  predicate StrictMenu(r: seq<MenuType>) {
    forall i, j :: 0 <= i < j < |r| ==> r[i].bpw < r[j].bpw
  }

  /** A new key among sorted keys, which stay sorted and without repetition. */
  function Insert(ks: seq<real>, x: real): (r: seq<real>)
    requires Increasing(ks)
    ensures Increasing(r) && forall k :: k in r <==> k in ks || k == x
  {
    if ks == [] then [x]
    else
      var n := |ks| - 1;
      assert ks == ks[..n] + [ks[n]];
      if ks[n] < x then ks + [x]
      else if ks[n] == x then ks
      else
        var r := Insert(ks[..n], x);
        assert forall k :: k in ks[..n] ==> k < ks[n];
        assert forall i :: 0 <= i < |r| ==> r[i] in r;
        r + [ks[n]]
  }

  /** `sorted(by_bpw.keys())`. */
  function Keys(types: seq<MenuType>): (ks: seq<real>)
    ensures Increasing(ks) && forall k :: k in ks <==> exists q :: q in types && q.bpw == k
  {
    if types == [] then []
    else
      var n := |types| - 1;
      assert types == types[..n] + [types[n]];
      Insert(Keys(types[..n]), types[n].bpw)
  }

  /** `by_bpw[bpw]`, in menu order. */
  function Candidates(types: seq<MenuType>, bpw: real): (cs: seq<MenuType>)
    ensures forall q :: q in cs <==> q in types && q.bpw == bpw
  {
    if types == [] then []
    else if types[0].bpw == bpw then [types[0]] + Candidates(types[1..], bpw)
    else Candidates(types[1..], bpw)
  }

  /** First candidate whose name must be kept. */
  function Forced(cs: seq<MenuType>, keep: set<string>): (r: Option<MenuType>)
    ensures r.Some? ==> r.value in cs && r.value.name in keep
    ensures r.None? ==> forall q :: q in cs ==> q.name !in keep
  {
    if cs == [] then None
    else if cs[0].name in keep then Some(cs[0])
    else Forced(cs[1..], keep)
  }

  /** First candidate of the preferred family. */
  function Preferred(cs: seq<MenuType>): (r: MenuType)
    requires cs != []
    ensures r in cs && forall q :: q in cs ==> r.preference <= q.preference
  {
    if |cs| == 1 then cs[0]
    else
      assert cs == [cs[0]] + cs[1..];
      var rest := Preferred(cs[1..]);
      if cs[0].preference <= rest.preference then cs[0] else rest
  }

  function Chosen(cs: seq<MenuType>, keep: set<string>): (r: MenuType)
    requires cs != []
    ensures r in cs
  {
    if Forced(cs, keep).Some? then Forced(cs, keep).value else Preferred(cs)
  }

  /** The first loop: types by bits per weight. */
  method GroupByBpw(types: seq<MenuType>) returns (byBpw: map<real, seq<MenuType>>)
    ensures forall k :: k in byBpw <==> Candidates(types, k) != []
    ensures forall k :: k in byBpw ==> byBpw[k] == Candidates(types, k)
  {
    hide Candidates;
    byBpw := map[];
    CandidatesOfNone();
    for i := 0 to |types|
      invariant forall k :: k in byBpw <==> Candidates(types[..i], k) != []
      invariant forall k :: k in byBpw ==> byBpw[k] == Candidates(types[..i], k)
    {
      assert types[..i + 1] == types[..i] + [types[i]];
      forall k ensures Candidates(types[..i + 1], k) == Candidates(types[..i], k) + if types[i].bpw == k then [types[i]] else [] {
        CandidatesSnoc(types[..i], types[i], k);
      }
      var k := types[i].bpw;
      byBpw := byBpw[k := (if k in byBpw then byBpw[k] else []) + [types[i]]];
    }
    assert types[..|types|] == types;
  }

  lemma CandidatesOfNone()
    ensures forall k :: Candidates([], k) == []
  {
  }

  /** `deduplicate_quant_menu`. */
  method Deduplicate(types: seq<MenuType>, keep: set<string>) returns (result: seq<MenuType>)
    ensures MenuOf(result, types, keep)
  {
    hide Candidates, Keys, Forced, Preferred;
    var byBpw := GroupByBpw(types);
    var keys := Keys(types);
    result := [];
    for i := 0 to |keys|
      invariant |result| == i && forall j :: 0 <= j < i ==> result[j].bpw == keys[j]
      invariant forall j :: 0 <= j < i ==> result[j] in types && result[j] == Chosen(Candidates(types, result[j].bpw), keep)
    {
      assert keys[i] in keys;
      ghost var q :| q in types && q.bpw == keys[i];
      assert q in Candidates(types, keys[i]);
      var candidates := byBpw[keys[i]];
      var forced := Forced(candidates, keep);
      var best := if forced.Some? then forced.value else Preferred(candidates);
      assert best in candidates;
      result := result + [best];
    }
    forall q | q in types ensures exists r :: r in result && r.bpw == q.bpw {
      assert q.bpw in keys;
      var j :| 0 <= j < |keys| && keys[j] == q.bpw;
      assert result[j] in result;
    }
  }

  lemma {:induction false} CandidatesSnoc(types: seq<MenuType>, q: MenuType, k: real)
    ensures Candidates(types + [q], k) == Candidates(types, k) + if q.bpw == k then [q] else []
  {
    if types != [] {
      CandidatesSnoc(types[1..], q, k);
      assert (types + [q])[1..] == types[1..] + [q];
    }
  }

  /** One type for each number of bits present, in increasing order, each the one to choose. */
  ghost predicate MenuOf(r: seq<MenuType>, types: seq<MenuType>, keep: set<string>) {
    && StrictMenu(r)
    && (forall q :: q in r ==> q in types && q == Chosen(Candidates(types, q.bpw), keep))
    && (forall q :: q in types ==> exists p :: p in r && p.bpw == q.bpw)
  }

  /** The menu offered for a base and a largest type. */
  function Between(types: seq<MenuType>, low: real, high: real): (r: seq<MenuType>)
    ensures forall q :: q in r <==> q in types && low <= q.bpw <= high
  {
    if types == [] then []
    else if low <= types[0].bpw <= high then [types[0]] + Between(types[1..], low, high)
    else Between(types[1..], low, high)
  }

  /** `i` is the first place in the catalogue with these bits and a name to keep. */
  predicate FirstKept(types: seq<MenuType>, bpw: real, keep: set<string>, i: nat) {
    && i < |types| && types[i].bpw == bpw && types[i].name in keep
    && forall j :: 0 <= j < i ==> types[j].bpw != bpw || types[j].name !in keep
  }

  lemma CandidatesCons(q: MenuType, types: seq<MenuType>, bpw: real)
    ensures Candidates([q] + types, bpw) == if q.bpw == bpw then [q] + Candidates(types, bpw) else Candidates(types, bpw)
  {
  }

  lemma {:induction false} CandidatesBetween(types: seq<MenuType>, low: real, high: real, bpw: real)
    requires low <= bpw <= high
    ensures Candidates(Between(types, low, high), bpw) == Candidates(types, bpw)
  {
    if types != [] {
      CandidatesBetween(types[1..], low, high, bpw);
      CandidatesCons(types[0], Between(types[1..], low, high), bpw);
    }
  }

  lemma ForcedCons(q: MenuType, cs: seq<MenuType>, keep: set<string>)
    ensures Forced([q] + cs, keep) == if q.name in keep then Some(q) else Forced(cs, keep)
  {
  }

  lemma {:induction false} ForcedIsFirst(types: seq<MenuType>, bpw: real, keep: set<string>, i: nat)
    requires FirstKept(types, bpw, keep, i)
    ensures Forced(Candidates(types, bpw), keep) == Some(types[i])
  {
    hide Forced, Candidates;
    assert types == [types[0]] + types[1..];
    CandidatesCons(types[0], types[1..], bpw);
    ForcedCons(types[0], Candidates(types[1..], bpw), keep);
    if i > 0 {
      assert types[0].bpw != bpw || types[0].name !in keep;
      ForcedIsFirst(types[1..], bpw, keep, i - 1);
    }
  }

  /** `i` is the first place in the catalogue with these bits and the least rank of a family. */
  predicate FirstPreferred(types: seq<MenuType>, bpw: real, i: nat) {
    && i < |types| && types[i].bpw == bpw
    && (forall j :: 0 <= j < |types| && types[j].bpw == bpw ==> types[i].preference <= types[j].preference)
    && forall j :: 0 <= j < i && types[j].bpw == bpw ==> types[i].preference < types[j].preference
  }

  lemma PreferredCons(q: MenuType, cs: seq<MenuType>)
    ensures Preferred([q] + cs) == if cs == [] || q.preference <= Preferred(cs).preference then q else Preferred(cs)
  {
    assert ([q] + cs)[1..] == cs;
  }

  lemma {:induction false} PreferredIsFirst(types: seq<MenuType>, bpw: real, i: nat)
    requires FirstPreferred(types, bpw, i)
    ensures Candidates(types, bpw) != [] && Preferred(Candidates(types, bpw)) == types[i]
  {
    hide Preferred, Candidates;
    assert types == [types[0]] + types[1..];
    var rest := Candidates(types[1..], bpw);
    CandidatesCons(types[0], types[1..], bpw);
    PreferredCons(types[0], rest);
    if i > 0 {
      assert types[1..][i - 1] == types[i];
      PreferredIsFirst(types[1..], bpw, i - 1);
      assert types[i] in Candidates(types, bpw);
    }
  }

  /** Of the types with the same bits the menu holds the first whose name is to be kept, or else the first
      of the most preferred family. */
  lemma EntryIsFirst(r: seq<MenuType>, types: seq<MenuType>, keep: set<string>, i: nat, bpw: real)
    requires MenuOf(r, types, keep)
    requires FirstKept(types, bpw, keep, i)
             || (FirstPreferred(types, bpw, i) && forall j :: 0 <= j < |types| && types[j].bpw == bpw ==> types[j].name !in keep)
    ensures types[i] in r && forall q :: q in r && q.bpw == bpw ==> q == types[i]
  {
    hide Candidates, Forced, Preferred;
    assert types[i] in types;
    var p :| p in r && p.bpw == bpw;
    if FirstKept(types, bpw, keep, i) {
      ForcedIsFirst(types, bpw, keep, i);
    } else {
      PreferredIsFirst(types, bpw, i);
      assert Forced(Candidates(types, bpw), keep).None?;
    }
  }

  predicate DistinctNames(types: seq<MenuType>) {
    forall i, j :: 0 <= i < j < |types| ==> types[i].name != types[j].name
  }

  lemma ChosenAtBase(all: seq<MenuType>, base: nat, top: nat)
    requires DistinctNames(all) && base < |all| && top < |all| && all[base].bpw <= all[top].bpw
    ensures var b := all[base].bpw;
            var first := if all[top].bpw == b && top < base then top else base;
            Forced(Candidates(Between(all, b, all[top].bpw), b), {all[base].name, all[top].name}) == Some(all[first])
  {
    var b := all[base].bpw;
    var keep := {all[base].name, all[top].name};
    var first := if all[top].bpw == b && top < base then top else base;
    assert FirstKept(all, b, keep, first);
    ForcedIsFirst(all, b, keep, first);
    CandidatesBetween(all, b, all[top].bpw, b);
  }

  /**
    The base type is offered, as the first entry, exactly when it has fewer bits than the largest
    type, or equally many and comes no later in the catalogue. Otherwise the allocator's search for
    it finds nothing.
   */
  lemma BaseIsOffered(all: seq<MenuType>, base: nat, top: nat, r: seq<MenuType>)
    requires DistinctNames(all) && base < |all| && top < |all|
    requires MenuOf(r, Between(all, all[base].bpw, all[top].bpw), {all[base].name, all[top].name})
    ensures all[base] in r <==> all[base].bpw < all[top].bpw || (all[base].bpw == all[top].bpw && base <= top)
    ensures all[base] in r ==> r[0] == all[base]
  {
    hide Between, Candidates, Forced, Preferred;
    var b := all[base].bpw;
    var offered := Between(all, b, all[top].bpw);
    if b <= all[top].bpw {
      assert all[base] in offered;
      var p :| p in r && p.bpw == b;
      ChosenAtBase(all, base, top);
      var first := if all[top].bpw == b && top < base then top else base;
      assert p == all[first];
      assert all[base] in r ==> all[base] == p;
      FirstEntry(r, p);
    }
  }

  /** Two types of the catalogue with equally many bits, in its order. */
  const EQUAL_BITS := [MenuType("IQ3_S", 3.4375, 0), MenuType("Q3_K", 3.4375, 3)]

  /** From Q3_K up to IQ3_S: the base type is not in the menu. */
  lemma BaseIsDropped(r: seq<MenuType>)
    requires MenuOf(r, Between(EQUAL_BITS, 3.4375, 3.4375), {"Q3_K", "IQ3_S"})
    ensures EQUAL_BITS[1] !in r
  {
    hide MenuOf, Between;
    BaseIsOffered(EQUAL_BITS, 1, 0, r);
  }

  lemma FirstEntry(r: seq<MenuType>, p: MenuType)
    requires StrictMenu(r) && p in r && forall q :: q in r ==> p.bpw <= q.bpw
    ensures r[0] == p
  {
    assert r[0] in r;
  }

  /** The allocator's types: noise falls strictly as bits grow, as 2 to the power -2 bpw does. */
  function Types(r: seq<MenuType>, noise: real -> real): (ts: seq<Allocator.QuantType>) {
    seq(|r|, i requires 0 <= i < |r| => Allocator.QuantType(r[i].name, r[i].bpw, noise(r[i].bpw)))
  }

  /** A menu that offers the base type is one the allocator's laws apply to. */
  lemma MenuIsValid(r: seq<MenuType>, noise: real -> real, params: seq<nat>, layer: seq<int>, score: seq<real>, target: real)
    requires StrictMenu(r) && r != []
    requires forall x, y :: x < y ==> noise(x) > noise(y) > 0.0
    requires |params| == |layer| == |score| && forall t :: 0 <= t < |params| ==> params[t] > 0
    ensures Allocator.Problem(Types(r, noise), params, layer, score, target).Valid()
  {
    var ts := Types(r, noise);
    forall i, j | 0 <= i < j < |ts| ensures ts[i].bpw < ts[j].bpw && ts[i].noise > ts[j].noise {
      assert r[i].bpw < r[j].bpw;
    }
    forall i | 0 <= i < |ts| ensures ts[i].noise > 0.0 {
      assert noise(r[i].bpw) > noise(r[i].bpw + 1.0) > 0.0;
    }
  }
}
