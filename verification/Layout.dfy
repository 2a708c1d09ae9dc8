/**
 * Row layouts of convert_hf_to_gguf.py. A tensor is the sequence of its rows; reshaping cuts it into
 * equal pieces in order, flattening puts the pieces back one after another.
 */
module Layout {
  import opened Basics

  // ---------- Cutting, flattening, swapping axes ----------

  ghost predicate Uniform<T>(ss: seq<seq<T>>, size: nat) {
    forall i :: 0 <= i < |ss| ==> |ss[i]| == size
  }

  function Reshape<T>(s: seq<T>, count: nat, size: nat): (ss: seq<seq<T>>)
    requires |s| == count * size
    ensures |ss| == count && Uniform(ss, size)
    decreases count
  {
    if count == 0 then [] else
      assert count * size == size + (count - 1) * size;
      [s[..size]] + Reshape(s[size..], count - 1, size)
  }

  lemma {:induction false} FlatLength<T>(ss: seq<seq<T>>, size: nat)
    requires Uniform(ss, size)
    ensures |Flatten(ss)| == |ss| * size
  {
    if ss != [] {
      FlatLength(ss[1..], size);
      assert |ss| * size == size + (|ss| - 1) * size;
    }
  }

  lemma {:induction false} FlatUndoesReshape<T>(s: seq<T>, count: nat, size: nat)
    requires |s| == count * size
    ensures Flatten(Reshape(s, count, size)) == s
    decreases count
  {
    if count > 0 {
      hide Reshape;
      ReshapeFirst(s, count, size);
      FlatUndoesReshape(s[size..], count - 1, size);
      var rest := Reshape(s[size..], count - 1, size);
      assert ([s[..size]] + rest)[1..] == rest;
    } else {
      assert Reshape(s, count, size) == [] && s == [];
    }
  }

  lemma ReshapeFirst<T>(s: seq<T>, count: nat, size: nat)
    requires |s| == count * size && count > 0
    ensures size <= |s| && |s[size..]| == (count - 1) * size
    ensures Reshape(s, count, size) == [s[..size]] + Reshape(s[size..], count - 1, size)
  {
    assert count * size == size + (count - 1) * size;
  }

  lemma {:induction false} ReshapeUndoesFlat<T>(ss: seq<seq<T>>, size: nat)
    requires Uniform(ss, size)
    ensures |Flatten(ss)| == |ss| * size && Reshape(Flatten(ss), |ss|, size) == ss
  {
    FlatLength(ss, size);
    if ss != [] {
      FlatLength(ss[1..], size);
      ReshapeUndoesFlat(ss[1..], size);
      var s := Flatten(ss);
      assert s[..size] == ss[0] && s[size..] == Flatten(ss[1..]);
      assert ss == [ss[0]] + ss[1..];
    }
  }

  lemma {:induction false} FlatAt<T>(ss: seq<seq<T>>, size: nat, i: nat, j: nat)
    requires Uniform(ss, size) && i < |ss| && j < size
    ensures 0 <= i * size + j < |Flatten(ss)| && Flatten(ss)[i * size + j] == ss[i][j]
  {
    FlatLength(ss, size);
    if i == 0 {
      FlatLength(ss[1..], size);
    } else {
      assert i * size == size + (i - 1) * size;
      assert 0 <= (i - 1) * size;
      FlatAt(ss[1..], size, i - 1, j);
    }
  }

  lemma ReshapeAt<T>(s: seq<T>, count: nat, size: nat, i: nat, j: nat)
    requires |s| == count * size && i < count && j < size
    ensures 0 <= i * size + j < |s| && Reshape(s, count, size)[i][j] == s[i * size + j]
  {
    FlatUndoesReshape(s, count, size);
    FlatAt(Reshape(s, count, size), size, i, j);
  }

  /** `swapaxes`. */
  function Transpose<T>(m: seq<seq<T>>, a: nat, b: nat): (t: seq<seq<T>>)
    requires |m| == a && Uniform(m, b)
    ensures |t| == b && Uniform(t, a)
    ensures forall i, j :: 0 <= i < a && 0 <= j < b ==> t[j][i] == m[i][j]
  {
    seq(b, j requires 0 <= j < b => seq(a, i requires 0 <= i < a => m[i][j]))
  }

  lemma TransposeTwice<T>(m: seq<seq<T>>, a: nat, b: nat)
    requires |m| == a && Uniform(m, b)
    ensures Transpose(Transpose(m, a, b), b, a) == m
  {
    var t := Transpose(Transpose(m, a, b), b, a);
    forall i | 0 <= i < a ensures t[i] == m[i] {
      assert |t[i]| == b == |m[i]|;
      assert forall j :: 0 <= j < b ==> t[i][j] == m[i][j];
    }
  }

  // ---------- Rotary rows of a head ----------

  /** reshape(a, b), swapaxes, reshape back. */
  function Swapped<T>(s: seq<T>, a: nat, b: nat): (r: seq<T>)
    requires |s| == a * b
  {
    Flatten(Transpose(Reshape(s, a, b), a, b))
  }

  lemma SwappedLength<T>(s: seq<T>, a: nat, b: nat)
    requires |s| == a * b
    ensures |Swapped(s, a, b)| == b * a == |s|
  {
    FlatLength(Transpose(Reshape(s, a, b), a, b), a);
  }

  lemma SwappedTwice<T>(s: seq<T>, a: nat, b: nat)
    requires |s| == a * b
    ensures |Swapped(s, a, b)| == b * a && Swapped(Swapped(s, a, b), b, a) == s
  {
    SwappedLength(s, a, b);
    var m := Reshape(s, a, b);
    ReshapeUndoesFlat(Transpose(m, a, b), a);
    TransposeTwice(m, a, b);
    FlatUndoesReshape(s, a, b);
  }

  lemma SwappedAt<T>(s: seq<T>, a: nat, b: nat, i: nat, j: nat)
    requires |s| == a * b && i < a && j < b
    ensures 0 <= i * b + j < |s| && 0 <= j * a + i < |Swapped(s, a, b)|
    ensures Swapped(s, a, b)[j * a + i] == s[i * b + j]
  {
    var m := Reshape(s, a, b);
    FlatAt(Transpose(m, a, b), a, j, i);
    ReshapeAt(s, a, b, i, j);
  }

  /** The same swap in each of n heads: reshape(n, a, b), swapaxes(1, 2), reshape back. */
  function SwappedHeads<T>(heads: seq<seq<T>>, a: nat, b: nat): (r: seq<seq<T>>)
    requires Uniform(heads, a * b)
    ensures |r| == |heads| && forall h :: 0 <= h < |r| ==> r[h] == Swapped(heads[h], a, b)
  {
    seq(|heads|, h requires 0 <= h < |heads| => Swapped(heads[h], a, b))
  }

  /** The head count in use: `n_head_kv` wins when it is given and differs. */
  function Heads(nHead: nat, nHeadKv: Option<nat>): nat {
    if nHeadKv.Some? && nHead != nHeadKv.value then nHeadKv.value else nHead
  }

  /** Half the rows of one head, as computed by the two floor divisions; None where Python raises. */
  function HalfRows(rows: nat, n: nat): (k: Option<nat>)
    ensures k.Some? ==> rows == n * (2 * k.value)
    ensures k.None? ==> n == 0 || forall half: nat :: rows != n * (2 * half)
  {
    if n == 0 then None else
      var k := rows / n / 2;
      if n * (2 * k) == rows then Some(k) else
        assert forall half: nat {:trigger n * (2 * half)} :: rows == n * (2 * half) ==> half == k by {
          forall half: nat {:trigger n * (2 * half)} | rows == n * (2 * half) ensures half == k {
            ExactDivision(rows, n, 2 * half);
          }
        }
        None
  }

  lemma ExactDivision(x: nat, n: nat, m: nat)
    requires n > 0 && x == n * m
    ensures x / n == m
  {
    var q, r := x / n, x % n;
    assert x == n * q + r;
    if q < m {
      NextMultiple(n, q, m);
    } else if m < q {
      NextMultiple(n, m, q);
    }
  }

  /** `permute`: None where a reshape does not fit. */
  function Permute<T>(w: seq<T>, nHead: nat, nHeadKv: Option<nat>): Option<seq<T>> {
    var n := Heads(nHead, nHeadKv);
    match HalfRows(|w|, n)
    case None => None
    case Some(k) => Some(Flatten(SwappedHeads(Reshape(w, n, 2 * k), 2, k)))
  }

  /** The way back: reshape(n, k, 2), swapaxes(1, 2), reshape. */
  function Unpermute<T>(w: seq<T>, n: nat): Option<seq<T>> {
    match HalfRows(|w|, n)
    case None => None
    case Some(k) => Some(Flatten(SwappedHeads(Reshape(w, n, 2 * k), k, 2)))
  }

  lemma HeadsSwappedTwice<T>(heads: seq<seq<T>>, a: nat, b: nat)
    requires Uniform(heads, a * b)
    ensures Uniform(SwappedHeads(heads, a, b), b * a)
    ensures SwappedHeads(SwappedHeads(heads, a, b), b, a) == heads
  {
    forall h | 0 <= h < |heads|
      ensures |Swapped(heads[h], a, b)| == b * a && Swapped(Swapped(heads[h], a, b), b, a) == heads[h]
    {
      SwappedTwice(heads[h], a, b);
    }
  }

  lemma RowsSwappedTwice<T>(w: seq<T>, n: nat, a: nat, b: nat)
    requires |w| == n * (a * b) && a * b == b * a
    ensures var r := Flatten(SwappedHeads(Reshape(w, n, a * b), a, b));
            |r| == |w| && Flatten(SwappedHeads(Reshape(r, n, b * a), b, a)) == w
  {
    var heads := Reshape(w, n, a * b);
    var swapped := SwappedHeads(heads, a, b);
    HeadsSwappedTwice(heads, a, b);
    ReshapeUndoesFlat(swapped, b * a);
    FlatUndoesReshape(w, n, a * b);
  }

  /** Permuting and the way back undo each other, in both orders. */
  lemma PermuteIsBijective<T>(w: seq<T>, nHead: nat, nHeadKv: Option<nat>)
    ensures var n := Heads(nHead, nHeadKv);
            && (Permute(w, nHead, nHeadKv).None? <==> n == 0 || forall half: nat :: |w| != n * (2 * half))
            && (Permute(w, nHead, nHeadKv).Some? ==> Unpermute(Permute(w, nHead, nHeadKv).value, n) == Some(w))
            && (Unpermute(w, n).Some? ==> Permute(Unpermute(w, n).value, nHead, nHeadKv) == Some(w))
  {
    var n := Heads(nHead, nHeadKv);
    var half := HalfRows(|w|, n);
    if half.Some? {
      RowsSwappedTwice(w, n, 2, half.value);
      RowsSwappedTwice(w, n, half.value, 2);
    }
  }

  /** Rows q and q + k of a head go to rows 2q and 2q + 1 of the same head; a key-value head count, when
      given, is the number of heads. */
  lemma PermutedRows<T>(w: seq<T>, nHead: nat, nHeadKv: Option<nat>, n: nat, k: nat, h: nat, q: nat, second: nat)
    requires n == if nHeadKv.Some? then nHeadKv.value else nHead
    requires |w| == n * (2 * k) && h < n && q < k && second < 2
    ensures Permute(w, nHead, nHeadKv).Some?
    ensures var r := Permute(w, nHead, nHeadKv).value;
            && |r| == |w|
            && 0 <= h * (2 * k) + (q + second * k) < |w|
            && 0 <= h * (2 * k) + (2 * q + second) < |w|
            && r[h * (2 * k) + (2 * q + second)] == w[h * (2 * k) + (q + second * k)]
  {
    hide Flatten, Reshape, Swapped, HalfRows, SwappedHeads;
    HalfRowsExact(n, k);
    var heads := Reshape(w, n, 2 * k);
    var swapped := SwappedHeads(heads, 2, k);
    SwappedRow(heads, k, h, q, second);
    FlatLength(swapped, 2 * k);
    FlatAt(swapped, 2 * k, h, q * 2 + second);
    ReshapeAt(w, n, 2 * k, h, second * k + q);
  }

  lemma HalfRowsExact(n: nat, k: nat)
    requires n > 0
    ensures HalfRows(n * (2 * k), n) == Some(k)
  {
    ExactDivision(n * (2 * k), n, 2 * k);
  }

  lemma SwappedRow<T>(heads: seq<seq<T>>, k: nat, h: nat, q: nat, second: nat)
    requires Uniform(heads, 2 * k) && h < |heads| && q < k && second < 2
    ensures var r := SwappedHeads(heads, 2, k);
            && |r| == |heads| && Uniform(r, 2 * k)
            && 0 <= second * k + q < 2 * k && r[h][q * 2 + second] == heads[h][second * k + q]
  {
    HeadsSwappedTwice(heads, 2, k);
    SwappedAt(heads[h], 2, k, second, q);
  }

  // ---------- Falcon: queries, keys and values ----------

  /** One group of the source layout: its query heads, then one key head, then one value head. */
  function Queries<T>(groups: seq<seq<T>>, g: nat): (r: seq<seq<T>>)
    requires Uniform(groups, g + 2)
    ensures |r| == |groups| && Uniform(r, g)
  {
    seq(|groups|, i requires 0 <= i < |groups| => groups[i][..g])
  }

  function Column<T>(groups: seq<seq<T>>, g: nat, at: nat): (r: seq<T>)
    requires Uniform(groups, g + 2) && at < g + 2
    ensures |r| == |groups|
  {
    seq(|groups|, i requires 0 <= i < |groups| => groups[i][at])
  }

  /** All query heads, then all key heads, then all value heads. */
  function Regrouped<T>(groups: seq<seq<T>>, g: nat): seq<T>
    requires Uniform(groups, g + 2)
  {
    Flatten(Queries(groups, g)) + Column(groups, g, g) + Column(groups, g, g + 1)
  }

  /** The way back, from heads in the new order. */
  function Ungrouped<T>(heads: seq<T>, n: nat, g: nat): (groups: seq<seq<T>>)
    requires |heads| == n * g + 2 * n
    ensures |groups| == n && Uniform(groups, g + 2)
  {
    var queries := Reshape(heads[..n * g], n, g);
    seq(n, i requires 0 <= i < n => queries[i] + [heads[n * g + i], heads[n * g + n + i]])
  }

  lemma UngroupUndoesRegroup<T>(groups: seq<seq<T>>, g: nat)
    requires Uniform(groups, g + 2)
    ensures var n := |groups|;
            |Regrouped(groups, g)| == n * g + 2 * n && Ungrouped(Regrouped(groups, g), n, g) == groups
  {
    var n, heads := |groups|, Regrouped(groups, g);
    ReshapeUndoesFlat(Queries(groups, g), g);
    assert heads[..n * g] == Flatten(Queries(groups, g));
    forall i | 0 <= i < n ensures Ungrouped(heads, n, g)[i] == groups[i] {
      assert heads[n * g + i] == groups[i][g] && heads[n * g + n + i] == groups[i][g + 1];
      assert groups[i] == groups[i][..g] + [groups[i][g], groups[i][g + 1]];
    }
  }

  lemma RegroupUndoesUngroup<T>(heads: seq<T>, n: nat, g: nat)
    requires |heads| == n * g + 2 * n
    ensures Regrouped(Ungrouped(heads, n, g), g) == heads
  {
    hide Flatten, Reshape;
    var groups := Ungrouped(heads, n, g);
    var queries := Reshape(heads[..n * g], n, g);
    assert Queries(groups, g) == queries;
    FlatUndoesReshape(heads[..n * g], n, g);
    assert Column(groups, g, g) == heads[n * g..n * g + n];
    assert Column(groups, g, g + 1) == heads[n * g + n..];
  }

  /** Key-value heads: absent or zero counts as one. */
  function KvHeads(nHeadKv: Option<nat>): (n: nat)
    ensures n > 0
  {
    if nHeadKv.None? || nHeadKv.value == 0 then 1 else nHeadKv.value
  }

  /** The shapes fit: every group has the same number of query heads and the rows are all there. */
  predicate FalconFits(rows: nat, hidden: nat, nHead: nat, n: nat)
    requires n > 0
  {
    && nHead > 0
    && rows == (n * (nHead / n + 2)) * (hidden / nHead)
    && (n * (nHead / n)) * (hidden / nHead) == nHead * (hidden / nHead)
  }

  /** The QKV transform of Falcon on rows; None where a division, view or reshape raises. */
  function FalconQkv<T>(w: seq<T>, hidden: nat, nHead: nat, nHeadKv: Option<nat>): Option<seq<T>> {
    var n := KvHeads(nHeadKv);
    if !FalconFits(|w|, hidden, nHead, n) then None else
      var d, g := hidden / nHead, nHead / n;
      Some(Flatten(Regrouped(HeadGroups(w, n, g, d), g)))
  }

  /** The transform succeeds exactly when there are heads and, unless they have no rows, the key-value
      heads, one when absent or zero, divide them and the rows are those of all queries, keys and values. */
  lemma FalconSucceedsIff<T>(w: seq<T>, hidden: nat, nHead: nat, nHeadKv: Option<nat>, n: nat)
    requires if nHeadKv == None || nHeadKv == Some(0) then n == 1 else nHeadKv == Some(n)
    ensures FalconQkv(w, hidden, nHead, nHeadKv).Some? <==>
            && nHead > 0
            && if hidden / nHead == 0 then w == []
               else nHead % n == 0 && |w| == (nHead + 2 * n) * (hidden / nHead)
  {
    hide Flatten, Regrouped, HeadGroups;
    if nHead > 0 {
      FitsIff(|w|, nHead, n, nHead / n, hidden / nHead);
    }
  }

  lemma FitsIff(rows: nat, nHead: nat, n: nat, g: nat, d: nat)
    requires n > 0 && g == nHead / n
    ensures rows == (n * (g + 2)) * d && (n * g) * d == nHead * d <==>
            if d == 0 then rows == 0 else nHead % n == 0 && rows == (nHead + 2 * n) * d
  {
    assert nHead == n * g + nHead % n;
    assert n * (g + 2) == n * g + 2 * n;
    if d > 0 && (n * g) * d == nHead * d {
      SameFactor(n * g, nHead, d);
    }
  }

  lemma SameFactor(a: nat, b: nat, d: nat)
    requires d > 0 && a * d == b * d
    ensures a == b
  {
    if a < b {
      NextMultiple(d, a, b);
    } else if b < a {
      NextMultiple(d, b, a);
    }
  }

  /** `view(n, g + 2, d, ...)`: groups of heads of rows. */
  function HeadGroups<T>(w: seq<T>, n: nat, g: nat, d: nat): (groups: seq<seq<seq<T>>>)
    requires |w| == (n * (g + 2)) * d
    ensures |groups| == n && Uniform(groups, g + 2)
  {
    Reshape(Reshape(w, n * (g + 2), d), n, g + 2)
  }

  lemma HeadGroupAt<T>(w: seq<T>, n: nat, g: nat, d: nat, i: nat, at: nat)
    requires |w| == (n * (g + 2)) * d && i < n && at < g + 2
    ensures 0 <= i * (g + 2) + at < n * (g + 2)
    ensures HeadGroups(w, n, g, d)[i][at] == Reshape(w, n * (g + 2), d)[i * (g + 2) + at]
    ensures |HeadGroups(w, n, g, d)[i][at]| == d
  {
    hide Reshape;
    var heads := Reshape(w, n * (g + 2), d);
    ReshapeAt(heads, n, g + 2, i, at);
    assert HeadGroups(w, n, g, d) == Reshape(heads, n, g + 2);
  }

  /** Row r of head `at` of group i, in the source layout. */
  lemma SourceRow<T>(w: seq<T>, n: nat, g: nat, d: nat, i: nat, at: nat, r: nat)
    requires |w| == (n * (g + 2)) * d && i < n && at < g + 2 && r < d
    ensures |HeadGroups(w, n, g, d)[i][at]| == d
    ensures 0 <= (i * (g + 2) + at) * d + r < |w|
    ensures HeadGroups(w, n, g, d)[i][at][r] == w[(i * (g + 2) + at) * d + r]
  {
    HeadGroupAt(w, n, g, d, i, at);
    ReshapeAt(w, n * (g + 2), d, i * (g + 2) + at, r);
  }

  lemma RegroupedAt<T>(groups: seq<seq<T>>, g: nat, i: nat, at: nat)
    requires Uniform(groups, g + 2) && i < |groups| && at < g + 2
    ensures var heads, p := Regrouped(groups, g), NewHead(|groups|, g, i, at);
            |heads| == |groups| * g + 2 * |groups| && p < |heads| && heads[p] == groups[i][at]
  {
    FlatLength(Queries(groups, g), g);
    if at < g {
      FlatAt(Queries(groups, g), g, i, at);
    }
  }

  /** New place of head `at` of group i: queries first, then keys, then values. */
  function NewHead(n: nat, g: nat, i: nat, at: nat): nat {
    if at < g then i * g + at else if at == g then n * g + i else n * g + n + i
  }

  lemma RegroupedUniform<T>(groups: seq<seq<seq<T>>>, g: nat, d: nat)
    requires Uniform(groups, g + 2) && forall i :: 0 <= i < |groups| ==> Uniform(groups[i], d)
    ensures Uniform(Regrouped(groups, g), d)
  {
    var queries := Queries(groups, g);
    forall i | 0 <= i < |queries| ensures Uniform(queries[i], d) {
      assert Uniform(groups[i], d);
    }
    FlatUniform(queries, d);
    forall i | 0 <= i < |groups| ensures |Column(groups, g, g)[i]| == d && |Column(groups, g, g + 1)[i]| == d {
      assert Uniform(groups[i], d);
    }
  }

  lemma {:induction false} FlatUniform<T>(sss: seq<seq<seq<T>>>, d: nat)
    requires forall i :: 0 <= i < |sss| ==> Uniform(sss[i], d)
    ensures Uniform(Flatten(sss), d)
  {
    if sss != [] {
      FlatUniform(sss[1..], d);
      assert Uniform(sss[0], d);
    }
  }

  lemma GroupsUniform<T>(w: seq<T>, n: nat, g: nat, d: nat)
    requires |w| == (n * (g + 2)) * d
    ensures forall i :: 0 <= i < n ==> Uniform(HeadGroups(w, n, g, d)[i], d)
  {
    forall i, at | 0 <= i < n && 0 <= at < g + 2 ensures |HeadGroups(w, n, g, d)[i][at]| == d {
      HeadGroupAt(w, n, g, d, i, at);
    }
  }

  /** Every row of every head of every group has exactly this place in the result. */
  lemma FalconRow<T>(w: seq<T>, hidden: nat, nHead: nat, nHeadKv: Option<nat>, i: nat, at: nat, r: nat)
    requires FalconQkv(w, hidden, nHead, nHeadKv).Some?
    requires var n := KvHeads(nHeadKv); i < n && at < nHead / n + 2 && r < hidden / nHead
    ensures var n := KvHeads(nHeadKv); var g, d := nHead / n, hidden / nHead;
            var q := FalconQkv(w, hidden, nHead, nHeadKv).value;
            && 0 <= (i * (g + 2) + at) * d + r < |w|
            && 0 <= NewHead(n, g, i, at) * d + r < |q|
            && q[NewHead(n, g, i, at) * d + r] == w[(i * (g + 2) + at) * d + r]
  {
    var n := KvHeads(nHeadKv);
    var g, d := nHead / n, hidden / nHead;
    var groups := HeadGroups(w, n, g, d);
    GroupsUniform(w, n, g, d);
    RegroupedUniform(groups, g, d);
    RegroupedAt(groups, g, i, at);
    SourceRow(w, n, g, d, i, at, r);
    FlatAt(Regrouped(groups, g), d, NewHead(n, g, i, at), r);
  }

  /** The way back on rows. */
  function FalconBack<T>(q: seq<T>, n: nat, g: nat, d: nat): seq<T>
    requires |q| == (n * g + 2 * n) * d
  {
    Flatten(Flatten(Ungrouped(Reshape(q, n * g + 2 * n, d), n, g)))
  }

  lemma BackFromRegrouped<T>(w: seq<T>, n: nat, g: nat, d: nat)
    requires |w| == (n * (g + 2)) * d
    ensures var q := Flatten(Regrouped(HeadGroups(w, n, g, d), g)); |q| == (n * g + 2 * n) * d && FalconBack(q, n, g, d) == w
  {
    hide Flatten, Regrouped, Ungrouped, Reshape;
    var groups := HeadGroups(w, n, g, d);
    GroupsUniform(w, n, g, d);
    RegroupedUniform(groups, g, d);
    UngroupUndoesRegroup(groups, g);
    ReshapeUndoesFlat(Regrouped(groups, g), d);
    FlatUndoesReshape(Reshape(w, n * (g + 2), d), n, g + 2);
    FlatUndoesReshape(w, n * (g + 2), d);
  }

  lemma UngroupedUniform<T>(heads: seq<seq<T>>, n: nat, g: nat, d: nat)
    requires |heads| == n * g + 2 * n && Uniform(heads, d)
    ensures forall i :: 0 <= i < n ==> Uniform(Ungrouped(heads, n, g)[i], d)
  {
    var queries := Reshape(heads[..n * g], n, g);
    forall i, j | 0 <= i < n && 0 <= j < g ensures |queries[i][j]| == d {
      ReshapeAt(heads[..n * g], n, g, i, j);
    }
  }

  lemma RegroupedFromBack<T>(q: seq<T>, n: nat, g: nat, d: nat)
    requires |q| == (n * g + 2 * n) * d
    ensures var w := FalconBack(q, n, g, d); |w| == (n * (g + 2)) * d && Flatten(Regrouped(HeadGroups(w, n, g, d), g)) == q
  {
    hide Flatten, Regrouped, Ungrouped, Reshape;
    var heads := Reshape(q, n * g + 2 * n, d);
    var groups := Ungrouped(heads, n, g);
    UngroupedUniform(heads, n, g, d);
    FlatUniform(groups, d);
    ReshapeUndoesFlat(groups, g + 2);
    ReshapeUndoesFlat(Flatten(groups), d);
    RegroupUndoesUngroup(heads, n, g);
    FlatUndoesReshape(q, n * g + 2 * n, d);
  }

  /** The way back, with the same arguments as the transform. */
  function FalconUndo<T>(q: seq<T>, hidden: nat, nHead: nat, nHeadKv: Option<nat>): Option<seq<T>> {
    var n := KvHeads(nHeadKv);
    if !FalconFits(|q|, hidden, nHead, n) then None else
      var d, g := hidden / nHead, nHead / n;
      SameRows(n, g, d);
      Some(FalconBack(q, n, g, d))
  }

  lemma SameRows(n: nat, g: nat, d: nat)
    ensures (n * g + 2 * n) * d == (n * (g + 2)) * d
  {
    assert n * g + 2 * n == n * (g + 2);
  }

  /** No row is lost or repeated: the transform has a two-sided inverse. */
  lemma FalconIsInvertible<T>(w: seq<T>, hidden: nat, nHead: nat, nHeadKv: Option<nat>)
    requires FalconFits(|w|, hidden, nHead, KvHeads(nHeadKv))
    ensures var q := FalconQkv(w, hidden, nHead, nHeadKv);
            q.Some? && |q.value| == |w| && FalconUndo(q.value, hidden, nHead, nHeadKv) == Some(w)
    ensures var q := FalconUndo(w, hidden, nHead, nHeadKv);
            q.Some? && |q.value| == |w| && FalconQkv(q.value, hidden, nHead, nHeadKv) == Some(w)
  {
    hide Flatten, Regrouped, FalconBack, HeadGroups;
    var n := KvHeads(nHeadKv);
    var g, d := nHead / n, hidden / nHead;
    SameRows(n, g, d);
    BackFromRegrouped(w, n, g, d);
    RegroupedFromBack(w, n, g, d);
  }
}
