/** Splitting, joining and replacing, from common/common.cpp. */
module Strings {
  import opened Basics
  import opened Text

  function Join(parts: seq<string>, sep: string): string {
    if parts == [] then ""
    else if |parts| == 1 then parts[0]
    else parts[0] + sep + Join(parts[1..], sep)
  }

  /** The pieces of s from position `from` on, cut at the leftmost delimiter each time. */
  function Split(s: string, delimiter: string, from: nat := 0): (parts: seq<string>)
    requires delimiter != [] && from <= |s|
    ensures parts != []
    decreases |s| - from
  {
    match Find(s, delimiter, from)
    case None => [s[from..]]
    case Some(end) => [s[from..end]] + Split(s, delimiter, end + |delimiter|)
  }

  /** One step of splitting, and what it does to the joined text. */
  lemma SplitAt(s: string, delimiter: string, from: nat, end: nat, sep: string)
    requires delimiter != [] && from <= |s| && Find(s, delimiter, from) == Some(end)
    ensures from <= end && end + |delimiter| <= |s|
    ensures Split(s, delimiter, from) == [s[from..end]] + Split(s, delimiter, end + |delimiter|)
    ensures Join(Split(s, delimiter, from), sep) == s[from..end] + sep + Join(Split(s, delimiter, end + |delimiter|), sep)
  {
    hide Find, Join;
    JoinCons(s[from..end], Split(s, delimiter, end + |delimiter|), sep);
  }

  lemma JoinCons(part: string, rest: seq<string>, sep: string)
    requires rest != []
    ensures Join([part] + rest, sep) == part + sep + Join(rest, sep)
  {
    assert ([part] + rest)[1..] == rest;
  }

  lemma SplitEnd(s: string, delimiter: string, from: nat, sep: string)
    requires delimiter != [] && from <= |s| && Find(s, delimiter, from) == None
    ensures Split(s, delimiter, from) == [s[from..]]
    ensures Join(Split(s, delimiter, from), sep) == s[from..]
  {
  }

  // ---------- The loops ----------

  lemma JoinSnoc(parts: seq<string>, part: string, sep: string)
    requires parts != []
    ensures Join(parts + [part], sep) == Join(parts, sep) + sep + part
  {
    assert (parts + [part])[1..] == parts[1..] + [part];
    if |parts| > 1 {
      JoinSnoc(parts[1..], part, sep);
    }
  }

  /** `string_join`. */
  method JoinLoop(values: seq<string>, separator: string) returns (r: string)
    ensures r == Join(values, separator)
  {
    r := "";
    for i := 0 to |values|
      invariant r == Join(values[..i], separator)
    {
      if i > 0 {
        JoinSnoc(values[..i], values[i], separator);
        r := r + separator;
      }
      assert values[..i + 1] == values[..i] + [values[i]];
      r := r + values[i];
    }
    assert values[..|values|] == values;
  }

  /** `string_split`. An empty delimiter would never advance. */
  method SplitLoop(s: string, delimiter: string) returns (parts: seq<string>)
    requires delimiter != []
    ensures parts == Split(s, delimiter)
  {
    hide *;
    parts := [];
    var start := 0;
    var end := Find(s, delimiter, 0);
    while end.Some?
      invariant start <= |s| && end == Find(s, delimiter, start)
      invariant Split(s, delimiter) == parts + Split(s, delimiter, start)
      decreases |s| - start
    {
      SplitAt(s, delimiter, start, end.value, "");
      parts := parts + [s[start..end.value]];
      start := end.value + |delimiter|;
      end := Find(s, delimiter, start);
    }
    SplitEnd(s, delimiter, start, "");
    parts := parts + [s[start..]];
  }

  /** `string_replace_all`: one pass that never searches what it has written. */
  method ReplaceAll(s: string, search: string, replace: string) returns (r: string)
    ensures search == [] ==> r == s
    ensures search != [] ==> r == Join(Split(s, search), replace)
    ensures search == replace ==> r == s
  {
    if search == [] {
      return s;
    }
    r := ReplaceEach(s, search, replace);
    SelfReplacement(s, search);
  }

  /** The loop of `string_replace_all`. */
  method ReplaceEach(s: string, search: string, replace: string) returns (r: string)
    requires search != []
    ensures r == Join(Split(s, search), replace)
  {
    hide *;
    r := "";
    var last := 0;
    var pos := Find(s, search, 0);
    ghost var goal := Join(Split(s, search), replace);
    while pos.Some?
      invariant last <= |s| && pos == Find(s, search, last)
      invariant r + Join(Split(s, search, last), replace) == goal
      decreases |s| - last
    {
      SplitAt(s, search, last, pos.value, replace);
      var part := s[last..pos.value];
      Regroup(r, part, replace);
      Regroup(r, part + replace, Join(Split(s, search, pos.value + |search|), replace));
      r := r + part;
      r := r + replace;
      last := pos.value + |search|;
      pos := Find(s, search, last);
    }
    SplitEnd(s, search, last, replace);
    r := r + s[last..];
  }

  lemma SelfReplacement(s: string, search: string)
    requires search != []
    ensures Join(Split(s, search), search) == s
  {
    JoinUndoesSplit(s, search, 0);
    assert s[0..] == s;
  }

  // ---------- Laws ----------

  lemma CutTwice(s: string, i: nat, j: nat, k: nat)
    requires i <= j <= k <= |s|
    ensures s[i..] == s[i..j] + s[j..k] + s[k..]
  {
  }

  /** Joining with the delimiter undoes splitting. */
  lemma {:induction false} JoinUndoesSplit(s: string, delimiter: string, from: nat)
    requires delimiter != [] && from <= |s|
    ensures Join(Split(s, delimiter, from), delimiter) == s[from..]
    decreases |s| - from
  {
    hide Find, Split, Join;
    var found := Find(s, delimiter, from);
    if found.Some? {
      var end := found.value;
      SplitAt(s, delimiter, from, end, delimiter);
      JoinUndoesSplit(s, delimiter, end + |delimiter|);
      CutTwice(s, from, end, end + |delimiter|);
    } else {
      SplitEnd(s, delimiter, from, delimiter);
    }
  }

  /** `part` can be followed by the delimiter without creating an earlier occurrence of it. */
  predicate CutsAfter(part: string, delimiter: string) {
    Find(part + delimiter, delimiter, 0) == Some(|part|)
  }

  predicate Splittable(parts: seq<string>, delimiter: string) {
    && parts != []
    && Find(parts[|parts| - 1], delimiter, 0) == None
    && forall i :: 0 <= i < |parts| - 1 ==> CutsAfter(parts[i], delimiter)
  }

  /** Cutting after a part means that the part has no delimiter of its own. */
  lemma PartHasNoDelimiter(part: string, delimiter: string)
    requires delimiter != [] && CutsAfter(part, delimiter)
    ensures Find(part, delimiter, 0) == None
  {
    var found := Find(part, delimiter, 0);
    if found.Some? {
      FindStable(part, part + delimiter, delimiter, 0);
    }
  }

  lemma OccursShift(s: string, pat: string, base: nat, i: nat)
    requires base <= i && base <= |s|
    ensures OccursAt(s, pat, i) <==> OccursAt(s[base..], pat, i - base)
  {
    if i + |pat| <= |s| {
      assert s[base..][i - base..i - base + |pat|] == s[i..i + |pat|];
    }
  }

  lemma FindShift(s: string, pat: string, from: nat, base: nat)
    requires base <= from <= |s|
    ensures Find(s, pat, from) ==
            match Find(s[base..], pat, from - base) { case None => None case Some(e) => Some(base + e) }
  {
    hide Find, OccursAt;
    forall i | from <= i ensures OccursAt(s, pat, i) <==> OccursAt(s[base..], pat, i - base) {
      OccursShift(s, pat, base, i);
    }
    var found := Find(s[base..], pat, from - base);
    if found.Some? {
      FoundAt(s, pat, from, base + found.value);
    } else {
      NotFound(s, pat, from);
    }
  }

  lemma {:induction false} SplitShift(s: string, delimiter: string, from: nat, base: nat)
    requires delimiter != [] && base <= from <= |s|
    ensures Split(s, delimiter, from) == Split(s[base..], delimiter, from - base)
    decreases |s| - from
  {
    hide Find, Split, OccursAt;
    FindShift(s, delimiter, from, base);
    var found := Find(s, delimiter, from);
    if found.Some? {
      var end := found.value;
      SplitAt(s, delimiter, from, end, "");
      SplitAt(s[base..], delimiter, from - base, end - base, "");
      SplitShift(s, delimiter, end + |delimiter|, base);
      assert s[base..][from - base..end - base] == s[from..end];
    } else {
      SplitEnd(s, delimiter, from, "");
      SplitEnd(s[base..], delimiter, from - base, "");
      assert s[base..][from - base..] == s[from..];
    }
  }

  /** Splitting gives parts that split back. */
  lemma {:induction false} SplitIsSplittable(s: string, delimiter: string, from: nat)
    requires delimiter != [] && from <= |s|
    ensures Splittable(Split(s, delimiter, from), delimiter)
    decreases |s| - from
  {
    hide Find, Split, CutsAfter;
    FindShift(s, delimiter, from, from);
    var found := Find(s, delimiter, from);
    if found.Some? {
      var end := found.value;
      SplitAt(s, delimiter, from, end, "");
      var rest := Split(s, delimiter, end + |delimiter|);
      SplitIsSplittable(s, delimiter, end + |delimiter|);
      CutAtFirst(s[from..], delimiter, end - from);
      assert s[from..][..end - from] == s[from..end];
      SplittableCons(s[from..end], rest, delimiter);
    } else {
      SplitEnd(s, delimiter, from, "");
    }
  }

  lemma SplittableCons(part: string, rest: seq<string>, delimiter: string)
    requires CutsAfter(part, delimiter) && Splittable(rest, delimiter)
    ensures Splittable([part] + rest, delimiter)
  {
    hide Find, CutsAfter;
  }

  lemma NoPartHasDelimiter(s: string, delimiter: string, i: nat)
    requires delimiter != [] && i < |Split(s, delimiter)|
    ensures Find(Split(s, delimiter)[i], delimiter, 0) == None
  {
    SplitIsSplittable(s, delimiter, 0);
    var parts := Split(s, delimiter);
    if i < |parts| - 1 {
      assert CutsAfter(parts[i], delimiter);
      PartHasNoDelimiter(parts[i], delimiter);
    }
  }

  lemma CutAtFirst(s: string, delimiter: string, end: nat)
    requires Find(s, delimiter, 0) == Some(end)
    ensures CutsAfter(s[..end], delimiter)
  {
    hide Find;
    var n := end + |delimiter|;
    assert s[..end] + delimiter == s[..n];
    InPrefix(s, delimiter, n, end);
    forall i | 0 <= i < end ensures !OccursAt(s[..n], delimiter, i) {
      InPrefix(s, delimiter, n, i);
    }
    FoundAt(s[..n], delimiter, 0, end);
  }

  lemma InPrefix(s: string, pat: string, n: nat, i: nat)
    requires n <= |s|
    ensures OccursAt(s[..n], pat, i) <==> OccursAt(s, pat, i) && i + |pat| <= n
  {
    if i + |pat| <= n {
      assert s[..n][i..i + |pat|] == s[i..i + |pat|];
    }
  }

  /** Splitting undoes joining on exactly the splittable lists of parts. */
  lemma {:induction false} SplitUndoesJoin(parts: seq<string>, delimiter: string)
    requires delimiter != []
    ensures Split(Join(parts, delimiter), delimiter) == parts <==> Splittable(parts, delimiter)
  {
    if Split(Join(parts, delimiter), delimiter) == parts {
      SplitIsSplittable(Join(parts, delimiter), delimiter, 0);
    }
    if Splittable(parts, delimiter) {
      SplitOfJoin(parts, delimiter);
    }
  }

  lemma {:induction false} SplitOfJoin(parts: seq<string>, delimiter: string)
    requires delimiter != [] && Splittable(parts, delimiter)
    ensures Split(Join(parts, delimiter), delimiter) == parts
  {
    hide Find, Split;
    var s := Join(parts, delimiter);
    if |parts| == 1 {
      assert s[0..] == s;
      SplitEnd(s, delimiter, 0, "");
    } else {
      var part, tail := parts[0], parts[1..];
      assert CutsAfter(part, delimiter);
      SplittableTail(parts, delimiter);
      SplitOfJoin(tail, delimiter);
      FrontCut(part, Join(tail, delimiter), delimiter);
      assert parts == [part] + tail;
    }
  }

  lemma SplittableTail(parts: seq<string>, delimiter: string)
    requires Splittable(parts, delimiter) && |parts| > 1
    ensures Splittable(parts[1..], delimiter)
  {
    hide Find, CutsAfter;
  }

  lemma FrontCut(part: string, rest: string, delimiter: string)
    requires delimiter != [] && CutsAfter(part, delimiter)
    ensures Split(part + delimiter + rest, delimiter) == [part] + Split(rest, delimiter)
  {
    hide Find, Split;
    var s := part + delimiter + rest;
    var cut := |part| + |delimiter|;
    FindStable(part + delimiter, s, delimiter, 0);
    SplitAt(s, delimiter, 0, |part|, "");
    SplitShift(s, delimiter, cut, cut);
    assert s[cut..] == rest && s[0..|part|] == part;
  }
}
