/** String searching and trimming helpers of common/common.cpp. */
module Text {
  import opened Basics

  /** `isspace` of the C locale. */
  predicate IsSpace(c: char) {
    c == ' ' || '\t' <= c <= '\r'
  }

  /** Space, tab, line feed, vertical tab, form feed and carriage return, nothing else. */
  lemma SpacesAre(c: char)
    ensures IsSpace(c) <==> c as int in [32, 9, 10, 11, 12, 13]
  {
  }

  predicate AllSpaces(s: string) {
    forall i :: 0 <= i < |s| ==> IsSpace(s[i])
  }

  // ---------- Searching ----------

  predicate OccursAt(s: string, pat: string, i: nat) {
    i + |pat| <= |s| && s[i..i + |pat|] == pat
  }

  /** `std::string::find`: the leftmost occurrence at or after `from`. */
  function Find(s: string, pat: string, from: nat): (r: Option<nat>)
    ensures r.Some? ==> from <= r.value && OccursAt(s, pat, r.value)
    ensures r.Some? ==> forall i :: from <= i < r.value ==> !OccursAt(s, pat, i)
    ensures r.None? ==> forall i :: from <= i ==> !OccursAt(s, pat, i)
    decreases |s| - from
  {
    if from + |pat| > |s| then None
    else if s[from..from + |pat|] == pat then Some(from)
    else Find(s, pat, from + 1)
  }

  lemma FoundAt(s: string, pat: string, from: nat, at: nat)
    requires from <= at && OccursAt(s, pat, at) && forall i :: from <= i < at ==> !OccursAt(s, pat, i)
    ensures Find(s, pat, from) == Some(at)
  {
    hide OccursAt;
  }

  lemma NotFound(s: string, pat: string, from: nat)
    requires forall i :: from <= i ==> !OccursAt(s, pat, i)
    ensures Find(s, pat, from) == None
  {
    hide OccursAt;
  }

  /** An occurrence wholly inside a prefix is the leftmost one in every extension. */
  lemma FindStable(p: string, q: string, pat: string, from: nat)
    requires p <= q && Find(p, pat, from).Some?
    ensures Find(q, pat, from) == Find(p, pat, from)
  {
    var e := Find(p, pat, from).value;
    assert p[e..e + |pat|] == q[e..e + |pat|];
    assert OccursAt(q, pat, e);
    forall i | from <= i < e ensures !OccursAt(q, pat, i) {
      assert !OccursAt(p, pat, i);
      assert p[i..i + |pat|] == q[i..i + |pat|];
    }
  }

  // ---------- Partial stops ----------

  /** The non-empty suffix of s from i on is a prefix of the stop string. */
  predicate PartialAt(s: string, stop: string, i: nat) {
    i < |s| && |s| - i <= |stop| && s[i..] == stop[..|s| - i]
  }

  /** The longest suffix of s that is a non-empty prefix of the stop string. */
  function PartialStop(s: string, stop: string, from: nat := 0): (r: Option<nat>)
    ensures r.Some? ==> from <= r.value && PartialAt(s, stop, r.value)
    ensures r.Some? ==> forall i :: from <= i < r.value ==> !PartialAt(s, stop, i)
    ensures r.None? ==> forall i :: from <= i ==> !PartialAt(s, stop, i)
    decreases |s| - from
  {
    if from >= |s| then None
    else if PartialAt(s, stop, from) then Some(from)
    else PartialStop(s, stop, from + 1)
  }

  /** `string_find_partial_stop`: tries every prefix of the stop string, longest first,
      skipping those that do not end in the last character of the text. */
  method FindPartialStop(s: string, stop: string) returns (r: Option<nat>)
    ensures r == PartialStop(s, stop)
  {
    if s != [] && stop != [] {
      var last := s[|s| - 1];
      var k := |stop| - 1;
      while k >= 0
        invariant -1 <= k < |stop|
        invariant forall i: nat :: PartialAt(s, stop, i) ==> |s| - i <= k + 1
      {
        if stop[k] == last {
          var prefix := stop[..k + 1];
          if |s| >= |prefix| && s[|s| - |prefix|..] == prefix {
            assert PartialAt(s, stop, |s| - k - 1);
            return Some(|s| - k - 1);
          }
        }
        forall i: nat | PartialAt(s, stop, i) ensures |s| - i <= k {
          assert s[i..][|s| - i - 1] == last;
        }
        k := k - 1;
      }
    }
    r := None;
  }

  /** Text before the partial stop can never become part of an occurrence: in every
      extension of s, the stop string occurs at the partial stop or later. */
  lemma OccurrenceNotBefore(p: string, q: string, stop: string, from: nat, i: nat)
    requires p <= q && from <= i && Find(p, stop, from).None? && OccursAt(q, stop, i)
    ensures i >= |p| || PartialAt(p, stop, i)
  {
    assert !OccursAt(p, stop, i);
    if i < |p| {
      assert p[i..] == q[i..i + |stop|][..|p| - i];
    }
  }

  /** A partial stop of an extension that starts inside p was a partial stop of p. */
  lemma PartialShrinks(p: string, q: string, stop: string, i: nat)
    requires p <= q && i < |p| && PartialAt(q, stop, i)
    ensures PartialAt(p, stop, i)
  {
    assert p[i..] == q[i..][..|p| - i];
  }

  /** Dropping the part of the text before `from` shifts partial stops. */
  lemma PartialSuffix(s: string, stop: string, from: nat, i: nat)
    requires from <= i < |s|
    ensures PartialAt(s[from..], stop, i - from) <==> PartialAt(s, stop, i)
  {
    assert s[from..][i - from..] == s[i..];
  }

  // ---------- Trimming ----------

  /** First position at or after `from` that is not a space, or the end. */
  function SkipSpaces(s: string, from: nat): (k: nat)
    requires from <= |s|
    ensures from <= k <= |s|
    ensures forall i :: from <= i < k ==> IsSpace(s[i])
    ensures k < |s| ==> !IsSpace(s[k])
    decreases |s| - from
  {
    if from < |s| && IsSpace(s[from]) then SkipSpaces(s, from + 1) else from
  }

  /** Length of s without its trailing spaces. */
  function TrimmedEnd(s: string): (k: nat)
    ensures k <= |s|
    ensures forall i :: k <= i < |s| ==> IsSpace(s[i])
    ensures k > 0 ==> !IsSpace(s[k - 1])
  {
    if s != [] && IsSpace(s[|s| - 1]) then TrimmedEnd(s[..|s| - 1]) else |s|
  }

  function Strip(s: string): string {
    var t := s[SkipSpaces(s, 0)..];
    t[..TrimmedEnd(t)]
  }

  /** Strip is the piece between the first and the last character that is not a space. */
  lemma StripIs(s: string, start: nat, end: nat)
    requires start <= end <= |s|
    requires AllSpaces(s[..start]) && AllSpaces(s[end..])
    requires start < end ==> !IsSpace(s[start]) && !IsSpace(s[end - 1])
    ensures Strip(s) == s[start..end]
  {
    var k := SkipSpaces(s, 0);
    assert forall i :: 0 <= i < start ==> s[i] == s[..start][i];
    assert forall i :: end <= i < |s| ==> s[i] == s[end..][i - end];
    if start < end {
      assert k == start;
      var t := s[start..];
      assert t[end - start - 1] == s[end - 1];
      assert TrimmedEnd(t) == end - start;
    } else {
      assert k == |s|;
    }
  }

  /** `string_strip`. */
  method StripLoop(s: string) returns (r: string)
    ensures r == Strip(s)
  {
    var start, end := 0, |s|;
    while start < end && IsSpace(s[start])
      invariant 0 <= start <= end == |s| && AllSpaces(s[..start])
    {
      start := start + 1;
    }
    while end > start && IsSpace(s[end - 1])
      invariant start <= end <= |s| && AllSpaces(s[end..])
      invariant start < end ==> !IsSpace(s[start])
    {
      end := end - 1;
    }
    StripIs(s, start, end);
    r := s[start..end];
  }

  lemma SkipSpacesStable(p: string, q: string, from: nat)
    requires p <= q && from <= |p|
    ensures SkipSpaces(p, from) <= SkipSpaces(q, from)
    ensures SkipSpaces(p, from) < |p| ==> SkipSpaces(q, from) == SkipSpaces(p, from)
  {
    var k, m := SkipSpaces(p, from), SkipSpaces(q, from);
    assert forall i :: 0 <= i < |p| ==> p[i] == q[i];
  }

  /** Stripped text only grows as the text grows. */
  lemma StripMonotone(p: string, q: string)
    requires p <= q
    ensures Strip(p) <= Strip(q)
  {
    SkipSpacesStable(p, q, 0);
    var k := SkipSpaces(p, 0);
    if k < |p| {
      var t, u := p[k..], q[k..];
      assert t <= u;
      var m := TrimmedEnd(t);
      assert m > 0;
      assert u[m - 1] == t[m - 1];
      assert TrimmedEnd(u) >= m;
    }
  }

  lemma StripAllSpaces(s: string)
    requires AllSpaces(s)
    ensures Strip(s) == []
  {}
}
