/**
  What the healed-JSON cleaner of common/chat-parser.cpp puts at the paths it is given: dumped
  arguments and content strings up to the healing marker, stated over the texts themselves;
  and that no marker is left, whatever the paths.
 */
module JsonCuts {
  import opened Basics
  import opened Text
  import opened JsonCleaner
  import opened JsonLaws

  // ---------- Cut texts ----------

  /** The text before the first occurrence of pat, or the whole text without one. */
  ghost predicate BeforeFirst(text: string, pat: string, cut: string, found: bool) {
    && cut <= text
    && (forall i :: 0 <= i < |cut| ==> !OccursAt(text, pat, i))
    && (if found then OccursAt(text, pat, |cut|) else cut == text && forall i :: 0 <= i ==> !OccursAt(text, pat, i))
  }

  /** The text put for dumped arguments: before the first dump marker of a partial healed parse, where a
      lone quote is made empty; the whole dump otherwise. */
  ghost predicate ArgText(t: Task, dumped: string, out: string, found: bool) {
    if t.partial && t.healed != "" then
      exists cut :: BeforeFirst(dumped, t.dumpMarker, cut, found) && out == if cut == "\"" then "" else cut
    else out == dumped && !found
  }

  lemma DumpIsArgText(t: Task, j: Json)
    ensures ArgText(t, t.dump(j), DumpArgs(t, j).0, DumpArgs(t, j).1)
  {
    var text := t.dump(j);
    var at := Find(text, t.dumpMarker, 0);
    assert BeforeFirst(text, t.dumpMarker, if at.Some? then text[..at.value] else text, at.Some?);
  }

  lemma ContentIsCut(t: Task, s: string)
    ensures BeforeFirst(s, t.healed, CutContent(t, s).0, CutContent(t, s).1)
  {
  }

  /** Nothing healed: a string that is the whole value is emptied, and reported as cut, if and only if the
      root is a content path; it is kept otherwise. */
  lemma UnhealedContentIsEmptied(t: Task, s: string)
    requires t.healed == "" && [] !in t.args
    ensures Clean(t, Str(s), Walk([], false))
            == if [] in t.contents then Cleaned(Str(""), Walk([], true)) else Cleaned(Str(s), Walk([], false))
  {
    assert OccursAt(s, "", 0);
  }

  /** The whole value at a listed path: arguments are dumped and cut, a content string is cut, a content
      path that holds no string fails. */
  lemma ListedValue(t: Task, j: Json, w: Walk)
    ensures w.path in t.args ==>
              var r := Clean(t, j, w);
              && r.Cleaned? && r.json.Str? && r.walk.path == w.path
              && ArgText(t, t.dump(j), r.json.s, DumpArgs(t, j).1) && r.walk.found == (w.found || DumpArgs(t, j).1)
    ensures w.path !in t.args && w.path in t.contents ==>
              var r := Clean(t, j, w);
              && (r.Cleaned? <==> j.Str?)
              && (j.Str? ==>
                    && r.json.Str? && BeforeFirst(j.s, t.healed, r.json.s, CutContent(t, j.s).1)
                    && r.walk.found == (w.found || CutContent(t, j.s).1))
  {
    DumpIsArgText(t, j);
    if j.Str? {
      ContentIsCut(t, j.s);
    }
  }

  // ---------- The value at a place ----------

  /** One step into a tree. */
  datatype Step = Key(key: string) | At(index: nat)

  /** The key path of a place: array items share the path of their array. */
  function Keys(steps: seq<Step>): seq<string> {
    if steps == [] then [] else (if steps[0].Key? then [steps[0].key] else []) + Keys(steps[1..])
  }

  /** The value at a place, always that of the first member of a key. */
  ghost function Look(j: Json, steps: seq<Step>): Option<Json>
    decreases |steps|, 1, 0
  {
    if steps == [] then Some(j)
    else if steps[0].Key? then (if j.Obj? then LookIn(j.members, steps[0].key, steps[1..]) else None)
    else if j.Arr? && steps[0].index < |j.items| then Look(j.items[steps[0].index], steps[1..])
    else None
  }

  ghost function LookIn(ms: seq<Member>, key: string, rest: seq<Step>): Option<Json>
    decreases |rest|, 2, |ms|
  {
    if ms == [] then None
    else if ms[0].key == key then Look(ms[0].value, rest)
    else LookIn(ms[1..], key, rest)
  }

  /** v stands at this place and no marker stands before it. */
  ghost predicate Reached(marker: string, j: Json, steps: seq<Step>, v: Json)
    decreases |steps|, 1, 0
  {
    if steps == [] then v == j
    else if steps[0].Key? then j.Obj? && ReachedIn(marker, j.members, steps[0].key, steps[1..], v)
    else j.Arr? && ReachedAt(marker, j.items, steps[0].index, steps[1..], v)
  }

  ghost predicate ReachedIn(marker: string, ms: seq<Member>, key: string, rest: seq<Step>, v: Json)
    decreases |rest|, 2, |ms|
  {
    && ms != []
    && !Contains(ms[0].key, marker)
    && if ms[0].key == key then Reached(marker, ms[0].value, rest, v)
       else !Marked(marker, ms[0].value) && ReachedIn(marker, ms[1..], key, rest, v)
  }

  ghost predicate ReachedAt(marker: string, items: seq<Json>, i: nat, rest: seq<Step>, v: Json)
    decreases |rest|, 2, 0
  {
    && i < |items|
    && (forall k :: 0 <= k < i ==> !Marked(marker, items[k]))
    && Reached(marker, items[i], rest, v)
  }

  /** Neither the path nor that of any step towards this place, short of the last, is listed. */
  ghost predicate Open(t: Task, path: seq<string>, steps: seq<Step>)
    decreases |steps|
  {
    steps == [] ||
    (path !in t.args && path !in t.contents && Open(t, if steps[0].Key? then path + [steps[0].key] else path, steps[1..]))
  }

  /** What a value v below the root at this path has become: a string without the marker is kept; one with
      it goes unless the path is a content path and the healing happened inside the string; arguments are
      dumped and cut, content is cut; other leaves are kept. */
  ghost predicate Becomes(t: Task, path: seq<string>, v: Json, out: Option<Json>, found: bool) {
    if v.Str? && !Contains(v.s, t.marker) then out == Some(v)
    else if v.Str? && !(path in t.contents && t.healed == t.dumpMarker) then out == None && found
    else if path in t.args then
      out.Some? && out.value.Str? && exists cut :: ArgText(t, t.dump(v), out.value.s, cut) && (cut ==> found)
    else if path in t.contents then
      v.Str? && found && out.Some? && out.value.Str? && exists cut :: BeforeFirst(v.s, t.healed, out.value.s, cut)
    else if v.Obj? || v.Arr? then out.Some?
    else out == Some(v)
  }

  lemma {:induction false} LookPut(ms: seq<Member>, at: string, value: Json, key: string, rest: seq<Step>)
    ensures LookIn(Put(ms, at, value), key, rest) == if at == key then Look(value, rest) else LookIn(ms, key, rest)
  {
    if ms == [] {
      assert [Member(at, value)][1..] == [];
    } else if ms[0].key != at {
      LookPut(ms[1..], at, value, key, rest);
      assert ([ms[0]] + Put(ms[1..], at, value))[1..] == Put(ms[1..], at, value);
    }
  }

  // ---------- The rest of the loop leaves an entry alone ----------

  lemma {:induction false} FoundStays(t: Task, j: Json, w: Walk)
    requires w.found && Clean(t, j, w).Cleaned?
    ensures Clean(t, j, w).walk.found
    decreases j, 1
  {
    if w.path !in t.args && w.path !in t.contents {
      match j
      case Obj(ms) => FoundStaysMembers(t, ms, w, []);
      case Arr(items) => FoundStaysItems(t, items, w, []);
      case _ =>
    }
  }

  lemma {:induction false} FoundStaysMembers(t: Task, ms: seq<Member>, w: Walk, done: seq<Member>)
    requires w.found && CleanMembers(t, ms, w, done).Cleaned?
    ensures CleanMembers(t, ms, w, done).walk.found
    decreases ms, 0
  {
    hide DumpArgs, CutContent, Put, Contains;
    if ms != [] && !Contains(ms[0].key, t.marker) {
      var key, value := ms[0].key, ms[0].value;
      var here := w.path + [key];
      if value.Str? && Contains(value.s, t.marker) {
        if here in t.contents && t.healed == t.dumpMarker {
          FoundStays(t, value, Walk(here, true));
        }
      } else if value.Str? {
        FoundStaysMembers(t, ms[1..], w, Put(done, key, value));
      } else {
        FoundStays(t, value, w.(path := here));
        var r := Clean(t, value, w.(path := here));
        FoundStaysMembers(t, ms[1..], r.walk.(path := r.walk.path[..|r.walk.path| - 1]), Put(done, key, r.json));
      }
    }
  }

  lemma {:induction false} FoundStaysItems(t: Task, items: seq<Json>, w: Walk, done: seq<Json>)
    requires w.found && CleanItems(t, items, w, done).Cleaned?
    ensures CleanItems(t, items, w, done).walk.found
    decreases items, 0
  {
    if items != [] && !(items[0].Str? && Contains(items[0].s, t.marker)) {
      FoundStays(t, items[0], w);
      var r := Clean(t, items[0], w);
      FoundStaysItems(t, items[1..], r.walk, done + [r.json]);
    }
  }

  lemma {:induction false} OthersStay(t: Task, ms: seq<Member>, w: Walk, done: seq<Member>, key: string, rest: seq<Step>)
    requires CleanMembers(t, ms, w, done).Cleaned?
    requires forall i :: 0 <= i < |ms| ==> ms[i].key != key
    ensures var r := CleanMembers(t, ms, w, done); r.json.Obj? && LookIn(r.json.members, key, rest) == LookIn(done, key, rest)
    decreases |ms|
  {
    hide DumpArgs, CutContent, Put, Contains, Clean;
    if ms != [] && !Contains(ms[0].key, t.marker) {
      var at, value := ms[0].key, ms[0].value;
      var here := w.path + [at];
      if value.Str? && Contains(value.s, t.marker) {
        if here in t.contents && t.healed == t.dumpMarker {
          LookPut(done, at, Clean(t, value, Walk(here, true)).json, key, rest);
        }
      } else if value.Str? {
        LookPut(done, at, value, key, rest);
        OthersStay(t, ms[1..], w, Put(done, at, value), key, rest);
      } else {
        var r := Clean(t, value, w.(path := here));
        LookPut(done, at, r.json, key, rest);
        OthersStay(t, ms[1..], r.walk.(path := r.walk.path[..|r.walk.path| - 1]), Put(done, at, r.json), key, rest);
      }
    }
  }

  lemma {:induction false} ItemsStay(t: Task, items: seq<Json>, w: Walk, done: seq<Json>)
    requires CleanItems(t, items, w, done).Cleaned?
    ensures var r := CleanItems(t, items, w, done); r.json.Arr? && done <= r.json.items
    decreases |items|
  {
    hide Contains, Clean;
    if items != [] && !(items[0].Str? && Contains(items[0].s, t.marker)) {
      var r := Clean(t, items[0], w);
      ItemsStay(t, items[1..], r.walk, done + [r.json]);
    }
  }

  // ---------- What stands at a place afterwards ----------

  /** Whatever the lists and whatever marks the rest of the tree: a value reached before any marker has
      become, at its own place in the result, what the lists say about its path. */
  lemma {:induction false} ReachedBecomes(t: Task, j: Json, w: Walk, steps: seq<Step>, v: Json)
    requires steps != [] && Reached(t.marker, j, steps, v) && Open(t, w.path, steps)
    requires DistinctKeys(j) && Clean(t, j, w).Cleaned?
    ensures var r := Clean(t, j, w); Becomes(t, w.path + Keys(steps), v, Look(r.json, steps), r.walk.found)
    decreases |steps|, 1, 0
  {
    hide ReachedIn, CleanMembers, CleanItems, Becomes;
    if steps[0].Key? {
      assert LookIn([], steps[0].key, steps[1..]) == None;
      assert w.path + Keys(steps) == w.path + [steps[0].key] + Keys(steps[1..]);
      ReachedInBecomes(t, j.members, w, [], steps[0].key, steps[1..], v);
    } else {
      assert [] + Keys(steps[1..]) == Keys(steps[1..]);
      ReachedAtBecomes(t, j.items, w, [], steps[0].index, steps[1..], v);
    }
  }

  lemma {:induction false} ReachedInBecomes(t: Task, ms: seq<Member>, w: Walk, done: seq<Member>, key: string, rest: seq<Step>, v: Json)
    requires ReachedIn(t.marker, ms, key, rest, v) && Open(t, w.path + [key], rest)
    requires DistinctKeys(Obj(ms)) && LookIn(done, key, rest) == None && CleanMembers(t, ms, w, done).Cleaned?
    ensures var r := CleanMembers(t, ms, w, done);
            r.json.Obj? && Becomes(t, w.path + [key] + Keys(rest), v, LookIn(r.json.members, key, rest), r.walk.found)
    decreases |rest|, 3, |ms|
  {
    hide Contains, Becomes, DumpArgs, CutContent, Put, Marked, Look, LookIn, Clean;
    var at, value := ms[0].key, ms[0].value;
    assert DistinctKeys(value) && DistinctKeys(Obj(ms[1..]));
    if at == key {
      MemberBecomes(t, ms, w, done, rest, v);
    } else if value.Str? {
      StringMarked(t.marker, value);
      LookPut(done, at, value, key, rest);
      ReachedInBecomes(t, ms[1..], w, Put(done, at, value), key, rest, v);
    } else {
      var here := w.path + [at];
      assert here[..|here| - 1] == w.path;
      PathIsTrue(t, value, w.(path := here));
      var r := Clean(t, value, w.(path := here));
      LookPut(done, at, r.json, key, rest);
      ReachedInBecomes(t, ms[1..], r.walk.(path := w.path), Put(done, at, r.json), key, rest, v);
    }
  }

  lemma BecomesMore(t: Task, path: seq<string>, v: Json, out: Option<Json>, found: bool, later: bool)
    requires Becomes(t, path, v, out, found) && (found ==> later)
    ensures Becomes(t, path, v, out, later)
  {
    hide ArgText, BeforeFirst, Contains;
  }

  /** The member itself, or a value inside it. */
  lemma {:induction false} MemberBecomes(t: Task, ms: seq<Member>, w: Walk, done: seq<Member>, rest: seq<Step>, v: Json)
    requires ms != [] && ReachedIn(t.marker, ms, ms[0].key, rest, v) && Open(t, w.path + [ms[0].key], rest)
    requires DistinctKeys(Obj(ms)) && LookIn(done, ms[0].key, rest) == None && CleanMembers(t, ms, w, done).Cleaned?
    ensures var r := CleanMembers(t, ms, w, done);
            r.json.Obj? && Becomes(t, w.path + [ms[0].key] + Keys(rest), v, LookIn(r.json.members, ms[0].key, rest), r.walk.found)
    decreases |rest|, 2, 0
  {
    hide Contains, DumpArgs, CutContent, Put, Clean, Becomes;
    var key, value := ms[0].key, ms[0].value;
    var here := w.path + [key];
    assert here[..|here| - 1] == w.path;
    if value.Str? {
      assert rest == [] && v == value;
      StringBecomes(t, ms, w, done);
    } else {
      var r := Clean(t, value, w.(path := here));
      var walk, after := r.walk.(path := r.walk.path[..|r.walk.path| - 1]), Put(done, key, r.json);
      PartBecomes(t, value, w.(path := here), rest, v);
      LookPut(done, key, r.json, key, rest);
      OthersStay(t, ms[1..], walk, after, key, rest);
      if r.walk.found {
        FoundStaysMembers(t, ms[1..], walk, after);
      }
      BecomesMore(t, here + Keys(rest), v, Look(r.json, rest), r.walk.found, CleanMembers(t, ms, w, done).walk.found);
    }
  }

  /** A value that is cleaned by itself, or one inside it. */
  lemma {:induction false} PartBecomes(t: Task, value: Json, w: Walk, rest: seq<Step>, v: Json)
    requires Reached(t.marker, value, rest, v) && Open(t, w.path, rest) && DistinctKeys(value) && Clean(t, value, w).Cleaned?
    requires value.Str? ==> !Contains(value.s, t.marker) && w.path !in t.args && w.path !in t.contents
    ensures var r := Clean(t, value, w); Becomes(t, w.path + Keys(rest), v, Look(r.json, rest), r.walk.found)
    decreases |rest|, 1, 1
  {
    hide Becomes, Clean, Contains;
    if rest == [] {
      assert w.path + Keys(rest) == w.path;
      ValueBecomes(t, value, w);
    } else {
      ReachedBecomes(t, value, w, rest, v);
    }
  }

  lemma ValueBecomes(t: Task, value: Json, w: Walk)
    requires Clean(t, value, w).Cleaned?
    requires value.Str? ==> !Contains(value.s, t.marker) && w.path !in t.args && w.path !in t.contents
    ensures var r := Clean(t, value, w); Becomes(t, w.path, value, Some(r.json), r.walk.found)
  {
    hide Contains, DumpArgs, CutContent, CleanMembers, CleanItems;
    ListedValue(t, value, w);
  }

  lemma StringBecomes(t: Task, ms: seq<Member>, w: Walk, done: seq<Member>)
    requires ms != [] && ms[0].value.Str? && !Contains(ms[0].key, t.marker)
    requires DistinctKeys(Obj(ms)) && LookIn(done, ms[0].key, []) == None && CleanMembers(t, ms, w, done).Cleaned?
    ensures var r := CleanMembers(t, ms, w, done);
            r.json.Obj? && Becomes(t, w.path + [ms[0].key] + Keys([]), ms[0].value, LookIn(r.json.members, ms[0].key, []), r.walk.found)
  {
    hide Contains, DumpArgs, CutContent, Put;
    var key, value := ms[0].key, ms[0].value;
    var here := w.path + [key];
    assert here + Keys([]) == here;
    if !Contains(value.s, t.marker) {
      LookPut(done, key, value, key, []);
      OthersStay(t, ms[1..], w, Put(done, key, value), key, []);
    } else if here in t.contents && t.healed == t.dumpMarker {
      ListedValue(t, value, Walk(here, true));
      LookPut(done, key, Clean(t, value, Walk(here, true)).json, key, []);
    }
  }

  /** The item at this place of an array, after those done. */
  ghost predicate ItemBecomes(t: Task, r: Cleaned, place: nat, path: seq<string>, rest: seq<Step>, v: Json) {
    && r.Cleaned? && r.json.Arr?
    && Becomes(t, path, v, if place < |r.json.items| then Look(r.json.items[place], rest) else None, r.walk.found)
  }

  lemma {:induction false} ReachedAtBecomes(t: Task, items: seq<Json>, w: Walk, done: seq<Json>, i: nat, rest: seq<Step>, v: Json)
    requires ReachedAt(t.marker, items, i, rest, v) && Open(t, w.path, rest) && w.path !in t.args && w.path !in t.contents
    requires DistinctKeys(Arr(items)) && CleanItems(t, items, w, done).Cleaned?
    ensures ItemBecomes(t, CleanItems(t, items, w, done), |done| + i, w.path + Keys(rest), rest, v)
    decreases |rest|, 2, i
  {
    hide Contains, Becomes, Marked, Look, Clean;
    if items[0].Str? && Contains(items[0].s, t.marker) {
      StringMarked(t.marker, items[0]);
      assert i == 0 && rest == [] && v == items[0];
      assert w.path + Keys(rest) == w.path;
      DroppedBecomes(t, w.path, v);
    } else {
      var r := Clean(t, items[0], w);
      if i == 0 {
        PartBecomes(t, items[0], w, rest, v);
        ItemsStay(t, items[1..], r.walk, done + [r.json]);
        if r.walk.found {
          FoundStaysItems(t, items[1..], r.walk, done + [r.json]);
        }
        BecomesMore(t, w.path + Keys(rest), v, Look(r.json, rest), r.walk.found, CleanItems(t, items, w, done).walk.found);
      } else {
        PathIsTrue(t, items[0], w);
        ReachedAtBecomes(t, items[1..], r.walk, done + [r.json], i - 1, rest, v);
      }
    }
  }

  lemma DroppedBecomes(t: Task, path: seq<string>, v: Json)
    requires v.Str? && Contains(v.s, t.marker) && path !in t.contents
    ensures Becomes(t, path, v, None, true)
  {
  }

  // ---------- No marker is left ----------

  /** The marker stands in this text before anything that could be cut. */
  ghost predicate Uncut(t: Task, dumped: string) {
    exists i :: UncutAt(t, dumped, i)
  }

  ghost predicate UncutAt(t: Task, dumped: string, i: nat) {
    OccursAt(dumped, t.marker, i) && forall k :: 0 <= k < i + |t.marker| ==> !OccursAt(dumped, t.dumpMarker, k)
  }

  lemma CutMarker(t: Task, dumped: string, cut: string, found: bool)
    requires BeforeFirst(dumped, t.dumpMarker, cut, found)
    ensures Contains(cut, t.marker) <==> Uncut(t, dumped)
  {
    if Contains(cut, t.marker) {
      var i := Find(cut, t.marker, 0).value;
      assert dumped[i..i + |t.marker|] == cut[i..i + |t.marker|];
      assert UncutAt(t, dumped, i);
    }
    if Uncut(t, dumped) {
      var i: nat :| UncutAt(t, dumped, i);
      assert i + |t.marker| <= |cut|;
      assert cut[i..i + |t.marker|] == dumped[i..i + |t.marker|];
      assert OccursAt(cut, t.marker, i);
    }
  }

  /** Dumped arguments keep the marker exactly when it stands before the first dump marker. */
  lemma DumpedMarker(t: Task, dumped: string, out: string, found: bool)
    requires t.partial && t.healed != "" && t.marker != "" && t.marker != "\""
    requires ArgText(t, dumped, out, found)
    ensures Contains(out, t.marker) <==> Uncut(t, dumped)
  {
    hide BeforeFirst, Uncut, Contains;
    var cut :| BeforeFirst(dumped, t.dumpMarker, cut, found) && out == if cut == "\"" then "" else cut;
    QuoteUnmarked(t.marker);
    CutMarker(t, dumped, cut, found);
  }

  lemma QuoteUnmarked(marker: string)
    requires marker != "" && marker != "\""
    ensures !Contains("", marker) && !Contains("\"", marker)
  {
    forall i: nat ensures !OccursAt("\"", marker, i) {
      if i == 0 && |marker| == 1 {
        assert "\""[0..1] == "\"";
      }
    }
  }

  lemma CutUnmarked(text: string, pat: string, cut: string, found: bool)
    requires BeforeFirst(text, pat, cut, found) && pat != ""
    ensures !Contains(cut, pat)
  {
    forall i: nat ensures !OccursAt(cut, pat, i) {
      if i + |pat| <= |cut| {
        assert cut[i..i + |pat|] == text[i..i + |pat|];
        assert !OccursAt(text, pat, i);
      }
    }
  }

  /** No subtree is dumped with the marker before its first dump marker. */
  ghost predicate DumpsCut(t: Task, j: Json) {
    && !Uncut(t, t.dump(j))
    && match j
       case Arr(items) => forall i :: 0 <= i < |items| ==> DumpsCut(t, items[i])
       case Obj(ms) => forall i :: 0 <= i < |ms| ==> DumpsCut(t, ms[i].value)
       case _ => true
  }

  /** A parse healed with the parser's marker, of which the given lists dump and cut parts. */
  ghost predicate Healed(t: Task) {
    t.partial && t.healed == t.marker && t.marker != "" && t.marker != "\""
  }

  /** When the healing happened inside a string the dump marker is the marker: nothing can stand before it. */
  lemma {:induction false} InsideString(t: Task, j: Json)
    requires t.dumpMarker == t.marker && t.marker != ""
    ensures DumpsCut(t, j)
  {
    assert forall i :: !UncutAt(t, t.dump(j), i);
    match j
    case Arr(items) =>
      forall i | 0 <= i < |items| ensures DumpsCut(t, items[i]) {
        InsideString(t, items[i]);
      }
    case Obj(ms) =>
      forall i | 0 <= i < |ms| ensures DumpsCut(t, ms[i].value) {
        InsideString(t, ms[i].value);
      }
    case _ =>
  }

  lemma ListedUnmarked(t: Task, j: Json, w: Walk)
    requires Healed(t) && DumpsCut(t, j) && (w.path in t.args || w.path in t.contents) && Clean(t, j, w).Cleaned?
    ensures !Marked(t.marker, Clean(t, j, w).json)
  {
    hide DumpArgs, CutContent, ArgText, BeforeFirst, Uncut, Contains;
    if w.path in t.args {
      DumpIsArgText(t, j);
      DumpedMarker(t, t.dump(j), DumpArgs(t, j).0, DumpArgs(t, j).1);
    } else {
      ContentIsCut(t, j.s);
      CutUnmarked(j.s, t.healed, CutContent(t, j.s).0, CutContent(t, j.s).1);
    }
  }

  /** The walk itself leaves no marker in any key or string of an object or array, whatever the lists and
      wherever its path was left. */
  lemma {:induction false} CleanRemovesMarker(t: Task, j: Json, w: Walk)
    requires Healed(t) && DumpsCut(t, j) && Clean(t, j, w).Cleaned?
    requires !j.Str? || w.path in t.args || w.path in t.contents
    ensures !Marked(t.marker, Clean(t, j, w).json)
    decreases j, 1
  {
    if w.path in t.args || w.path in t.contents {
      ListedUnmarked(t, j, w);
    } else {
      hide DumpArgs, CutContent, Contains;
      match j
      case Obj(ms) => CleanRemovesMembers(t, ms, w, []);
      case Arr(items) => CleanRemovesItems(t, items, w, []);
      case _ =>
    }
  }

  lemma {:induction false} CleanRemovesMembers(t: Task, ms: seq<Member>, w: Walk, done: seq<Member>)
    requires Healed(t) && forall i :: 0 <= i < |ms| ==> DumpsCut(t, ms[i].value)
    requires !Marked(t.marker, Obj(done)) && CleanMembers(t, ms, w, done).Cleaned?
    ensures !Marked(t.marker, CleanMembers(t, ms, w, done).json)
    decreases ms, 0
  {
    hide DumpArgs, CutContent, Put, Contains, DumpsCut, Clean, Marked;
    if ms != [] && !Contains(ms[0].key, t.marker) {
      var key, value := ms[0].key, ms[0].value;
      var here := w.path + [key];
      if value.Str? && Contains(value.s, t.marker) {
        if here in t.contents && t.healed == t.dumpMarker {
          CleanRemovesMarker(t, value, Walk(here, true));
          PutUnmarked(t.marker, done, key, Clean(t, value, Walk(here, true)).json);
        }
      } else if value.Str? {
        StringMarked(t.marker, value);
        PutUnmarked(t.marker, done, key, value);
        CleanRemovesMembers(t, ms[1..], w, Put(done, key, value));
      } else {
        var r := Clean(t, value, w.(path := here));
        CleanRemovesMarker(t, value, w.(path := here));
        PutUnmarked(t.marker, done, key, r.json);
        CleanRemovesMembers(t, ms[1..], r.walk.(path := r.walk.path[..|r.walk.path| - 1]), Put(done, key, r.json));
      }
    }
  }

  lemma StringMarked(marker: string, j: Json)
    requires j.Str?
    ensures Marked(marker, j) <==> Contains(j.s, marker)
  {
  }

  lemma {:induction false} CleanRemovesItems(t: Task, items: seq<Json>, w: Walk, done: seq<Json>)
    requires Healed(t) && forall i :: 0 <= i < |items| ==> DumpsCut(t, items[i])
    requires !Marked(t.marker, Arr(done)) && CleanItems(t, items, w, done).Cleaned?
    ensures !Marked(t.marker, CleanItems(t, items, w, done).json)
    decreases items, 0
  {
    hide DumpArgs, CutContent, Contains, DumpsCut;
    if items != [] && !(items[0].Str? && Contains(items[0].s, t.marker)) {
      var r := Clean(t, items[0], w);
      ItemUnmarked(t, items[0], w);
      CleanRemovesItems(t, items[1..], r.walk, done + [r.json]);
    }
  }

  lemma {:induction false} ItemUnmarked(t: Task, j: Json, w: Walk)
    requires Healed(t) && DumpsCut(t, j) && Clean(t, j, w).Cleaned? && (j.Str? ==> !Contains(j.s, t.marker))
    ensures !Marked(t.marker, Clean(t, j, w).json)
    decreases j, 2
  {
    hide Contains, DumpsCut, DumpArgs, CutContent;
    if !j.Str? || w.path in t.args || w.path in t.contents {
      CleanRemovesMarker(t, j, w);
    }
  }

  // ---------- From the root ----------

  /** v stands at this place below the root, reached before any marker, and no step towards it is listed. */
  ghost predicate StandsAt(t: Task, j: Json, steps: seq<Step>, v: Json) {
    steps != [] && Reached(t.marker, j, steps, v) && Open(t, [], steps)
  }

  lemma StandingBecomes(t: Task, j: Json)
    requires DistinctKeys(j) && Clean(t, j, Walk([], false)).Cleaned?
    ensures var r := Clean(t, j, Walk([], false));
            forall steps, v :: StandsAt(t, j, steps, v) ==> Becomes(t, Keys(steps), v, Look(r.json, steps), r.walk.found)
  {
    hide Reached, Open, Becomes, Look, Clean, Keys;
    forall steps, v | StandsAt(t, j, steps, v)
      ensures Becomes(t, Keys(steps), v, Look(Clean(t, j, Walk([], false)).json, steps), Clean(t, j, Walk([], false)).walk.found)
    {
      ReachedBecomes(t, j, Walk([], false), steps, v);
      assert [] + Keys(steps) == Keys(steps);
    }
  }

  /** Arguments that broke off inside a string: what was received of them stays. */
  lemma HealedArguments(t: Task)
    requires t == Task("M", "M", "M", true, [["arguments"]], [], t.dump)
    requires t.dump(Obj([Member("a", Str("xM"))])) == "{\"a\":\"xM\"}"
    ensures var j := Obj([Member("arguments", Obj([Member("a", Str("xM"))]))]);
            Clean(t, j, Walk([], false)) == Cleaned(Obj([Member("arguments", Str("{\"a\":\"x"))]), Walk([], true))
  {
    hide *;
    var v := Obj([Member("a", Str("xM"))]);
    NoM("arguments");
    CutBeforeM(t, v);
    OneArgument(t, "arguments", v);
  }

  /** The only member of an object, at an argument path. */
  lemma OneArgument(t: Task, key: string, v: Json)
    requires t.args == [[key]] && t.contents == [] && !Contains(key, t.marker) && !v.Str?
    ensures Clean(t, Obj([Member(key, v)]), Walk([], false))
            == Cleaned(Obj([Member(key, Str(DumpArgs(t, v).0))]), Walk([], DumpArgs(t, v).1))
  {
    hide Contains, DumpArgs;
    var ms, root: seq<string>, cut := [Member(key, v)], [], DumpArgs(t, v);
    assert root !in t.args && root + [key] == [key] && [key][..0] == root;
    assert ms[1..] == [] && Put([], key, Str(cut.0)) == [Member(key, Str(cut.0))];
    assert Clean(t, v, Walk([key], false)) == Cleaned(Str(cut.0), Walk([key], cut.1));
    assert CleanMembers(t, [], Walk(root, cut.1), [Member(key, Str(cut.0))]) == Cleaned(Obj([Member(key, Str(cut.0))]), Walk(root, cut.1));
  }

  lemma NoM(s: string)
    requires forall i :: 0 <= i < |s| ==> s[i] != 'M'
    ensures !Contains(s, "M")
  {
    forall i: nat ensures !OccursAt(s, "M", i) {
      if i + 1 <= |s| {
        assert s[i..i + 1][0] == s[i];
      }
    }
  }

  lemma CutBeforeM(t: Task, v: Json)
    requires t.partial && t.healed == "M" && t.dumpMarker == "M" && t.dump(v) == "{\"a\":\"xM\"}"
    ensures DumpArgs(t, v) == ("{\"a\":\"x", true)
  {
    var text := t.dump(v);
    forall i: nat | i < 7 ensures !OccursAt(text, "M", i) {
      assert text[i..i + 1][0] == text[i];
    }
    assert text[7..8] == "M" && text[..7] == "{\"a\":\"x";
    FoundAt(text, "M", 0, 7);
  }
}
