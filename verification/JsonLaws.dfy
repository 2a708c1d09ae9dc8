/** What the healed-JSON cleaner guarantees, and when its shared path can be trusted. */
module JsonLaws {
  import opened JsonCleaner

  // ---------- The shared path before and at the marker ----------

  /** The pure result as the walk would report it, with the path restored. */
  ghost function Restored(r: Pure, w: Walk): Cleaned {
    match r
    case Fails => Throws
    case Pure(j, f) => Cleaned(j, w.(found := w.found || f))
  }

  /** Same value, same failure and same flag, whatever the path was left at. */
  ghost predicate Agrees(a: Cleaned, b: Pure, found: bool) {
    match b
    case Fails => a == Throws
    case Pure(j, f) => a.Cleaned? && a.json == j && a.walk.found == (found || f)
  }

  /** On a subtree without the marker the shared path is the true key path at every node
      and is back where it was at the end: the walk is the pure recursion. */
  lemma {:induction false} PathIsTrue(t: Task, j: Json, w: Walk)
    requires !Marked(t.marker, j)
    ensures Clean(t, j, w) == Restored(Clear(t, j, w.path), w)
    decreases j, 1
  {
    if w.path !in t.args && w.path !in t.contents {
      match j
      case Obj(ms) => PathIsTrueMembers(t, ms, w, []);
      case Arr(items) => PathIsTrueItems(t, items, w, []);
      case _ =>
    }
  }

  lemma {:induction false} PathIsTrueMembers(t: Task, ms: seq<Member>, w: Walk, done: seq<Member>)
    requires forall i :: 0 <= i < |ms| ==> !MarkedMember(t.marker, ms[i])
    ensures CleanMembers(t, ms, w, done) == Restored(ClearMembers(t, ms, w.path, done), w)
    decreases ms, 0
  {
    if ms != [] {
      var key, value := ms[0].key, ms[0].value;
      assert !MarkedMember(t.marker, ms[0]);
      if value.Str? {
        PathIsTrueMembers(t, ms[1..], w, Put(done, key, value));
      } else {
        var here := w.path + [key];
        assert here[..|here| - 1] == w.path;
        PathIsTrue(t, value, w.(path := here));
        match Clear(t, value, here)
        case Fails =>
        case Pure(v, f) => PathIsTrueMembers(t, ms[1..], w.(found := w.found || f), Put(done, key, v));
      }
    }
  }

  lemma {:induction false} PathIsTrueItems(t: Task, items: seq<Json>, w: Walk, done: seq<Json>)
    requires forall i :: 0 <= i < |items| ==> !Marked(t.marker, items[i])
    ensures CleanItems(t, items, w, done) == Restored(ClearItems(t, items, w.path, done), w)
    decreases items, 0
  {
    if items != [] {
      PathIsTrue(t, items[0], w);
      match Clear(t, items[0], w.path)
      case Fails =>
      case Pure(v, f) => PathIsTrueItems(t, items[1..], w.(found := w.found || f), done + [v]);
    }
  }

  /** Past the marker the shared path is stale: the key left behind by the break makes the
      walk miss an argument subtree that the pure recursion dumps. */
  lemma StalePath(dump: Json -> string)
    ensures var t := Task("M", "M", "M", true, [["b"]], [], dump);
            var j := Obj([Member("a", Obj([Member("x", Str("M"))])), Member("b", Null)]);
            && Clean(t, j, Walk([], false)) == Cleaned(Obj([Member("a", Obj([])), Member("b", Null)]), Walk(["a"], true))
            && Clear(t, j, []) == Pure(Obj([Member("a", Obj([])), Member("b", Str(DumpArgs(t, Null).0))]), true)
  {
    var t := Task("M", "M", "M", true, [["b"]], [], dump);
    var inner := Obj([Member("x", Str("M"))]);
    var ms := [Member("a", inner), Member("b", Null)];
    StaleInner(t);
    StaleTail(t);
    StaleHead(t, ms, inner);
    hide Contains, DumpArgs, CleanMembers, ClearMembers, Put;
    assert Clean(t, Obj(ms), Walk([], false)) == CleanMembers(t, ms, Walk([], false), []);
    assert Clear(t, Obj(ms), []) == ClearMembers(t, ms, [], []);
  }

  lemma StaleHead(t: Task, ms: seq<Member>, inner: Json)
    requires t.args == [["b"]] && t.contents == [] && t.marker == "M"
    requires inner == Obj([Member("x", Str("M"))]) && ms == [Member("a", inner), Member("b", Null)]
    ensures CleanMembers(t, ms, Walk([], false), []) == CleanMembers(t, [Member("b", Null)], Walk(["a"], true), [Member("a", Obj([]))])
    ensures ClearMembers(t, ms, [], []) == Also(true, ClearMembers(t, [Member("b", Null)], [], [Member("a", Obj([]))]))
  {
    StaleInner(t);
    hide Contains, DumpArgs, Clean, Clear, Put;
    var path: seq<string> := [];
    assert path + ["a"] == ["a"] && ["a", "x"][..1] == ["a"];
    assert ms[1..] == [Member("b", Null)] && ms[0] == Member("a", inner);
  }

  lemma StaleInner(t: Task)
    requires t.args == [["b"]] && t.contents == [] && t.marker == "M"
    ensures var inner := Obj([Member("x", Str("M"))]);
            && Clean(t, inner, Walk(["a"], false)) == Cleaned(Obj([]), Walk(["a", "x"], true))
            && Clear(t, inner, ["a"]) == Pure(Obj([]), true)
    ensures [] !in t.args && !Contains("a", "M") && Put([], "a", Obj([])) == [Member("a", Obj([]))]
  {
    OneLetter("M"[0]);
    OneLetter("a"[0]);
    OneLetter("x"[0]);
    assert ["M"[0]] == "M" && ["a"[0]] == "a" && ["x"[0]] == "x";
    hide Contains, DumpArgs;
    assert ["a"] !in t.args by { assert ["a"][0] != ["b"][0]; }
    assert ["a"] + ["x"] == ["a", "x"];
  }

  lemma OneLetter(c: char)
    ensures Contains([c], "M") <==> c == 'M'
  {
    assert [c][0..1] == [c] && "M"[0] == 'M';
    assert [c] == "M" <==> c == 'M';
  }

  lemma StaleTail(t: Task)
    requires t.args == [["b"]] && t.contents == [] && t.marker == "M"
    ensures var ms, done := [Member("b", Null)], [Member("a", Obj([]))];
            && CleanMembers(t, ms, Walk(["a"], true), done) == Cleaned(Obj([Member("a", Obj([])), Member("b", Null)]), Walk(["a"], true))
            && ClearMembers(t, ms, [], done) == Pure(Obj([Member("a", Obj([])), Member("b", Str(DumpArgs(t, Null).0))]), DumpArgs(t, Null).1)
  {
    var ms, done := [Member("b", Null)], [Member("a", Obj([]))];
    var path: seq<string> := [];
    hide Contains, DumpArgs;
    OneLetter("b"[0]);
    assert ["b"[0]] == "b" && ms[1..] == [] && done[1..] == [];
    assert ["a"] + ["b"] == ["a", "b"] && path + ["b"] == ["b"] && ["a", "b"][..1] == ["a"];
    assert ["a", "b"] !in t.args by { assert |["a", "b"]| != |["b"]|; }
    assert Put([], "b", Null) == [Member("b", Null)] && Put(done, "b", Null) == [done[0]] + Put(done[1..], "b", Null);
    assert Put(done, "b", Null) == [Member("a", Obj([])), Member("b", Null)];
    assert Clean(t, Null, Walk(["a", "b"], true)) == Cleaned(Null, Walk(["a", "b"], true));
    assert CleanMembers(t, ms[1..], Walk(["a"], true), Put(done, "b", Null)) == Cleaned(Obj(Put(done, "b", Null)), Walk(["a"], true));
    var v := Str(DumpArgs(t, Null).0);
    assert Clear(t, Null, ["b"]) == Pure(v, DumpArgs(t, Null).1);
    assert ClearMembers(t, ms[1..], path, Put(done, "b", v)) == Pure(Obj(Put(done, "b", v)), false);
    assert Put([], "b", v) == [Member("b", v)] && Put(done, "b", v) == [done[0]] + Put(done[1..], "b", v);
    assert Put(done, "b", v) == [Member("a", Obj([])), Member("b", v)];
    assert ms[0].key == "b" && ms[0].value == Null;
  }

  // ---------- No argument and no content paths ----------

  ghost predicate Plain(t: Task) {
    t.args == [] && t.contents == []
  }

  /** Without path lists the path does not matter: the walk is the pure recursion on every tree. */
  lemma {:induction false} PlainAgrees(t: Task, j: Json, w: Walk, path: seq<string>)
    requires Plain(t)
    ensures Agrees(Clean(t, j, w), Clear(t, j, path), w.found)
    decreases j, 1
  {
    match j
    case Obj(ms) => PlainAgreesMembers(t, ms, w, path, []);
    case Arr(items) => PlainAgreesItems(t, items, w, path, []);
    case _ =>
  }

  lemma {:induction false} PlainAgreesMembers(t: Task, ms: seq<Member>, w: Walk, path: seq<string>, done: seq<Member>)
    requires Plain(t)
    ensures Agrees(CleanMembers(t, ms, w, done), ClearMembers(t, ms, path, done), w.found)
    decreases ms, 0
  {
    if ms != [] {
      var key, value := ms[0].key, ms[0].value;
      if Contains(key, t.marker) || (value.Str? && Contains(value.s, t.marker)) {
      } else if value.Str? {
        PlainAgreesMembers(t, ms[1..], w, path, Put(done, key, value));
      } else {
        var at := w.(path := w.path + [key]);
        PlainAgrees(t, value, at, path + [key]);
        match Clean(t, value, at)
        case Throws =>
        case Cleaned(v, w1) =>
          PlainAgreesMembers(t, ms[1..], w1.(path := w1.path[..|w1.path| - 1]), path, Put(done, key, v));
      }
    }
  }

  lemma {:induction false} PlainAgreesItems(t: Task, items: seq<Json>, w: Walk, path: seq<string>, done: seq<Json>)
    requires Plain(t)
    ensures Agrees(CleanItems(t, items, w, done), ClearItems(t, items, path, done), w.found)
    decreases items, 0
  {
    if items != [] && !(items[0].Str? && Contains(items[0].s, t.marker)) {
      PlainAgrees(t, items[0], w, path);
      match Clean(t, items[0], w)
      case Throws =>
      case Cleaned(v, w1) => PlainAgreesItems(t, items[1..], w1, path, done + [v]);
    }
  }

  lemma {:induction false} PutUnmarked(marker: string, ms: seq<Member>, key: string, value: Json)
    requires !Marked(marker, Obj(ms)) && !Contains(key, marker) && !Marked(marker, value)
    ensures !Marked(marker, Obj(Put(ms, key, value)))
  {
    var r := Put(ms, key, value);
    if ms != [] {
      assert forall i :: 0 <= i < |ms| ==> !MarkedMember(marker, ms[i]);
      if ms[0].key != key {
        assert !Marked(marker, Obj(ms[1..]));
        PutUnmarked(marker, ms[1..], key, value);
      }
    }
  }

  /** Cleaning with no path lists never fails, leaves no marker in any key or string below an
      object or array, and reports the marker exactly when the tree contained it. */
  lemma {:induction false} PlainRemovesMarker(t: Task, j: Json, path: seq<string>)
    requires Plain(t)
    ensures var r := Clear(t, j, path);
            && r.Pure?
            && (if j.Str? then r == Pure(j, false) else !Marked(t.marker, r.json) && (r.found <==> Marked(t.marker, j)))
    decreases j, 1
  {
    match j
    case Obj(ms) => PlainRemovesMembers(t, ms, path, []);
    case Arr(items) => PlainRemovesItems(t, items, path, []);
    case _ =>
  }

  lemma {:induction false} PlainRemovesMembers(t: Task, ms: seq<Member>, path: seq<string>, done: seq<Member>)
    requires Plain(t) && !Marked(t.marker, Obj(done))
    ensures var r := ClearMembers(t, ms, path, done);
            r.Pure? && !Marked(t.marker, r.json) && (r.found <==> Marked(t.marker, Obj(ms)))
    decreases ms, 0
  {
    if ms != [] {
      var key, value := ms[0].key, ms[0].value;
      assert Marked(t.marker, Obj(ms)) <==> MarkedMember(t.marker, ms[0]) || Marked(t.marker, Obj(ms[1..])) by {
        assert ms == [ms[0]] + ms[1..];
        assert forall i :: 0 < i < |ms| ==> ms[i] == ms[1..][i - 1];
      }
      if Contains(key, t.marker) || (value.Str? && Contains(value.s, t.marker)) {
        assert MarkedMember(t.marker, ms[0]);
      } else if value.Str? {
        PutUnmarked(t.marker, done, key, value);
        PlainRemovesMembers(t, ms[1..], path, Put(done, key, value));
      } else {
        PlainRemovesMarker(t, value, path + [key]);
        var v := Clear(t, value, path + [key]).json;
        PutUnmarked(t.marker, done, key, v);
        PlainRemovesMembers(t, ms[1..], path, Put(done, key, v));
      }
    }
  }

  lemma {:induction false} PlainRemovesItems(t: Task, items: seq<Json>, path: seq<string>, done: seq<Json>)
    requires Plain(t) && !Marked(t.marker, Arr(done))
    ensures var r := ClearItems(t, items, path, done);
            r.Pure? && !Marked(t.marker, r.json) && (r.found <==> Marked(t.marker, Arr(items)))
    decreases items, 0
  {
    if items != [] {
      assert Marked(t.marker, Arr(items)) <==> Marked(t.marker, items[0]) || Marked(t.marker, Arr(items[1..])) by {
        assert forall i :: 0 < i < |items| ==> items[i] == items[1..][i - 1];
      }
      if !(items[0].Str? && Contains(items[0].s, t.marker)) {
        PlainRemovesMarker(t, items[0], path);
        var v := Clear(t, items[0], path).json;
        PlainRemovesItems(t, items[1..], path, done + [v]);
      }
    }
  }

  // ---------- Trees without the marker ----------

  /** Keys of every object are distinct, as in every parsed JSON value. */
  ghost predicate DistinctKeys(j: Json) {
    match j
    case Obj(ms) =>
      && (forall i, k :: 0 <= i < k < |ms| ==> ms[i].key != ms[k].key)
      && (forall i :: 0 <= i < |ms| ==> DistinctKeys(ms[i].value))
    case Arr(items) => forall i :: 0 <= i < |items| ==> DistinctKeys(items[i])
    case _ => true
  }

  lemma UnmarkedMember(marker: string, m: Member)
    requires !MarkedMember(marker, m)
    ensures !Contains(m.key, marker) && !Marked(marker, m.value) && (m.value.Str? ==> !Contains(m.value.s, marker))
  {
    assert !Marked(marker, m.value);
  }

  lemma {:induction false} PutFresh(ms: seq<Member>, key: string, value: Json)
    requires forall i :: 0 <= i < |ms| ==> ms[i].key != key
    ensures Put(ms, key, value) == ms + [Member(key, value)]
  {
    if ms != [] {
      PutFresh(ms[1..], key, value);
      assert ms == [ms[0]] + ms[1..];
    }
  }

  /** A tree without the marker comes back unchanged. */
  lemma {:induction false} PlainKeepsUnmarked(t: Task, j: Json, path: seq<string>)
    requires Plain(t) && DistinctKeys(j) && !Marked(t.marker, j)
    ensures Clear(t, j, path) == Pure(j, false)
    decreases j, 1
  {
    match j
    case Obj(ms) =>
      assert [] + ms == ms;
      PlainKeepsMembers(t, ms, path, []);
    case Arr(items) =>
      assert [] + items == items;
      PlainKeepsItems(t, items, path, []);
    case _ =>
  }

  lemma {:induction false} PlainKeepsMembers(t: Task, ms: seq<Member>, path: seq<string>, done: seq<Member>)
    requires Plain(t) && DistinctKeys(Obj(done + ms))
    requires forall i :: 0 <= i < |ms| ==> !MarkedMember(t.marker, ms[i])
    ensures ClearMembers(t, ms, path, done) == Pure(Obj(done + ms), false)
    decreases ms, 0
  {
    var all := done + ms;
    if ms == [] {
      assert all == done;
    } else {
      var m := ms[0];
      assert all[|done|] == m && !MarkedMember(t.marker, m);
      UnmarkedMember(t.marker, m);
      forall i | 0 <= i < |done| ensures done[i].key != m.key {
        assert all[i] == done[i];
      }
      PutFresh(done, m.key, m.value);
      assert done + [m] + ms[1..] == all;
      if !m.value.Str? {
        PlainKeepsUnmarked(t, m.value, path + [m.key]);
      }
      PlainKeepsMembers(t, ms[1..], path, done + [m]);
    }
  }

  lemma {:induction false} PlainKeepsItems(t: Task, items: seq<Json>, path: seq<string>, done: seq<Json>)
    requires Plain(t) && forall i :: 0 <= i < |items| ==> DistinctKeys(items[i]) && !Marked(t.marker, items[i])
    ensures ClearItems(t, items, path, done) == Pure(Arr(done + items), false)
    decreases items, 0
  {
    if items == [] {
      assert done + items == done;
    } else {
      PlainKeepsUnmarked(t, items[0], path);
      assert done + [items[0]] + items[1..] == done + items;
      PlainKeepsItems(t, items[1..], path, done + [items[0]]);
    }
  }
}
