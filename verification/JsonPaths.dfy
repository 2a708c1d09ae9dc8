/**
  When the shared key path of the healed-JSON cleaner can be trusted. The break on a marked string
  member leaves its key on the path; that matters exactly if some later value consults the path.
  A healed value can stand before later members although the healed text ends at the marker: a
  repeated key keeps its first place in an ordered JSON object.
 */
module JsonPaths {
  import opened Basics
  import opened JsonCleaner
  import opened JsonLaws

  // ---------- Leaving a key behind, and consulting the path ----------

  predicate MarkedString(marker: string, j: Json) {
    j.Str? && Contains(j.s, marker)
  }

  /** Walking this value ends some object at a marked string member. */
  predicate Leaves(marker: string, j: Json)
    decreases j, 1
  {
    match j
    case Obj(ms) => LeavesMembers(marker, ms)
    case Arr(items) => LeavesItems(marker, items)
    case _ => false
  }

  predicate LeavesMembers(marker: string, ms: seq<Member>)
    decreases ms, 0
  {
    ms != [] && !Contains(ms[0].key, marker) &&
    (MarkedString(marker, ms[0].value) || Leaves(marker, ms[0].value) || LeavesMembers(marker, ms[1..]))
  }

  predicate LeavesItems(marker: string, items: seq<Json>)
    decreases items, 0
  {
    items != [] && !MarkedString(marker, items[0]) && (Leaves(marker, items[0]) || LeavesItems(marker, items[1..]))
  }

  /** Some member that is still visited has its path looked up: a value that is not a string, or a
      marked string when healed strings can be kept. */
  predicate ConsultsMembers(marker: string, keeps: bool, ms: seq<Member>) {
    ms != [] && !Contains(ms[0].key, marker) &&
    (if MarkedString(marker, ms[0].value) then keeps
     else !ms[0].value.Str? || ConsultsMembers(marker, keeps, ms[1..]))
  }

  predicate ConsultsItems(marker: string, items: seq<Json>) {
    items != [] && !MarkedString(marker, items[0])
  }

  /** Nothing consults the path once a key has been left behind on it. */
  predicate Safe(marker: string, keeps: bool, j: Json)
    decreases j, 1
  {
    match j
    case Obj(ms) => SafeMembers(marker, keeps, ms)
    case Arr(items) => SafeItems(marker, keeps, items)
    case _ => true
  }

  predicate SafeMembers(marker: string, keeps: bool, ms: seq<Member>)
    decreases ms, 0
  {
    if ms == [] || Contains(ms[0].key, marker) || MarkedString(marker, ms[0].value) then true
    else
      && Safe(marker, keeps, ms[0].value)
      && (if Leaves(marker, ms[0].value) then !ConsultsMembers(marker, keeps, ms[1..]) else SafeMembers(marker, keeps, ms[1..]))
  }

  predicate SafeItems(marker: string, keeps: bool, items: seq<Json>)
    decreases items, 0
  {
    if items == [] || MarkedString(marker, items[0]) then true
    else
      && Safe(marker, keeps, items[0])
      && (if Leaves(marker, items[0]) then !ConsultsItems(marker, items[1..]) else SafeItems(marker, keeps, items[1..]))
  }

  predicate Keeps(t: Task) {
    t.healed == t.dumpMarker
  }

  // ---------- Safe trees ----------

  /** Agreement, with the path back where it was unless a key was left behind. */
  ghost predicate Follows(a: Cleaned, b: Pure, w: Walk, leaves: bool) {
    Agrees(a, b, w.found) && (a.Cleaned? && !leaves ==> a.walk.path == w.path)
  }

  /** On a safe tree the walk with the shared path returns what the recursion returns that is given
      the true path, for any path lists and any dump. */
  lemma {:induction false} SafeAgrees(t: Task, j: Json, w: Walk)
    requires Safe(t.marker, Keeps(t), j)
    ensures Follows(Clean(t, j, w), Clear(t, j, w.path), w, Leaves(t.marker, j))
    decreases j, 1
  {
    if w.path !in t.args && w.path !in t.contents {
      match j
      case Obj(ms) => SafeMembersAgree(t, ms, w, []);
      case Arr(items) => SafeItemsAgree(t, items, w, []);
      case _ =>
    }
  }

  lemma {:induction false} SafeMembersAgree(t: Task, ms: seq<Member>, w: Walk, done: seq<Member>)
    requires SafeMembers(t.marker, Keeps(t), ms)
    ensures Follows(CleanMembers(t, ms, w, done), ClearMembers(t, ms, w.path, done), w, LeavesMembers(t.marker, ms))
    decreases ms, 0
  {
    if ms != [] && !Contains(ms[0].key, t.marker) {
      var key, value := ms[0].key, ms[0].value;
      var here := w.path + [key];
      assert here[..|here| - 1] == w.path;
      if MarkedString(t.marker, value) {
        SafeAgrees(t, value, Walk(here, true));
      } else if value.Str? {
        SafeMembersAgree(t, ms[1..], w, Put(done, key, value));
      } else {
        SafeAgrees(t, value, w.(path := here));
        match Clean(t, value, w.(path := here))
        case Throws =>
        case Cleaned(v, w1) =>
          var w2 := w1.(path := w1.path[..|w1.path| - 1]);
          if Leaves(t.marker, value) {
            QuietMembers(t, ms[1..], w2, w.path, Put(done, key, v));
          } else {
            SafeMembersAgree(t, ms[1..], w2, Put(done, key, v));
          }
      }
    }
  }

  /** Members that do not consult the path are cleaned the same under any path. */
  lemma {:induction false} QuietMembers(t: Task, ms: seq<Member>, w: Walk, path: seq<string>, done: seq<Member>)
    requires !ConsultsMembers(t.marker, Keeps(t), ms)
    ensures Agrees(CleanMembers(t, ms, w, done), ClearMembers(t, ms, path, done), w.found)
  {
    if ms != [] && !Contains(ms[0].key, t.marker) && !MarkedString(t.marker, ms[0].value) {
      QuietMembers(t, ms[1..], w, path, Put(done, ms[0].key, ms[0].value));
    }
  }

  lemma {:induction false} SafeItemsAgree(t: Task, items: seq<Json>, w: Walk, done: seq<Json>)
    requires SafeItems(t.marker, Keeps(t), items)
    ensures Follows(CleanItems(t, items, w, done), ClearItems(t, items, w.path, done), w, LeavesItems(t.marker, items))
    decreases items, 0
  {
    if items != [] && !MarkedString(t.marker, items[0]) {
      SafeAgrees(t, items[0], w);
      match Clean(t, items[0], w)
      case Throws =>
      case Cleaned(v, w1) =>
        if Leaves(t.marker, items[0]) {
          var rest := items[1..];
          assert rest == [] || MarkedString(t.marker, rest[0]);
        } else {
          SafeItemsAgree(t, items[1..], w1, done + [v]);
        }
    }
  }

  /** In particular when nothing is visited after the entry that holds the marker. */
  lemma {:induction false} MarkerLastIsSafe(marker: string, keeps: bool, j: Json)
    requires MarkerLast(marker, j)
    ensures Safe(marker, keeps, j)
    decreases j, 1
  {
    match j
    case Obj(ms) => MarkerLastMembers(marker, keeps, ms);
    case Arr(items) => MarkerLastItems(marker, keeps, items);
    case _ =>
  }

  lemma {:induction false} MarkerLastMembers(marker: string, keeps: bool, ms: seq<Member>)
    requires MarkerLast(marker, Obj(ms))
    ensures SafeMembers(marker, keeps, ms)
    decreases ms, 0
  {
    if ms != [] {
      if |ms| == 1 {
        MarkerLastIsSafe(marker, keeps, ms[0].value);
      } else {
        assert !MarkedMember(marker, ms[0]);
        UnmarkedIsSafe(marker, keeps, ms[0].value);
        MarkerLastMembers(marker, keeps, ms[1..]);
      }
    }
  }

  lemma {:induction false} MarkerLastItems(marker: string, keeps: bool, items: seq<Json>)
    requires MarkerLast(marker, Arr(items))
    ensures SafeItems(marker, keeps, items)
    decreases items, 0
  {
    if items != [] {
      if |items| == 1 {
        MarkerLastIsSafe(marker, keeps, items[0]);
      } else {
        assert !Marked(marker, items[0]);
        UnmarkedIsSafe(marker, keeps, items[0]);
        MarkerLastItems(marker, keeps, items[1..]);
      }
    }
  }

  lemma {:induction false} UnmarkedIsSafe(marker: string, keeps: bool, j: Json)
    requires !Marked(marker, j)
    ensures Safe(marker, keeps, j) && !Leaves(marker, j)
    decreases j, 1
  {
    match j
    case Obj(ms) => UnmarkedMembersSafe(marker, keeps, ms);
    case Arr(items) => UnmarkedItemsSafe(marker, keeps, items);
    case _ =>
  }

  lemma {:induction false} UnmarkedMembersSafe(marker: string, keeps: bool, ms: seq<Member>)
    requires forall i :: 0 <= i < |ms| ==> !MarkedMember(marker, ms[i])
    ensures SafeMembers(marker, keeps, ms) && !LeavesMembers(marker, ms)
    decreases ms, 0
  {
    if ms != [] {
      assert !MarkedMember(marker, ms[0]);
      UnmarkedIsSafe(marker, keeps, ms[0].value);
      UnmarkedMembersSafe(marker, keeps, ms[1..]);
    }
  }

  lemma {:induction false} UnmarkedItemsSafe(marker: string, keeps: bool, items: seq<Json>)
    requires forall i :: 0 <= i < |items| ==> !Marked(marker, items[i])
    ensures SafeItems(marker, keeps, items) && !LeavesItems(marker, items)
    decreases items, 0
  {
    if items != [] {
      UnmarkedIsSafe(marker, keeps, items[0]);
      UnmarkedItemsSafe(marker, keeps, items[1..]);
    }
  }

  // ---------- Values by key ----------

  function Lookup(ms: seq<Member>, key: string): Option<Json> {
    if ms == [] then None else if ms[0].key == key then Some(ms[0].value) else Lookup(ms[1..], key)
  }

  ghost predicate HasKey(ms: seq<Member>, key: string) {
    exists i :: 0 <= i < |ms| && ms[i].key == key
  }

  lemma {:induction false} LookupPut(ms: seq<Member>, key: string, value: Json, other: string)
    ensures Lookup(Put(ms, key, value), other) == if other == key then Some(value) else Lookup(ms, other)
  {
    if ms != [] && ms[0].key != key {
      LookupPut(ms[1..], key, value, other);
    }
  }

  /** Cleaning members leaves entries of other keys alone. */
  lemma {:induction false} OtherKeysKept(t: Task, ms: seq<Member>, w: Walk, done: seq<Member>, key: string)
    requires !HasKey(ms, key)
    ensures var r := CleanMembers(t, ms, w, done); r.Cleaned? ==> r.json.Obj? && Lookup(r.json.members, key) == Lookup(done, key)
    decreases ms, 0
  {
    if ms != [] {
      assert ms[0].key != key;
      assert !HasKey(ms[1..], key) by {
        assert forall i :: 0 <= i < |ms[1..]| ==> ms[1..][i] == ms[i + 1];
      }
      var k, value := ms[0].key, ms[0].value;
      if !Contains(k, t.marker) {
        if MarkedString(t.marker, value) {
          var r := Clean(t, value, Walk(w.path + [k], true));
          if r.Cleaned? {
            LookupPut(done, k, r.json, key);
          }
        } else if value.Str? {
          LookupPut(done, k, value, key);
          OtherKeysKept(t, ms[1..], w, Put(done, k, value), key);
        } else {
          match Clean(t, value, w.(path := w.path + [k]))
          case Throws =>
          case Cleaned(v, w1) =>
            LookupPut(done, k, v, key);
            OtherKeysKept(t, ms[1..], w1.(path := w1.path[..|w1.path| - 1]), Put(done, k, v), key);
        }
      }
    }
  }

  lemma {:induction false} OtherKeysKeptPure(t: Task, ms: seq<Member>, path: seq<string>, done: seq<Member>, key: string)
    requires !HasKey(ms, key)
    ensures var r := ClearMembers(t, ms, path, done); r.Pure? ==> r.json.Obj? && Lookup(r.json.members, key) == Lookup(done, key)
    decreases ms, 0
  {
    if ms != [] {
      assert ms[0].key != key;
      assert !HasKey(ms[1..], key) by {
        assert forall i :: 0 <= i < |ms[1..]| ==> ms[1..][i] == ms[i + 1];
      }
      var k, value := ms[0].key, ms[0].value;
      if !Contains(k, t.marker) {
        if MarkedString(t.marker, value) {
          var r := Clear(t, value, path + [k]);
          if r.Pure? {
            LookupPut(done, k, r.json, key);
          }
        } else if value.Str? {
          LookupPut(done, k, value, key);
          OtherKeysKeptPure(t, ms[1..], path, Put(done, k, value), key);
        } else {
          match Clear(t, value, path + [k])
          case Fails =>
          case Pure(v, f) =>
            LookupPut(done, k, v, key);
            OtherKeysKeptPure(t, ms[1..], path, Put(done, k, v), key);
        }
      }
    }
  }

  // ---------- Subtrees that no listed path touches ----------

  /** No listed path lies at or below this one. */
  ghost predicate Off(t: Task, path: seq<string>) {
    (forall x :: x in t.args ==> !(path <= x)) && (forall x :: x in t.contents ==> !(path <= x))
  }

  lemma OffBelow(t: Task, path: seq<string>, lower: seq<string>)
    requires Off(t, path) && path <= lower
    ensures Off(t, lower) && lower !in t.args && lower !in t.contents
  {
  }

  /** Off the listed paths the walk does not fail, keeps the kind of the value, and leaves a key behind
      if the value does. */
  lemma {:induction false} OffWalk(t: Task, j: Json, w: Walk)
    requires Off(t, w.path)
    ensures var r := Clean(t, j, w);
            r.Cleaned? && (r.json.Str? <==> j.Str?) && (Leaves(t.marker, j) ==> |r.walk.path| > |w.path|)
    decreases j, 1
  {
    OffBelow(t, w.path, w.path);
    match j
    case Obj(ms) => OffMembers(t, ms, w, []);
    case Arr(items) => OffItems(t, items, w, []);
    case _ =>
  }

  lemma {:induction false} OffMembers(t: Task, ms: seq<Member>, w: Walk, done: seq<Member>)
    requires Off(t, w.path)
    ensures var r := CleanMembers(t, ms, w, done);
            r.Cleaned? && r.json.Obj? && (LeavesMembers(t.marker, ms) ==> |r.walk.path| > |w.path|)
    decreases ms, 0
  {
    if ms != [] && !Contains(ms[0].key, t.marker) {
      var key, value := ms[0].key, ms[0].value;
      var here := w.path + [key];
      OffBelow(t, w.path, here);
      if MarkedString(t.marker, value) {
      } else if value.Str? {
        assert !Leaves(t.marker, value);
        OffMembers(t, ms[1..], w, Put(done, key, value));
      } else {
        OffWalk(t, value, w.(path := here));
        var c := Clean(t, value, w.(path := here));
        var w2 := c.walk.(path := c.walk.path[..|c.walk.path| - 1]);
        assert w.path <= w2.path;
        OffBelow(t, w.path, w2.path);
        OffMembers(t, ms[1..], w2, Put(done, key, c.json));
      }
    }
  }

  lemma {:induction false} OffItems(t: Task, items: seq<Json>, w: Walk, done: seq<Json>)
    requires Off(t, w.path)
    ensures var r := CleanItems(t, items, w, done);
            r.Cleaned? && r.json.Arr? && (LeavesItems(t.marker, items) ==> |r.walk.path| > |w.path|)
    decreases items, 0
  {
    if items != [] && !MarkedString(t.marker, items[0]) {
      OffWalk(t, items[0], w);
      var c := Clean(t, items[0], w);
      OffBelow(t, w.path, c.walk.path);
      OffItems(t, items[1..], c.walk, done + [c.json]);
    }
  }

  /** When every content path is also an argument path nothing fails: arguments come first. */
  ghost predicate ArgsFirst(t: Task) {
    forall x :: x in t.contents ==> x in t.args
  }

  lemma {:induction false} NothingFails(t: Task, j: Json, w: Walk, path: seq<string>)
    requires ArgsFirst(t)
    ensures Clean(t, j, w).Cleaned? && Clear(t, j, path).Pure?
    decreases j, 1
  {
    match j
    case Obj(ms) => NoMemberFails(t, ms, w, path, [], []);
    case Arr(items) => NoItemFails(t, items, w, path, [], []);
    case _ =>
  }

  lemma {:induction false} NoMemberFails(t: Task, ms: seq<Member>, w: Walk, path: seq<string>, done: seq<Member>, pure: seq<Member>)
    requires ArgsFirst(t)
    ensures CleanMembers(t, ms, w, done).Cleaned? && ClearMembers(t, ms, path, pure).Pure?
    decreases ms, 0
  {
    if ms != [] {
      var key, value := ms[0].key, ms[0].value;
      NothingFails(t, value, Walk(w.path + [key], true), path + [key]);
      NothingFails(t, value, w.(path := w.path + [key]), path + [key]);
      var c, p := Clean(t, value, w.(path := w.path + [key])), Clear(t, value, path + [key]);
      NoMemberFails(t, ms[1..], w, path, Put(done, key, value), Put(pure, key, value));
      NoMemberFails(t, ms[1..], c.walk.(path := c.walk.path[..|c.walk.path| - 1]), path, Put(done, key, c.json), Put(pure, key, p.json));
    }
  }

  lemma {:induction false} NoItemFails(t: Task, items: seq<Json>, w: Walk, path: seq<string>, done: seq<Json>, pure: seq<Json>)
    requires ArgsFirst(t)
    ensures CleanItems(t, items, w, done).Cleaned? && ClearItems(t, items, path, pure).Pure?
    decreases items, 0
  {
    if items != [] {
      NothingFails(t, items[0], w, path);
      var c, p := Clean(t, items[0], w), Clear(t, items[0], path);
      NoItemFails(t, items[1..], c.walk, path, done + [c.json], pure + [p.json]);
    }
  }

  // ---------- Unsafe trees ----------

  /** In every array that is walked no item is looked up after one that leaves a key behind. */
  predicate Settled(marker: string, j: Json)
    decreases j, 1
  {
    match j
    case Obj(ms) => SettledMembers(marker, ms)
    case Arr(items) => SettledItems(marker, items)
    case _ => true
  }

  predicate SettledMembers(marker: string, ms: seq<Member>)
    decreases ms, 0
  {
    ms == [] || Contains(ms[0].key, marker) || MarkedString(marker, ms[0].value) ||
    (Settled(marker, ms[0].value) && SettledMembers(marker, ms[1..]))
  }

  predicate SettledItems(marker: string, items: seq<Json>)
    decreases items, 0
  {
    items == [] || MarkedString(marker, items[0]) ||
    (Settled(marker, items[0]) && if Leaves(marker, items[0]) then !ConsultsItems(marker, items[1..]) else SettledItems(marker, items[1..]))
  }

  /** Without arrays a tree is settled. */
  predicate ObjectsOnly(j: Json) {
    match j
    case Arr(_) => false
    case Obj(ms) => forall i :: 0 <= i < |ms| ==> ObjectsOnly(ms[i].value)
    case _ => true
  }

  lemma {:induction false} ObjectsAreSettled(marker: string, j: Json)
    requires ObjectsOnly(j)
    ensures Settled(marker, j)
    decreases j, 1
  {
    match j
    case Obj(ms) => MembersAreSettled(marker, ms);
    case _ =>
  }

  lemma {:induction false} MembersAreSettled(marker: string, ms: seq<Member>)
    requires forall i :: 0 <= i < |ms| ==> ObjectsOnly(ms[i].value)
    ensures SettledMembers(marker, ms)
    decreases ms, 0
  {
    if ms != [] {
      ObjectsAreSettled(marker, ms[0].value);
      MembersAreSettled(marker, ms[1..]);
    }
  }

  lemma {:induction false} UnsafeLeaves(marker: string, keeps: bool, j: Json)
    requires !Safe(marker, keeps, j)
    ensures Leaves(marker, j)
    decreases j, 1
  {
    match j
    case Obj(ms) => UnsafeMembersLeave(marker, keeps, ms);
    case Arr(items) => UnsafeItemsLeave(marker, keeps, items);
  }

  lemma {:induction false} UnsafeMembersLeave(marker: string, keeps: bool, ms: seq<Member>)
    requires !SafeMembers(marker, keeps, ms)
    ensures LeavesMembers(marker, ms)
    decreases ms, 0
  {
    if !Safe(marker, keeps, ms[0].value) {
      UnsafeLeaves(marker, keeps, ms[0].value);
    } else if !Leaves(marker, ms[0].value) {
      UnsafeMembersLeave(marker, keeps, ms[1..]);
    }
  }

  lemma {:induction false} UnsafeItemsLeave(marker: string, keeps: bool, items: seq<Json>)
    requires !SafeItems(marker, keeps, items)
    ensures LeavesItems(marker, items)
    decreases items, 0
  {
    if !Safe(marker, keeps, items[0]) {
      UnsafeLeaves(marker, keeps, items[0]);
    } else if !Leaves(marker, items[0]) {
      UnsafeItemsLeave(marker, keeps, items[1..]);
    }
  }

  /** The task with one path listed, as an argument and as a content path. */
  function Listing(t: Task, q: seq<string>): Task {
    t.(args := [q], contents := [q])
  }

  ghost predicate Lists(t: Task, q: seq<string>) {
    t.args == [q] && t.contents == [q]
  }

  /** True path of the first member that is looked up. */
  function Consulted(marker: string, keeps: bool, ms: seq<Member>, path: seq<string>): (q: seq<string>)
    requires ConsultsMembers(marker, keeps, ms)
    ensures |q| == |path| + 1 && path <= q && HasKey(ms, q[|path|])
  {
    var key, value := ms[0].key, ms[0].value;
    if value.Str? && !MarkedString(marker, value) then
      var q := Consulted(marker, keeps, ms[1..], path);
      assert forall i :: 0 <= i < |ms[1..]| ==> ms[1..][i] == ms[i + 1];
      q
    else
      assert ms[0].key == key;
      path + [key]
  }

  /** True path of the first value, in the order of the walk, that is looked up with a key left behind. */
  function Culprit(marker: string, keeps: bool, j: Json, path: seq<string>): (q: seq<string>)
    requires !Safe(marker, keeps, j) && Settled(marker, j)
    ensures |q| > |path| && path <= q
    decreases j, 1
  {
    if j.Obj? then CulpritMember(marker, keeps, j.members, path) else CulpritItem(marker, keeps, j.items, path)
  }

  function CulpritMember(marker: string, keeps: bool, ms: seq<Member>, path: seq<string>): (q: seq<string>)
    requires !SafeMembers(marker, keeps, ms) && SettledMembers(marker, ms)
    ensures |q| > |path| && path <= q && HasKey(ms, q[|path|])
    decreases ms, 0
  {
    var key, value := ms[0].key, ms[0].value;
    assert ms[0].key == key;
    assert forall i :: 0 <= i < |ms[1..]| ==> ms[1..][i] == ms[i + 1];
    if !Safe(marker, keeps, value) then
      var q := Culprit(marker, keeps, value, path + [key]);
      assert q[|path|] == (path + [key])[|path|];
      q
    else if Leaves(marker, value) then Consulted(marker, keeps, ms[1..], path)
    else CulpritMember(marker, keeps, ms[1..], path)
  }

  function CulpritItem(marker: string, keeps: bool, items: seq<Json>, path: seq<string>): (q: seq<string>)
    requires !SafeItems(marker, keeps, items) && SettledItems(marker, items)
    ensures |q| > |path| && path <= q
    decreases items, 0
  {
    if !Safe(marker, keeps, items[0]) then Culprit(marker, keeps, items[0], path)
    else CulpritItem(marker, keeps, items[1..], path)
  }

  /** Both succeed with different results. */
  ghost predicate Differs(a: Cleaned, b: Pure) {
    a.Cleaned? && b.Pure? && a.json != b.json
  }

  ghost predicate NewKeys(done: seq<Member>, ms: seq<Member>) {
    forall i :: 0 <= i < |ms| ==> Lookup(done, ms[i].key) == None
  }

  ghost predicate DistinctMembers(ms: seq<Member>) {
    DistinctKeys(Obj(ms))
  }

  lemma DistinctTail(ms: seq<Member>, done: seq<Member>, value: Json)
    requires ms != [] && DistinctMembers(ms) && NewKeys(done, ms)
    ensures DistinctMembers(ms[1..]) && !HasKey(ms[1..], ms[0].key) && DistinctKeys(ms[0].value)
    ensures NewKeys(Put(done, ms[0].key, value), ms[1..]) && NewKeys(done, ms[1..])
  {
    var rest := ms[1..];
    assert forall i :: 0 <= i < |rest| ==> rest[i] == ms[i + 1];
    forall i | 0 <= i < |rest| ensures rest[i].key != ms[0].key && Lookup(Put(done, ms[0].key, value), rest[i].key) == None && Lookup(done, rest[i].key) == None {
      LookupPut(done, ms[0].key, value, rest[i].key);
      assert Lookup(done, ms[i + 1].key) == None;
    }
  }

  /** A listed path that goes through another key is off this member. */
  lemma OffOtherKey(t: Task, q: seq<string>, path: seq<string>, key: string)
    requires Lists(t, q) && |q| > |path| && path <= q && q[|path|] != key
    ensures Off(t, path + [key])
  {
    assert (path + [key])[|path|] == key;
  }

  /** Once a key is left behind, the first value that is looked up is treated differently. */
  lemma {:induction false} ConsultDiffers(t: Task, ms: seq<Member>, w: Walk, path: seq<string>, done: seq<Member>)
    requires ConsultsMembers(t.marker, Keeps(t), ms) && DistinctMembers(ms) && NewKeys(done, ms)
    requires Lists(t, Consulted(t.marker, Keeps(t), ms, path)) && Off(t, w.path)
    ensures Differs(CleanMembers(t, ms, w, done), ClearMembers(t, ms, path, done))
    decreases ms, 0
  {
    var key, value := ms[0].key, ms[0].value;
    DistinctTail(ms, done, value);
    OffBelow(t, w.path, w.path + [key]);
    if value.Str? {
      if MarkedString(t.marker, value) {
        assert Lookup(done, ms[0].key) == None;
        var v := Clear(t, value, path + [key]);
        LookupPut(done, key, v.json, key);
      } else {
        ConsultDiffers(t, ms[1..], w, path, Put(done, key, value));
      }
    } else {
      OffWalk(t, value, w.(path := w.path + [key]));
      assert Clear(t, value, path + [key]).json.Str?;
      BelowDiffers(t, ms, w, path, done);
    }
  }

  /** The first member of a list, when it is neither a string nor under a marked key. */
  lemma FirstMember(t: Task, ms: seq<Member>, w: Walk, path: seq<string>, done: seq<Member>)
    requires ms != [] && !Contains(ms[0].key, t.marker) && !ms[0].value.Str?
    ensures var key, value := ms[0].key, ms[0].value;
            && CleanMembers(t, ms, w, done) ==
               (match Clean(t, value, w.(path := w.path + [key]))
                case Throws => Throws
                case Cleaned(v, w1) => CleanMembers(t, ms[1..], w1.(path := w1.path[..|w1.path| - 1]), Put(done, key, v)))
            && ClearMembers(t, ms, path, done) ==
               (match Clear(t, value, path + [key])
                case Fails => Fails
                case Pure(v, f) => Also(f, ClearMembers(t, ms[1..], path, Put(done, key, v))))
  {
    hide Contains, Put;
  }

  /** A difference inside a member shows in the object. */
  lemma BelowDiffers(t: Task, ms: seq<Member>, w: Walk, path: seq<string>, done: seq<Member>)
    requires ms != [] && !Contains(ms[0].key, t.marker) && !ms[0].value.Str? && DistinctMembers(ms) && NewKeys(done, ms) && ArgsFirst(t)
    requires var key, value := ms[0].key, ms[0].value;
             Differs(Clean(t, value, w.(path := w.path + [key])), Clear(t, value, path + [key]))
    ensures Differs(CleanMembers(t, ms, w, done), ClearMembers(t, ms, path, done))
  {
    hide *;
    var key, value := ms[0].key, ms[0].value;
    DistinctTail(ms, done, value);
    FirstMember(t, ms, w, path, done);
    var c, p := Clean(t, value, w.(path := w.path + [key])), Clear(t, value, path + [key]);
    DiffersIs(c, p);
    KeyTells(t, ms[1..], c.walk.(path := c.walk.path[..|c.walk.path| - 1]), path, done, key, c.json, p.json);
    AlsoDiffers(CleanMembers(t, ms, w, done), p.found, ClearMembers(t, ms[1..], path, Put(done, key, p.json)));
  }

  lemma DiffersIs(c: Cleaned, p: Pure)
    requires Differs(c, p)
    ensures c.Cleaned? && p.Pure? && c.json != p.json && |c.walk.path| >= 0
  {
  }

  lemma AlsoDiffers(a: Cleaned, f: bool, b: Pure)
    requires Differs(a, b)
    ensures Differs(a, Also(f, b))
  {
  }

  /** Entries of one key that differ stay different while members of other keys are cleaned. */
  lemma KeyTells(t: Task, ms: seq<Member>, w: Walk, path: seq<string>, done: seq<Member>, key: string, v: Json, u: Json)
    requires !HasKey(ms, key) && v != u && ArgsFirst(t)
    ensures Differs(CleanMembers(t, ms, w, Put(done, key, v)), ClearMembers(t, ms, path, Put(done, key, u)))
  {
    hide Put, Lookup, HasKey, ArgsFirst, CleanMembers, ClearMembers;
    LookupPut(done, key, v, key);
    LookupPut(done, key, u, key);
    OtherKeysKept(t, ms, w, Put(done, key, v), key);
    OtherKeysKeptPure(t, ms, path, Put(done, key, u), key);
    NoMemberFails(t, ms, w, path, Put(done, key, v), Put(done, key, u));
  }

  lemma {:induction false} CulpritDiffers(t: Task, j: Json, w: Walk)
    requires !Safe(t.marker, Keeps(t), j) && Settled(t.marker, j) && DistinctKeys(j)
    requires Lists(t, Culprit(t.marker, Keeps(t), j, w.path))
    ensures Differs(Clean(t, j, w), Clear(t, j, w.path))
    decreases j, 1
  {
    if j.Obj? {
      CulpritMemberDiffers(t, j.members, w, []);
    } else {
      CulpritItemDiffers(t, j.items, w, []);
    }
  }

  lemma {:induction false} CulpritMemberDiffers(t: Task, ms: seq<Member>, w: Walk, done: seq<Member>)
    requires !SafeMembers(t.marker, Keeps(t), ms) && SettledMembers(t.marker, ms) && DistinctMembers(ms) && NewKeys(done, ms)
    requires Lists(t, CulpritMember(t.marker, Keeps(t), ms, w.path))
    ensures Differs(CleanMembers(t, ms, w, done), ClearMembers(t, ms, w.path, done))
    decreases ms, 0
  {
    hide Contains, DistinctMembers, NewKeys, Put, Lookup, Off, Clean, Clear, DistinctKeys, CleanMembers, ClearMembers, Lists;
    var key, value := ms[0].key, ms[0].value;
    var q := CulpritMember(t.marker, Keeps(t), ms, w.path);
    DistinctTail(ms, done, value);
    ListsArgsFirst(t, q);
    if value.Str? {
      StringMember(t, ms, w, done);
      CulpritMemberDiffers(t, ms[1..], w, Put(done, key, value));
    } else if !Safe(t.marker, Keeps(t), value) {
      CulpritDiffers(t, value, w.(path := w.path + [key]));
      BelowDiffers(t, ms, w, w.path, done);
    } else {
      assert HasKey(ms[1..], q[|w.path|]);
      var v, w2, f := SafeMember(t, q, ms, w, done);
      DistinctTail(ms, done, v);
      if Leaves(t.marker, value) {
        ConsultDiffers(t, ms[1..], w2, w.path, Put(done, key, v));
      } else {
        CulpritMemberDiffers(t, ms[1..], w2, Put(done, key, v));
      }
    }
  }

  lemma ListsArgsFirst(t: Task, q: seq<string>)
    requires Lists(t, q)
    ensures ArgsFirst(t)
  {
  }

  lemma {:induction false} CulpritItemDiffers(t: Task, items: seq<Json>, w: Walk, done: seq<Json>)
    requires !SafeItems(t.marker, Keeps(t), items) && SettledItems(t.marker, items) && DistinctKeys(Arr(items))
    requires Lists(t, CulpritItem(t.marker, Keeps(t), items, w.path))
    ensures Differs(CleanItems(t, items, w, done), ClearItems(t, items, w.path, done))
    decreases items, 0
  {
    var q := CulpritItem(t.marker, Keeps(t), items, w.path);
    assert DistinctKeys(items[0]);
    ListsArgsFirst(t, q);
    NothingFails(t, items[0], w, w.path);
    var c, p := Clean(t, items[0], w), Clear(t, items[0], w.path);
    if !Safe(t.marker, Keeps(t), items[0]) {
      CulpritDiffers(t, items[0], w);
      UnsafeLeaves(t.marker, Keeps(t), items[0]);
      var rest := items[1..];
      assert rest == [] || MarkedString(t.marker, rest[0]);
      assert (done + [c.json])[|done|] != (done + [p.json])[|done|];
    } else {
      SafeAgrees(t, items[0], w);
      assert DistinctKeys(Arr(items[1..])) by {
        assert forall i :: 0 <= i < |items[1..]| ==> items[1..][i] == items[i + 1];
      }
      CulpritItemDiffers(t, items[1..], c.walk, done + [c.json]);
    }
  }

  lemma StringMember(t: Task, ms: seq<Member>, w: Walk, done: seq<Member>)
    requires ms != [] && !Contains(ms[0].key, t.marker) && ms[0].value.Str? && !MarkedString(t.marker, ms[0].value)
    ensures CleanMembers(t, ms, w, done) == CleanMembers(t, ms[1..], w, Put(done, ms[0].key, ms[0].value))
    ensures ClearMembers(t, ms, w.path, done) == ClearMembers(t, ms[1..], w.path, Put(done, ms[0].key, ms[0].value))
  {
  }

  /** A safe member that the listed path does not touch: same value on both sides; afterwards the path
      is back, or off the listed path if a key was left behind. */
  lemma SafeMember(t: Task, q: seq<string>, ms: seq<Member>, w: Walk, done: seq<Member>) returns (v: Json, w2: Walk, f: bool)
    requires ms != [] && !Contains(ms[0].key, t.marker) && !ms[0].value.Str? && Safe(t.marker, Keeps(t), ms[0].value)
    requires Lists(t, q) && |q| > |w.path| && w.path <= q && q[|w.path|] != ms[0].key
    ensures CleanMembers(t, ms, w, done) == CleanMembers(t, ms[1..], w2, Put(done, ms[0].key, v))
    ensures ClearMembers(t, ms, w.path, done) == Also(f, ClearMembers(t, ms[1..], w.path, Put(done, ms[0].key, v)))
    ensures if Leaves(t.marker, ms[0].value) then Off(t, w2.path) else w2.path == w.path
  {
    hide Contains, Put, Clean, Clear, CleanMembers, ClearMembers, Off;
    var key, value := ms[0].key, ms[0].value;
    var here := w.path + [key];
    assert here[..|here| - 1] == w.path;
    FirstMember(t, ms, w, w.path, done);
    OffOtherKey(t, q, w.path, key);
    SafeAgrees(t, value, w.(path := here));
    OffWalk(t, value, w.(path := here));
    var c := Clean(t, value, w.(path := here));
    v, w2, f := c.json, c.walk.(path := c.walk.path[..|c.walk.path| - 1]), Clear(t, value, here).found;
    if Leaves(t.marker, value) {
      assert here <= w2.path;
      OffBelow(t, here, w2.path);
    }
  }

  // ---------- The exact condition ----------

  /** Whatever paths are listed, the walk returns what the recursion with the true path returns. */
  ghost predicate PathsAlwaysTrue(t: Task, j: Json) {
    forall args, contents ::
      var u := t.(args := args, contents := contents);
      Agrees(Clean(u, j, Walk([], false)), Clear(u, j, []), false)
  }

  /** For every tree, with arrays, in which no array goes on after an item that left a key behind: the
      shared path can be trusted whatever paths are listed if and only if nothing looks it up after a
      key was left behind. */
  lemma PathsTrueIffSafe(t: Task, j: Json)
    requires Settled(t.marker, j) && DistinctKeys(j)
    ensures PathsAlwaysTrue(t, j) <==> Safe(t.marker, Keeps(t), j)
  {
    if Safe(t.marker, Keeps(t), j) {
      forall args, contents
        ensures var u := t.(args := args, contents := contents); Agrees(Clean(u, j, Walk([], false)), Clear(u, j, []), false)
      {
        SafeAgrees(t.(args := args, contents := contents), j, Walk([], false));
      }
    } else {
      var u := Listing(t, Culprit(t.marker, Keeps(t), j, []));
      CulpritDiffers(u, j, Walk([], false));
      assert u == t.(args := u.args, contents := u.contents);
    }
  }

  /** With arrays the condition is not necessary: items share the path of their array, so a list that
      would catch the stale lookup of the second item here also keeps the first from leaving its key. */
  lemma ArrayItemsMayNotTell(t: Task, a: string, x: string, marked: string)
    requires !Contains(a, t.marker) && !Contains(x, t.marker) && Contains(marked, t.marker)
    ensures var j := Arr([Obj([Member(a, Obj([Member(x, Str(marked))]))]), Null]);
            !Safe(t.marker, Keeps(t), j) && PathsAlwaysTrue(t, j)
  {
    var inner := [Member(x, Str(marked))];
    var outer := [Member(a, Obj(inner))];
    var items := [Obj(outer), Null];
    assert LeavesMembers(t.marker, inner) && LeavesMembers(t.marker, outer) && items[1..] == [Null];
    assert Leaves(t.marker, Obj(outer)) && ConsultsItems(t.marker, items[1..]);
    assert !SafeItems(t.marker, Keeps(t), items);
    forall args, contents
      ensures var u := t.(args := args, contents := contents); Agrees(Clean(u, Arr(items), Walk([], false)), Clear(u, Arr(items), []), false)
    {
      SecondItem(t.(args := args, contents := contents), outer, inner, a, x, marked);
    }
  }

  lemma SecondItem(u: Task, outer: seq<Member>, inner: seq<Member>, a: string, x: string, marked: string)
    requires !Contains(a, u.marker) && !Contains(x, u.marker) && Contains(marked, u.marker)
    requires inner == [Member(x, Str(marked))] && outer == [Member(a, Obj(inner))]
    ensures Agrees(Clean(u, Arr([Obj(outer), Null]), Walk([], false)), Clear(u, Arr([Obj(outer), Null]), []), false)
  {
    hide Contains;
    var items := [Obj(outer), Null];
    if [] !in u.args && [] !in u.contents {
      assert SafeMembers(u.marker, Keeps(u), inner);
      assert outer[1..] == [] && SafeMembers(u.marker, Keeps(u), outer);
      SafeAgrees(u, Obj(outer), Walk([], false));
      var c, p := Clean(u, Obj(outer), Walk([], false)), Clear(u, Obj(outer), []);
      assert items[1..] == [Null] && [Null][1..] == [];
      if c.Cleaned? {
        PathAfterFirst(u, outer, inner, a, x, marked);
        assert Clean(u, Null, c.walk) == Cleaned(Null, c.walk);
        assert [Null][0] == Null && [c.json] + [Null] == [c.json, Null] && [p.json] + [Null] == [p.json, Null];
        assert CleanItems(u, [Null], c.walk, [c.json]) == Cleaned(Arr([c.json, Null]), c.walk);
        assert ClearItems(u, [Null], [], [p.json]) == Pure(Arr([p.json, Null]), false);
        assert [] + [c.json] == [c.json];
        assert CleanItems(u, items, Walk([], false), []) == CleanItems(u, items[1..], c.walk, [] + [c.json]);
      }
    }
  }

  lemma PathAfterFirst(u: Task, outer: seq<Member>, inner: seq<Member>, a: string, x: string, marked: string)
    requires !Contains(a, u.marker) && !Contains(x, u.marker) && Contains(marked, u.marker)
    requires inner == [Member(x, Str(marked))] && outer == [Member(a, Obj(inner))]
    requires [] !in u.args && [] !in u.contents && Clean(u, Obj(outer), Walk([], false)).Cleaned?
    ensures var q := Clean(u, Obj(outer), Walk([], false)).walk.path; q !in u.args && q !in u.contents
  {
    hide Contains;
    var empty: seq<string> := [];
    var here := [a] + [x];
    assert empty + [a] == [a] && [a][..0] == [] && outer[1..] == [] && here[..1] == [a];
    FirstMember(u, outer, Walk([], false), [], []);
    var c := Clean(u, Obj(inner), Walk([a], false));
    if [a] in u.args {
      assert c.walk.path == [a];
    } else {
      assert [a] !in u.contents;
      assert c == CleanMembers(u, inner, Walk([a], false), []);
      assert inner[0].key == x && inner[0].value == Str(marked);
      assert Clean(u, Str(marked), Walk(here, true)).walk.path == here;
      assert c.walk.path == here;
    }
    assert Clean(u, Obj(outer), Walk([], false)) == CleanMembers(u, outer, Walk([], false), []);
  }
}
