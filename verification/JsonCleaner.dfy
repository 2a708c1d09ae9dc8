/**
  The healed-JSON cleaner of common/chat-parser.cpp. A partial JSON text is closed by the
  JSON parser with a healing marker; the cleaner removes what the marker touched and dumps
  argument subtrees. It walks the tree with ONE shared key path, pushed and popped by hand.
 */
module JsonCleaner {
  import opened Text

  datatype Json = Null | Bool(b: bool) | Number(n: int) | Str(s: string) | Arr(items: seq<Json>) | Obj(members: seq<Member>)

  datatype Member = Member(key: string, value: Json)

  /** What the cleaner is given besides the tree. `marker` is the parser's own marker;
      `healed` and `dumpMarker` come with the parsed JSON and are empty when nothing was healed. */
  datatype Task = Task(marker: string, healed: string, dumpMarker: string, partial: bool,
                       args: seq<seq<string>>, contents: seq<seq<string>>, dump: Json -> string)

  /** The shared mutable state: current key path and whether the marker was met. */
  datatype Walk = Walk(path: seq<string>, found: bool)

  datatype Cleaned = Throws | Cleaned(json: Json, walk: Walk)

  predicate Contains(s: string, pat: string) {
    Find(s, pat, 0).Some?
  }

  /** `obj[key] = value`: replaces the entry of that key or appends one. */
  function Put(ms: seq<Member>, key: string, value: Json): (r: seq<Member>) {
    if ms == [] then [Member(key, value)]
    else if ms[0].key == key then [Member(key, value)] + ms[1..]
    else [ms[0]] + Put(ms[1..], key, value)
  }

  /** An argument subtree: dumped, and cut at the healing marker. */
  function DumpArgs(t: Task, j: Json): (string, bool) {
    var text := t.dump(j);
    if t.partial && t.healed != [] then
      var at := Find(text, t.dumpMarker, 0);
      var cut := if at.Some? then text[..at.value] else text;
      (if cut == "\"" then "" else cut, at.Some?)
    else (text, false)
  }

  /** A content string, cut at the healing marker. */
  function CutContent(t: Task, s: string): (string, bool) {
    var at := Find(s, t.healed, 0);
    if at.Some? then (s[..at.value], true) else (s, false)
  }

  // ---------- The walk with the shared path ----------

  function Clean(t: Task, j: Json, w: Walk): (r: Cleaned)
    ensures r.Cleaned? ==> w.path <= r.walk.path
    decreases j, 1
  {
    if w.path in t.args then
      var (text, found) := DumpArgs(t, j);
      Cleaned(Str(text), w.(found := w.found || found))
    else if w.path in t.contents then
      if !j.Str? then Throws
      else
        var (text, found) := CutContent(t, j.s);
        Cleaned(Str(text), w.(found := w.found || found))
    else
      match j
      case Obj(ms) => CleanMembers(t, ms, w, [])
      case Arr(items) => CleanItems(t, items, w, [])
      case _ => Cleaned(j, w)
  }

  /** The loop over object members. Both marker breaks leave the loop, the second one with
      the key still on the path. */
  function CleanMembers(t: Task, ms: seq<Member>, w: Walk, done: seq<Member>): (r: Cleaned)
    ensures r.Cleaned? ==> w.path <= r.walk.path
    decreases ms, 0
  {
    if ms == [] then Cleaned(Obj(done), w)
    else
      var key, value := ms[0].key, ms[0].value;
      if Contains(key, t.marker) then Cleaned(Obj(done), w.(found := true))
      else
        var here := w.path + [key];
        if value.Str? && Contains(value.s, t.marker) then
          if here in t.contents && t.healed == t.dumpMarker then
            match Clean(t, value, Walk(here, true))
            case Throws => Throws
            case Cleaned(v, w1) => Cleaned(Obj(Put(done, key, v)), w1)
          else Cleaned(Obj(done), Walk(here, true))
        else if value.Str? then CleanMembers(t, ms[1..], w, Put(done, key, value))
        else
          match Clean(t, value, w.(path := here))
          case Throws => Throws
          case Cleaned(v, w1) =>
            CleanMembers(t, ms[1..], w1.(path := w1.path[..|w1.path| - 1]), Put(done, key, v))
  }

  function CleanItems(t: Task, items: seq<Json>, w: Walk, done: seq<Json>): (r: Cleaned)
    ensures r.Cleaned? ==> w.path <= r.walk.path
    decreases items, 0
  {
    if items == [] then Cleaned(Arr(done), w)
    else if items[0].Str? && Contains(items[0].s, t.marker) then Cleaned(Arr(done), w.(found := true))
    else
      match Clean(t, items[0], w)
      case Throws => Throws
      case Cleaned(v, w1) => CleanItems(t, items[1..], w1, done + [v])
  }

  // ---------- The same with the path passed as an argument ----------

  datatype Pure = Fails | Pure(json: Json, found: bool)

  ghost function Clear(t: Task, j: Json, path: seq<string>): Pure
    decreases j, 1
  {
    if path in t.args then
      var (text, found) := DumpArgs(t, j);
      Pure(Str(text), found)
    else if path in t.contents then
      if !j.Str? then Fails
      else
        var (text, found) := CutContent(t, j.s);
        Pure(Str(text), found)
    else
      match j
      case Obj(ms) => ClearMembers(t, ms, path, [])
      case Arr(items) => ClearItems(t, items, path, [])
      case _ => Pure(j, false)
  }

  ghost function ClearMembers(t: Task, ms: seq<Member>, path: seq<string>, done: seq<Member>): Pure
    decreases ms, 0
  {
    if ms == [] then Pure(Obj(done), false)
    else
      var key, value := ms[0].key, ms[0].value;
      if Contains(key, t.marker) then Pure(Obj(done), true)
      else if value.Str? && Contains(value.s, t.marker) then
        if path + [key] in t.contents && t.healed == t.dumpMarker then
          match Clear(t, value, path + [key])
          case Fails => Fails
          case Pure(v, _) => Pure(Obj(Put(done, key, v)), true)
        else Pure(Obj(done), true)
      else if value.Str? then ClearMembers(t, ms[1..], path, Put(done, key, value))
      else
        match Clear(t, value, path + [key])
        case Fails => Fails
        case Pure(v, f) => Also(f, ClearMembers(t, ms[1..], path, Put(done, key, v)))
  }

  ghost function ClearItems(t: Task, items: seq<Json>, path: seq<string>, done: seq<Json>): Pure
    decreases items, 0
  {
    if items == [] then Pure(Arr(done), false)
    else if items[0].Str? && Contains(items[0].s, t.marker) then Pure(Arr(done), true)
    else
      match Clear(t, items[0], path)
      case Fails => Fails
      case Pure(v, f) => Also(f, ClearItems(t, items[1..], path, done + [v]))
  }

  ghost function Also(found: bool, r: Pure): Pure {
    match r
    case Fails => Fails
    case Pure(j, f) => Pure(j, found || f)
  }

  // ---------- Where the marker sits ----------

  /** The marker occurs in some key or string of the tree. */
  ghost predicate Marked(marker: string, j: Json)
    decreases j, 1
  {
    match j
    case Str(s) => Contains(s, marker)
    case Arr(items) => exists i :: 0 <= i < |items| && Marked(marker, items[i])
    case Obj(ms) => exists i :: 0 <= i < |ms| && MarkedMember(marker, ms[i])
    case _ => false
  }

  ghost predicate MarkedMember(marker: string, m: Member)
    decreases m, 0
  {
    Contains(m.key, marker) || Marked(marker, m.value)
  }

  /** Nothing is visited after the entry that holds the marker. */
  ghost predicate MarkerLast(marker: string, j: Json) {
    match j
    case Arr(items) =>
      items != [] ==>
        (forall i :: 0 <= i < |items| - 1 ==> !Marked(marker, items[i])) && MarkerLast(marker, items[|items| - 1])
    case Obj(ms) =>
      ms != [] ==>
        (forall i :: 0 <= i < |ms| - 1 ==> !MarkedMember(marker, ms[i])) && MarkerLast(marker, ms[|ms| - 1].value)
    case _ => true
  }
}
