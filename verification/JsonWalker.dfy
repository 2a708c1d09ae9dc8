/**
  The recursive closure of `try_consume_json_with_dumped_args` in common/chat-parser.cpp,
  with its captured `path` and `found_healing_marker` as fields that it pushes, pops and sets.
 */
module JsonWalker {
  import opened Basics
  import opened JsonCleaner
  import opened JsonCuts
  import opened JsonLaws
  import opened JsonPaths

  class Walker {
    const task: Task
    var path: seq<string>
    var found: bool

    ghost function State(): Walk
      reads this
    {
      Walk(path, found)
    }

    constructor (task: Task)
      ensures this.task == task && State() == Walk([], false)
    {
      this.task := task;
      path, found := [], false;
    }

    /** Cleans one value; None stands for the exception on a content path that is no string. */
    method Remove(j: Json) returns (r: Option<Json>)
      modifies this
      ensures match Clean(task, j, old(State()))
              case Throws => r.None?
              case Cleaned(v, w) => r == Some(v) && State() == w
      decreases j, 1
    {
      if path in task.args {
        var (text, cut) := DumpArgs(task, j);
        found := found || cut;
        return Some(Str(text));
      }
      if path in task.contents {
        if !j.Str? {
          return None;
        }
        var (text, cut) := CutContent(task, j.s);
        found := found || cut;
        return Some(Str(text));
      }
      match j
      case Obj(ms) => r := RemoveMembers(ms);
      case Arr(items) => r := RemoveItems(items);
      case _ => r := Some(j);
    }

    method RemoveMembers(ms: seq<Member>) returns (r: Option<Json>)
      modifies this
      ensures match CleanMembers(task, ms, old(State()), [])
              case Throws => r.None?
              case Cleaned(v, w) => r == Some(v) && State() == w
      decreases ms, 0
    {
      hide DumpArgs, CutContent, Put, Clean;
      var obj: seq<Member> := [];
      var i := 0;
      while i < |ms|
        invariant 0 <= i <= |ms|
        invariant CleanMembers(task, ms[i..], State(), obj) == CleanMembers(task, ms, old(State()), [])
      {
        var key, value := ms[i].key, ms[i].value;
        assert ms[i..][0] == ms[i] && ms[i..][1..] == ms[i + 1..];
        if Contains(key, task.marker) {
          found := true;
          return Some(Obj(obj));
        }
        ghost var before := path;
        path := path + [key];
        assert path[..|path| - 1] == before;
        if value.Str? {
          if Contains(value.s, task.marker) {
            found := true;
            if path in task.contents && task.healed == task.dumpMarker {
              var v := Remove(value);
              if v.None? {
                return None;
              }
              obj := Put(obj, key, v.value);
            }
            return Some(Obj(obj));
          }
          obj := Put(obj, key, value);
        } else {
          var v := Remove(value);
          if v.None? {
            return None;
          }
          obj := Put(obj, key, v.value);
        }
        path := path[..|path| - 1];
        i := i + 1;
      }
      assert ms[i..] == [];
      r := Some(Obj(obj));
    }

    method RemoveItems(items: seq<Json>) returns (r: Option<Json>)
      modifies this
      ensures match CleanItems(task, items, old(State()), [])
              case Throws => r.None?
              case Cleaned(v, w) => r == Some(v) && State() == w
      decreases items, 0
    {
      hide Clean;
      var arr: seq<Json> := [];
      var i := 0;
      while i < |items|
        invariant 0 <= i <= |items|
        invariant CleanItems(task, items[i..], State(), arr) == CleanItems(task, items, old(State()), [])
      {
        assert items[i..][0] == items[i] && items[i..][1..] == items[i + 1..];
        if items[i].Str? && Contains(items[i].s, task.marker) {
          found := true;
          return Some(Arr(arr));
        }
        var v := Remove(items[i]);
        if v.None? {
          return None;
        }
        arr := arr + [v.value];
        i := i + 1;
      }
      assert items[i..] == [];
      r := Some(Arr(arr));
    }
  }

  datatype Consumed = Consumed(json: Json, partial: bool)

  /** The tree is walked: something was healed, or there are argument paths and the root is none. */
  ghost predicate Walks(t: Task) {
    t.healed != [] || (t.args != [] && [] !in t.args)
  }

  lemma CleanedFromRoot(t: Task, j: Json)
    ensures var r := Clean(t, j, Walk([], false));
            && ([] in t.args ==> r.Cleaned? && r.json.Str? && ArgText(t, t.dump(j), r.json.s, r.walk.found))
            && ([] !in t.args && [] in t.contents ==>
                  && (r.Cleaned? <==> j.Str?)
                  && (j.Str? ==> r.json.Str? && BeforeFirst(j.s, t.healed, r.json.s, r.walk.found)))
            && (r.Cleaned? && DistinctKeys(j) ==>
                  forall steps, v :: StandsAt(t, j, steps, v) ==> Becomes(t, Keys(steps), v, Look(r.json, steps), r.walk.found))
            && (r.Cleaned? && Healed(t) && DumpsCut(t, j) && (!j.Str? || [] in t.args || [] in t.contents) ==>
                  !Marked(t.marker, r.json))
  {
    hide Clean, DumpArgs, CutContent, ArgText, BeforeFirst, Becomes, StandsAt, Marked, DumpsCut, Healed, DistinctKeys;
    var r := Clean(t, j, Walk([], false));
    ListedValue(t, j, Walk([], false));
    if r.Cleaned? {
      if DistinctKeys(j) {
        StandingBecomes(t, j);
      }
      if Healed(t) && DumpsCut(t, j) && (!j.Str? || [] in t.args || [] in t.contents) {
        CleanRemovesMarker(t, j, Walk([], false));
      }
    }
  }

  /** `try_consume_json_with_dumped_args` on a parsed value. A value that was not healed comes back as
      it is, or dumped whole. Otherwise a listed root is cut at the marker, and every value reached
      before the marker becomes what the lists say of its path; from a parse healed with the parser's
      marker none is left. */
  method ConsumeJson(t: Task, j: Json) returns (r: Option<Consumed>)
    ensures t.healed == [] && t.args == [] ==> r == Some(Consumed(j, false))
    ensures t.healed == [] && t.args != [] && [] in t.args ==> r == Some(Consumed(Str(t.dump(j)), false))
    ensures Walks(t) ==>
              r == match Clean(t, j, Walk([], false))
                   case Throws => None
                   case Cleaned(v, w) => Some(Consumed(v, w.found))
    ensures Walks(t) && [] in t.args ==>
              r.Some? && r.value.json.Str? && ArgText(t, t.dump(j), r.value.json.s, r.value.partial)
    ensures Walks(t) && [] !in t.args && [] in t.contents ==>
              && (r.Some? <==> j.Str?)
              && (j.Str? ==> r.value.json.Str? && BeforeFirst(j.s, t.healed, r.value.json.s, r.value.partial))
    ensures Walks(t) && r.Some? && DistinctKeys(j) ==>
              forall steps, v :: StandsAt(t, j, steps, v) ==> Becomes(t, Keys(steps), v, Look(r.value.json, steps), r.value.partial)
    ensures Healed(t) && DumpsCut(t, j) && r.Some? && (!j.Str? || [] in t.args || [] in t.contents) ==>
              !Marked(t.marker, r.value.json)
    ensures t.healed != [] && Plain(t) && (j.Obj? || j.Arr?) ==>
              && r.Some?
              && !Marked(t.marker, r.value.json)
              && (r.value.partial <==> Marked(t.marker, j))
              && (DistinctKeys(j) && !Marked(t.marker, j) ==> r.value.json == j)
    ensures t.healed != [] && Safe(t.marker, Keeps(t), j) ==>
              r == match Clear(t, j, [])
                   case Fails => None
                   case Pure(v, found) => Some(Consumed(v, found))
  {
    hide Clean, Clear, DumpArgs, CutContent, ArgText, BeforeFirst, Becomes, StandsAt, Marked, DumpsCut, Safe, DistinctKeys;
    if t.healed == [] {
      if t.args == [] {
        return Some(Consumed(j, false));
      }
      if [] in t.args {
        return Some(Consumed(Str(t.dump(j)), false));
      }
    }
    var walker := new Walker(t);
    ghost var start := walker.State();
    var v := walker.Remove(j);
    CleanedFromRoot(t, j);
    if Plain(t) {
      PlainAgrees(t, j, start, []);
      PlainRemovesMarker(t, j, []);
      if DistinctKeys(j) && !Marked(t.marker, j) {
        PlainKeepsUnmarked(t, j, []);
      }
    }
    if Safe(t.marker, Keeps(t), j) {
      SafeAgrees(t, j, start);
    }
    if v.None? {
      return None;
    }
    r := Some(Consumed(v.value, walker.found));
  }
}
