/**
  The message parser object of common/chat-parser.cpp: a cursor over the model's output
  and the message built so far, with its methods proved against the functions of
  `ChatReasoning` and against direct specifications.
 */
module ChatParser {
  import opened Basics
  import opened Text
  import opened ChatReasoning

  /** A hit of `try_find_literal`: the text before it and the range it covers. */
  datatype Hit = Hit(prelude: string, begin: nat, end: nat)

  /** `try_find_literal` from `pos`: a full occurrence, or on partial input the longest
      suffix of the WHOLE input that may begin one, provided it starts at or after `pos`. */
  function FindLiteral(input: string, partial: bool, literal: string, pos: nat): (r: Option<Hit>)
    requires pos <= |input|
    ensures r.Some? ==> pos <= r.value.begin <= r.value.end <= |input|
  {
    match Find(input, literal, pos)
    case Some(i) => Some(Hit(input[pos..i], i, i + |literal|))
    case None =>
      match if partial then PartialStop(input, literal) else None
      case Some(i) => if i >= pos then Some(Hit(input[pos..i], i, |input|)) else None
      case None => None
  }

  class MsgParser {
    const input: string
    const partial: bool
    const syntax: Syntax
    var pos: nat
    var content: string
    var reasoning: string

    ghost predicate Valid()
      reads this
    {
      pos <= |input|
    }

    constructor (input: string, partial: bool, syntax: Syntax)
      ensures Valid() && this.input == input && this.partial == partial && this.syntax == syntax
      ensures pos == 0 && content == [] && reasoning == []
    {
      this.input, this.partial, this.syntax := input, partial, syntax;
      pos, content, reasoning := 0, [], [];
    }

    method ConsumeSpaces() returns (consumed: bool)
      requires Valid()
      modifies this`pos
      ensures Valid() && pos == SkipSpaces(input, old(pos)) && consumed == (pos > old(pos))
    {
      consumed := false;
      while pos < |input| && IsSpace(input[pos])
        invariant old(pos) <= pos <= |input| && SkipSpaces(input, pos) == SkipSpaces(input, old(pos))
        invariant consumed == (pos > old(pos))
      {
        pos := pos + 1;
        consumed := true;
      }
    }

    /** Consumes the literal if the input continues with it, else changes nothing. */
    method TryConsumeLiteral(literal: string) returns (ok: bool)
      requires Valid()
      modifies this`pos
      ensures Valid() && ok == OccursAt(input, literal, old(pos))
      ensures pos == old(pos) + (if ok then |literal| else 0)
    {
      var p := pos;
      for i := 0 to |literal|
        invariant p == old(pos) + i <= |input| && pos == old(pos)
        invariant input[old(pos)..p] == literal[..i]
      {
        if p >= |input| {
          return false;
        }
        if input[p] != literal[i] {
          assert old(pos) + |literal| <= |input| ==> input[old(pos)..old(pos) + |literal|][i] == input[p];
          return false;
        }
        assert input[old(pos)..p + 1] == input[old(pos)..p] + [input[p]] && literal[..i + 1] == literal[..i] + [literal[i]];
        p := p + 1;
      }
      pos := p;
      ok := true;
    }

    method TryFindLiteral(literal: string) returns (r: Option<Hit>)
      requires Valid()
      modifies this`pos
      ensures Valid() && r == FindLiteral(input, partial, literal, old(pos))
      ensures pos == if r.Some? then r.value.end else old(pos)
    {
      var i := Find(input, literal, pos);
      if i.Some? {
        r := Some(Hit(input[pos..i.value], i.value, i.value + |literal|));
        pos := i.value + |literal|;
        return;
      }
      if partial {
        i := FindPartialStop(input, literal);
        if i.Some? && i.value >= pos {
          r := Some(Hit(input[pos..i.value], i.value, |input|));
          pos := |input|;
          return;
        }
      }
      r := None;
    }

    method ConsumeRest() returns (rest: string)
      requires Valid()
      modifies this`pos
      ensures Valid() && rest == input[old(pos)..] && pos == |input|
    {
      rest := input[pos..];
      pos := |input|;
    }

    /** The closure that records one reasoning section. */
    method HandleReasoning(tags: Tags, pending: string, text: string, closed: bool) returns (owed: string)
      modifies this`content, this`reasoning
      ensures var h := Handle(syntax, tags, pending, text, closed);
              content == old(content) + h.content && reasoning == old(reasoning) + h.reasoning && owed == h.pending
    {
      hide Strip;
      owed := pending;
      var stripped := StripLoop(text);
      if stripped == [] {
        return;
      }
      if syntax.inContent {
        content := content + OpenTag(syntax, tags);
        content := content + stripped;
        if closed {
          content := content + CloseTag(syntax, tags);
        }
      } else {
        if pending != [] {
          reasoning := reasoning + pending;
          owed := [];
        }
        reasoning := reasoning + stripped;
      }
    }

    /** Skips blanks from a position, leaving the parser alone. */
    method PastSpaces(from: nat) returns (at: nat)
      requires from <= |input|
      ensures at == SkipSpaces(input, from)
    {
      at := from;
      while at < |input| && IsSpace(input[at])
        invariant from <= at <= |input| && SkipSpaces(input, at) == SkipSpaces(input, from)
      {
        at := at + 1;
      }
    }

    /** The part of the loop body after an end tag: blanks, then perhaps another start tag. */
    method AfterEnd(tags: Tags, from: nat, pending: string) returns (done: bool, at: nat, owed: string)
      requires from <= |input|
      ensures var next := SkipSpaces(input, from);
              if Reopens(input, next, tags)
              then !done && at == next + |tags.start| && owed == PrefixAt(syntax, tags, input, next, pending)
              else done && at == if next < |input| && StartsLike(input, next, tags.start) then |input| else next
    {
      owed := pending;
      at := PastSpaces(from);
      var remaining := |input| - at;
      if remaining == 0 {
        return true, at, owed;
      }
      var prefix := if |tags.start| < remaining then |tags.start| else remaining;
      if input[at..at + prefix] == tags.start[..prefix] {
        if prefix < |tags.start| {
          return true, |input|, owed;
        }
        owed := PrefixAt(syntax, tags, input, at, owed);
        return false, at + |tags.start|, owed;
      }
      return true, at, owed;
    }

    /** One pass of the loop body: records a section and says where parsing stops or goes on. */
    method NextSection(tags: Tags, cursor: nat, pending: string) returns (done: bool, at: nat, owed: string)
      requires tags.Valid() && cursor <= |input|
      modifies this`content, this`reasoning
      ensures var turn := TakeTurn(input, partial, syntax, tags, cursor, pending);
              && content == old(content) + turn.h.content
              && reasoning == old(reasoning) + turn.h.reasoning
              && done == turn.Done?
              && (if done then at == turn.pos else at == turn.cursor && owed == turn.h.pending)
    {
      hide Handle, SkipSpaces, StartsLike, PrefixAt;
      owed := pending;
      if cursor >= |input| {
        return true, |input|, owed;
      }
      var endPos := Find(input, tags.end, cursor);
      if endPos.None? {
        var off := FindPartialStop(input[cursor..], tags.end);
        var end := if off.None? then |input| else cursor + off.value;
        owed := HandleReasoning(tags, pending, input[cursor..end], off.None? && !partial);
        return true, |input|, owed;
      }
      owed := HandleReasoning(tags, pending, input[cursor..endPos.value], true);
      done, at, owed := AfterEnd(tags, endPos.value + |tags.end|, owed);
    }

    method SectionLoop(tags: Tags, start: nat, prefix: string)
      requires tags.Valid() && start <= |input|
      modifies this
      ensures Valid()
      ensures var r := Sections(input, partial, syntax, tags, start, prefix);
              pos == r.pos && content == old(content) + r.content && reasoning == old(reasoning) + r.reasoning
    {
      hide TakeTurn;
      var cursor, pending := start, prefix;
      ghost var r := Sections(input, partial, syntax, tags, start, prefix);
      var done := false;
      while !done
        invariant cursor <= |input|
        invariant !done ==> var rest := Sections(input, partial, syntax, tags, cursor, pending);
                            && rest.pos == r.pos
                            && content + rest.content == old(content) + r.content
                            && reasoning + rest.reasoning == old(reasoning) + r.reasoning
        invariant done ==> pos == r.pos && content == old(content) + r.content && reasoning == old(reasoning) + r.reasoning
        decreases !done, |input| - cursor
      {
        ghost var turn := TakeTurn(input, partial, syntax, tags, cursor, pending);
        ghost var c0, r0 := content, reasoning;
        var at;
        done, at, pending := NextSection(tags, cursor, pending);
        if done {
          pos := at;
        } else {
          ghost var rest := Sections(input, partial, syntax, tags, at, pending);
          assert c0 + (turn.h.content + rest.content) == content + rest.content;
          assert r0 + (turn.h.reasoning + rest.reasoning) == reasoning + rest.reasoning;
          cursor := at;
        }
      }
    }

    /** The start tag stands at the cursor: blanks before it are content, then the sections. */
    method OpenReasoning(tags: Tags, cursor: nat)
      requires Valid() && tags.Valid() && pos <= cursor && cursor + |tags.start| <= |input|
      modifies this
      ensures Valid()
      ensures var r := Opened(input, partial, syntax, tags, old(pos), cursor);
              pos == r.pos && content == old(content) + r.content && reasoning == old(reasoning) + r.reasoning
    {
      hide Sections;
      content := content + input[pos..cursor];
      var pending := PrefixAt(syntax, tags, input, cursor, []);
      SectionLoop(tags, cursor + |tags.start|, pending);
    }

    /** `try_parse_reasoning`. */
    method TryParseReasoning(tags: Tags) returns (handled: bool)
      requires Valid() && tags.Valid()
      modifies this
      ensures Valid()
      ensures var r := Parse(input, partial, syntax, tags, old(pos));
              handled == r.handled && pos == r.pos && content == old(content) + r.content && reasoning == old(reasoning) + r.reasoning
    {
      hide Sections, Handle, SkipSpaces, Opened;
      if syntax.format == Off {
        return false;
      }
      var cursor := PastSpaces(pos);
      if cursor >= |input| {
        if syntax.forcedOpen {
          if pos < |input| {
            var _ := HandleReasoning(tags, [], input[pos..], !partial);
          }
          pos := |input|;
          return true;
        }
        return false;
      }
      var remaining := |input| - cursor;
      var prefix := if |tags.start| < remaining then |tags.start| else remaining;
      if input[cursor..cursor + prefix] == tags.start[..prefix] {
        if prefix < |tags.start| {
          pos := |input|;
          return true;
        }
        OpenReasoning(tags, cursor);
        return true;
      }
      if !syntax.forcedOpen {
        return false;
      }
      SectionLoop(tags, cursor, []);
      handled := true;
    }

    /** `common_chat_parse_content_only`. */
    method ParseContentOnly(tags: Tags)
      requires Valid() && tags.Valid()
      modifies this
      ensures Valid() && pos == |input|
      ensures var r := Parse(input, partial, syntax, tags, old(pos));
              content == old(content) + (r.content + input[r.pos..]) && reasoning == old(reasoning) + r.reasoning
    {
      hide Parse;
      var _ := TryParseReasoning(tags);
      var rest := ConsumeRest();
      content := content + rest;
    }
  }

  // ---------- What a partial hit is worth ----------

  /** A hit is the leftmost occurrence from `pos` on, or on partial input without one the longest partial
      match of the whole input, up to its end; the prelude is what stands before it. */
  lemma HitIs(input: string, partial: bool, literal: string, pos: nat)
    requires pos <= |input| && FindLiteral(input, partial, literal, pos).Some?
    ensures var h := FindLiteral(input, partial, literal, pos).value;
            && pos <= h.begin && h.prelude == input[pos..h.begin]
            && if exists i :: pos <= i && OccursAt(input, literal, i) then
                 && OccursAt(input, literal, h.begin) && h.end == h.begin + |literal|
                 && forall i :: pos <= i < h.begin ==> !OccursAt(input, literal, i)
               else
                 && partial && PartialAt(input, literal, h.begin) && h.end == |input|
                 && forall i :: 0 <= i < h.begin ==> !PartialAt(input, literal, i)
  {
  }

  /** A hit on a partial input, full or partial, has a prelude that every later hit from
      the same position keeps as a prefix. */
  lemma PreludeGrows(p: string, q: string, partial: bool, literal: string, pos: nat)
    requires p <= q && pos <= |p|
    requires FindLiteral(p, true, literal, pos).Some? && FindLiteral(q, partial, literal, pos).Some?
    ensures FindLiteral(p, true, literal, pos).value.prelude <= FindLiteral(q, partial, literal, pos).value.prelude
  {
    var b := FindLiteral(q, partial, literal, pos).value.begin;
    if Find(p, literal, pos).Some? {
      FindStable(p, q, literal, pos);
    } else if b < |p| {
      if Find(q, literal, pos).Some? {
        OccurrenceNotBefore(p, q, literal, pos, b);
      } else {
        PartialShrinks(p, q, literal, b);
      }
    }
  }

  /** Some occurrence of the literal at or after `pos` may still be completed by more input. */
  ghost predicate MayAppear(input: string, literal: string, pos: nat) {
    exists i :: pos <= i && (OccursAt(input, literal, i) || PartialAt(input, literal, i))
  }

  /** On partial input a possible occurrence goes unreported exactly when none is complete and
      some partial match starts before `pos`: the longest one hides those that follow. */
  lemma MissedIff(input: string, literal: string, pos: nat)
    requires pos <= |input| && MayAppear(input, literal, pos)
    ensures FindLiteral(input, true, literal, pos).None?
       <==> Find(input, literal, pos).None? && exists i :: 0 <= i < pos && PartialAt(input, literal, i)
  {
    if Find(input, literal, pos).None? {
      var i :| pos <= i && (OccursAt(input, literal, i) || PartialAt(input, literal, i));
      assert PartialAt(input, literal, i);
      var first := PartialStop(input, literal);
      assert first.Some? && PartialAt(input, literal, first.value);
    }
  }

  /** A possible occurrence that is not reported: the longest match starts too early. */
  lemma MissedPartial()
    ensures MayAppear("aa", "aab", 1) && FindLiteral("aa", true, "aab", 1).None?
  {
    assert PartialAt("aa", "aab", 1) && PartialAt("aa", "aab", 0);
    assert PartialStop("aa", "aab") == Some(0);
  }
}
