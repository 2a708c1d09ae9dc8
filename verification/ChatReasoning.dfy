/**
  The reasoning extraction of common/chat-parser.cpp as a function of the input:
  what `try_parse_reasoning` adds to the message and where it leaves the cursor.
 */
module ChatReasoning {
  import opened Text

  datatype ReasoningFormat = Off | Auto | DeepseekLegacy | Deepseek

  datatype Syntax = Syntax(format: ReasoningFormat, inContent: bool, forcedOpen: bool)

  /** The tags that open and close a reasoning section. At least one is non-empty:
      with both empty the source loops forever. */
  datatype Tags = Tags(start: string, end: string) {
    predicate Valid() {
      start != [] || end != []
    }
  }

  /** Text added to the message, the prefix still owed, where parsing stopped. */
  datatype Parsed = Parsed(handled: bool, pos: nat, content: string, reasoning: string)

  datatype Handled = Handled(content: string, reasoning: string, pending: string)

  function OpenTag(sx: Syntax, tags: Tags): string {
    if sx.format == Deepseek then "<think>" else tags.start
  }

  function CloseTag(sx: Syntax, tags: Tags): string {
    if sx.format == Deepseek then "</think>" else tags.end
  }

  /** One finished or unfinished reasoning section. */
  function Handle(sx: Syntax, tags: Tags, pending: string, text: string, closed: bool): Handled {
    var stripped := Strip(text);
    if stripped == [] then Handled([], [], pending)
    else if sx.inContent then
      Handled(OpenTag(sx, tags) + stripped + (if closed then CloseTag(sx, tags) else []), [], pending)
    else Handled([], pending + stripped, [])
  }

  /** The opening literal owed to the caller when the tag is forced open. */
  function PrefixAt(sx: Syntax, tags: Tags, input: string, at: nat, pending: string): string
    requires at <= |input|
  {
    if !sx.forcedOpen || sx.inContent then pending
    else if at + |tags.start| > |input| then []
    else input[at..at + |tags.start|]
  }

  /** The same for a tag that is there. */
  function Owed(sx: Syntax, tags: Tags): string {
    if sx.forcedOpen && !sx.inContent then tags.start else []
  }

  function Min(a: nat, b: nat): nat {
    if a < b then a else b
  }

  /** The input from `at` on agrees with the tag as far as both go. */
  predicate StartsLike(input: string, at: nat, tag: string)
    requires at <= |input|
  {
    var n := Min(|tag|, |input| - at);
    input[at..at + n] == tag[..n]
  }

  /** End of the text shown for a section with no closing tag yet. */
  function OpenEnd(input: string, tags: Tags, cursor: nat): (e: nat)
    requires cursor <= |input|
    ensures cursor <= e <= |input|
  {
    var off := PartialStop(input[cursor..], tags.end);
    if off.None? then |input| else cursor + off.value
  }

  /** Another reasoning section opens at `next`. */
  predicate Reopens(input: string, next: nat, tags: Tags)
    requires next <= |input|
  {
    next < |input| && StartsLike(input, next, tags.start) && next + |tags.start| <= |input|
  }

  /** One turn of the section loop: finished, or a new section opened at `cursor`. */
  datatype Turn = Done(pos: nat, h: Handled) | More(cursor: nat, h: Handled)

  function TakeTurn(input: string, partial: bool, sx: Syntax, tags: Tags, cursor: nat, pending: string): (r: Turn)
    requires tags.Valid() && cursor <= |input|
    ensures r.Done? ==> r.pos <= |input|
    ensures r.More? ==> cursor < r.cursor <= |input|
  {
    if cursor == |input| then Done(|input|, Handled([], [], pending))
    else
      match Find(input, tags.end, cursor)
      case None => Done(|input|, OpenSection(input, partial, sx, tags, cursor, pending))
      case Some(end) => ClosedSection(input, sx, tags, cursor, pending, end)
  }

  function OpenSection(input: string, partial: bool, sx: Syntax, tags: Tags, cursor: nat, pending: string): Handled
    requires cursor <= |input|
  {
    var end := OpenEnd(input, tags, cursor);
    Handle(sx, tags, pending, input[cursor..end], end == |input| && !partial)
  }

  function ClosedSection(input: string, sx: Syntax, tags: Tags, cursor: nat, pending: string, end: nat): Turn
    requires cursor <= end && end + |tags.end| <= |input|
  {
    var h := Handle(sx, tags, pending, input[cursor..end], true);
    var next := SkipSpaces(input, end + |tags.end|);
    if Reopens(input, next, tags) then
      More(next + |tags.start|, h.(pending := PrefixAt(sx, tags, input, next, h.pending)))
    else if next < |input| && StartsLike(input, next, tags.start) then Done(|input|, h)
    else Done(next, h)
  }

  /** The loop over reasoning sections, entered with the cursor inside the first. */
  function Sections(input: string, partial: bool, sx: Syntax, tags: Tags, cursor: nat, pending: string): (r: Parsed)
    requires tags.Valid() && cursor <= |input|
    ensures r.handled && r.pos <= |input|
    decreases |input| - cursor
  {
    match TakeTurn(input, partial, sx, tags, cursor, pending)
    case Done(pos, h) => Parsed(true, pos, h.content, h.reasoning)
    case More(next, h) =>
      var rest := Sections(input, partial, sx, tags, next, h.pending);
      Parsed(true, rest.pos, h.content + rest.content, h.reasoning + rest.reasoning)
  }

  /** A start tag at `ws`: the blanks before it are content, the rest is reasoning sections. */
  function Opened(input: string, partial: bool, sx: Syntax, tags: Tags, pos: nat, ws: nat): (r: Parsed)
    requires tags.Valid() && pos <= ws && ws + |tags.start| <= |input|
    ensures r.handled && r.pos <= |input|
  {
    var r := Sections(input, partial, sx, tags, ws + |tags.start|, PrefixAt(sx, tags, input, ws, []));
    r.(content := input[pos..ws] + r.content)
  }

  /** `try_parse_reasoning` from position `pos`. */
  function Parse(input: string, partial: bool, sx: Syntax, tags: Tags, pos: nat): (r: Parsed)
    requires tags.Valid() && pos <= |input|
    ensures r.pos <= |input|
  {
    if sx.format == Off then Parsed(false, pos, [], [])
    else
      var ws := SkipSpaces(input, pos);
      if ws == |input| then
        if !sx.forcedOpen then Parsed(false, pos, [], [])
        else
          var h := if pos < |input| then Handle(sx, tags, [], input[pos..], !partial) else Handled([], [], []);
          Parsed(true, |input|, h.content, h.reasoning)
      else if StartsLike(input, ws, tags.start) then
        if |input| - ws < |tags.start| then Parsed(true, |input|, [], [])
        else Opened(input, partial, sx, tags, pos, ws)
      else if sx.forcedOpen then Sections(input, partial, sx, tags, ws, [])
      else Parsed(false, pos, [], [])
  }

  // ---------- Streaming: output only grows ----------

  /** The partial output a is a prefix of the later output b, also when the unparsed
      rest of each input is appended to its content. */
  ghost predicate Grows(a: Parsed, p: string, b: Parsed, q: string)
    requires a.pos <= |p| && b.pos <= |q|
  {
    && a.content <= b.content
    && a.reasoning <= b.reasoning
    && a.content + p[a.pos..] <= b.content + q[b.pos..]
  }

  lemma PrefixUnder(a: string, b: string, c: string)
    requires a <= b
    ensures a <= b + c && c + a <= c + b
  {}

  /** An open section of a prefix shows no more than the same section of an extension. */
  lemma {:induction false} HandleGrows(sx: Syntax, tags: Tags, pending: string, a: string, b: string, closed: bool)
    requires a <= b
    ensures Handle(sx, tags, pending, a, false).content <= Handle(sx, tags, pending, b, closed).content
    ensures Handle(sx, tags, pending, a, false).reasoning <= Handle(sx, tags, pending, b, closed).reasoning
  {
    StripMonotone(a, b);
    var s, t := Strip(a), Strip(b);
    if s != [] {
      PrefixUnder(s, t, OpenTag(sx, tags));
      PrefixUnder(s, t, pending);
      if closed {
        PrefixUnder(OpenTag(sx, tags) + s, OpenTag(sx, tags) + t, CloseTag(sx, tags));
      }
    }
  }

  lemma OpenEndIsEarliest(p: string, tags: Tags, cursor: nat, i: nat)
    requires cursor <= i < |p| && PartialAt(p, tags.end, i)
    ensures OpenEnd(p, tags, cursor) <= i
  {
    PartialSuffix(p, tags.end, cursor, i);
  }

  /** Nothing shown for an unclosed section can turn out to belong to the closing tag. */
  lemma {:induction false} OpenEndHolds(p: string, q: string, tags: Tags, cursor: nat)
    requires p <= q && cursor <= |p| && Find(p, tags.end, cursor).None?
    ensures match Find(q, tags.end, cursor)
            case Some(e) => OpenEnd(p, tags, cursor) <= e
            case None => OpenEnd(p, tags, cursor) <= OpenEnd(q, tags, cursor)
  {
    match Find(q, tags.end, cursor)
    case Some(e) =>
      OccurrenceNotBefore(p, q, tags.end, cursor, e);
      if e < |p| {
        OpenEndIsEarliest(p, tags, cursor, e);
      }
    case None =>
      var e := OpenEnd(q, tags, cursor);
      if e < |p| {
        PartialSuffix(q, tags.end, cursor, e);
        PartialShrinks(p, q, tags.end, e);
        OpenEndIsEarliest(p, tags, cursor, e);
      }
  }

  lemma StartsLikeShrinks(p: string, q: string, at: nat, tag: string)
    requires p <= q && at <= |p| && StartsLike(q, at, tag)
    ensures StartsLike(p, at, tag)
  {
    var n, m := Min(|tag|, |p| - at), Min(|tag|, |q| - at);
    assert p[at..at + n] == q[at..at + m][..n];
  }

  lemma StartsLikeFull(p: string, q: string, at: nat, tag: string)
    requires p <= q && at + |tag| <= |p|
    ensures StartsLike(p, at, tag) <==> StartsLike(q, at, tag)
    ensures p[at..at + |tag|] == q[at..at + |tag|]
  {}

  /** How one turn on a prefix relates to the same turn on an extension: it either opens
      the same next section, or what it shows is kept and extended. */
  ghost predicate TurnGrows(a: Turn, p: string, b: Turn, q: string) {
    if a.More? then b == a
    else
      && a.h.content <= b.h.content
      && a.h.reasoning <= b.h.reasoning
      && (a.pos == |p| || (b.Done? && b.pos == a.pos && a.h.content == b.h.content))
  }

  /** Whether a start tag follows is settled once the next character is there. */
  lemma ReopensGrows(p: string, q: string, tags: Tags, next: nat)
    requires p <= q && next < |p|
    ensures Reopens(p, next, tags) ==> Reopens(q, next, tags)
    ensures !StartsLike(p, next, tags.start) ==> !StartsLike(q, next, tags.start)
  {
    if Reopens(p, next, tags) {
      StartsLikeFull(p, q, next, tags.start);
    }
    if StartsLike(q, next, tags.start) {
      StartsLikeShrinks(p, q, next, tags.start);
    }
  }

  lemma PrefixGrows(p: string, q: string, sx: Syntax, tags: Tags, next: nat, pending: string)
    requires p <= q && next + |tags.start| <= |p|
    ensures PrefixAt(sx, tags, p, next, pending) == PrefixAt(sx, tags, q, next, pending)
  {
    StartsLikeFull(p, q, next, tags.start);
  }

  lemma ClosedTurnGrows(p: string, q: string, sx: Syntax, tags: Tags, cursor: nat, pending: string, end: nat)
    requires p <= q && cursor <= end && end + |tags.end| <= |p|
    ensures TurnGrows(ClosedSection(p, sx, tags, cursor, pending, end), p, ClosedSection(q, sx, tags, cursor, pending, end), q)
  {
    hide Handle, SkipSpaces, StartsLike, PrefixAt;
    SkipSpacesStable(p, q, end + |tags.end|);
    assert p[cursor..end] == q[cursor..end];
    var h := Handle(sx, tags, pending, p[cursor..end], true);
    var next := SkipSpaces(p, end + |tags.end|);
    if next < |p| {
      ReopensGrows(p, q, tags, next);
      if Reopens(p, next, tags) {
        PrefixGrows(p, q, sx, tags, next, h.pending);
      }
    }
  }

  lemma OpenTurnGrows(p: string, q: string, partial: bool, sx: Syntax, tags: Tags, cursor: nat, pending: string)
    requires p <= q && tags.Valid() && cursor < |p| && Find(p, tags.end, cursor).None?
    ensures TurnGrows(TakeTurn(p, true, sx, tags, cursor, pending), p, TakeTurn(q, partial, sx, tags, cursor, pending), q)
  {
    hide Handle;
    OpenEndHolds(p, q, tags, cursor);
    var shown := p[cursor..OpenEnd(p, tags, cursor)];
    match Find(q, tags.end, cursor)
    case None =>
      assert shown <= q[cursor..OpenEnd(q, tags, cursor)];
      HandleGrows(sx, tags, pending, shown, q[cursor..OpenEnd(q, tags, cursor)], OpenEnd(q, tags, cursor) == |q| && !partial);
    case Some(e) =>
      assert shown <= q[cursor..e];
      HandleGrows(sx, tags, pending, shown, q[cursor..e], true);
  }

  lemma TurnsGrow(p: string, q: string, partial: bool, sx: Syntax, tags: Tags, cursor: nat, pending: string)
    requires p <= q && tags.Valid() && cursor <= |p|
    ensures TurnGrows(TakeTurn(p, true, sx, tags, cursor, pending), p, TakeTurn(q, partial, sx, tags, cursor, pending), q)
  {
    if cursor < |p| {
      match Find(p, tags.end, cursor)
      case None => OpenTurnGrows(p, q, partial, sx, tags, cursor, pending);
      case Some(end) =>
        FindStable(p, q, tags.end, cursor);
        ClosedTurnGrows(p, q, sx, tags, cursor, pending, end);
    }
  }

  /** Two outputs that share a finished part grow when their remainders grow. */
  lemma GrowsAfter(h: Handled, a: Parsed, p: string, b: Parsed, q: string)
    requires a.pos <= |p| && b.pos <= |q| && Grows(a, p, b, q)
    ensures Grows(a.(content := h.content + a.content, reasoning := h.reasoning + a.reasoning), p,
                  b.(content := h.content + b.content, reasoning := h.reasoning + b.reasoning), q)
  {
    PrefixUnder(a.content + p[a.pos..], b.content + q[b.pos..], h.content);
    assert h.content + (a.content + p[a.pos..]) == h.content + a.content + p[a.pos..];
    assert h.content + (b.content + q[b.pos..]) == h.content + b.content + q[b.pos..];
  }

  /** Every run of the section loop: what it shows on a prefix it still shows later. */
  lemma {:induction false} SectionsGrow(p: string, q: string, partial: bool, sx: Syntax, tags: Tags, cursor: nat, pending: string)
    requires p <= q && tags.Valid() && cursor <= |p|
    ensures Grows(Sections(p, true, sx, tags, cursor, pending), p, Sections(q, partial, sx, tags, cursor, pending), q)
    decreases |p| - cursor
  {
    TurnsGrow(p, q, partial, sx, tags, cursor, pending);
    var t, u := TakeTurn(p, true, sx, tags, cursor, pending), TakeTurn(q, partial, sx, tags, cursor, pending);
    var b := Sections(q, partial, sx, tags, cursor, pending);
    match t
    case More(next, h) =>
      SectionsGrow(p, q, partial, sx, tags, next, h.pending);
      GrowsAfter(h, Sections(p, true, sx, tags, next, h.pending), p, Sections(q, partial, sx, tags, next, h.pending), q);
    case Done(pos, h) =>
      assert u.h.content <= b.content && u.h.reasoning <= b.reasoning;
      if pos == |p| {
        assert h.content + p[pos..] == h.content;
        PrefixUnder(h.content, b.content, q[b.pos..]);
      } else {
        PrefixUnder(p[pos..], q[pos..], h.content);
      }
  }

  lemma SameOpening(p: string, q: string, sx: Syntax, tags: Tags, pos: nat, ws: nat)
    requires p <= q && pos <= ws && ws + |tags.start| <= |p|
    ensures PrefixAt(sx, tags, p, ws, []) == PrefixAt(sx, tags, q, ws, [])
    ensures p[pos..ws] == q[pos..ws]
  {
    StartsLikeFull(p, q, ws, tags.start);
  }

  lemma OpenedIs(input: string, partial: bool, sx: Syntax, tags: Tags, pos: nat, ws: nat, w: string, owed: string)
    requires tags.Valid() && pos <= ws && ws + |tags.start| <= |input|
    requires w == input[pos..ws] && owed == PrefixAt(sx, tags, input, ws, [])
    ensures var r := Sections(input, partial, sx, tags, ws + |tags.start|, owed);
            Opened(input, partial, sx, tags, pos, ws) == r.(content := w + r.content)
  {
    hide Sections, PrefixAt;
  }

  lemma OpenedGrows(p: string, q: string, partial: bool, sx: Syntax, tags: Tags, pos: nat, ws: nat)
    requires p <= q && tags.Valid() && pos <= ws && ws + |tags.start| <= |p|
    ensures Grows(Opened(p, true, sx, tags, pos, ws), p, Opened(q, partial, sx, tags, pos, ws), q)
  {
    hide *;
    SameOpening(p, q, sx, tags, pos, ws);
    var w, owed := p[pos..ws], PrefixAt(sx, tags, p, ws, []);
    OpenedIs(p, true, sx, tags, pos, ws, w, owed);
    OpenedIs(q, partial, sx, tags, pos, ws, w, owed);
    SectionsGrow(p, q, partial, sx, tags, ws + |tags.start|, owed);
    GrowsAfterSpaces(w, Sections(p, true, sx, tags, ws + |tags.start|, owed), p, Sections(q, partial, sx, tags, ws + |tags.start|, owed), q);
  }

  lemma OpeningGrows(p: string, q: string, partial: bool, sx: Syntax, tags: Tags, pos: nat)
    requires p <= q && tags.Valid() && pos <= |p| && sx.format != Off && Reopens(p, SkipSpaces(p, pos), tags)
    ensures Grows(Parse(p, true, sx, tags, pos), p, Parse(q, partial, sx, tags, pos), q)
  {
    SkipSpacesStable(p, q, pos);
    var ws := SkipSpaces(p, pos);
    StartsLikeFull(p, q, ws, tags.start);
    OpenedGrows(p, q, partial, sx, tags, pos, ws);
    assert Parse(p, true, sx, tags, pos) == Opened(p, true, sx, tags, pos, ws);
    assert Parse(q, partial, sx, tags, pos) == Opened(q, partial, sx, tags, pos, ws);
  }

  lemma GrowsAfterSpaces(w: string, a: Parsed, p: string, b: Parsed, q: string)
    requires a.pos <= |p| && b.pos <= |q| && Grows(a, p, b, q)
    ensures Grows(a.(content := w + a.content), p, b.(content := w + b.content), q)
  {
    GrowsAfter(Handled(w, [], []), a, p, b, q);
  }

  lemma UntaggedGrows(p: string, q: string, partial: bool, sx: Syntax, tags: Tags, pos: nat)
    requires p <= q && tags.Valid() && pos <= |p| && sx.format != Off
    requires var ws := SkipSpaces(p, pos); ws < |p| && !StartsLike(p, ws, tags.start)
    ensures Grows(Parse(p, true, sx, tags, pos), p, Parse(q, partial, sx, tags, pos), q)
  {
    SkipSpacesStable(p, q, pos);
    var ws := SkipSpaces(p, pos);
    if StartsLike(q, ws, tags.start) {
      StartsLikeShrinks(p, q, ws, tags.start);
    }
    if sx.forcedOpen {
      SectionsGrow(p, q, partial, sx, tags, ws, []);
    }
  }

  /** The parse of p is a blank prefix of the parse of q: the one case in which text
      passed through as content is taken back. */
  predicate Retracts(p: string, q: string, sx: Syntax, tags: Tags, pos: nat)
    requires pos <= |p| && p <= q
  {
    && sx.format != Off && !sx.forcedOpen
    && pos < |p| && AllSpaces(p[pos..])
    && var ws := SkipSpaces(q, pos);
       ws < |q| && StartsLike(q, ws, tags.start) && |q| - ws < |tags.start|
  }

  lemma SpacesToEnd(p: string, pos: nat)
    requires pos <= |p|
    ensures SkipSpaces(p, pos) == |p| <==> AllSpaces(p[pos..])
  {
    if AllSpaces(p[pos..]) {
      forall i | pos <= i < |p| ensures IsSpace(p[i]) {
        assert p[i] == p[pos..][i - pos];
      }
    }
  }

  /** Streaming monotonicity: the content and the reasoning that the parser adds on a
      partial input are prefixes of those it adds on every extension, partial or final,
      in every mode; and so is the content with the unparsed rest appended, except in the
      single retracting case, where it never is. */
  lemma ParseGrows(p: string, q: string, partial: bool, sx: Syntax, tags: Tags, pos: nat)
    requires p <= q && tags.Valid() && pos <= |p|
    ensures var a, b := Parse(p, true, sx, tags, pos), Parse(q, partial, sx, tags, pos);
            && a.content <= b.content
            && a.reasoning <= b.reasoning
            && (a.content + p[a.pos..] <= b.content + q[b.pos..] <==> !Retracts(p, q, sx, tags, pos))
  {
    if sx.format != Off {
      var ws := SkipSpaces(p, pos);
      SpacesToEnd(p, pos);
      if ws == |p| {
        BlankGrows(p, q, partial, sx, tags, pos);
      } else if Reopens(p, ws, tags) {
        OpeningGrows(p, q, partial, sx, tags, pos);
      } else if !StartsLike(p, ws, tags.start) {
        UntaggedGrows(p, q, partial, sx, tags, pos);
      } else {
        assert Parse(p, true, sx, tags, pos) == Parsed(true, |p|, [], []);
      }
    }
  }

  lemma BlankGrows(p: string, q: string, partial: bool, sx: Syntax, tags: Tags, pos: nat)
    requires p <= q && tags.Valid() && pos <= |p| && sx.format != Off && SkipSpaces(p, pos) == |p|
    ensures var a, b := Parse(p, true, sx, tags, pos), Parse(q, partial, sx, tags, pos);
            && a.content == [] && a.reasoning == []
            && (a.content + p[a.pos..] <= b.content + q[b.pos..] <==> !Retracts(p, q, sx, tags, pos))
  {
    hide Sections;
    SpacesToEnd(p, pos);
    StripAllSpaces(p[pos..]);
    SkipSpacesStable(p, q, pos);
    var b := Parse(q, partial, sx, tags, pos);
    var ws := SkipSpaces(q, pos);
    if !sx.forcedOpen && ws < |q| && StartsLike(q, ws, tags.start) && |q| - ws >= |tags.start| {
      assert p[pos..] <= q[pos..ws] <= b.content;
    }
  }
}
