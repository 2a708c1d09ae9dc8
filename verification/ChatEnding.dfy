/**
  What a finished parse loses: common/chat-parser.cpp holds back text that may become a tag and,
  when the input ends there, drops it. Everything else that is not blank and not a tag is reported.
 */
module ChatEnding {
  import opened Basics
  import opened Text
  import opened ChatReasoning
  import opened ChatStreaming

  // ---------- Visible text ----------

  function Visible(s: string): string {
    if s == [] then [] else (if IsSpace(s[0]) then [] else [s[0]]) + Visible(s[1..])
  }

  lemma {:induction false} VisibleConcat(a: string, b: string)
    ensures Visible(a + b) == Visible(a) + Visible(b)
  {
    hide IsSpace;
    if a == [] {
      assert a + b == b;
    } else {
      VisibleConcat(a[1..], b);
      assert (a + b)[1..] == a[1..] + b && (a + b)[0] == a[0];
      Regroup(if IsSpace(a[0]) then [] else [a[0]], Visible(a[1..]), Visible(b));
    }
  }

  lemma {:induction false} BlankIsInvisible(s: string)
    requires AllSpaces(s)
    ensures Visible(s) == []
  {
    if s != [] {
      BlankIsInvisible(s[1..]);
    }
  }

  lemma VisibleStrip(s: string)
    ensures Visible(Strip(s)) == Visible(s)
  {
    hide Visible, IsSpace;
    var k := SkipSpaces(s, 0);
    var t := s[k..];
    var m := TrimmedEnd(t);
    assert s == s[..k] + t && t == t[..m] + t[m..];
    VisibleConcat(s[..k], t);
    VisibleConcat(t[..m], t[m..]);
    BlankIsInvisible(s[..k]);
    BlankIsInvisible(t[m..]);
  }

  // ---------- What is lost, and what there was ----------

  /** Where the next section's text starts, if the section at the cursor is closed and another one opens. */
  function NextOpen(input: string, tags: Tags, cursor: nat): (from: Option<nat>)
    requires tags.Valid() && cursor <= |input|
    ensures from.Some? ==> cursor < from.value <= |input|
  {
    match Find(input, tags.end, cursor)
    case None => None
    case Some(end) =>
      var next := SkipSpaces(input, end + |tags.end|);
      if cursor < |input| && Reopens(input, next, tags) then Some(next + |tags.start|) else None
  }

  /** Text held back when the section at the cursor is the last. */
  function LostHere(input: string, tags: Tags, cursor: nat): string
    requires cursor <= |input|
  {
    match Find(input, tags.end, cursor)
    case None => input[OpenEnd(input, tags, cursor)..]
    case Some(end) =>
      var next := SkipSpaces(input, end + |tags.end|);
      if cursor < |input| && next < |input| && StartsLike(input, next, tags.start) then input[next..] else []
  }

  function Lost(input: string, tags: Tags, cursor: nat): string
    requires tags.Valid() && cursor <= |input|
    decreases |input| - cursor
  {
    match NextOpen(input, tags, cursor)
    case Some(from) => Lost(input, tags, from)
    case None => LostHere(input, tags, cursor)
  }

  /** The text of a section as it is shown: in content between its tags, the second only once it is closed,
      or else after the opening literal that is owed. */
  function Dressed(sx: Syntax, tags: Tags, owed: string, text: string, closed: bool): string {
    if AllSpaces(text) then text
    else if sx.inContent then OpenTag(sx, tags) + text + (if closed then CloseTag(sx, tags) else [])
    else owed + text
  }

  /** The section at the cursor, dressed, and what follows its end tag: the blanks before the next section,
      or all that is left if it is the last. */
  function ShownHere(input: string, partial: bool, sx: Syntax, tags: Tags, cursor: nat, owed: string): string
    requires tags.Valid() && cursor <= |input|
  {
    match Find(input, tags.end, cursor)
    case None =>
      var end := OpenEnd(input, tags, cursor);
      Dressed(sx, tags, owed, input[cursor..end], end == |input| && !partial) + input[end..]
    case Some(end) =>
      var next := SkipSpaces(input, end + |tags.end|);
      var text := Dressed(sx, tags, owed, input[cursor..end], true) + input[end + |tags.end|..next];
      text + if NextOpen(input, tags, cursor).Some? then [] else input[next..]
  }

  /** The input from the cursor on, its sections shown in place of the tagged ones. */
  function Shown(input: string, partial: bool, sx: Syntax, tags: Tags, cursor: nat, owed: string): string
    requires tags.Valid() && cursor <= |input|
    decreases |input| - cursor
  {
    ShownHere(input, partial, sx, tags, cursor, owed) +
    match NextOpen(input, tags, cursor)
    case Some(from) => Shown(input, partial, sx, tags, from, Owed(sx, tags))
    case None => []
  }

  // ---------- Sections ----------

  /** In content there is no reasoning, otherwise a section adds no content. */
  predicate InMode(sx: Syntax, content: string, reasoning: string) {
    if sx.inContent then reasoning == [] else content == []
  }

  /** The literal owed before a section, if any. */
  predicate MayOwe(sx: Syntax, tags: Tags, owed: string) {
    owed == [] || owed == Owed(sx, tags)
  }

  lemma {:induction false} BlankIffStripped(s: string)
    ensures AllSpaces(s) <==> Strip(s) == []
  {
    var k := SkipSpaces(s, 0);
    var t := s[k..];
    if k < |s| {
      assert t[0] == s[k] && !IsSpace(t[0]);
    }
  }

  lemma HandledText(sx: Syntax, tags: Tags, owed: string, text: string, closed: bool)
    requires MayOwe(sx, tags, owed)
    ensures var h := Handle(sx, tags, owed, text, closed);
            && InMode(sx, h.content, h.reasoning) && MayOwe(sx, tags, h.pending)
            && Visible(h.content + h.reasoning) == Visible(Dressed(sx, tags, owed, text, closed))
  {
    hide Visible, Strip, AllSpaces, OpenTag, CloseTag;
    VisibleStrip(text);
    BlankIffStripped(text);
    var none: string := [];
    var stripped, close := Strip(text), if closed then CloseTag(sx, tags) else [];
    if stripped == [] {
      assert none + none == none;
    } else if sx.inContent {
      var all := OpenTag(sx, tags) + stripped + close;
      assert all + none == all;
      SameBetween(OpenTag(sx, tags), stripped, text, close);
    } else {
      assert none + (owed + stripped) == owed + stripped;
      VisibleConcat(owed, stripped);
      VisibleConcat(owed, text);
    }
  }

  lemma SameBetween(a: string, s: string, t: string, b: string)
    requires Visible(s) == Visible(t)
    ensures Visible(a + s + b) == Visible(a + t + b)
  {
    hide Visible;
    VisibleConcat(a + s, b);
    VisibleConcat(a + t, b);
    VisibleConcat(a, s);
    VisibleConcat(a, t);
  }

  /** One turn: what it reports, what it loses and what is left for the next add up to the text it passes. */
  ghost predicate Adds(reported: string, rest: string, lost: string, whole: string) {
    Visible(reported) + Visible(rest) + Visible(lost) == Visible(whole)
  }

  /** The section loop reports every visible character of the shown text except the lost ones. */
  lemma {:induction false} SectionsKeepText(input: string, partial: bool, sx: Syntax, tags: Tags, cursor: nat, owed: string)
    requires MayOwe(sx, tags, owed) && tags.Valid() && cursor <= |input|
    ensures var r := Sections(input, partial, sx, tags, cursor, owed);
            && InMode(sx, r.content, r.reasoning)
            && Adds(r.content + r.reasoning, input[r.pos..], Lost(input, tags, cursor), Shown(input, partial, sx, tags, cursor, owed))
    decreases |input| - cursor
  {
    hide NextOpen, LostHere, ShownHere, Sections, Visible, Owed;
    var t := TakeTurn(input, partial, sx, tags, cursor, owed);
    TurnKeepsText(input, partial, sx, tags, cursor, owed);
    SectionsUnfold(input, partial, sx, tags, cursor, owed);
    hide TakeTurn;
    if t.More? {
      SectionsKeepText(input, partial, sx, tags, t.cursor, t.h.pending);
      var r := Sections(input, partial, sx, tags, t.cursor, t.h.pending);
      AddFront(sx, t.h, r, input, Lost(input, tags, t.cursor), Shown(input, partial, sx, tags, t.cursor, t.h.pending),
               ShownHere(input, partial, sx, tags, cursor, owed));
    } else {
      var none: string := [];
      assert ShownHere(input, partial, sx, tags, cursor, owed) + none == ShownHere(input, partial, sx, tags, cursor, owed);
    }
  }

  lemma SectionsUnfold(input: string, partial: bool, sx: Syntax, tags: Tags, cursor: nat, owed: string)
    requires tags.Valid() && cursor <= |input|
    ensures Sections(input, partial, sx, tags, cursor, owed) ==
            match TakeTurn(input, partial, sx, tags, cursor, owed)
            case Done(pos, h) => Parsed(true, pos, h.content, h.reasoning)
            case More(next, h) =>
              var rest := Sections(input, partial, sx, tags, next, h.pending);
              Parsed(true, rest.pos, h.content + rest.content, h.reasoning + rest.reasoning)
  {
    hide TakeTurn;
  }

  /** One turn: it goes on where the next section opens, and reports what it passes except what is lost
      when it is the last. */
  ghost predicate KeepsText(t: Turn, input: string, partial: bool, sx: Syntax, tags: Tags, cursor: nat, owed: string)
    requires tags.Valid() && cursor <= |input| && (t.Done? ==> t.pos <= |input|)
  {
    && InMode(sx, t.h.content, t.h.reasoning)
    && if t.More? then
         && NextOpen(input, tags, cursor) == Some(t.cursor)
         && t.h.pending == Owed(sx, tags)
         && Visible(t.h.content + t.h.reasoning) == Visible(ShownHere(input, partial, sx, tags, cursor, owed))
       else
         && NextOpen(input, tags, cursor) == None
         && Adds(t.h.content + t.h.reasoning, input[t.pos..], LostHere(input, tags, cursor),
                 ShownHere(input, partial, sx, tags, cursor, owed))
  }

  /** Every turn of the section loop keeps its text. */
  lemma TurnKeepsText(input: string, partial: bool, sx: Syntax, tags: Tags, cursor: nat, owed: string)
    requires MayOwe(sx, tags, owed) && tags.Valid() && cursor <= |input|
    ensures KeepsText(TakeTurn(input, partial, sx, tags, cursor, owed), input, partial, sx, tags, cursor, owed)
  {
    hide Visible, Handle, Find, OpenEnd, SkipSpaces, StartsLike, IsSpace, NextOpen, LostHere, ShownHere, Owed, KeepsText;
    var found := Find(input, tags.end, cursor);
    if cursor == |input| {
      AtTheEnd(input, partial, sx, tags, owed);
    } else if found.None? {
      OpenTurn(input, partial, sx, tags, cursor, owed);
    } else {
      ClosedTurn(input, partial, sx, tags, cursor, owed, found.value, SkipSpaces(input, found.value + |tags.end|));
    }
  }

  lemma NothingVisible(input: string)
    ensures input[|input|..] == [] && Visible([]) == []
  {
  }

  lemma AtTheEnd(input: string, partial: bool, sx: Syntax, tags: Tags, owed: string)
    requires tags.Valid()
    ensures KeepsText(TakeTurn(input, partial, sx, tags, |input|, owed), input, partial, sx, tags, |input|, owed)
  {
    hide StartsLike, Visible, OccursAt;
    var n := |input|;
    var none: string := [];
    NothingVisible(input);
    assert input[n..n] == none && input[n..] == none && none + none == none;
    assert ShownHere(input, partial, sx, tags, n, owed) == none;
    assert LostHere(input, tags, n) == none && NextOpen(input, tags, n) == None;
  }

  lemma OpenTurn(input: string, partial: bool, sx: Syntax, tags: Tags, cursor: nat, owed: string)
    requires MayOwe(sx, tags, owed) && tags.Valid() && cursor < |input| && Find(input, tags.end, cursor).None?
    ensures KeepsText(TakeTurn(input, partial, sx, tags, cursor, owed), input, partial, sx, tags, cursor, owed)
  {
    hide Visible, Handle, Find, OpenEnd, OccursAt, Dressed, InMode, MayOwe;
    var end := OpenEnd(input, tags, cursor);
    var closed := end == |input| && !partial;
    HandledText(sx, tags, owed, input[cursor..end], closed);
    VisibleConcat(Dressed(sx, tags, owed, input[cursor..end], closed), input[end..]);
    NothingVisible(input);
  }

  lemma ClosedTurn(input: string, partial: bool, sx: Syntax, tags: Tags, cursor: nat, owed: string, end: nat, next: nat)
    requires MayOwe(sx, tags, owed) && tags.Valid() && cursor < |input| && Find(input, tags.end, cursor) == Some(end)
    requires cursor <= end && end + |tags.end| <= next <= |input| && next == SkipSpaces(input, end + |tags.end|)
    ensures KeepsText(TakeTurn(input, partial, sx, tags, cursor, owed), input, partial, sx, tags, cursor, owed)
  {
    hide Visible, Handle, Find, SkipSpaces, StartsLike, IsSpace, OccursAt, Dressed, InMode, MayOwe, PrefixAt, Owed;
    var dressed, gap := Dressed(sx, tags, owed, input[cursor..end], true), input[end + |tags.end|..next];
    var none: string := [];
    HandledText(sx, tags, owed, input[cursor..end], true);
    BlankIsInvisible(gap);
    VisibleConcat(dressed, gap);
    VisibleConcat(dressed + gap, input[next..]);
    NothingVisible(input);
    assert dressed + gap + none == dressed + gap;
    if Reopens(input, next, tags) {
      OwedNext(input, sx, tags, next, Handle(sx, tags, owed, input[cursor..end], true).pending);
    }
  }

  lemma OwedNext(input: string, sx: Syntax, tags: Tags, next: nat, pending: string)
    requires next <= |input| && Reopens(input, next, tags) && MayOwe(sx, tags, pending)
    ensures PrefixAt(sx, tags, input, next, pending) == Owed(sx, tags)
  {
  }

  lemma AddFront(sx: Syntax, h: Handled, r: Parsed, input: string, lost: string, whole: string, front: string)
    requires InMode(sx, h.content, h.reasoning) && InMode(sx, r.content, r.reasoning) && r.pos <= |input|
    requires Visible(h.content + h.reasoning) == Visible(front)
    requires Adds(r.content + r.reasoning, input[r.pos..], lost, whole)
    ensures InMode(sx, h.content + r.content, h.reasoning + r.reasoning)
    ensures Adds(h.content + r.content + (h.reasoning + r.reasoning), input[r.pos..], lost, front + whole)
  {
    hide Visible;
    var a, b := h.content + h.reasoning, r.content + r.reasoning;
    assert h.content + r.content + (h.reasoning + r.reasoning) == a + b;
    VisibleConcat(a, b);
    VisibleConcat(front, whole);
    Regroup(Visible(front), Visible(b), Visible(input[r.pos..]));
    Regroup(Visible(front), Visible(b) + Visible(input[r.pos..]), Visible(lost));
  }

  // ---------- Whole inputs ----------

  /** Where the text of the first section starts, if there is one. */
  function FirstText(input: string, sx: Syntax, tags: Tags): (from: Option<nat>)
    ensures from.Some? ==> from.value <= |input|
  {
    var ws := SkipSpaces(input, 0);
    if Reopens(input, ws, tags) then Some(ws + |tags.start|)
    else if sx.forcedOpen && !StartsLike(input, ws, tags.start) then Some(ws)
    else None
  }

  /** What a content-only parse loses of a whole input. */
  function LostOf(input: string, sx: Syntax, tags: Tags): string
    requires tags.Valid()
  {
    var ws := SkipSpaces(input, 0);
    match FirstText(input, sx, tags)
    case Some(from) => Lost(input, tags, from)
    case None => if StartsLike(input, ws, tags.start) then input[ws..] else []
  }

  /** The whole input, its sections shown in place of the tagged ones; nothing is owed for a first
      section without a start tag. */
  function ShownOf(input: string, partial: bool, sx: Syntax, tags: Tags): string
    requires tags.Valid()
  {
    var ws := SkipSpaces(input, 0);
    match FirstText(input, sx, tags)
    case Some(from) => input[..ws] + Shown(input, partial, sx, tags, from, if from == ws then [] else Owed(sx, tags))
    case None => input
  }

  /** The message of a content-only parse, finished or not, in every mode: every visible character of the
      shown input, in order, except those of the lost text; so all of them if and only if nothing visible
      is lost. */
  lemma MessageKeepsText(input: string, partial: bool, sx: Syntax, tags: Tags)
    requires sx.format != Off && tags.Valid()
    ensures var m := ContentOnly(input, partial, sx, tags);
            && (sx.inContent ==> m.reasoning == [])
            && Visible(m.reasoning) + Visible(m.content) + Visible(LostOf(input, sx, tags)) == Visible(ShownOf(input, partial, sx, tags))
            && (Visible(m.reasoning) + Visible(m.content) == Visible(ShownOf(input, partial, sx, tags))
                <==> Visible(LostOf(input, sx, tags)) == [])
  {
    if FirstText(input, sx, tags).Some? {
      OpenedKeepsText(input, partial, sx, tags, FirstText(input, sx, tags).value);
    } else {
      UnopenedKeepsText(input, partial, sx, tags);
    }
    hide *;
    var m := ContentOnly(input, partial, sx, tags);
    NothingAdded(Visible(m.reasoning) + Visible(m.content), Visible(LostOf(input, sx, tags)));
  }

  lemma NothingAdded(a: string, b: string)
    ensures a == a + b <==> b == []
  {
  }

  lemma UnopenedKeepsText(input: string, partial: bool, sx: Syntax, tags: Tags)
    requires sx.format != Off && tags.Valid() && FirstText(input, sx, tags).None?
    ensures var m := ContentOnly(input, partial, sx, tags);
            && m.reasoning == []
            && Visible(m.reasoning) + Visible(m.content) + Visible(LostOf(input, sx, tags)) == Visible(ShownOf(input, partial, sx, tags))
  {
    hide Visible, LostOf, ShownOf, ContentOnly, IsSpace, Reopens, FirstText;
    var ws := SkipSpaces(input, 0);
    NothingVisible(input);
    UnopenedMessage(input, partial, sx, tags, ws);
    assert input == input[..ws] + input[ws..];
    BlankIsInvisible(input[..ws]);
    VisibleConcat(input[..ws], input[ws..]);
  }

  /** Without a section the input is the content as it is; unless it is, after blanks, the beginning of a
      start tag, or blank and forced open: then there is no message at all. */
  lemma UnopenedMessage(input: string, partial: bool, sx: Syntax, tags: Tags, ws: nat)
    requires sx.format != Off && tags.Valid() && ws == SkipSpaces(input, 0) && FirstText(input, sx, tags).None?
    ensures ShownOf(input, partial, sx, tags) == input
    ensures LostOf(input, sx, tags) == if StartsLike(input, ws, tags.start) then input[ws..] else []
    ensures ContentOnly(input, partial, sx, tags)
            == if (ws < |input| && StartsLike(input, ws, tags.start)) || (ws == |input| && sx.forcedOpen) then EMPTY
               else Message(input, [])
    ensures ws == |input| ==> StartsLike(input, ws, tags.start)
  {
    hide Sections, Lost, Shown, StartsLike, IsSpace, Handle;
    var none: string := [];
    assert input[0..] == input && none + input == input && input[|input|..] == none && none + none == none;
    AtEndStartsLike(input, tags);
    if ws == |input| && sx.forcedOpen {
      BlankHandled(sx, tags, input, !partial);
    }
  }

  lemma AtEndStartsLike(input: string, tags: Tags)
    ensures StartsLike(input, |input|, tags.start)
  {
    assert input[|input|..|input|] == [] == tags.start[..0];
  }

  lemma BlankHandled(sx: Syntax, tags: Tags, input: string, closed: bool)
    requires AllSpaces(input)
    ensures Handle(sx, tags, [], input, closed) == Handled([], [], [])
  {
    StripAllSpaces(input);
  }

  lemma OpenedKeepsText(input: string, partial: bool, sx: Syntax, tags: Tags, from: nat)
    requires sx.format != Off && tags.Valid() && FirstText(input, sx, tags) == Some(from)
    ensures var m := ContentOnly(input, partial, sx, tags);
            && (sx.inContent ==> m.reasoning == [])
            && Visible(m.reasoning) + Visible(m.content) + Visible(LostOf(input, sx, tags)) == Visible(ShownOf(input, partial, sx, tags))
  {
    hide Visible, Sections, Lost, Shown, StartsLike, IsSpace, ContentOnly, Owed;
    var ws := SkipSpaces(input, 0);
    var owed := if from == ws then [] else Owed(sx, tags);
    BlankIsInvisible(input[..ws]);
    SectionsKeepText(input, partial, sx, tags, from, owed);
    var r := Sections(input, partial, sx, tags, from, owed);
    OpenedMessage(input, partial, sx, tags, ws, from, owed);
    VisibleConcat(input[..ws], Shown(input, partial, sx, tags, from, owed));
    VisibleMessage(ContentOnly(input, partial, sx, tags), sx, r, input[..ws], input[r.pos..]);
  }

  lemma VisibleMessage(m: Message, sx: Syntax, r: Parsed, blanks: string, rest: string)
    requires InMode(sx, r.content, r.reasoning) && AllSpaces(blanks) && m.reasoning == r.reasoning
    requires m.content == blanks + r.content + rest || m.content == r.content + rest
    ensures Visible(m.reasoning) + Visible(m.content) == Visible(r.content + r.reasoning) + Visible(rest)
  {
    hide Visible;
    BlankIsInvisible(blanks);
    VisibleConcat(blanks, r.content);
    VisibleConcat(blanks + r.content, rest);
    VisibleConcat(r.content, rest);
    VisibleConcat(r.content, r.reasoning);
    NothingVisible([]);
    if sx.inContent {
      assert r.content + r.reasoning == r.content;
    } else {
      assert r.content + r.reasoning == r.reasoning;
    }
  }

  lemma OpenedMessage(input: string, partial: bool, sx: Syntax, tags: Tags, ws: nat, from: nat, owed: string)
    requires sx.format != Off && tags.Valid() && ws == SkipSpaces(input, 0) && FirstText(input, sx, tags) == Some(from)
    requires owed == if from == ws then [] else Owed(sx, tags)
    ensures var r, m := Sections(input, partial, sx, tags, from, owed), ContentOnly(input, partial, sx, tags);
            && m.reasoning == r.reasoning
            && (m.content == input[..ws] + r.content + input[r.pos..] || m.content == r.content + input[r.pos..])
  {
    hide Sections, StartsLike;
    assert input[0..ws] == input[..ws];
    if Reopens(input, ws, tags) {
      OwedFirst(input, sx, tags, ws);
    } else {
      AtEndStartsLike(input, tags);
    }
  }

  lemma OwedFirst(input: string, sx: Syntax, tags: Tags, ws: nat)
    requires ws <= |input| && Reopens(input, ws, tags)
    ensures PrefixAt(sx, tags, input, ws, []) == if tags.start == [] then [] else Owed(sx, tags)
  {
  }

  /** With reasoning off the message is the input. */
  lemma OffKeepsInput(input: string, partial: bool, sx: Syntax, tags: Tags)
    requires sx.format == Off && tags.Valid()
    ensures ContentOnly(input, partial, sx, tags) == Message(input, "")
  {
    var none: string := [];
    assert none + input[0..] == input;
  }

  // ---------- What the lost text is ----------

  predicate Unfinished(lost: string, tag: string) {
    |lost| < |tag| && lost == tag[..|lost|]
  }

  /** Only an unfinished tag at the very end of the input can be lost: the beginning of a start tag or
      of an end tag. */
  lemma LostIsUnfinishedTag(input: string, sx: Syntax, tags: Tags)
    requires tags.Valid()
    ensures var lost := LostOf(input, sx, tags);
            lost == [] || (|lost| <= |input| && lost == input[|input| - |lost|..] && (Unfinished(lost, tags.start) || Unfinished(lost, tags.end)))
  {
    hide Lost;
    var from := FirstText(input, sx, tags);
    if from.Some? {
      SectionsLoseUnfinishedTag(input, tags, from.value);
    }
  }

  lemma {:induction false} SectionsLoseUnfinishedTag(input: string, tags: Tags, cursor: nat)
    requires tags.Valid() && cursor <= |input|
    ensures var lost := Lost(input, tags, cursor);
            lost == [] || (|lost| <= |input| && lost == input[|input| - |lost|..] && (Unfinished(lost, tags.start) || Unfinished(lost, tags.end)))
    decreases |input| - cursor
  {
    hide NextOpen, LostHere, Unfinished;
    var from := NextOpen(input, tags, cursor);
    if from.Some? {
      SectionsLoseUnfinishedTag(input, tags, from.value);
    } else {
      LastLoses(input, tags, cursor);
    }
  }

  lemma LastLoses(input: string, tags: Tags, cursor: nat)
    requires tags.Valid() && cursor <= |input| && NextOpen(input, tags, cursor) == None
    ensures var lost := LostHere(input, tags, cursor);
            lost == [] || (|lost| <= |input| && lost == input[|input| - |lost|..] && (Unfinished(lost, tags.start) || Unfinished(lost, tags.end)))
  {
    hide Find, SkipSpaces, OpenEnd, OccursAt, IsSpace;
    if Find(input, tags.end, cursor).None? {
      OpenLosesEndTag(input, tags, cursor);
    }
  }

  lemma OpenLosesEndTag(input: string, tags: Tags, cursor: nat)
    requires cursor <= |input| && Find(input, tags.end, cursor).None?
    ensures var lost := input[OpenEnd(input, tags, cursor)..]; lost == [] || Unfinished(lost, tags.end)
  {
    var tail := input[cursor..];
    var off := PartialStop(tail, tags.end);
    if off.Some? {
      var lost := tail[off.value..];
      var at := cursor + off.value;
      assert lost == input[at..] == input[at..at + |lost|] && lost == tags.end[..|lost|];
      assert !OccursAt(input, tags.end, at);
    }
  }

  /** A finished input of one character that is lost altogether. */
  lemma LoneBracketIsLost()
    ensures ContentOnly("<", false, PLAIN, TAGS) == EMPTY && LostOf("<", PLAIN, TAGS) == "<"
  {
    var s := "<";
    assert SkipSpaces(s, 0) == 0 && StartsLike(s, 0, "<t>");
  }
}
