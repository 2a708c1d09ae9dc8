/**
  Reasoning extraction undoes rendering: a message written as blanks, tagged reasoning
  sections with blanks between them, and an answer, is taken apart exactly.
 */
module ChatRendering {
  import opened Basics
  import opened Text
  import opened ChatReasoning

  datatype Section = Section(text: string, gap: string)

  /** Tagged sections, each followed by its gap, then the answer. */
  ghost function Rendered(tags: Tags, secs: seq<Section>, answer: string): string
    decreases |secs|, 1
  {
    if secs == [] then answer else tags.start + Inside(tags, secs, answer)
  }

  /** The same with the first start tag already read. */
  ghost function Inside(tags: Tags, secs: seq<Section>, answer: string): string
    requires secs != []
    decreases |secs|, 0
  {
    secs[0].text + (tags.end + (secs[0].gap + Rendered(tags, secs[1..], answer)))
  }

  /** The end tag does not appear early in the section text. */
  ghost predicate CleanText(tags: Tags, text: string) {
    Find(text + tags.end, tags.end, 0) == Some(|text|)
  }

  ghost predicate CleanSections(tags: Tags, secs: seq<Section>) {
    forall i :: 0 <= i < |secs| ==> CleanText(tags, secs[i].text) && AllSpaces(secs[i].gap)
  }

  /** The answer is not blank-led and does not look like another start tag. */
  ghost predicate CleanAnswer(tags: Tags, answer: string) {
    answer != [] && !IsSpace(answer[0]) && !StartsLike(answer, 0, tags.start)
  }

  ghost predicate CleanTags(tags: Tags) {
    tags.start != [] && !IsSpace(tags.start[0])
  }

  /** The content that the sections must contribute: tagged when reasoning goes in content. */
  ghost function ContentOf(sx: Syntax, tags: Tags, secs: seq<Section>): string {
    if secs == [] then []
    else
      var s := Strip(secs[0].text);
      (if sx.inContent && s != [] then OpenTag(sx, tags) + s + CloseTag(sx, tags) else []) + ContentOf(sx, tags, secs[1..])
  }

  /** The reasoning that the sections must contribute, the first of them after the literal owed. */
  ghost function ReasoningOf(sx: Syntax, tags: Tags, owed: string, secs: seq<Section>): string
    decreases |secs|
  {
    if secs == [] then []
    else
      var s := Strip(secs[0].text);
      (if !sx.inContent && s != [] then owed + s else []) + ReasoningOf(sx, tags, Owed(sx, tags), secs[1..])
  }

  // ---------- Reading an input piece by piece ----------

  ghost predicate Ahead(input: string, at: nat, s: string) {
    at <= |input| && input[at..] == s
  }

  lemma TakeAhead(input: string, at: nat, a: string, b: string)
    requires Ahead(input, at, a + b)
    ensures Ahead(input, at + |a|, b) && input[at..at + |a|] == a
  {
    assert input[at..at + |a|] == input[at..][..|a|];
    assert input[at + |a|..] == input[at..][|a|..];
  }

  lemma SubSlice(s: string, at: nat, part: string, i: nat, n: nat)
    requires at + |part| <= |s| && s[at..at + |part|] == part && i + n <= |part|
    ensures s[at + i..at + i + n] == part[i..i + n]
  {
    var a, b := s[at + i..at + i + n], part[i..i + n];
    forall k | 0 <= k < n ensures a[k] == b[k] {
      assert s[at..at + |part|][i + k] == s[at + i + k];
    }
  }

  lemma NoneEarlier(input: string, tags: Tags, cursor: nat, text: string, i: nat)
    requires CleanText(tags, text) && cursor <= i < cursor + |text| && cursor + |text| + |tags.end| <= |input|
    requires input[cursor..cursor + |text| + |tags.end|] == text + tags.end
    ensures !OccursAt(input, tags.end, i)
  {
    var both := text + tags.end;
    assert !OccursAt(both, tags.end, i - cursor);
    hide CleanText;
    SubSlice(input, cursor, both, i - cursor, |tags.end|);
  }

  lemma FindClean(input: string, tags: Tags, cursor: nat, text: string, rest: string)
    requires Ahead(input, cursor, text + (tags.end + rest)) && CleanText(tags, text)
    ensures Find(input, tags.end, cursor) == Some(cursor + |text|)
  {
    hide Ahead, CleanText, Find;
    TakeAhead(input, cursor, text, tags.end + rest);
    TakeAhead(input, cursor + |text|, tags.end, rest);
    assert OccursAt(input, tags.end, cursor + |text|);
    Regroup(text, tags.end, rest);
    TakeAhead(input, cursor, text + tags.end, rest);
    hide *;
    forall i | cursor <= i < cursor + |text| ensures !OccursAt(input, tags.end, i) {
      NoneEarlier(input, tags, cursor, text, i);
    }
    FoundAt(input, tags.end, cursor, cursor + |text|);
  }

  lemma SkipGap(input: string, at: nat, gap: string, rest: string)
    requires Ahead(input, at, gap + rest) && AllSpaces(gap) && rest != [] && !IsSpace(rest[0])
    ensures SkipSpaces(input, at) == at + |gap|
  {
    TakeAhead(input, at, gap, rest);
    assert input[at + |gap|] == rest[0];
    forall i | at <= i < at + |gap| ensures IsSpace(input[i]) {
      assert input[i] == gap[i - at];
    }
  }

  lemma RenderedHead(tags: Tags, secs: seq<Section>, answer: string)
    requires CleanTags(tags) && CleanAnswer(tags, answer)
    ensures var r := Rendered(tags, secs, answer); r != [] && !IsSpace(r[0])
  {}

  /** Whether another section opens where the rendering continues. */
  lemma ReopensIff(input: string, next: nat, tags: Tags, secs: seq<Section>, answer: string)
    requires CleanTags(tags) && CleanAnswer(tags, answer) && Ahead(input, next, Rendered(tags, secs, answer))
    ensures next < |input|
    ensures StartsLike(input, next, tags.start) <==> secs != []
    ensures secs != [] ==> next + |tags.start| <= |input| && input[next..next + |tags.start|] == tags.start
  {
    RenderedHead(tags, secs, answer);
    if secs == [] {
      assert input[next..] == answer;
      var n := Min(|tags.start|, |answer|);
      assert input[next..next + n] == answer[..n] == answer[0..n];
    } else {
      TakeAhead(input, next, tags.start, Inside(tags, secs, answer));
    }
  }

  // ---------- The section loop ----------

  ghost predicate Reads(r: Parsed, input: string, answer: string, content: string, reasoning: string) {
    r.handled && r.pos + |answer| == |input| && r.content == content && r.reasoning == reasoning
  }

  lemma TextAhead(input: string, tags: Tags, cursor: nat, text: string, tail: string)
    requires Ahead(input, cursor, text + (tags.end + tail)) && CleanText(tags, text)
    ensures Find(input, tags.end, cursor) == Some(cursor + |text|)
    ensures Ahead(input, cursor + |text| + |tags.end|, tail) && input[cursor..cursor + |text|] == text
  {
    FindClean(input, tags, cursor, text, tail);
    hide *;
    TakeAhead(input, cursor, text, tags.end + tail);
    TakeAhead(input, cursor + |text|, tags.end, tail);
  }

  lemma GapAhead(input: string, tags: Tags, at: nat, gap: string, secs: seq<Section>, answer: string)
    requires CleanTags(tags) && CleanAnswer(tags, answer) && AllSpaces(gap)
    requires Ahead(input, at, gap + Rendered(tags, secs, answer))
    ensures SkipSpaces(input, at) == at + |gap| && Ahead(input, at + |gap|, Rendered(tags, secs, answer))
  {
    RenderedHead(tags, secs, answer);
    hide *;
    SkipGap(input, at, gap, Rendered(tags, secs, answer));
    TakeAhead(input, at, gap, Rendered(tags, secs, answer));
  }

  /** Where a rendered section ends and what follows its gap. */
  lemma SectionEnds(input: string, tags: Tags, cursor: nat, secs: seq<Section>, answer: string) returns (end: nat, next: nat)
    requires CleanTags(tags) && CleanAnswer(tags, answer) && secs != [] && CleanSections(tags, secs)
    requires Ahead(input, cursor, Inside(tags, secs, answer))
    ensures Find(input, tags.end, cursor) == Some(end) && input[cursor..end] == secs[0].text
    ensures next == SkipSpaces(input, end + |tags.end|) && Ahead(input, next, Rendered(tags, secs[1..], answer))
    ensures cursor < |input|
  {
    hide Find, SkipSpaces, CleanText, AllSpaces, StartsLike, Ahead;
    var text, gap := secs[0].text, secs[0].gap;
    assert CleanText(tags, text) && AllSpaces(gap);
    assert Ahead(input, cursor, text + (tags.end + (gap + Rendered(tags, secs[1..], answer))));
    hide *;
    TextAhead(input, tags, cursor, text, gap + Rendered(tags, secs[1..], answer));
    end := cursor + |text|;
    GapAhead(input, tags, end + |tags.end|, gap, secs[1..], answer);
    next := end + |tags.end| + |gap|;
    RenderedIsAhead(input, tags, next, secs[1..], answer);
  }

  lemma RenderedIsAhead(input: string, tags: Tags, next: nat, secs: seq<Section>, answer: string)
    requires CleanTags(tags) && CleanAnswer(tags, answer) && Ahead(input, next, Rendered(tags, secs, answer))
    ensures next < |input|
  {
    RenderedHead(tags, secs, answer);
  }

  lemma ClosedMore(input: string, sx: Syntax, tags: Tags, cursor: nat, pending: string, end: nat, next: nat, text: string)
    requires cursor <= end && end + |tags.end| <= |input| && next == SkipSpaces(input, end + |tags.end|)
    requires Reopens(input, next, tags) && input[cursor..end] == text
    ensures var h := Handle(sx, tags, pending, text, true);
            ClosedSection(input, sx, tags, cursor, pending, end)
              == More(next + |tags.start|, h.(pending := PrefixAt(sx, tags, input, next, h.pending)))
  {
    hide Handle, SkipSpaces, PrefixAt, Reopens;
  }

  lemma ClosedLast(input: string, sx: Syntax, tags: Tags, cursor: nat, pending: string, end: nat, next: nat, text: string)
    requires cursor <= end && end + |tags.end| <= |input| && next == SkipSpaces(input, end + |tags.end|)
    requires !StartsLike(input, next, tags.start) && input[cursor..end] == text
    ensures ClosedSection(input, sx, tags, cursor, pending, end) == Done(next, Handle(sx, tags, pending, text, true))
  {
    hide Handle, SkipSpaces, StartsLike;
  }

  lemma OwedAgain(input: string, sx: Syntax, tags: Tags, next: nat, owed: string, text: string)
    requires next + |tags.start| <= |input| && input[next..next + |tags.start|] == tags.start
    requires owed == [] || owed == Owed(sx, tags)
    ensures PrefixAt(sx, tags, input, next, Handle(sx, tags, owed, text, true).pending) == Owed(sx, tags)
  {
    hide Strip;
  }

  lemma TurnRead(input: string, partial: bool, sx: Syntax, tags: Tags, cursor: nat, owed: string, secs: seq<Section>, answer: string)
    requires owed == [] || owed == Owed(sx, tags)
    requires tags.Valid() && CleanTags(tags) && CleanAnswer(tags, answer) && secs != [] && CleanSections(tags, secs)
    requires Ahead(input, cursor, Inside(tags, secs, answer))
    ensures var t := TakeTurn(input, partial, sx, tags, cursor, owed);
            var h := Handle(sx, tags, owed, secs[0].text, true);
            && t.h.content == h.content
            && t.h.reasoning == h.reasoning
            && (if |secs| == 1 then t.Done? && t.pos + |answer| == |input|
                else t.More? && t.h.pending == Owed(sx, tags) && Ahead(input, t.cursor, Inside(tags, secs[1..], answer)))
  {
    hide *;
    var end, next := SectionEnds(input, tags, cursor, secs, answer);
    TurnIsClosed(input, partial, sx, tags, cursor, owed, end);
    if |secs| > 1 {
      MoreAhead(input, tags, next, secs, answer);
      ClosedMore(input, sx, tags, cursor, owed, end, next, secs[0].text);
      OwedAgain(input, sx, tags, next, owed, secs[0].text);
    } else {
      AnswerAhead(input, tags, next, secs, answer);
      ClosedLast(input, sx, tags, cursor, owed, end, next, secs[0].text);
    }
  }

  lemma TurnIsClosed(input: string, partial: bool, sx: Syntax, tags: Tags, cursor: nat, owed: string, end: nat)
    requires tags.Valid() && cursor < |input| && Find(input, tags.end, cursor) == Some(end)
    ensures cursor <= end && end + |tags.end| <= |input|
    ensures TakeTurn(input, partial, sx, tags, cursor, owed) == ClosedSection(input, sx, tags, cursor, owed, end)
  {
    hide ClosedSection, OpenSection;
  }

  /** Before another section. */
  lemma MoreAhead(input: string, tags: Tags, next: nat, secs: seq<Section>, answer: string)
    requires CleanTags(tags) && CleanAnswer(tags, answer) && |secs| > 1 && Ahead(input, next, Rendered(tags, secs[1..], answer))
    ensures next <= |input| && Reopens(input, next, tags)
    ensures next + |tags.start| <= |input| && input[next..next + |tags.start|] == tags.start
    ensures Ahead(input, next + |tags.start|, Inside(tags, secs[1..], answer))
  {
    ReopensIff(input, next, tags, secs[1..], answer);
    assert Ahead(input, next, tags.start + Inside(tags, secs[1..], answer));
    TakeAhead(input, next, tags.start, Inside(tags, secs[1..], answer));
  }

  /** Before the answer. */
  lemma AnswerAhead(input: string, tags: Tags, next: nat, secs: seq<Section>, answer: string)
    requires CleanTags(tags) && CleanAnswer(tags, answer) && |secs| == 1 && Ahead(input, next, Rendered(tags, secs[1..], answer))
    ensures next <= |input| && !StartsLike(input, next, tags.start) && next + |answer| == |input|
  {
    ReopensIff(input, next, tags, secs[1..], answer);
    assert Ahead(input, next, answer);
  }

  /** The section loop reads rendered sections back, one turn per section. */
  lemma {:induction false} SectionsRead(input: string, partial: bool, sx: Syntax, tags: Tags, cursor: nat, owed: string, secs: seq<Section>, answer: string)
    requires tags.Valid() && CleanTags(tags) && CleanAnswer(tags, answer) && secs != [] && CleanSections(tags, secs)
    requires owed == [] || owed == Owed(sx, tags)
    requires Ahead(input, cursor, Inside(tags, secs, answer))
    ensures Reads(Sections(input, partial, sx, tags, cursor, owed), input, answer,
                  ContentOf(sx, tags, secs), ReasoningOf(sx, tags, owed, secs))
    decreases |secs|
  {
    hide TakeTurn, Inside, CleanText, Strip, StartsLike, Owed;
    TurnRead(input, partial, sx, tags, cursor, owed, secs, answer);
    var t := TakeTurn(input, partial, sx, tags, cursor, owed);
    if |secs| > 1 {
      SectionsRead(input, partial, sx, tags, t.cursor, Owed(sx, tags), secs[1..], answer);
    } else {
      assert secs[1..] == [];
    }
  }

  /** Extraction undoes rendering, in every mode: blanks, then one or more tagged sections,
      then an answer, leave the blanks and any inlined reasoning as content, the stripped
      section texts as reasoning, and the cursor exactly at the answer. */
  lemma ExtractionUndoesRendering(input: string, partial: bool, sx: Syntax, tags: Tags, pos: nat, blanks: string, secs: seq<Section>, answer: string)
    requires tags.Valid() && sx.format != Off && CleanTags(tags) && CleanAnswer(tags, answer)
    requires secs != [] && CleanSections(tags, secs) && AllSpaces(blanks)
    requires Ahead(input, pos, blanks + Rendered(tags, secs, answer))
    ensures Reads(Parse(input, partial, sx, tags, pos), input, answer,
                  blanks + ContentOf(sx, tags, secs), ReasoningOf(sx, tags, Owed(sx, tags), secs))
  {
    hide Find, SkipSpaces, Sections, Inside, CleanText, AllSpaces, ContentOf, ReasoningOf;
    var ws := pos + |blanks|;
    RenderedHead(tags, secs, answer);
    SkipGap(input, pos, blanks, Rendered(tags, secs, answer));
    TakeAhead(input, pos, blanks, Rendered(tags, secs, answer));
    ReopensIff(input, ws, tags, secs, answer);
    TakeAhead(input, ws, tags.start, Inside(tags, secs, answer));
    SectionsRead(input, partial, sx, tags, ws + |tags.start|, Owed(sx, tags), secs, answer);
    assert PrefixAt(sx, tags, input, ws, []) == Owed(sx, tags);
    assert Parse(input, partial, sx, tags, pos) == Opened(input, partial, sx, tags, pos, ws);
  }

  /** Forced open, the first section may come without its start tag: the blanks before it are dropped, its
      text is reported without an opening literal, and the cursor is again exactly at the answer. */
  lemma ForcedOpenUndoesRendering(input: string, partial: bool, sx: Syntax, tags: Tags, pos: nat, blanks: string, secs: seq<Section>, answer: string)
    requires tags.Valid() && sx.format != Off && sx.forcedOpen && CleanTags(tags) && CleanAnswer(tags, answer)
    requires secs != [] && CleanSections(tags, secs) && AllSpaces(blanks)
    requires Inside(tags, secs, answer) != [] && !IsSpace(Inside(tags, secs, answer)[0])
    requires !StartsLike(Inside(tags, secs, answer), 0, tags.start)
    requires Ahead(input, pos, blanks + Inside(tags, secs, answer))
    ensures Reads(Parse(input, partial, sx, tags, pos), input, answer,
                  ContentOf(sx, tags, secs), ReasoningOf(sx, tags, "", secs))
  {
    hide Find, SkipSpaces, Sections, Inside, CleanText, AllSpaces, ContentOf, ReasoningOf, StartsLike;
    var ws := pos + |blanks|;
    SkipGap(input, pos, blanks, Inside(tags, secs, answer));
    TakeAhead(input, pos, blanks, Inside(tags, secs, answer));
    NotStarted(input, ws, tags, Inside(tags, secs, answer));
    SectionsRead(input, partial, sx, tags, ws, [], secs, answer);
  }

  lemma NotStarted(input: string, at: nat, tags: Tags, rest: string)
    requires Ahead(input, at, rest) && rest != [] && !StartsLike(rest, 0, tags.start)
    ensures at < |input| && !StartsLike(input, at, tags.start)
  {
    var n := Min(|tags.start|, |rest|);
    assert input[at..at + n] == rest[0..n];
  }

  /** In content, a section is written between its own tags, or between those of Deepseek. */
  lemma SectionInContent(input: string, partial: bool, sx: Syntax, tags: Tags, pos: nat, blanks: string, sec: Section, answer: string)
    requires tags.Valid() && sx.format != Off && sx.inContent && CleanTags(tags) && CleanAnswer(tags, answer)
    requires CleanSections(tags, [sec]) && AllSpaces(blanks) && Strip(sec.text) != ""
    requires Ahead(input, pos, blanks + Rendered(tags, [sec], answer))
    ensures Reads(Parse(input, partial, sx, tags, pos), input, answer,
                  blanks + (if sx.format == Deepseek then "<think>" + Strip(sec.text) + "</think>"
                            else tags.start + Strip(sec.text) + tags.end), "")
  {
    hide Parse, Strip, Rendered, Ahead, CleanSections, AllSpaces;
    ExtractionUndoesRendering(input, partial, sx, tags, pos, blanks, [sec], answer);
    var secs, written := [sec], OpenTag(sx, tags) + Strip(sec.text) + CloseTag(sx, tags);
    assert secs[1..] == [] && written + [] == written;
    var none: string := [];
    assert none + none == none;
    assert ReasoningOf(sx, tags, Owed(sx, tags), secs) == none;
  }

  /** The usual output of a forced-open format: a text, the end tag and the answer. */
  lemma OneForcedOpen(input: string, partial: bool, format: ReasoningFormat, text: string, tags: Tags, answer: string)
    requires tags.Valid() && format != Off && CleanTags(tags) && CleanText(tags, text) && CleanAnswer(tags, answer)
    requires input == text + (tags.end + answer) && Strip(text) != ""
    requires input != "" && !IsSpace(input[0]) && !StartsLike(input, 0, tags.start)
    ensures Parse(input, partial, Syntax(format, false, true), tags, 0) == Parsed(true, |text| + |tags.end|, "", Strip(text))
  {
    hide Find, Parse, Strip, IsSpace, StartsLike, CleanText;
    var secs, sx := [Section(text, "")], Syntax(format, false, true);
    assert secs[1..] == [] && "" + answer == answer;
    assert Inside(tags, secs, answer) == input == "" + input && input[0..] == input;
    ForcedOpenUndoesRendering(input, partial, sx, tags, 0, "", secs, answer);
    assert ContentOf(sx, tags, secs) == "" && ReasoningOf(sx, tags, "", secs) == "" + Strip(text) + "" == Strip(text);
  }

  const THINK := Tags("<think>", "</think>")

  /** A short one. */
  lemma ForcedOpenExample(partial: bool)
    ensures Parse("a</think>b", partial, Syntax(Deepseek, false, true), THINK, 0) == Parsed(true, 9, "", "a")
  {
    hide *;
    AIsClean();
    OneForcedOpen("a</think>b", partial, Deepseek, "a", THINK, "b");
  }

  lemma AIsClean()
    ensures THINK.Valid() && CleanTags(THINK) && CleanAnswer(THINK, "b") && CleanText(THINK, "a") && Strip("a") == "a"
    ensures "a</think>b" == "a" + ("</think>" + "b") && THINK.end == "</think>" && |"</think>"| == 8
    ensures !IsSpace("a</think>b"[0]) && !StartsLike("a</think>b", 0, THINK.start)
  {
    hide Find, Strip;
    var both := "a" + "</think>";
    assert both[0..8][0] == 'a' && "</think>"[0] == '<';
    assert both[1..9] == "</think>";
    assert "b"[0..1][0] == 'b' && "<think>"[..1][0] == '<';
    assert "a</think>b"[0..7][0] == 'a' && "<think>"[..7][0] == '<';
    FoundAt(both, "</think>", 0, 1);
    assert "a"[..0] == "" && "a"[1..] == "" && "a"[0..1] == "a" && "a"[0] == 'a';
    StripIs("a", 0, 1);
  }
}
