/**
 * The line editor of common/console.cpp. Terminal output is left out; what stays is the line, the
 * stack of widths, the special-character flag and the returned value.
 *
 * A keyboard is a sequence of 32-bit characters; reading past its end gives WEOF.
 * `measure(i)` is the width the terminal reports for the key at position i: any integer.
 */
module Console {
  import opened Basics
  import opened Utf8

  type Char32 = c: nat | c <= 0xFFFFFFFF

  const WEOF: Char32 := 0xFFFFFFFF
  const NEWLINE: Byte := 10
  const BACKSLASH: Byte := 0x5C
  const SLASH: Byte := 0x2F
  const SPACE: Byte := 0x20

  function KeyAt(keys: seq<Char32>, i: nat): Char32 {
    if i < |keys| then keys[i] else WEOF
  }

  predicate EndsLine(c: Char32) {
    c == 13 || c == 10
  }

  predicate EndsStream(c: Char32) {
    c == WEOF || c == 4
  }

  predicate Erases(c: Char32) {
    c == 8 || c == 0x7F
  }

  predicate EndsEscape(c: Char32) {
    65 <= c <= 90 || 97 <= c <= 122 || c == 126
  }

  predicate OpensEscape(c: Char32) {
    c == 91 || c == 27
  }

  // ---- what the user sees: a list of glyphs ----

  datatype Glyph = Glyph(code: CodePoint, width: nat)

  /** Backspace removes the last glyph and goes on while what it removed had no width. */
  function Erased(gs: seq<Glyph>): seq<Glyph> {
    if gs == [] then []
    else if gs[|gs| - 1].width == 0 then Erased(gs[..|gs| - 1])
    else gs[..|gs| - 1]
  }

  /** A visible glyph goes together with all the zero-width marks typed on top of it. */
  lemma {:induction false} EraseTakesMarks(gs: seq<Glyph>, g: Glyph, marks: seq<Glyph>)
    requires g.width > 0 && forall i :: 0 <= i < |marks| ==> marks[i].width == 0
    ensures Erased(gs + [g] + marks) == gs
    ensures Erased(marks) == []
  {
    var all := gs + [g] + marks;
    if marks != [] {
      EraseTakesMarks(gs, g, marks[..|marks| - 1]);
      assert all[..|all| - 1] == gs + [g] + marks[..|marks| - 1];
    } else {
      assert all[..|all| - 1] == gs;
    }
  }

  /** First position after an escape sequence whose body starts at i. */
  function AfterEscapeBody(keys: seq<Char32>, i: nat): (r: nat)
    ensures r > i
    decreases |keys| - i
  {
    if KeyAt(keys, i) == WEOF || EndsEscape(KeyAt(keys, i)) then i + 1 else AfterEscapeBody(keys, i + 1)
  }

  function AfterEscape(keys: seq<Char32>, i: nat): (r: nat)
    ensures r > i
  {
    if OpensEscape(KeyAt(keys, i)) then AfterEscapeBody(keys, i + 1) else i + 1
  }

  predicate Ends(c: Char32) {
    EndsLine(c) || EndsStream(c)
  }

  /** Where the next key is read. */
  function NextKey(keys: seq<Char32>, i: nat): (r: nat)
    ensures r > i
  {
    if KeyAt(keys, i) == 27 then AfterEscape(keys, i + 1) else i + 1
  }

  /** Some key above 0x10FFFF is typed as text before the line ends. */
  predicate Stray(keys: seq<Char32>, i: nat)
    decreases |keys| - i
  {
    var c := KeyAt(keys, i);
    !Ends(c) && (c > 0x10FFFF || Stray(keys, NextKey(keys, i)))
  }

  function Width(w: int): nat {
    if w < 0 then 0 else w
  }

  datatype Outcome = Outcome(glyphs: seq<Glyph>, streamEnded: bool)

  /** The editor as the user sees it: keys from position i on act on a list of glyphs. */
  function Edited(keys: seq<Char32>, measure: nat -> int, i: nat, gs: seq<Glyph>): Outcome
    requires !Stray(keys, i)
    decreases |keys| - i
  {
    var c := KeyAt(keys, i);
    if EndsLine(c) then Outcome(gs, false)
    else if EndsStream(c) then Outcome(gs, true)
    else if c == 27 then Edited(keys, measure, AfterEscape(keys, i + 1), gs)
    else if Erases(c) then Edited(keys, measure, i + 1, Erased(gs))
    else Edited(keys, measure, i + 1, gs + [Glyph(c, Width(measure(i)))])
  }

  // ---- what the editor holds: code points and widths, in step or not ----

  function WithoutLast(codes: seq<CodePoint>): seq<CodePoint> {
    if codes == [] then [] else codes[..|codes| - 1]
  }

  /** Backspace on the two stacks: one of each, again while the width popped is zero. */
  function Popped(codes: seq<CodePoint>, widths: seq<nat>): (seq<CodePoint>, seq<nat>)
    decreases |widths|
  {
    if widths == [] then (codes, widths)
    else
      var n := |widths| - 1;
      if widths[n] == 0 then Popped(WithoutLast(codes), widths[..n]) else (WithoutLast(codes), widths[..n])
  }

  datatype Held = Held(codes: seq<CodePoint>, widths: seq<nat>, streamEnded: bool)

  /** Keys from position i on, whatever their values: a key above 0x10FFFF adds a width but no bytes. */
  function Keyed(keys: seq<Char32>, measure: nat -> int, i: nat, codes: seq<CodePoint>, widths: seq<nat>): Held
    decreases |keys| - i
  {
    var c := KeyAt(keys, i);
    if EndsLine(c) then Held(codes, widths, false)
    else if EndsStream(c) then Held(codes, widths, true)
    else if c == 27 then Keyed(keys, measure, AfterEscape(keys, i + 1), codes, widths)
    else if Erases(c) then
      var (cs, ws) := Popped(codes, widths);
      Keyed(keys, measure, i + 1, cs, ws)
    else Keyed(keys, measure, i + 1, if c <= 0x10FFFF then codes + [c] else codes, widths + [Width(measure(i))])
  }

  function Codes(gs: seq<Glyph>): seq<CodePoint> {
    seq(|gs|, i requires 0 <= i < |gs| => gs[i].code)
  }

  function Widths(gs: seq<Glyph>): seq<nat> {
    seq(|gs|, i requires 0 <= i < |gs| => gs[i].width)
  }

  lemma LastGlyph(gs: seq<Glyph>)
    requires gs != []
    ensures Codes(gs[..|gs| - 1]) == WithoutLast(Codes(gs)) && Widths(gs[..|gs| - 1]) == Widths(gs)[..|gs| - 1]
  {
  }

  lemma {:induction false} PoppedIsErased(gs: seq<Glyph>)
    ensures Popped(Codes(gs), Widths(gs)) == (Codes(Erased(gs)), Widths(Erased(gs)))
  {
    if gs != [] {
      LastGlyph(gs);
      if gs[|gs| - 1].width == 0 {
        PoppedIsErased(gs[..|gs| - 1]);
      }
    }
  }

  /** Unless a key above 0x10FFFF is typed the two stacks are a list of glyphs throughout, and the editor
      is the one the user sees. */
  lemma {:induction false} KeyedIsEdited(keys: seq<Char32>, measure: nat -> int, i: nat, gs: seq<Glyph>)
    requires !Stray(keys, i)
    ensures var e := Edited(keys, measure, i, gs);
            Keyed(keys, measure, i, Codes(gs), Widths(gs)) == Held(Codes(e.glyphs), Widths(e.glyphs), e.streamEnded)
    decreases |keys| - i
  {
    hide Popped, Erased;
    var c := KeyAt(keys, i);
    if EndsLine(c) || EndsStream(c) {
    } else if c == 27 {
      KeyedIsEdited(keys, measure, AfterEscape(keys, i + 1), gs);
    } else if Erases(c) {
      PoppedIsErased(gs);
      KeyedIsEdited(keys, measure, i + 1, Erased(gs));
    } else {
      var g := Glyph(c, Width(measure(i)));
      assert Codes(gs + [g]) == Codes(gs) + [c] && Widths(gs + [g]) == Widths(gs) + [g.width];
      KeyedIsEdited(keys, measure, i + 1, gs + [g]);
    }
  }

  /** A key above 0x10FFFF puts them out of step: erasing it takes the letter before it. */
  lemma StrayKeyTakesLetter(letter: CodePoint, stray: Char32, measure: nat -> int)
    requires 32 <= letter != 0x7F && 0x10FFFF < stray < WEOF && measure(1) > 0
    ensures Keyed([letter, stray, 8, 10], measure, 0, [], []).codes == []
  {
    var keys := [letter, stray, 8, 10];
    var w, v := Width(measure(0)), Width(measure(1));
    var none: seq<CodePoint>, flat: seq<nat> := [], [];
    assert none + [letter] == [letter] && flat + [w] == [w] && [w] + [v] == [w, v];
    assert Keyed(keys, measure, 0, [], []) == Keyed(keys, measure, 1, [letter], [w]);
    assert Keyed(keys, measure, 1, [letter], [w]) == Keyed(keys, measure, 2, [letter], [w, v]);
    assert [w, v][..1] == [w] && Popped([letter], [w, v]) == ([], [w]);
    assert Keyed(keys, measure, 2, [letter], [w, v]) == Keyed(keys, measure, 3, [], [w]);
  }

  // ---- the loop itself: bytes, widths and the flag ----

  /** The variables at the head of the loop. */
  datatype Editor = Editor(line: seq<Byte>, widths: seq<nat>, special: bool)

  /** Backspace on the bytes. */
  function Backspaced(line: seq<Byte>, widths: seq<nat>): (seq<Byte>, seq<nat>)
    decreases |widths|
  {
    if widths == [] then (line, widths)
    else
      var n := |widths| - 1;
      if widths[n] == 0 then Backspaced(WithoutLastChar(line), widths[..n]) else (WithoutLastChar(line), widths[..n])
  }

  /** One key that does not end the line; an escape sequence changes nothing. */
  function Pressed(e: Editor, c: Char32, width: int): Editor {
    var (line, widths) :=
      if c == 27 then (e.line, e.widths)
      else if Erases(c) then Backspaced(e.line, e.widths)
      else (if c <= 0x10FFFF then e.line + Encode(c) else e.line, e.widths + [Width(width)]);
    Editor(line, widths, EndsSpecial(line))
  }

  /** The states at the head of the loop, from key i on. */
  function Heads(keys: seq<Char32>, measure: nat -> int, i: nat, e: Editor): (hs: seq<Editor>)
    ensures hs != [] && hs[0] == e
    decreases |keys| - i
  {
    var c := KeyAt(keys, i);
    if Ends(c) then [e] else [e] + Heads(keys, measure, NextKey(keys, i), Pressed(e, c, measure(i)))
  }

  /** The key that ends the line. */
  function LastKey(keys: seq<Char32>, i: nat): Char32
    decreases |keys| - i
  {
    if Ends(KeyAt(keys, i)) then KeyAt(keys, i) else LastKey(keys, NextKey(keys, i))
  }

  /** The line as it stands when that key is read. */
  function LastHead(keys: seq<Char32>, measure: nat -> int, i: nat, e: Editor): Editor {
    var hs := Heads(keys, measure, i, e);
    hs[|hs| - 1]
  }

  const BLANK := Editor([], [], false)

  /** The editor that holds these code points and widths. */
  ghost function Holding(codes: seq<CodePoint>, widths: seq<nat>): Editor {
    Editor(Encoded(codes), widths, EndsSpecial(Encoded(codes)))
  }

  lemma BlankHolds()
    ensures BLANK == Holding([], [])
  {
  }

  lemma {:induction false} BackspacedIsPopped(codes: seq<CodePoint>, widths: seq<nat>)
    ensures Backspaced(Encoded(codes), widths) == (Encoded(Popped(codes, widths).0), Popped(codes, widths).1)
    decreases |widths|
  {
    if widths != [] {
      if codes == [] {
        assert WithoutLastChar(Encoded(codes)) == Encoded(WithoutLast(codes));
      } else {
        PopsLastCode(codes);
      }
      if widths[|widths| - 1] == 0 {
        BackspacedIsPopped(WithoutLast(codes), widths[..|widths| - 1]);
      }
    }
  }

  /** The two stacks after a key. */
  function KeyTyped(c: Char32, width: int, codes: seq<CodePoint>, widths: seq<nat>): (seq<CodePoint>, seq<nat>) {
    if c == 27 then (codes, widths)
    else if Erases(c) then Popped(codes, widths)
    else (if c <= 0x10FFFF then codes + [c] else codes, widths + [Width(width)])
  }

  lemma PressedIsTyped(c: Char32, width: int, codes: seq<CodePoint>, widths: seq<nat>)
    ensures var (cs, ws) := KeyTyped(c, width, codes, widths); Pressed(Holding(codes, widths), c, width) == Holding(cs, ws)
  {
    hide Encoded, Encode, EndsSpecial, Popped, Backspaced;
    BackspacedIsPopped(codes, widths);
    if c <= 0x10FFFF {
      EncodedSnoc(codes, c);
    }
  }

  /** Some code points are encoded by the line, no more than there are widths, and the flag says whether
      the line ends in a backslash or slash; so the last byte exists wherever the flag is set. */
  ghost predicate Sound(e: Editor) {
    (exists codes :: e.line == Encoded(codes) && |codes| <= |e.widths|) && (e.special <==> EndsSpecial(e.line))
  }

  /** As many code points as widths. */
  ghost predicate InStep(e: Editor) {
    exists codes :: e.line == Encoded(codes) && |codes| == |e.widths|
  }

  /** The run invariant of the editor: every loop head is sound, whatever the keys. */
  lemma {:induction false} HeadsAreSound(keys: seq<Char32>, measure: nat -> int, i: nat, codes: seq<CodePoint>, widths: seq<nat>)
    requires |codes| <= |widths|
    ensures forall h :: h in Heads(keys, measure, i, Holding(codes, widths)) ==> Sound(h)
    decreases |keys| - i
  {
    hide Encoded, EndsSpecial, Pressed, NextKey;
    var c := KeyAt(keys, i);
    assert Sound(Holding(codes, widths));
    if !Ends(c) {
      var (cs, ws) := KeyTyped(c, measure(i), codes, widths);
      PressedIsTyped(c, measure(i), codes, widths);
      PoppedSizes(codes, widths);
      HeadsAreSound(keys, measure, NextKey(keys, i), cs, ws);
    }
  }

  /** The two stacks are in step at every loop head if and only if no such key is typed. */
  lemma {:induction false} InStepIffNoStray(keys: seq<Char32>, measure: nat -> int, i: nat, codes: seq<CodePoint>, widths: seq<nat>)
    requires |codes| == |widths|
    ensures (forall h :: h in Heads(keys, measure, i, Holding(codes, widths)) ==> InStep(h)) <==> !Stray(keys, i)
    decreases |keys| - i
  {
    hide Encoded, EndsSpecial, Pressed, NextKey;
    var c := KeyAt(keys, i);
    assert InStep(Holding(codes, widths));
    if !Ends(c) {
      var (cs, ws) := KeyTyped(c, measure(i), codes, widths);
      var rest := Heads(keys, measure, NextKey(keys, i), Pressed(Holding(codes, widths), c, measure(i)));
      assert Heads(keys, measure, i, Holding(codes, widths)) == [Holding(codes, widths)] + rest;
      PressedIsTyped(c, measure(i), codes, widths);
      PoppedSizes(codes, widths);
      if |cs| == |ws| {
        InStepIffNoStray(keys, measure, NextKey(keys, i), cs, ws);
      } else {
        OutOfStep(cs, ws);
        assert rest[0] in rest;
      }
    }
  }

  lemma OutOfStep(codes: seq<CodePoint>, widths: seq<nat>)
    requires |codes| != |widths|
    ensures !InStep(Holding(codes, widths))
  {
    forall other | Encoded(other) == Encoded(codes) ensures |other| != |widths| {
      EncodedInjective(other, codes);
    }
  }

  /** The last head holds what the keys leave on the two stacks. */
  lemma {:induction false} LastHeadIsKeyed(keys: seq<Char32>, measure: nat -> int, i: nat, codes: seq<CodePoint>, widths: seq<nat>)
    ensures var k := Keyed(keys, measure, i, codes, widths);
            LastHead(keys, measure, i, Holding(codes, widths)) == Holding(k.codes, k.widths) && k.streamEnded == EndsStream(LastKey(keys, i))
    decreases |keys| - i
  {
    hide Encoded, EndsSpecial, Pressed, Popped;
    var c := KeyAt(keys, i);
    if !Ends(c) {
      var (cs, ws) := KeyTyped(c, measure(i), codes, widths);
      PressedIsTyped(c, measure(i), codes, widths);
      LastHeadIsKeyed(keys, measure, NextKey(keys, i), cs, ws);
    }
  }

  predicate EndsSpecial(line: seq<Byte>) {
    line != [] && (line[|line| - 1] == BACKSLASH || line[|line| - 1] == SLASH)
  }

  /** What is returned for a finished line: backslash flips the default, slash hands over control. */
  function Submitted(line: seq<Byte>, streamEnded: bool, multiline: bool): (seq<Byte>, bool) {
    if EndsSpecial(line) then
      var body := line[..|line| - 1];
      if line[|line| - 1] == BACKSLASH then (body + [NEWLINE], !multiline)
      else (if body == [SPACE] then [] else body, false)
    else if streamEnded then (line, false)
    else (line + [NEWLINE], multiline)
  }

  // ---- the two readers ----

  /** `append_utf8`: adds nothing above 0x10FFFF. */
  method AppendUtf8(c: Char32, line: seq<Byte>) returns (r: seq<Byte>)
    ensures r == if c <= 0x10FFFF then line + Encode(c) else line
  {
    if c <= 0x7F {
      r := line + [c];
    } else if c <= 0x7FF {
      assert c / 64 % 32 == c / 64;
      r := line + [0xC0 + c / 64 % 32, 0x80 + c % 64];
    } else if c <= 0xFFFF {
      assert c / 4096 % 16 == c / 4096;
      r := line + [0xE0 + c / 4096 % 16, 0x80 + c / 64 % 64, 0x80 + c % 64];
    } else if c <= 0x10FFFF {
      assert c / 262144 % 8 == c / 262144;
      r := line + [0xF0 + c / 262144 % 8, 0x80 + c / 4096 % 64, 0x80 + c / 64 % 64, 0x80 + c % 64];
    } else {
      r := line;
    }
  }

  /** The inner loop on an escape sequence; i is the position after the ESC key. */
  method SkipEscape(keys: seq<Char32>, i: nat) returns (next: nat)
    ensures next == AfterEscape(keys, i)
  {
    var code := KeyAt(keys, i);
    next := i + 1;
    if code == 91 || code == 0x1B {
      code := KeyAt(keys, next);
      next := next + 1;
      while code != WEOF && !EndsEscape(code)
        invariant next > 0 && code == KeyAt(keys, next - 1)
        invariant AfterEscapeBody(keys, next - 1) == AfterEscapeBody(keys, i + 1)
        decreases |keys| - next
      {
        code := KeyAt(keys, next);
        next := next + 1;
      }
    }
  }

  /** The do-while loop of the backspace key. */
  method Backspace(line: seq<Byte>, widths: seq<nat>) returns (l: seq<Byte>, ws: seq<nat>)
    ensures (l, ws) == Backspaced(line, widths)
  {
    hide WithoutLastChar;
    l, ws := line, widths;
    if ws != [] {
      var count := 0;
      var first := true;
      while first || (count == 0 && ws != [])
        invariant first ==> ws != []
        invariant (if first || count == 0 then Backspaced(l, ws) else (l, ws)) == Backspaced(line, widths)
        decreases |ws|
      {
        first := false;
        count := ws[|ws| - 1];
        ws := ws[..|ws| - 1];
        l := PopBack(l);
      }
    }
  }

  /** `readline_advanced`. */
  method ReadlineAdvanced(keys: seq<Char32>, measure: nat -> int, multiline: bool) returns (line: seq<Byte>, more: bool)
    ensures (line, more) == Submitted(LastHead(keys, measure, 0, BLANK).line, EndsStream(LastKey(keys, 0)), multiline)
  {
    hide Encode, Backspaced, EndsSpecial;
    line := [];
    var widths: seq<nat> := [];
    var special := false;
    var streamEnded := false;
    var i: nat := 0;
    NotSpecial();
    while true
      invariant !streamEnded && (special <==> EndsSpecial(line))
      invariant LastHead(keys, measure, i, Editor(line, widths, special)) == LastHead(keys, measure, 0, BLANK)
      invariant LastKey(keys, i) == LastKey(keys, 0)
      decreases |keys| - i
    {
      var c := KeyAt(keys, i);
      if EndsLine(c) {
        break;
      }
      if EndsStream(c) {
        streamEnded := true;
        break;
      }
      HeadAfter(keys, measure, i, Editor(line, widths, special));
      if special {
        special := false;
      }
      if c == 27 {
        i := SkipEscape(keys, i + 1);
      } else if Erases(c) {
        line, widths := Backspace(line, widths);
        i := i + 1;
      } else {
        line := AppendUtf8(c, line);
        var width := measure(i);
        if width < 0 {
          width := 0;
        }
        widths := widths + [width];
        i := i + 1;
      }
      special := IsSpecialEnd(line);
    }
    line, more := SubmitLine(line, special, streamEnded, multiline);
  }

  lemma HeadAfter(keys: seq<Char32>, measure: nat -> int, i: nat, e: Editor)
    requires !Ends(KeyAt(keys, i))
    ensures LastHead(keys, measure, i, e) == LastHead(keys, measure, NextKey(keys, i), Pressed(e, KeyAt(keys, i), measure(i)))
    ensures LastKey(keys, i) == LastKey(keys, NextKey(keys, i))
  {
    hide Pressed;
  }

  lemma NotSpecial()
    ensures !EndsSpecial([])
  {
  }

  method IsSpecialEnd(line: seq<Byte>) returns (special: bool)
    ensures special == EndsSpecial(line)
  {
    special := line != [] && (line[|line| - 1] == BACKSLASH || line[|line| - 1] == SLASH);
  }

  /** What follows the loop. */
  method SubmitLine(typed: seq<Byte>, special: bool, streamEnded: bool, multiline: bool) returns (line: seq<Byte>, more: bool)
    requires special == EndsSpecial(typed)
    ensures (line, more) == Submitted(typed, streamEnded, multiline)
  {
    line, more := typed, multiline;
    if special {
      var last := line[|line| - 1];
      line := line[..|line| - 1];
      if last == BACKSLASH {
        line := line + [NEWLINE];
        more := !more;
      } else {
        if |line| == 1 && line[0] == SPACE {
          line := [];
        }
        more := false;
      }
    } else if streamEnded {
      more := false;
    } else {
      line := line + [NEWLINE];
    }
  }

  lemma EncodedSnoc(codes: seq<CodePoint>, c: CodePoint)
    ensures Encoded(codes + [c]) == Encoded(codes) + Encode(c)
  {
    assert (codes + [c])[..|codes|] == codes;
  }

  lemma {:induction false} PoppedSizes(codes: seq<CodePoint>, widths: seq<nat>)
    requires |codes| <= |widths|
    ensures |Popped(codes, widths).0| <= |Popped(codes, widths).1|
    ensures |codes| == |widths| ==> |Popped(codes, widths).0| == |Popped(codes, widths).1|
    decreases |widths|
  {
    if widths != [] && widths[|widths| - 1] == 0 {
      PoppedSizes(WithoutLast(codes), widths[..|widths| - 1]);
    }
  }

  /** `std::getline` then the special endings: `readline_simple`. */
  method ReadlineSimple(input: seq<Byte>, multiline: bool) returns (line: seq<Byte>, more: bool)
    ensures (line, more) == SimpleReading(FirstLine(input), input == [], multiline)
  {
    line := GetLine(input);
    if input == [] {
      return [], false;
    }
    more := multiline;
    if line != [] {
      var last := line[|line| - 1];
      if last == SLASH {
        return line[..|line| - 1], false;
      }
      if last == BACKSLASH {
        line := line[..|line| - 1];
        more := !more;
      }
    }
    line := line + [NEWLINE];
  }

  method GetLine(input: seq<Byte>) returns (line: seq<Byte>)
    ensures line == FirstLine(input)
  {
    line := [];
    var i := 0;
    while i < |input| && input[i] != NEWLINE
      invariant 0 <= i <= |input|
      invariant FirstLine(input) == line + FirstLine(input[i..])
    {
      assert input[i..][1..] == input[i + 1..];
      Regroup(line, [input[i]], FirstLine(input[i + 1..]));
      line := line + [input[i]];
      i := i + 1;
    }
  }

  function FirstLine(input: seq<Byte>): seq<Byte> {
    if input == [] || input[0] == NEWLINE then [] else [input[0]] + FirstLine(input[1..])
  }

  function SimpleReading(line: seq<Byte>, atEnd: bool, multiline: bool): (seq<Byte>, bool) {
    if atEnd then ([], false)
    else if EndsSpecial(line) then
      var body := line[..|line| - 1];
      if line[|line| - 1] == SLASH then (body, false) else (body + [NEWLINE], !multiline)
    else (line + [NEWLINE], multiline)
  }

  // ---- agreement of the two readers on plain text ----

  predicate Plain(text: seq<CodePoint>) {
    forall i :: 0 <= i < |text| ==> !EndsLine(text[i]) && text[i] != 4 && text[i] != 27 && !Erases(text[i])
  }

  /** Typed text is what the editor holds when it reaches its end. */
  lemma {:induction false} KeyedPlain(text: seq<CodePoint>, keys: seq<Char32>, measure: nat -> int, i: nat, widths: seq<nat>)
    requires Plain(text) && i <= |text| <= |keys| && text == keys[..|text|] && Ends(KeyAt(keys, |text|))
    ensures Keyed(keys, measure, i, text[..i], widths).codes == text
    ensures Keyed(keys, measure, i, text[..i], widths).streamEnded <==> EndsStream(KeyAt(keys, |text|))
    decreases |text| - i
  {
    if i < |text| {
      assert keys[i] == text[i] && text[..i + 1] == text[..i] + [text[i]];
      KeyedPlain(text, keys, measure, i + 1, widths + [Width(measure(i))]);
    } else {
      assert text[..i] == text;
    }
  }

  lemma NoNewlineByte(c: CodePoint)
    requires c != 10
    ensures NEWLINE !in Encode(c)
  {
  }

  lemma {:induction false} FirstLineSkips(line: seq<Byte>, rest: seq<Byte>)
    requires NEWLINE !in line && (rest == [] || rest[0] == NEWLINE)
    ensures FirstLine(line + rest) == line
  {
    if line == [] {
      assert line + rest == rest;
    } else {
      FirstLineSkips(line[1..], rest);
      assert (line + rest)[1..] == line[1..] + rest;
    }
  }

  lemma {:induction false} PlainHasNoNewline(text: seq<CodePoint>)
    requires Plain(text)
    ensures NEWLINE !in Encoded(text)
  {
    if text != [] {
      PlainHasNoNewline(text[..|text| - 1]);
      NoNewlineByte(text[|text| - 1]);
    }
  }

  const SPACE_SLASH: seq<CodePoint> := [0x20, 0x2F]

  lemma SpaceSlashBytes(text: seq<CodePoint>)
    ensures Encoded(text) == [SPACE, SLASH] <==> text == SPACE_SLASH
  {
    assert SPACE_SLASH[..1] == [0x20] && [0x20 as CodePoint][..0] == [];
    assert Encoded([0x20]) == Encoded([]) + Encode(0x20) == [SPACE];
    assert Encoded(SPACE_SLASH) == [SPACE, SLASH];
    if Encoded(text) == [SPACE, SLASH] {
      EncodedInjective(text, SPACE_SLASH);
    }
  }

  /**
   * The editor and the simple reader on the same plain text. Ended by a newline they return the same
   * line and flag, except on the one text " /". Ended by the end of the stream they agree only on no
   * text at all and on text with a special ending.
   */
  lemma ReadersAgree(text: seq<CodePoint>, keys: seq<Char32>, input: seq<Byte>, measure: nat -> int, multiline: bool)
    requires Plain(text) && |text| <= |keys| && text == keys[..|text|]
    requires |Encoded(text)| <= |input| && input[..|Encoded(text)|] == Encoded(text)
    requires if |text| < |keys| then keys[|text|] == 10 && |Encoded(text)| < |input| && input[|Encoded(text)|] == NEWLINE
             else |Encoded(text)| == |input|
    ensures Submitted(LastHead(keys, measure, 0, BLANK).line, EndsStream(LastKey(keys, 0)), multiline)
            == SimpleReading(FirstLine(input), input == [], multiline) <==>
            text != SPACE_SLASH && (|text| < |keys| || text == [] || EndsSpecial(Encoded(text)))
  {
    hide *;
    var bytes := Encoded(text);
    EditorHolds(text, keys, measure);
    SimpleHolds(text, input);
    EncodedEmpty(text);
    SpaceSlashBytes(text);
    EndingsCompared(bytes, |text| == |keys|, multiline);
  }

  lemma EditorHolds(text: seq<CodePoint>, keys: seq<Char32>, measure: nat -> int)
    requires Plain(text) && |text| <= |keys| && text == keys[..|text|]
    requires |text| < |keys| ==> keys[|text|] == 10
    ensures LastHead(keys, measure, 0, BLANK).line == Encoded(text)
    ensures EndsStream(LastKey(keys, 0)) <==> |text| == |keys|
  {
    assert text[..0] == [];
    KeyedPlain(text, keys, measure, 0, []);
    BlankHolds();
    LastHeadIsKeyed(keys, measure, 0, [], []);
  }

  lemma SimpleHolds(text: seq<CodePoint>, input: seq<Byte>)
    requires Plain(text) && |Encoded(text)| <= |input| && input[..|Encoded(text)|] == Encoded(text)
    requires |Encoded(text)| < |input| ==> input[|Encoded(text)|] == NEWLINE
    ensures FirstLine(input) == Encoded(text)
  {
    hide Encoded, FirstLine;
    var bytes := Encoded(text);
    PlainHasNoNewline(text);
    FirstLineSkips(bytes, input[|bytes|..]);
    assert input == bytes + input[|bytes|..];
  }

  lemma EncodedEmpty(text: seq<CodePoint>)
    ensures Encoded(text) == [] <==> text == []
  {
  }

  lemma EndingsCompared(bytes: seq<Byte>, streamEnded: bool, multiline: bool)
    ensures Submitted(bytes, streamEnded, multiline) == SimpleReading(bytes, streamEnded && bytes == [], multiline) <==>
            bytes != [SPACE, SLASH] && (!streamEnded || bytes == [] || EndsSpecial(bytes))
  {
    if EndsSpecial(bytes) {
      var body, last := bytes[..|bytes| - 1], bytes[|bytes| - 1];
      assert bytes == body + [last];
      assert bytes == [SPACE, SLASH] <==> body == [SPACE] && last == SLASH by {
        if bytes == [SPACE, SLASH] {
          assert body == [SPACE];
        }
      }
    }
  }
}
