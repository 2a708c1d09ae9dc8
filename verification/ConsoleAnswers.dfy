/**
 * What the two readers of common/console.cpp return, in terms of the text on the line and with every
 * key and byte written out: 92 is a backslash, 47 a slash, 32 a space, 10 a newline.
 */
module ConsoleAnswers {
  import opened Basics
  import opened Utf8
  import opened Console

  /** The answer for a line that holds this text. */
  ghost function Answer(text: seq<CodePoint>, streamEnded: bool, multiline: bool): (seq<Byte>, bool) {
    var n := |text| - 1;
    if n >= 0 && text[n] == 92 then (Encoded(text[..n]) + [10], !multiline)
    else if n >= 0 && text[n] == 47 then (if text[..n] == [32] then [] else Encoded(text[..n]), false)
    else if streamEnded then (Encoded(text), false)
    else (Encoded(text) + [10], multiline)
  }

  lemma LastByte(text: seq<CodePoint>)
    requires text != []
    ensures var n, bytes := |text| - 1, Encoded(text);
            && bytes != []
            && (bytes[|bytes| - 1] == 92 <==> text[n] == 92)
            && (bytes[|bytes| - 1] == 47 <==> text[n] == 47)
            && (text[n] <= 0x7F ==> bytes[..|bytes| - 1] == Encoded(text[..n]))
  {
    var e := Encode(text[|text| - 1]);
    assert Encoded(text)[|Encoded(text)| - 1] == e[|e| - 1];
  }

  lemma OneSpace(text: seq<CodePoint>)
    ensures Encoded(text) == [32] <==> text == [32]
  {
    assert [32 as CodePoint][..0] == [];
    assert Encoded([32]) == Encoded([]) + Encode(32) == [32];
    if Encoded(text) == [32] {
      EncodedInjective(text, [32]);
    }
  }

  lemma SubmittedIsAnswer(text: seq<CodePoint>, streamEnded: bool, multiline: bool)
    ensures Submitted(Encoded(text), streamEnded, multiline) == Answer(text, streamEnded, multiline)
  {
    hide Encoded;
    if text == [] {
      EncodedEmpty(text);
    } else {
      LastByte(text);
      OneSpace(text[..|text| - 1]);
    }
  }

  /** `readline_advanced` on any keys of which none above 0x10FFFF is typed as text: the answer for the
      text that the user sees when the line ends. */
  lemma AnswerIsEdited(keys: seq<Char32>, measure: nat -> int, multiline: bool)
    requires !Stray(keys, 0)
    ensures var e := Edited(keys, measure, 0, []);
            Submitted(LastHead(keys, measure, 0, BLANK).line, EndsStream(LastKey(keys, 0)), multiline)
            == Answer(Codes(e.glyphs), e.streamEnded, multiline)
  {
    hide *;
    var e := Edited(keys, measure, 0, []);
    NoGlyphs();
    BlankHolds();
    KeyedIsEdited(keys, measure, 0, []);
    LastHeadIsKeyed(keys, measure, 0, [], []);
    HoldingLine(Codes(e.glyphs), Widths(e.glyphs));
    SubmittedIsAnswer(Codes(e.glyphs), e.streamEnded, multiline);
  }

  lemma NoGlyphs()
    ensures Codes([]) == [] && Widths([]) == []
  {}

  lemma HoldingLine(codes: seq<CodePoint>, widths: seq<nat>)
    ensures Holding(codes, widths).line == Encoded(codes)
  {}

  // ---- the keys ----

  /** None of the keys with a meaning of their own. */
  predicate Letter(c: Char32) {
    c != 4 && c != 8 && c != 10 && c != 13 && c != 27 && c != 127 && c <= 0x10FFFF
  }

  /** Text typed and ended by a newline (13 is one too), or by Ctrl-D or the end of the keys. */
  lemma AnswerForText(text: seq<CodePoint>, keys: seq<Char32>, measure: nat -> int, multiline: bool)
    requires |text| <= |keys| && text == keys[..|text|] && forall i :: 0 <= i < |text| ==> Letter(text[i])
    requires |text| < |keys| ==> keys[|text|] in [4, 10, 13, 0xFFFFFFFF]
    ensures Submitted(LastHead(keys, measure, 0, BLANK).line, EndsStream(LastKey(keys, 0)), multiline)
            == Answer(text, |text| == |keys| || keys[|text|] == 4 || keys[|text|] == 0xFFFFFFFF, multiline)
  {
    hide Encoded, Keyed, LastHead, LastKey, Submitted, Answer;
    assert text[..0] == [];
    KeyedPlain(text, keys, measure, 0, []);
    BlankHolds();
    LastHeadIsKeyed(keys, measure, 0, [], []);
    SubmittedIsAnswer(text, EndsStream(KeyAt(keys, |text|)), multiline);
  }

  /** A letter is added with its width; 8 and 127 take the last visible letter back. */
  lemma ErasingUndoesTyping(keys: seq<Char32>, measure: nat -> int, i: nat, codes: seq<CodePoint>, widths: seq<nat>)
    requires i < |keys| && Letter(keys[i])
    ensures Keyed(keys, measure, i, codes, widths)
            == Keyed(keys, measure, i + 1, codes + [keys[i]], widths + [if measure(i) < 0 then 0 else measure(i)])
    ensures i + 1 < |keys| && keys[i + 1] in [8, 127] && measure(i) > 0 ==>
              Keyed(keys, measure, i, codes, widths) == Keyed(keys, measure, i + 2, codes, widths)
  {
    var cs, ws := codes + [keys[i]], widths + [Width(measure(i))];
    assert cs[..|codes|] == codes && ws[..|widths|] == widths;
    if i + 1 < |keys| && keys[i + 1] in [8, 127] && measure(i) > 0 {
      assert Popped(cs, ws) == (codes, widths);
    }
  }

  /** The capital and small letters and the tilde. */
  predicate Closes(c: Char32) {
    65 <= c <= 90 || 97 <= c <= 122 || c == 126
  }

  lemma {:induction false} BodySkipped(keys: seq<Char32>, i: nat, end: nat)
    requires i <= end <= |keys|
    requires forall j :: i <= j < end ==> keys[j] != 0xFFFFFFFF && !Closes(keys[j])
    requires end < |keys| ==> Closes(keys[end])
    ensures AfterEscapeBody(keys, i) == end + 1
    decreases end - i
  {
    if i < end {
      BodySkipped(keys, i + 1, end);
    }
  }

  /** An escape key changes nothing, together with the key after it, or, when that is '[' (91) or another
      escape, with all keys up to the first letter or tilde; without one the line ends with the stream. */
  lemma EscapesLeaveNoTrace(keys: seq<Char32>, measure: nat -> int, i: nat, end: nat, codes: seq<CodePoint>, widths: seq<nat>)
    requires i < |keys| && keys[i] == 27 && i + 1 <= end <= |keys|
    requires i + 1 < |keys| && (keys[i + 1] == 91 || keys[i + 1] == 27) ==>
               && i + 2 <= end
               && (forall j :: i + 2 <= j < end ==> keys[j] != 0xFFFFFFFF && !Closes(keys[j]))
               && (end < |keys| ==> Closes(keys[end]))
    requires i + 1 < |keys| && keys[i + 1] != 91 && keys[i + 1] != 27 ==> end == i + 1
    ensures Keyed(keys, measure, i, codes, widths)
            == if end < |keys| then Keyed(keys, measure, end + 1, codes, widths) else Held(codes, widths, true)
  {
    if i + 1 < |keys| && (keys[i + 1] == 91 || keys[i + 1] == 27) {
      BodySkipped(keys, i + 2, end);
    }
    assert AfterEscape(keys, i + 1) == end + 1;
  }

  // ---- the simple reader ----

  /** `readline_simple` on a first line and whatever follows it. */
  lemma SimpleAnswer(line: seq<Byte>, rest: seq<Byte>, multiline: bool)
    requires 10 !in line && (rest == [] || rest[0] == 10)
    ensures var n := |line| - 1;
            SimpleReading(FirstLine(line + rest), line + rest == [], multiline) ==
              if line + rest == [] then ([], false)
              else if n >= 0 && line[n] == 47 then (line[..n], false)
              else if n >= 0 && line[n] == 92 then (line[..n] + [10], !multiline)
              else (line + [10], multiline)
  {
    hide FirstLine;
    FirstLineSkips(line, rest);
  }
}
