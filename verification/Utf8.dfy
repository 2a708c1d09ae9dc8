/** UTF-8 as in section 3 of RFC 3629, and the two string helpers of common/console.cpp. */
module Utf8 {
  import opened Basics

  type CodePoint = c: nat | c <= 0x10FFFF

  predicate Continuation(b: Byte) {
    0x80 <= b < 0xC0
  }

  /** `append_utf8`, the bytes it adds. Shifts and masks are written as division and remainder. */
  function Encode(c: CodePoint): (r: seq<Byte>)
    ensures 1 <= |r| <= 4 && !Continuation(r[0]) && forall i :: 1 <= i < |r| ==> Continuation(r[i])
  {
    if c <= 0x7F then [c]
    else if c <= 0x7FF then [0xC0 + c / 64, 0x80 + c % 64]
    else if c <= 0xFFFF then [0xE0 + c / 4096, 0x80 + c / 64 % 64, 0x80 + c % 64]
    else [0xF0 + c / 262144, 0x80 + c / 4096 % 64, 0x80 + c / 64 % 64, 0x80 + c % 64]
  }

  /** The characters of section 7 of RFC 3629, of one to four bytes. */
  lemma EncodedExamples()
    ensures Encode(0x2E) == [0x2E] && Encode(0x391) == [0xCE, 0x91]
    ensures Encode(0x2262) == [0xE2, 0x89, 0xA2] && Encode(0x233B4) == [0xF0, 0xA3, 0x8E, 0xB4]
  {
  }

  /** Length announced by a leading byte. */
  function LeadLength(b: Byte): nat {
    if b < 0x80 then 1 else if b < 0xE0 then 2 else if b < 0xF0 then 3 else 4
  }

  /** The code point at the front of a byte string, read back from its bits. */
  function DecodeFirst(s: seq<Byte>): Option<int>
    requires s != []
  {
    var n := LeadLength(s[0]);
    var lead: int := s[0];
    if |s| < n then None
    else if n == 1 then Some(lead)
    else if n == 2 then Some((lead - 0xC0) * 64 + Payload(s[1]))
    else if n == 3 then Some((lead - 0xE0) * 4096 + Payload(s[1]) * 64 + Payload(s[2]))
    else Some((lead - 0xF0) * 262144 + Payload(s[1]) * 4096 + Payload(s[2]) * 64 + Payload(s[3]))
  }

  function Payload(b: Byte): int {
    b as int - 0x80
  }

  lemma DecodeUndoesEncode(c: CodePoint, rest: seq<Byte>)
    ensures DecodeFirst(Encode(c) + rest) == Some(c) && LeadLength(Encode(c)[0]) == |Encode(c)|
  {
    var e := Encode(c);
    var s := e + rest;
    assert forall i :: 0 <= i < |e| ==> s[i] == e[i];
    if c > 0xFFFF {
      assert c / 64 == c / 4096 * 64 + c / 64 % 64 by { assert c / 64 / 64 == c / 4096; }
      assert c / 4096 == c / 262144 * 64 + c / 4096 % 64 by { assert c / 4096 / 64 == c / 262144; }
    } else if c > 0x7FF {
      assert c / 64 == c / 4096 * 64 + c / 64 % 64 by { assert c / 64 / 64 == c / 4096; }
    }
  }

  /** A text as bytes. */
  function Encoded(text: seq<CodePoint>): seq<Byte> {
    if text == [] then [] else Encoded(text[..|text| - 1]) + Encode(text[|text| - 1])
  }

  lemma EncodedBack(text: seq<CodePoint>)
    requires text != []
    ensures Encoded(text) == Encoded(text[..|text| - 1]) + Encode(text[|text| - 1])
  {
  }

  lemma Ends<T>(s: seq<T>)
    requires |s| > 1
    ensures var n := |s| - 1; s[..n][1..] == s[1..][..n - 1] && s[1..][n - 1] == s[n] && s[..n][0] == s[0]
  {
  }

  lemma {:induction false} EncodedFront(text: seq<CodePoint>)
    requires text != []
    ensures Encoded(text) == Encode(text[0]) + Encoded(text[1..])
  {
    var n := |text| - 1;
    if n == 0 {
      assert text[..0] == [] && text[1..] == [];
    } else {
      hide *;
      var init, tail := text[..n], text[1..];
      EncodedFront(init);
      EncodedBack(text);
      EncodedBack(tail);
      Ends(text);
      Regroup(Encode(text[0]), Encoded(tail[..n - 1]), Encode(text[n]));
    }
  }

  lemma {:induction false} EncodedFirst(text: seq<CodePoint>)
    requires text != []
    ensures Encoded(text) != [] && DecodeFirst(Encoded(text)) == Some(text[0])
    ensures |Encode(text[0])| <= |Encoded(text)| && Encoded(text)[|Encode(text[0])|..] == Encoded(text[1..])
  {
    hide DecodeFirst;
    EncodedFront(text);
    DecodeUndoesEncode(text[0], Encoded(text[1..]));
  }

  /** Different texts have different bytes. */
  lemma {:induction false} EncodedInjective(a: seq<CodePoint>, b: seq<CodePoint>)
    requires Encoded(a) == Encoded(b)
    ensures a == b
  {
    if a == [] {
      if b != [] {
        EncodedFirst(b);
      }
    } else if b == [] {
      EncodedFirst(a);
    } else {
      hide *;
      EncodedFirst(a);
      EncodedFirst(b);
      EncodedInjective(a[1..], b[1..]);
      assert a == [a[0]] + a[1..] && b == [b[0]] + b[1..];
    }
  }

  /** Start of the last character, found by walking back over at most three continuation bytes. */
  function CharStart(line: seq<Byte>, pos: nat, walked: nat): (r: nat)
    requires pos < |line|
    ensures r <= pos
  {
    if walked >= 3 || pos == 0 || !Continuation(line[pos]) then pos else CharStart(line, pos - 1, walked + 1)
  }

  function WithoutLastChar(line: seq<Byte>): seq<Byte> {
    if line == [] then [] else line[..CharStart(line, |line| - 1, 0)]
  }

  /** `pop_back_utf8_char`. */
  method PopBack(line: seq<Byte>) returns (r: seq<Byte>)
    ensures r == WithoutLastChar(line)
  {
    if line == [] {
      return [];
    }
    var pos := |line| - 1;
    var i := 0;
    while i < 3 && pos > 0 && Continuation(line[pos])
      invariant 0 <= pos < |line| && i <= 3
      invariant CharStart(line, pos, i) == CharStart(line, |line| - 1, 0)
    {
      i := i + 1;
      pos := pos - 1;
    }
    r := line[..pos];
  }

  lemma {:induction false} CharStartIs(line: seq<Byte>, pos: nat, walked: nat)
    requires pos < |line| && walked == |line| - 1 - pos <= 3 && forall k :: pos < k < |line| ==> Continuation(line[k])
    ensures var r := CharStart(line, pos, walked);
            && (forall k :: r < k < |line| ==> Continuation(line[k]))
            && (|line| - 1 - r == 3 || r == 0 || !Continuation(line[r]))
    decreases pos
  {
    if walked < 3 && pos > 0 && Continuation(line[pos]) {
      CharStartIs(line, pos - 1, walked + 1);
    }
  }

  /** On encoded text it removes exactly the last code point. */
  lemma PopsLastCode(text: seq<CodePoint>)
    requires text != []
    ensures WithoutLastChar(Encoded(text)) == Encoded(text[..|text| - 1])
  {
    hide *;
    var line := Encoded(text);
    EncodedNonEmpty(text);
    CharStartIs(line, |line| - 1, 0);
    LastStart(line, text, CharStart(line, |line| - 1, 0));
    WithoutLastCharIs(line);
  }

  lemma EncodedNonEmpty(text: seq<CodePoint>)
    requires text != []
    ensures Encoded(text) != []
  {
  }

  lemma WithoutLastCharIs(line: seq<Byte>)
    requires line != []
    ensures WithoutLastChar(line) == line[..CharStart(line, |line| - 1, 0)]
  {
  }

  lemma LastStart(line: seq<Byte>, text: seq<CodePoint>, pos: nat)
    requires text != [] && line == Encoded(text) && pos < |line|
    requires forall k :: pos < k < |line| ==> Continuation(line[k])
    requires |line| - 1 - pos == 3 || pos == 0 || !Continuation(line[pos])
    ensures line[..pos] == Encoded(text[..|text| - 1])
  {
    var before, last := Encoded(text[..|text| - 1]), Encode(text[|text| - 1]);
    assert line == before + last;
    assert line[|before|] == last[0];
    assert pos == |before|;
  }
}
