/** `string_process_escapes` of common/common.cpp, which overwrites its own input. */
module Escapes {
  import opened Basics

  const BACKSLASH: Byte := 92
  const LETTER_X: Byte := 120

  function HexDigit(c: Byte): (d: Option<Byte>)
    ensures d.Some? ==> d.value < 16
  {
    if 48 <= c <= 57 then Some(c - 48)
    else if 65 <= c <= 70 then Some(c - 55)
    else if 97 <= c <= 102 then Some(c - 87)
    else None
  }

  /** A negative number cut to a byte. */
  function Negated(b: Byte): Byte {
    if b == 0 then 0 else 256 - b
  }

  /**
   * `strtol` in base 16 over exactly two characters, as a byte, when it uses both: two digits, or one
   * digit after a blank or a sign.
   */
  function HexPair(c: Byte, d: Byte): Option<Byte> {
    match HexDigit(d)
    case None => None
    case Some(low) =>
      if HexDigit(c).Some? then Some(16 * HexDigit(c).value + low)
      else if c == 32 || 9 <= c <= 13 || c == 43 then Some(low)
      else if c == 45 then Some(Negated(low))
      else None
  }

  /** n, r, t, quotes and the backslash itself. */
  function Short(c: Byte): Option<Byte> {
    if c == 110 then Some(10)
    else if c == 114 then Some(13)
    else if c == 116 then Some(9)
    else if c == 39 || c == 34 || c == BACKSLASH then Some(c)
    else None
  }

  datatype Piece = Piece(written: seq<Byte>, used: nat)

  /** What the front of a text stands for, and how much of the text it takes. */
  function Front(s: seq<Byte>): (p: Piece)
    requires s != []
    ensures 1 <= |p.written| <= p.used <= |s|
    ensures |p.written| == p.used ==> p.written == s[..p.used]
  {
    if s[0] != BACKSLASH || |s| == 1 then Piece([s[0]], 1)
    else if Short(s[1]).Some? then Piece([Short(s[1]).value], 2)
    else if s[1] == LETTER_X && |s| >= 4 && HexPair(s[2], s[3]).Some? then Piece([HexPair(s[2], s[3]).value], 4)
    else Piece([s[0], s[1]], 2)
  }

  /** Left-to-right removal of escapes. */
  function Unescaped(s: seq<Byte>): seq<Byte> {
    if s == [] then [] else Front(s).written + Unescaped(s[Front(s).used..])
  }

  lemma UnescapedStep(was: seq<Byte>, i: nat)
    requires i < |was|
    ensures var p := Front(was[i..]);
            i + p.used <= |was| && Unescaped(was[i..]) == p.written + Unescaped(was[i + p.used..])
  {
    var p := Front(was[i..]);
    assert was[i..][p.used..] == was[i + p.used..];
  }

  /** One turn of the loop: reads the piece at i, writes it at o, both indices updated. */
  method TakePiece(input: array<Byte>, i: nat, o: nat) returns (i': nat, o': nat)
    requires o <= i < input.Length
    modifies input
    ensures var p := Front(old(input[i..]));
            && i' == i + p.used <= input.Length && o' == o + |p.written|
            && forall k :: 0 <= k < input.Length ==> input[k] == if o <= k < o' then p.written[k - o] else old(input[k])
  {
    hide HexPair, Short, HexDigit;
    i', o' := i, o;
    if input[i'] == BACKSLASH && i' + 1 < input.Length {
      i' := i' + 1;
      var c := input[i'];
      var short := Short(c);
      var pair := None;
      if c == LETTER_X && i' + 2 < input.Length {
        pair := HexPair(input[i' + 1], input[i' + 2]);
      }
      if short.Some? {
        input[o'] := short.value;
        o' := o' + 1;
      } else if pair.Some? {
        i' := i' + 2;
        input[o'] := pair.value;
        o' := o' + 1;
      } else {
        input[o'] := BACKSLASH;
        o' := o' + 1;
        input[o'] := input[i'];
        o' := o' + 1;
      }
    } else {
      input[o'] := input[i'];
      o' := o' + 1;
    }
    i' := i' + 1;
  }

  /** The whole pass; the caller keeps the first n bytes. */
  method ProcessEscapes(input: array<Byte>) returns (n: nat)
    modifies input
    ensures n <= input.Length && input[..n] == Unescaped(old(input[..]))
  {
    hide *;
    ghost var was := input[..];
    var i := 0;
    n := 0;
    assert was[0..] == was;
    while i < input.Length
      invariant n <= i <= input.Length
      invariant input[i..] == was[i..]
      invariant input[..n] + Unescaped(was[i..]) == Unescaped(was)
      decreases input.Length - i
    {
      UnescapedStep(was, i);
      ghost var before, from, at := input[..], i, n;
      assert before[i..] == was[i..];
      i, n := TakePiece(input, i, n);
      Advanced(before, input[..], was, from, at, i, n, Front(was[from..]).written);
    }
    assert was[i..] == [];
    UnescapedEmpty();
  }

  lemma UnescapedEmpty()
    ensures Unescaped([]) == []
  {
  }

  lemma Advanced(before: seq<Byte>, after: seq<Byte>, was: seq<Byte>, i: nat, o: nat, i': nat, o': nat, written: seq<Byte>)
    requires o <= i <= |was| == |before| && before[i..] == was[i..]
    requires o' == o + |written| && i <= i' <= |was| && o' <= i'
    requires |after| == |before| && forall k :: 0 <= k < |after| ==> after[k] == if o <= k < o' then written[k - o] else before[k]
    ensures |after| == |was| && after[i'..] == was[i'..] && after[..o'] == before[..o] + written
  {
    assert before[i'..] == before[i..][i' - i..];
    assert was[i'..] == was[i..][i' - i..];
    assert after[i'..] == before[i'..];
  }

  // ---------- Spellings ----------

  /** One byte of a text, spelled as itself, by its short escape, or by two hexadecimal digits. */
  datatype Spelling = Itself(byte: Byte) | ByLetter(letter: Byte) | ByDigits(high: Byte, low: Byte)

  predicate Proper(p: Spelling) {
    match p
    case Itself(b) => b != BACKSLASH
    case ByLetter(c) => Short(c).Some?
    case ByDigits(h, l) => HexDigit(h).Some? && HexDigit(l).Some?
  }

  function Meaning(p: Spelling): Byte
    requires Proper(p)
  {
    match p
    case Itself(b) => b
    case ByLetter(c) => Short(c).value
    case ByDigits(h, l) => 16 * HexDigit(h).value + HexDigit(l).value
  }

  function Spelled(p: Spelling): seq<Byte> {
    match p
    case Itself(b) => [b]
    case ByLetter(c) => [BACKSLASH, c]
    case ByDigits(h, l) => [BACKSLASH, LETTER_X, h, l]
  }

  predicate AllProper(ps: seq<Spelling>) {
    forall i :: 0 <= i < |ps| ==> Proper(ps[i])
  }

  function Meanings(ps: seq<Spelling>): seq<Byte>
    requires AllProper(ps)
  {
    if ps == [] then [] else [Meaning(ps[0])] + Meanings(ps[1..])
  }

  function SpelledAll(ps: seq<Spelling>): seq<Byte> {
    if ps == [] then [] else Spelled(ps[0]) + SpelledAll(ps[1..])
  }

  lemma FrontOfSpelled(p: Spelling, rest: seq<Byte>)
    requires Proper(p)
    ensures Front(Spelled(p) + rest) == Piece([Meaning(p)], |Spelled(p)|)
  {
    var s := Spelled(p) + rest;
    assert forall i :: 0 <= i < |Spelled(p)| ==> s[i] == Spelled(p)[i];
  }

  /** Every proper spelling of a text, however the three forms are mixed, is read back as that text. */
  lemma {:induction false} UnescapingReadsSpelling(ps: seq<Spelling>)
    requires AllProper(ps)
    ensures Unescaped(SpelledAll(ps)) == Meanings(ps)
  {
    if ps != [] {
      assert Proper(ps[0]);
      var rest := SpelledAll(ps[1..]);
      UnescapingReadsSpelling(ps[1..]);
      FrontOfSpelled(ps[0], rest);
      assert (Spelled(ps[0]) + rest)[|Spelled(ps[0])|..] == rest;
    }
  }

  function Doubled(s: seq<Byte>): seq<Byte> {
    if s == [] then []
    else (if s[0] == BACKSLASH then [BACKSLASH, BACKSLASH] else [s[0]]) + Doubled(s[1..])
  }

  /** Doubling every backslash protects any text. */
  lemma {:induction false} UnescapingUndoesDoubling(s: seq<Byte>)
    ensures Unescaped(Doubled(s)) == s
  {
    hide Front;
    if s != [] {
      var p := if s[0] == BACKSLASH then ByLetter(BACKSLASH) else Itself(s[0]);
      var rest := Doubled(s[1..]);
      UnescapingUndoesDoubling(s[1..]);
      FrontOfSpelled(p, rest);
      assert (Spelled(p) + rest)[|Spelled(p)|..] == rest;
    }
  }

  lemma PieceShrinks(s: seq<Byte>, used: nat, written: seq<Byte>, tail: seq<Byte>)
    requires used <= |s| && |written| <= used && |tail| <= |s| - used
    requires |written| == used ==> written == s[..used]
    requires |tail| == |s| - used ==> tail == s[used..]
    ensures |written + tail| <= |s| && (|written + tail| == |s| ==> written + tail == s)
  {
    assert s == s[..used] + s[used..];
  }

  /** The text never grows, and a text that keeps its length is unchanged. */
  lemma {:induction false} ShrinksOrKeeps(s: seq<Byte>)
    ensures |Unescaped(s)| <= |s|
    ensures |Unescaped(s)| == |s| ==> Unescaped(s) == s
  {
    hide *;
    if s != [] {
      var p := Front(s);
      ShrinksOrKeeps(s[p.used..]);
      UnescapedStep(s, 0);
      assert s[0..] == s;
      PieceShrinks(s, p.used, p.written, Unescaped(s[p.used..]));
    } else {
      UnescapedEmpty();
    }
  }

  predicate IsHexDigit(c: Byte) {
    48 <= c <= 57 || 65 <= c <= 70 || 97 <= c <= 102
  }

  predicate IsBlank(c: Byte) {
    c == 32 || 9 <= c <= 13
  }

  const PLUS: Byte := 43
  const MINUS: Byte := 45

  /** The escape spells the byte b in two digits. */
  predicate TwoDigits(c: Byte, d: Byte, b: Byte) {
    DigitFor(c, b / 16) && DigitFor(d, b % 16)
  }

  predicate Takeable(c: Byte, d: Byte) {
    IsHexDigit(d) && (IsHexDigit(c) || IsBlank(c) || c == PLUS || c == MINUS)
  }

  /** A digit by its value. */
  predicate DigitFor(c: Byte, v: nat) {
    v < 16 && (c == DigitOf(v, false) || c == DigitOf(v, true))
  }

  lemma HexDigitIs(c: Byte)
    ensures HexDigit(c).Some? <==> IsHexDigit(c)
    ensures HexDigit(c).Some? ==> DigitFor(c, HexDigit(c).value)
    ensures forall v: nat :: DigitFor(c, v) ==> HexDigit(c) == Some(v)
  {
  }

  /** Which pairs are a byte, and which byte they are. */
  lemma PairTaken(c: Byte, d: Byte)
    ensures HexPair(c, d).Some? <==> Takeable(c, d)
    ensures HexPair(c, d).Some? ==>
              var b := HexPair(c, d).value;
              && (TwoDigits(c, d, b) <==> IsHexDigit(c))
              && (IsBlank(c) || c == PLUS ==> DigitFor(d, b))
              && (c == MINUS ==> DigitFor(d, Negated(b)))
  {
    hide HexDigit;
    HexDigitIs(c);
    HexDigitIs(d);
    if HexPair(c, d).Some? && IsHexDigit(c) {
      var b, high, low := HexPair(c, d).value, HexDigit(c).value, HexDigit(d).value;
      assert b / 16 == high && b % 16 == low;
    }
  }

  /**
   * Which characters after backslash and x are taken as a byte: if and only if the second is a digit
   * and the first a digit, a blank or a sign. It is the byte they spell in two digits if and only if
   * both are digits; a blank or plus gives the one digit, a minus its negative. Otherwise backslash
   * and x stay.
   */
  lemma TakenAsByte(c: Byte, d: Byte, rest: seq<Byte>)
    ensures var s := [BACKSLASH, LETTER_X, c, d] + rest;
            var p := Front(s);
            && (p.used == 4 <==> Takeable(c, d))
            && (!Takeable(c, d) ==> Unescaped(s) == [BACKSLASH, LETTER_X] + Unescaped([c, d] + rest))
            && (Takeable(c, d) ==>
                  var b := p.written[0];
                  && Unescaped(s) == [b] + Unescaped(rest)
                  && (TwoDigits(c, d, b) <==> IsHexDigit(c))
                  && (IsBlank(c) || c == PLUS ==> DigitFor(d, b))
                  && (c == MINUS ==> DigitFor(d, Negated(b))))
  {
    hide HexPair, HexDigit, TwoDigits, IsHexDigit, DigitFor, Takeable;
    PairTaken(c, d);
    var s := [BACKSLASH, LETTER_X, c, d] + rest;
    assert s[4..] == rest && s[2..] == [c, d] + rest;
    assert Unescaped(s) == Front(s).written + Unescaped(s[Front(s).used..]);
  }

  /** A sign or a blank before one digit: two such escapes. */
  lemma SignedDigit()
    ensures Unescaped([BACKSLASH, LETTER_X, 45, 49]) == [255]
    ensures Unescaped([BACKSLASH, LETTER_X, 32, 49]) == [1]
  {
    var s, t: seq<Byte> := [BACKSLASH, LETTER_X, 45, 49], [BACKSLASH, LETTER_X, 32, 49];
    assert Front(s) == Piece([255], 4) && s[4..] == [];
    assert Front(t) == Piece([1], 4) && t[4..] == [];
  }

  /** A backslash and one more character: six of them are read as a byte, all others stay, and so
      does x with fewer than two characters after it. */
  lemma AfterBackslash(c: Byte, rest: seq<Byte>)
    ensures var s := [92, c] + rest;
            && (c == 110 ==> Unescaped(s) == [10] + Unescaped(rest))
            && (c == 114 ==> Unescaped(s) == [13] + Unescaped(rest))
            && (c == 116 ==> Unescaped(s) == [9] + Unescaped(rest))
            && (c == 39 || c == 34 || c == 92 ==> Unescaped(s) == [c] + Unescaped(rest))
            && (c != 110 && c != 114 && c != 116 && c != 39 && c != 34 && c != 92 && (c != 120 || |rest| < 2) ==>
                  Unescaped(s) == [92, c] + Unescaped(rest))
  {
    var s := [92, c] + rest;
    if c != 120 || |rest| < 2 {
      assert Front(s).used == 2 && s[2..] == rest;
    }
  }

  /** Any other byte stands for itself, and so does a backslash with nothing after it. */
  lemma OneByItself(c: Byte, rest: seq<Byte>)
    requires c != 92 || rest == []
    ensures Unescaped([c] + rest) == [c] + Unescaped(rest)
  {
    var s := [c] + rest;
    assert Front(s) == Piece([c], 1) && s[1..] == rest;
  }

  /** The usual hexadecimal digit of a value, in either case. */
  function DigitOf(d: nat, upper: bool): Byte
    requires d < 16
  {
    if d < 10 then 48 + d else if upper then 55 + d else 87 + d
  }

  /** Every byte can be written by its two digits, in either case, anywhere in a text. */
  lemma HexEscape(b: Byte, upper: bool, alsoUpper: bool, rest: seq<Byte>)
    ensures Unescaped([BACKSLASH, LETTER_X, DigitOf(b / 16, upper), DigitOf(b % 16, alsoUpper)] + rest) == [b] + Unescaped(rest)
  {
    hide Front;
    var p := ByDigits(DigitOf(b / 16, upper), DigitOf(b % 16, alsoUpper));
    FrontOfSpelled(p, rest);
    assert (Spelled(p) + rest)[4..] == rest;
  }
}
