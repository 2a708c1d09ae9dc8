/**
  The Base64 codec of common/base64.hpp in terms of text: the two alphabets of sections 4
  and 5 of RFC 4648 written out, and '=' as the only padding.
 */
module Base64Text {
  import opened Basics
  import opened Bits
  import opened Base64
  import opened Base64Laws

  const UPPER := "ABCDEFGHIJKLMNOPQRSTUVWXYZ"
  const LOWER := "abcdefghijklmnopqrstuvwxyz"
  const DIGITS := "0123456789"
  const STANDARD_TEXT := UPPER + LOWER + DIGITS + "+/"
  const URL_SAFE_TEXT := UPPER + LOWER + DIGITS + "-_"

  /** The alphabet text written in; without a choice it is the standard one. */
  function Letters(a: Alphabet): string {
    if a == UrlSafe then URL_SAFE_TEXT else STANDARD_TEXT
  }

  function CharOf(c: bv8): (r: char)
    ensures r as int == c as int
  {
    c as int as char
  }

  function TextOf(s: seq<bv8>): (r: string)
    ensures |r| == |s| && forall i :: 0 <= i < |s| ==> r[i] == CharOf(s[i])
  {
    seq(|s|, i requires 0 <= i < |s| => CharOf(s[i]))
  }

  // ---------- The letters ----------

  lemma UpperAt(i: nat)
    requires i < 26
    ensures UPPER[i] as int == 65 + i
  {}

  lemma LowerAt(i: nat)
    requires i < 26
    ensures LOWER[i] as int == 97 + i
  {}

  lemma DigitAt(i: nat)
    requires i < 10
    ensures DIGITS[i] as int == 48 + i
  {}

  lemma LettersAre(a: Alphabet)
    ensures |UPPER| == 26 && |LOWER| == 26 && |DIGITS| == 10 && |Letters(a)| == 64
    ensures Letters(a) == UPPER + LOWER + DIGITS + (if a == UrlSafe then "-_" else "+/")
  {}

  /** The character code at each place of an alphabet. */
  lemma LetterAt(a: Alphabet, i: nat)
    requires i < 64
    ensures |Letters(a)| == 64
    ensures Letters(a)[i] as int ==
              if i < 26 then i + 65 else if i < 52 then i + 71 else if i < 62 then i - 4
              else if i == 62 then (if a == UrlSafe then 45 else 43)
              else if a == UrlSafe then 95 else 47
  {
    hide UPPER, LOWER, DIGITS, Letters;
    LettersAre(a);
    Fourths(UPPER, LOWER, DIGITS, if a == UrlSafe then "-_" else "+/", i);
    if i < 26 {
      UpperAt(i);
    } else if i < 52 {
      LowerAt(i - 26);
    } else if i < 62 {
      DigitAt(i - 52);
    }
  }

  lemma Fourths(u: string, l: string, d: string, e: string, i: nat)
    requires i < |u| + |l| + |d| + |e|
    ensures (u + l + d + e)[i] ==
              if i < |u| then u[i] else if i < |u| + |l| then l[i - |u|]
              else if i < |u| + |l| + |d| then d[i - |u| - |l|] else e[i - |u| - |l| - |d|]
  {}

  lemma SymbolCode(a: Alphabet, v: bv8)
    requires v < 64
    ensures 0 <= v as int < 64
    ensures Symbol(a, v) as int ==
              if v as int < 26 then v as int + 65 else if v as int < 52 then v as int + 71 else if v as int < 62 then v as int - 4
              else if v as int == 62 then (if a == UrlSafe then 45 else 43)
              else if a == UrlSafe then 95 else 47
  {}

  /** The character of a value is the letter at its place. */
  lemma SymbolIsLetter(a: Alphabet, v: bv8)
    requires v < 64
    ensures 0 <= v as int < 64 == |Letters(a)| && CharOf(Symbol(a, v)) == Letters(a)[v as int]
  {
    hide Symbol, Letters;
    SymbolCode(a, v);
    LetterAt(a, v as int);
  }

  /** The six-bit values of a byte string, written in an alphabet. */
  ghost function Spelled(a: Alphabet, vals: seq<bv8>): (r: string)
    requires forall i :: 0 <= i < |vals| ==> vals[i] < 64
  {
    seq(|vals|, i requires 0 <= i < |vals| => LetterOf(a, vals[i]))
  }

  ghost function LetterOf(a: Alphabet, v: bv8): char
    requires v < 64
  {
    SymbolIsLetter(a, v);
    Letters(a)[v as int]
  }

  lemma SpelledIsText(a: Alphabet, vals: seq<bv8>)
    requires forall i :: 0 <= i < |vals| ==> vals[i] < 64
    ensures TextOf(Symbols(a, vals)) == Spelled(a, vals)
  {
    hide Letters, Symbol;
    forall i | 0 <= i < |vals| ensures TextOf(Symbols(a, vals))[i] == LetterOf(a, vals[i]) {
      SymbolIsLetter(a, vals[i]);
    }
  }

  /** What fills the encoding of s up to a multiple of four. */
  function Filler(s: seq<bv8>): string {
    if |s| % 3 == 0 then "" else if |s| % 3 == 1 then "==" else "="
  }

  lemma FillerIsPads(s: seq<bv8>) returns (pads: nat)
    ensures pads < 3 && (|s| + pads) % 3 == 0 && TextOf(Pads(pads)) == Filler(s)
  {
    hide TextOf, Pads, Filler;
    pads := ToThird(|s|);
    FillerOf(s, pads);
    PadText(pads);
  }

  lemma ToThird(n: nat) returns (pads: nat)
    ensures pads < 3 && (n + pads) % 3 == 0
  {
    pads := if n % 3 == 0 then 0 else 3 - n % 3;
  }

  lemma FillerOf(s: seq<bv8>, pads: nat)
    requires pads < 3 && (|s| + pads) % 3 == 0
    ensures Filler(s) == if pads == 0 then "" else if pads == 1 then "=" else "=="
  {
  }

  /** An encoding is the six-bit values in letters of the alphabet, then '=' up to a multiple of four. */
  lemma EncodingIsSpelled(a: Alphabet, s: seq<bv8>)
    ensures TextOf(EncodeSpec(a, s)) == Spelled(a, ToSextets(OfBytes(s))) + Filler(s)
  {
    hide *;
    var pads := FillerIsPads(s);
    SpecIs(a, s, pads);
    TextOfConcat(Encoded(a, s), Pads(pads));
    EncodedIsSpelled(a, s);
  }

  lemma EncodedIsSpelled(a: Alphabet, s: seq<bv8>)
    ensures TextOf(Encoded(a, s)) == Spelled(a, ToSextets(OfBytes(s)))
  {
    hide Symbols, ToSextets, OfBytes, Spelled, TextOf;
    SpelledIsText(a, ToSextets(OfBytes(s)));
  }

  lemma TextOfConcat(x: seq<bv8>, y: seq<bv8>)
    ensures TextOf(x + y) == TextOf(x) + TextOf(y)
  {
    hide CharOf;
  }

  lemma PadText(n: nat)
    requires n < 3
    ensures TextOf(Pads(n)) == if n == 0 then "" else if n == 1 then "=" else "=="
  {
    assert CharOf(PAD) == '=';
  }

  /** Two encodings of section 10 of RFC 4648. */
  lemma EncodingsOfF()
    ensures TextOf(EncodeSpec(Standard, [0x66])) == "Zg==" && TextOf(EncodeSpec(UrlSafe, [0x66, 0x6F, 0x6F])) == "Zm9v"
  {
    hide Encoded, EncodeSpec;
    PadsAre();
    SpecIs(Standard, [0x66], 2);
    EncodedOne(Standard, 0x66);
    SpecIs(UrlSafe, [0x66, 0x6F, 0x6F], 0);
    EncodedThree(UrlSafe, 0x66, 0x6F, 0x6F);
  }

  // ---------- Decoding ----------

  lemma InParts(c: char)
    ensures c in UPPER <==> 65 <= c as int <= 90
    ensures c in LOWER <==> 97 <= c as int <= 122
    ensures c in DIGITS <==> 48 <= c as int <= 57
  {
    forall i | 0 <= i < 26 ensures UPPER[i] as int == 65 + i && LOWER[i] as int == 97 + i {
      UpperAt(i);
      LowerAt(i);
    }
    forall i | 0 <= i < 10 ensures DIGITS[i] as int == 48 + i {
      DigitAt(i);
    }
    if 65 <= c as int <= 90 {
      assert c == UPPER[c as int - 65];
    }
    if 97 <= c as int <= 122 {
      assert c == LOWER[c as int - 97];
    }
    if 48 <= c as int <= 57 {
      assert c == DIGITS[c as int - 48];
    }
  }

  lemma InLetters(a: Alphabet, c: char)
    ensures c in Letters(a) <==>
            || 65 <= c as int <= 90 || 97 <= c as int <= 122 || 48 <= c as int <= 57
            || (if a == UrlSafe then c == '-' || c == '_' else c == '+' || c == '/')
  {
    hide UPPER, LOWER, DIGITS;
    LettersAre(a);
    InParts(c);
  }

  /** A character has a value exactly when it is a letter of the alphabet, here a chosen one. */
  lemma ValueOfLetter(a: Alphabet, c: bv8)
    requires a != Auto
    ensures Value(a, c).Some? <==> CharOf(c) in Letters(a)
    ensures Value(a, c).Some? ==> Value(a, c).value.1 == a && LetterOf(a, Value(a, c).value.0) == CharOf(c)
  {
    hide Letters;
    InLetters(a, CharOf(c));
    if Value(a, c).Some? {
      var v := Value(a, c).value.0;
      SymbolIsLetter(a, v);
      assert Symbol(a, v) == c;
    }
  }

  ghost predicate AllIn(text: string, s: seq<bv8>) {
    forall i :: 0 <= i < |s| ==> CharOf(s[i]) in text
  }

  /** A run of characters is read under a chosen alphabet exactly when all are letters of it; what is
      read are their places. */
  lemma {:induction false} ValuesOfLetters(a: Alphabet, s: seq<bv8>)
    requires a != Auto
    ensures Values(a, s).Some? <==> AllIn(Letters(a), s)
    ensures Values(a, s).Some? ==>
              var vals := Values(a, s).value.0;
              Values(a, s).value.1 == a && (forall i :: 0 <= i < |vals| ==> vals[i] < 64) && Spelled(a, vals) == TextOf(s)
  {
    hide Value, Letters, CharOf, LetterOf;
    if s != [] {
      var n := |s| - 1;
      ValuesOfLetters(a, s[..n]);
      ValueOfLetter(a, s[n]);
      assert s == s[..n] + [s[n]];
      if Values(a, s).Some? {
        assert TextOf(s) == TextOf(s[..n]) + [CharOf(s[n])];
      }
    }
  }

  /** k is the place of the first '=', or the end. */
  ghost predicate FirstEquals(s: seq<bv8>, k: nat) {
    && k <= |s|
    && (forall i :: 0 <= i < k ==> CharOf(s[i]) != '=')
    && (k < |s| ==> CharOf(s[k]) == '=')
  }

  lemma FirstEqualsIs(s: seq<bv8>, k: nat)
    requires FirstEquals(s, k)
    ensures FirstPad(s) == k
  {
    forall c: bv8 ensures IsPad(c) <==> CharOf(c) == '=' {
      PadIsEquals(c);
    }
  }

  lemma PadIsEquals(c: bv8)
    ensures IsPad(c) <==> CharOf(c) == '='
  {}

  ghost predicate OnlyEquals(s: seq<bv8>) {
    forall i :: 0 <= i < |s| ==> CharOf(s[i]) == '='
  }

  /** Decoding succeeds exactly when the characters before the first '=' are all letters of the alphabet,
      without a chosen one of either, and, when strict, only '=' follows. */
  lemma DecodesIff(a: Alphabet, s: seq<bv8>, k: nat, loose: bool)
    requires FirstEquals(s, k)
    ensures DecodeSpec(a, s, loose).Some? <==>
            && (loose || OnlyEquals(s[k..]))
            && (if a == Auto then AllIn(STANDARD_TEXT, s[..k]) || AllIn(URL_SAFE_TEXT, s[..k])
                else if a == Standard then AllIn(STANDARD_TEXT, s[..k]) else AllIn(URL_SAFE_TEXT, s[..k]))
  {
    hide Values, FirstPad, ToBytes, OfSextets, STANDARD_TEXT, URL_SAFE_TEXT, CharOf;
    FirstEqualsIs(s, k);
    DetectionIsEither(s, loose);
    ValuesOfLetters(Standard, s[..k]);
    ValuesOfLetters(UrlSafe, s[..k]);
    forall i | k <= i < |s| ensures s[i] == s[k..][i - k] && (IsPad(s[i]) <==> CharOf(s[i]) == '=') {
      PadIsEquals(s[i]);
    }
    assert (forall i :: k <= i < |s| ==> IsPad(s[i])) <==> OnlyEquals(s[k..]) by {
      if OnlyEquals(s[k..]) {
        forall i | k <= i < |s| ensures IsPad(s[i]) {
          assert s[i] == s[k..][i - k];
        }
      }
    }
  }
}
