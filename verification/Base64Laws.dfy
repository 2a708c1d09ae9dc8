/** Encoding, round trips, alphabet detection and sizes of the codec in common/base64.hpp. */
module Base64Laws {
  import opened Basics
  import opened Bits
  import opened Base64

  // ---------- The four values of a group of three bytes ----------

  function First(i0: bv8): (v: bv8)
    ensures v < 64
  {
    (i0 >> 2) & 0x3F
  }

  function Second(i0: bv8, i1: bv8): (v: bv8)
    ensures v < 64
  {
    ((i0 & 3) << 4) | ((i1 >> 4) & 0xF)
  }

  function Third(i1: bv8, i2: bv8): (v: bv8)
    ensures v < 64
  {
    ((i1 & 0xF) << 2) | ((i2 >> 6) & 3)
  }

  function Fourth(i2: bv8): (v: bv8)
    ensures v < 64
  {
    i2 & 0x3F
  }

  lemma FirstWiring(i0: bv8, v: bv8)
    requires v == First(i0)
    ensures (v & 0x20 != 0) == (i0 & 0x80 != 0)
    ensures (v & 0x10 != 0) == (i0 & 0x40 != 0)
    ensures (v & 0x8 != 0) == (i0 & 0x20 != 0)
    ensures (v & 0x4 != 0) == (i0 & 0x10 != 0)
    ensures (v & 0x2 != 0) == (i0 & 0x8 != 0)
    ensures (v & 0x1 != 0) == (i0 & 0x4 != 0)
  {}

  lemma FirstBits(i0: bv8)
    ensures Bits6(First(i0)) == [Bits8(i0)[0], Bits8(i0)[1], Bits8(i0)[2], Bits8(i0)[3], Bits8(i0)[4], Bits8(i0)[5]]
  {
    FirstWiring(i0, First(i0));
    hide First;
  }

  lemma SecondWiring(i0: bv8, i1: bv8, v: bv8)
    requires v == Second(i0, i1)
    ensures (v & 0x20 != 0) == (i0 & 0x2 != 0)
    ensures (v & 0x10 != 0) == (i0 & 0x1 != 0)
    ensures (v & 0x8 != 0) == (i1 & 0x80 != 0)
    ensures (v & 0x4 != 0) == (i1 & 0x40 != 0)
    ensures (v & 0x2 != 0) == (i1 & 0x20 != 0)
    ensures (v & 0x1 != 0) == (i1 & 0x10 != 0)
  {}

  lemma SecondBits(i0: bv8, i1: bv8)
    ensures Bits6(Second(i0, i1)) == [Bits8(i0)[6], Bits8(i0)[7], Bits8(i1)[0], Bits8(i1)[1], Bits8(i1)[2], Bits8(i1)[3]]
  {
    SecondWiring(i0, i1, Second(i0, i1));
    hide Second;
  }

  lemma ThirdWiring(i1: bv8, i2: bv8, v: bv8)
    requires v == Third(i1, i2)
    ensures (v & 0x20 != 0) == (i1 & 0x8 != 0)
    ensures (v & 0x10 != 0) == (i1 & 0x4 != 0)
    ensures (v & 0x8 != 0) == (i1 & 0x2 != 0)
    ensures (v & 0x4 != 0) == (i1 & 0x1 != 0)
    ensures (v & 0x2 != 0) == (i2 & 0x80 != 0)
    ensures (v & 0x1 != 0) == (i2 & 0x40 != 0)
  {}

  lemma ThirdBits(i1: bv8, i2: bv8)
    ensures Bits6(Third(i1, i2)) == [Bits8(i1)[4], Bits8(i1)[5], Bits8(i1)[6], Bits8(i1)[7], Bits8(i2)[0], Bits8(i2)[1]]
  {
    ThirdWiring(i1, i2, Third(i1, i2));
    hide Third;
  }

  lemma FourthWiring(i2: bv8, v: bv8)
    requires v == Fourth(i2)
    ensures (v & 0x20 != 0) == (i2 & 0x20 != 0)
    ensures (v & 0x10 != 0) == (i2 & 0x10 != 0)
    ensures (v & 0x8 != 0) == (i2 & 0x8 != 0)
    ensures (v & 0x4 != 0) == (i2 & 0x4 != 0)
    ensures (v & 0x2 != 0) == (i2 & 0x2 != 0)
    ensures (v & 0x1 != 0) == (i2 & 0x1 != 0)
  {}

  lemma FourthBits(i2: bv8)
    ensures Bits6(Fourth(i2)) == [Bits8(i2)[2], Bits8(i2)[3], Bits8(i2)[4], Bits8(i2)[5], Bits8(i2)[6], Bits8(i2)[7]]
  {
    FourthWiring(i2, Fourth(i2));
    hide Fourth;
  }

  lemma SextetOfBits(v: bv8)
    requires v < 64
    ensures Sextet(Bits6(v)) == v
  {}

  /** A whole 6-bit group at the front is cut off first. */
  lemma CutFirst(v: bv8, bits: Bits, rest: Bits)
    requires v < 64 && bits == Bits6(v) + rest
    ensures ToSextets(bits) == [v] + ToSextets(rest)
  {
    SextetOfBits(v);
    assert bits[..6] == Bits6(v) && bits[6..] == rest;
  }

  /** A last incomplete group is filled with zeros. */
  lemma CutLast(v: bv8, bits: Bits)
    requires v < 64 && 0 < |bits| < 6 && bits + Zeros(6 - |bits|) == Bits6(v)
    ensures ToSextets(bits) == [v]
  {
    SextetOfBits(v);
  }

  lemma ZeroBits(n: nat)
    requires n <= 8
    ensures Bits8(0)[..n] == Zeros(n)
  {}

  lemma ThreeBytes(x: Bits, y: Bits, z: Bits)
    requires |x| == |y| == |z| == 8
    ensures x + y + z == [x[0], x[1], x[2], x[3], x[4], x[5]] + ([x[6], x[7], y[0], y[1], y[2], y[3]]
              + ([y[4], y[5], y[6], y[7], z[0], z[1]] + [z[2], z[3], z[4], z[5], z[6], z[7]]))
  {}

  lemma TwoBytes(x: Bits, y: Bits)
    requires |x| == |y| == 8
    ensures x + y == [x[0], x[1], x[2], x[3], x[4], x[5]] + ([x[6], x[7], y[0], y[1], y[2], y[3]] + y[4..])
  {}

  /** The groups of three, two and one bytes. */
  lemma CutThree(a: bv8, b: bv8, c: bv8)
    ensures ToSextets(Bits8(a) + Bits8(b) + Bits8(c)) == [First(a), Second(a, b), Third(b, c), Fourth(c)]
  {
    hide Bits6, Bits8, First, Second, Third, Fourth, Zeros;
    FirstBits(a);
    SecondBits(a, b);
    ThirdBits(b, c);
    FourthBits(c);
    ThreeBytes(Bits8(a), Bits8(b), Bits8(c));
    hide ToSextets;
    FourSextets(First(a), Second(a, b), Third(b, c), Fourth(c));
  }

  lemma FourSextets(v1: bv8, v2: bv8, v3: bv8, v4: bv8)
    requires v1 < 64 && v2 < 64 && v3 < 64 && v4 < 64
    ensures ToSextets(Bits6(v1) + (Bits6(v2) + (Bits6(v3) + Bits6(v4)))) == [v1, v2, v3, v4]
  {
    hide Bits6, Zeros;
    var b1, b2, b3, b4 := Bits6(v1), Bits6(v2), Bits6(v3), Bits6(v4);
    var none: Bits := [];
    assert ToSextets(none) == [] && b4 == b4 + none;
    hide ToSextets;
    CutFirst(v4, b4, none);
    CutFirst(v3, b3 + b4, b4);
    CutFirst(v2, b2 + (b3 + b4), b3 + b4);
    CutFirst(v1, b1 + (b2 + (b3 + b4)), b2 + (b3 + b4));
  }

  lemma CutTwo(a: bv8, b: bv8)
    ensures ToSextets(Bits8(a) + Bits8(b)) == [First(a), Second(a, b), Third(b, 0)]
  {
    hide Bits6, Bits8, First, Second, Third, Zeros, ToSextets;
    FirstBits(a);
    SecondBits(a, b);
    ThirdBits(b, 0);
    ZeroBits(2);
    TwoBytes(Bits8(a), Bits8(b));
    var b1, b2, rest := Bits6(First(a)), Bits6(Second(a, b)), Bits8(b)[4..];
    CutLast(Third(b, 0), rest);
    CutFirst(Second(a, b), b2 + rest, rest);
    CutFirst(First(a), b1 + (b2 + rest), b2 + rest);
  }

  lemma CutOne(a: bv8)
    ensures ToSextets(Bits8(a)) == [First(a), Second(a, 0)]
  {
    hide Bits6, Bits8, First, Second, Zeros;
    FirstBits(a);
    SecondBits(a, 0);
    ZeroBits(4);
    CutLast(Second(a, 0), Bits8(a)[6..]);
    CutFirst(First(a), Bits8(a), Bits8(a)[6..]);
  }

  // ---------- Encoder ----------

  /** The encoding of s[..i], for whole groups only. */
  ghost function Encoded(a: Alphabet, s: seq<bv8>): seq<bv8> {
    Symbols(a, ToSextets(OfBytes(s)))
  }

  lemma SymbolsConcat(a: Alphabet, x: seq<bv8>, y: seq<bv8>)
    requires forall i :: 0 <= i < |x| ==> x[i] < 64
    requires forall i :: 0 <= i < |y| ==> y[i] < 64
    ensures Symbols(a, x + y) == Symbols(a, x) + Symbols(a, y)
  {
    hide Symbol;
  }

  lemma EncodedConcat(a: Alphabet, x: seq<bv8>, y: seq<bv8>)
    requires |x| % 3 == 0
    ensures Encoded(a, x + y) == Encoded(a, x) + Encoded(a, y)
  {
    EightThirds(|x|);
    hide OfBytes, ToSextets, Symbols, Symbol;
    OfBytesConcat(x, y);
    ToSextetsConcat(OfBytes(x), OfBytes(y));
    SymbolsConcat(a, ToSextets(OfBytes(x)), ToSextets(OfBytes(y)));
  }

  lemma EncodedNext(a: Alphabet, s: seq<bv8>, i: nat, n: nat)
    requires i % 3 == 0 && i + n <= |s|
    ensures Encoded(a, s[..i + n]) == Encoded(a, s[..i]) + Encoded(a, s[i..i + n])
  {
    assert s[..i + n] == s[..i] + s[i..i + n];
    EncodedConcat(a, s[..i], s[i..i + n]);
  }

  lemma EncodedThree(a: Alphabet, x: bv8, y: bv8, z: bv8)
    ensures Encoded(a, [x, y, z]) == [Symbol(a, First(x)), Symbol(a, Second(x, y)), Symbol(a, Third(y, z)), Symbol(a, Fourth(z))]
  {
    hide Bits8, First, Second, Third, Fourth, ToSextets, Symbol, OfBytes;
    assert [x, y, z] == [x] + [y] + [z];
    OfBytesConcat([x] + [y], [z]);
    OfBytesConcat([x], [y]);
    OneByte(x);
    OneByte(y);
    OneByte(z);
    CutThree(x, y, z);
  }

  lemma EncodedTwo(a: Alphabet, x: bv8, y: bv8)
    ensures Encoded(a, [x, y]) == [Symbol(a, First(x)), Symbol(a, Second(x, y)), Symbol(a, Third(y, 0))]
  {
    hide Bits8, First, Second, Third, ToSextets, Symbol, OfBytes;
    assert [x, y] == [x] + [y];
    OfBytesConcat([x], [y]);
    OneByte(x);
    OneByte(y);
    CutTwo(x, y);
  }

  lemma EncodedOne(a: Alphabet, x: bv8)
    ensures Encoded(a, [x]) == [Symbol(a, First(x)), Symbol(a, Second(x, 0))]
  {
    hide Bits8, First, Second, ToSextets, Symbol, OfBytes;
    OneByte(x);
    CutOne(x);
  }

  /** What one whole group adds to the encoding. */
  lemma WholeGroup(a: Alphabet, s: seq<bv8>, i: nat)
    requires i % 3 == 0 && i + 3 <= |s|
    ensures Encoded(a, s[..i + 3]) == Encoded(a, s[..i])
              + [Symbol(a, First(s[i])), Symbol(a, Second(s[i], s[i + 1])), Symbol(a, Third(s[i + 1], s[i + 2])), Symbol(a, Fourth(s[i + 2]))]
  {
    hide *;
    assert s[i..i + 3] == [s[i], s[i + 1], s[i + 2]];
    EncodedThree(a, s[i], s[i + 1], s[i + 2]);
    EncodedNext(a, s, i, 3);
  }

  lemma SpecIs(a: Alphabet, s: seq<bv8>, pads: nat)
    requires pads < 3 && (|s| + pads) % 3 == 0
    ensures EncodeSpec(a, s) == Encoded(a, s) + Pads(pads)
  {
    hide Symbols, ToSextets, OfBytes, Pads;
    PadCount(|s|, pads);
  }

  lemma PadCount(n: nat, pads: nat)
    requires pads < 3 && (n + pads) % 3 == 0
    ensures pads == if n % 3 == 0 then 0 else 3 - n % 3
  {
  }

  lemma PadsAre()
    ensures Pads(0) == [] && Pads(1) == [PAD] && Pads(2) == [PAD, PAD]
  {}

  /** What the encoder's loop writes from position i on: three bytes at a time, with the two
      early exits that pad. */
  function EncodeFrom(a: Alphabet, s: seq<bv8>, i: nat): seq<bv8>
    requires i <= |s|
    decreases |s| - i
  {
    if i == |s| then []
    else if i + 1 == |s| then [Symbol(a, First(s[i])), Symbol(a, Second(s[i], 0)), PAD, PAD]
    else if i + 2 == |s| then [Symbol(a, First(s[i])), Symbol(a, Second(s[i], s[i + 1])), Symbol(a, Third(s[i + 1], 0)), PAD]
    else
      [Symbol(a, First(s[i])), Symbol(a, Second(s[i], s[i + 1])), Symbol(a, Third(s[i + 1], s[i + 2])), Symbol(a, Fourth(s[i + 2]))]
      + EncodeFrom(a, s, i + 3)
  }

  /** The last, padded group of two bytes, of one, or of none. */
  lemma LastGroup(a: Alphabet, s: seq<bv8>, i: nat)
    requires i % 3 == 0 && i <= |s| < i + 3
    ensures Encoded(a, s[..i]) + EncodeFrom(a, s, i) == EncodeSpec(a, s)
  {
    hide Encoded, EncodeSpec, First, Second, Third, Symbol, Pads;
    PadsAre();
    var n := |s| - i;
    EncodedNext(a, s, i, n);
    assert s[..i + n] == s;
    if n == 0 {
      SpecIs(a, s, 0);
    } else if n == 1 {
      assert s[i..i + 1] == [s[i]];
      EncodedOne(a, s[i]);
      SpecIs(a, s, 2);
      Regroup(Encoded(a, s[..i]), Encoded(a, [s[i]]), [PAD, PAD]);
    } else {
      assert s[i..i + 2] == [s[i], s[i + 1]];
      EncodedTwo(a, s[i], s[i + 1]);
      SpecIs(a, s, 1);
      Regroup(Encoded(a, s[..i]), Encoded(a, [s[i], s[i + 1]]), [PAD]);
    }
  }

  /** The encoder's loop refines the bit-string specification. */
  lemma {:induction false} EncodeFromIsSpec(a: Alphabet, s: seq<bv8>, i: nat)
    requires i % 3 == 0 && i <= |s|
    ensures Encoded(a, s[..i]) + EncodeFrom(a, s, i) == EncodeSpec(a, s)
    decreases |s| - i
  {
    hide Encoded, EncodeSpec, First, Second, Third, Fourth, Symbol;
    if |s| < i + 3 {
      LastGroup(a, s, i);
    } else {
      WholeGroup(a, s, i);
      EncodeFromIsSpec(a, s, i + 3);
      var group := [Symbol(a, First(s[i])), Symbol(a, Second(s[i], s[i + 1])), Symbol(a, Third(s[i + 1], s[i + 2])), Symbol(a, Fourth(s[i + 2]))];
      Regroup(Encoded(a, s[..i]), group, EncodeFrom(a, s, i + 3));
    }
  }

  lemma EncodeAll(a: Alphabet, s: seq<bv8>)
    ensures EncodeFrom(a, s, 0) == EncodeSpec(a, s)
  {
    EncodeFromIsSpec(a, s, 0);
    assert Encoded(a, s[..0]) == [];
  }

  lemma EncodeGroup(a: Alphabet, s: seq<bv8>, i: nat)
    requires i + 3 <= |s|
    ensures EncodeFrom(a, s, i) ==
            [Symbol(a, First(s[i])), Symbol(a, Second(s[i], s[i + 1])), Symbol(a, Third(s[i + 1], s[i + 2])), Symbol(a, Fourth(s[i + 2]))]
            + EncodeFrom(a, s, i + 3)
  {
    hide First, Second, Third, Fourth, Symbol;
  }

  lemma EncodeEnd(a: Alphabet, s: seq<bv8>, i: nat)
    requires i <= |s| < i + 3
    ensures EncodeFrom(a, s, i) ==
            if |s| == i then []
            else if |s| == i + 1 then [Symbol(a, First(s[i])), Symbol(a, Second(s[i], 0)), PAD, PAD]
            else [Symbol(a, First(s[i])), Symbol(a, Second(s[i], s[i + 1])), Symbol(a, Third(s[i + 1], 0)), PAD]
  {
    hide First, Second, Third, Fourth, Symbol;
  }

  /** `encode`. */
  method Encode(s: seq<bv8>, alphabet: Alphabet) returns (out: seq<bv8>)
    ensures out == EncodeSpec(alphabet, s)
  {
    EncodeAll(alphabet, s);
    hide First, Second, Third, Fourth, Symbol, EncodeSpec, EncodeFrom;
    out := [];
    var i := 0;
    while i < |s|
      invariant 0 <= i <= |s|
      invariant out + EncodeFrom(alphabet, s, i) == EncodeFrom(alphabet, s, 0)
    {
      ghost var done, start := out, i;
      var i0 := s[i];
      var c0 := Symbol(alphabet, First(i0));
      i := i + 1;
      if i == |s| {
        EncodeEnd(alphabet, s, start);
        out := out + [c0, Symbol(alphabet, Second(i0, 0)), PAD, PAD];
        return;
      }
      var i1 := s[i];
      var c1 := Symbol(alphabet, Second(i0, i1));
      i := i + 1;
      if i == |s| {
        EncodeEnd(alphabet, s, start);
        out := out + [c0, c1, Symbol(alphabet, Third(i1, 0)), PAD];
        return;
      }
      var i2 := s[i];
      i := i + 1;
      var group := [c0, c1, Symbol(alphabet, Third(i1, i2)), Symbol(alphabet, Fourth(i2))];
      out := out + group;
      EncodeGroup(alphabet, s, start);
      Regroup(done, group, EncodeFrom(alphabet, s, i));
    }
    EncodeEnd(alphabet, s, i);
  }

  // ---------- Round trip ----------

  lemma ValueOfSymbol(a: Alphabet, now: Alphabet, v: bv8)
    requires v < 64
    requires now == a || now == Auto || (a == Auto && now == Standard)
    ensures Value(now, Symbol(a, v)).Some? && Value(now, Symbol(a, v)).value.0 == v && !IsPad(Symbol(a, v))
    ensures var next := Value(now, Symbol(a, v)).value.1; next == a || next == Auto || (a == Auto && next == Standard)
  {}

  /** Characters written in one alphabet are read back under it or under detection. */
  lemma {:induction false} ValuesOfSymbols(a: Alphabet, start: Alphabet, vals: seq<bv8>)
    requires forall i :: 0 <= i < |vals| ==> vals[i] < 64
    requires start == a || start == Auto
    ensures var r := Values(start, Symbols(a, vals));
            && r.Some? && r.value.0 == vals
            && (r.value.1 == a || r.value.1 == Auto || (a == Auto && r.value.1 == Standard))
  {
    hide Value, Symbol;
    var n := |vals| - 1;
    if n >= 0 {
      var cs := Symbols(a, vals);
      ValuesOfSymbols(a, start, vals[..n]);
      assert cs[..n] == Symbols(a, vals[..n]);
      ValueOfSymbol(a, Values(start, cs[..n]).value.1, vals[n]);
      assert vals == vals[..n] + [vals[n]];
    }
  }

  lemma PadPosition(cs: seq<bv8>, pads: seq<bv8>)
    requires forall i :: 0 <= i < |cs| ==> !IsPad(cs[i])
    requires forall i :: 0 <= i < |pads| ==> IsPad(pads[i])
    ensures FirstPad(cs + pads) == |cs|
    ensures forall i :: |cs| <= i < |cs + pads| ==> IsPad((cs + pads)[i])
  {
    hide IsPad;
    var all := cs + pads;
    assert forall i :: 0 <= i < |cs| ==> all[i] == cs[i];
    assert forall i :: |cs| <= i < |all| ==> all[i] == pads[i - |cs|];
    assert forall i :: 0 <= i < |cs| ==> !IsPad(all[i]);
    assert |cs| < |all| ==> IsPad(all[|cs|]);
  }

  /** Decoding undoes encoding for every byte string, strictly or loosely, under the alphabet
      it was encoded with and under detection. */
  lemma DecodeUndoesEncode(a: Alphabet, start: Alphabet, s: seq<bv8>, loose: bool)
    requires start == a || start == Auto
    ensures DecodeSpec(start, EncodeSpec(a, s), loose) == Some(s)
  {
    hide OfBytes, ToBytes, OfSextets, ToSextets, Symbol, Value, Values, IsPad, FirstPad;
    var vals := ToSextets(OfBytes(s));
    var cs, pads := Symbols(a, vals), Pads(if |s| % 3 == 0 then 0 else 3 - |s| % 3);
    forall i | 0 <= i < |cs| ensures !IsPad(cs[i]) {
      ValueOfSymbol(a, a, vals[i]);
    }
    PadPosition(cs, pads);
    assert (cs + pads)[..|cs|] == cs;
    ValuesOfSymbols(a, start, vals);
    SextetsBack(OfBytes(s));
    BytesBack(s, Zeros(Fill(|OfBytes(s)|)));
  }

  // ---------- Alphabet detection ----------

  lemma {:induction false} DetectedValues(s: seq<bv8>)
    ensures var r, x, y := Values(Auto, s), Values(Standard, s), Values(UrlSafe, s);
            match r
            case None => x.None? && y.None?
            case Some((vals, now)) =>
              && (now != UrlSafe ==> x == Some((vals, Standard)))
              && (now != Standard ==> y == Some((vals, UrlSafe)))
              && (now == UrlSafe ==> x.None?)
              && (now == Standard ==> y.None?)
  {
    if s != [] {
      DetectedValues(s[..|s| - 1]);
    }
  }

  /** Detection succeeds exactly when one of the two fixed alphabets does, with its result. */
  lemma DetectionIsEither(s: seq<bv8>, loose: bool)
    ensures var r, x, y := DecodeSpec(Auto, s, loose), DecodeSpec(Standard, s, loose), DecodeSpec(UrlSafe, s, loose);
            && (r.Some? <==> x.Some? || y.Some?)
            && (x.Some? ==> r == x)
            && (y.Some? ==> r == y)
  {
    hide Values, ToBytes, OfSextets, FirstPad, IsPad;
    DetectedValues(s[..FirstPad(s)]);
  }

  // ---------- Sizes ----------

  function RequiredEncodeSize(size: nat): nat {
    (size / 3 + (if size % 3 != 0 then 1 else 0)) * 4
  }

  function MaxDecodeSize(size: nat): nat {
    (size / 4 + (if size % 4 != 0 then 1 else 0)) * 3
  }

  /** The encoded length is exactly the announced one. */
  lemma EncodedSize(a: Alphabet, s: seq<bv8>)
    ensures |EncodeSpec(a, s)| == RequiredEncodeSize(|s|)
  {
    hide OfBytes, ToSextets, Symbols;
    var vals := ToSextets(OfBytes(s));
    assert |vals| == (8 * |s| + 5) / 6;
    GroupCount(|s|);
  }

  lemma GroupCount(n: nat)
    ensures (8 * n + 5) / 6 + (if n % 3 == 0 then 0 else 3 - n % 3) == RequiredEncodeSize(n)
  {
    var q, r := n / 3, n % 3;
    assert n == 3 * q + r;
    assert (8 * n + 5) / 6 == 4 * q + (8 * r + 5) / 6;
  }

  /** The decoded length is three quarters, rounded down, of the symbols before the first '='. */
  lemma DecodedSize(a: Alphabet, s: seq<bv8>, loose: bool)
    ensures var r := DecodeSpec(a, s, loose);
            r.Some? ==> |r.value| == 3 * FirstPad(s) / 4 <= MaxDecodeSize(|s|)
  {
    hide OfSextets, ToBytes, Values, FirstPad;
    var k := FirstPad(s);
    assert (6 * k) / 8 == 3 * k / 4;
    assert 3 * k / 4 <= 3 * |s| / 4 <= MaxDecodeSize(|s|);
  }
}
