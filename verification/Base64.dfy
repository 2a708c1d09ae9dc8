/**
  The Base64 codec of common/base64.hpp (sections 4 and 5 of RFC 4648), proved against a
  bit-string specification. Characters and bytes are both 8-bit values, as in the in-place
  decoder; a thrown `base64_error` is None.
 */
module Base64 {
  import opened Basics
  import opened Bits

  datatype Alphabet = Auto | Standard | UrlSafe

  const PAD: bv8 := 0x3D

  predicate IsPad(c: bv8) {
    c == PAD
  }

  predicate IsSextet(v: bv8) {
    v < 64
  }

  /** The character of a 6-bit value. Encoding with `Auto` uses the standard alphabet. */
  function Symbol(a: Alphabet, v: bv8): bv8
    requires v < 64
  {
    if v < 26 then v + 0x41
    else if v < 52 then v - 26 + 0x61
    else if v < 62 then v - 52 + 0x30
    else if v == 62 then (if a == UrlSafe then 0x2D else 0x2B)
    else (if a == UrlSafe then 0x5F else 0x2F)
  }

  /** `_base64_value`: the 6-bit value of a character and the alphabet from then on. */
  function Value(a: Alphabet, c: bv8): (r: Option<(bv8, Alphabet)>)
    ensures r.Some? ==> IsSextet(r.value.0)
  {
    if 0x41 <= c <= 0x5A then Some((c - 0x41, a))
    else if 0x61 <= c <= 0x7A then Some((c - 0x61 + 26, a))
    else if 0x30 <= c <= 0x39 then Some((c - 0x30 + 52, a))
    else if a != UrlSafe && c == 0x2B then Some((62, Standard))
    else if a != UrlSafe && c == 0x2F then Some((63, Standard))
    else if a != Standard && c == 0x2D then Some((62, UrlSafe))
    else if a != Standard && c == 0x5F then Some((63, UrlSafe))
    else None
  }

  /** The values of a run of characters, the alphabet latching on the first telling one. */
  function Values(a: Alphabet, s: seq<bv8>): (r: Option<(seq<bv8>, Alphabet)>)
    ensures r.Some? ==> |r.value.0| == |s|
  {
    if s == [] then Some(([], a))
    else
      match Values(a, s[..|s| - 1])
      case None => None
      case Some((vals, now)) =>
        match Value(now, s[|s| - 1])
        case None => None
        case Some((v, next)) => Some((vals + [v], next))
  }

  /** Position of the first '=' at or after `from`, or the end. */
  function FirstPad(s: seq<bv8>, from: nat := 0): (k: nat)
    requires from <= |s|
    ensures from <= k <= |s| && (k < |s| ==> IsPad(s[k]))
    ensures forall i :: from <= i < k ==> !IsPad(s[i])
    decreases |s| - from
  {
    if from == |s| || IsPad(s[from]) then from else FirstPad(s, from + 1)
  }

  /** Decoding as the standard describes it: the values before the first '=' are
      concatenated as 6-bit groups and cut into bytes; strict decoding allows only '=' after. */
  function DecodeSpec(a: Alphabet, s: seq<bv8>, loose: bool): Option<seq<bv8>> {
    var k := FirstPad(s);
    match Values(a, s[..k])
    case None => None
    case Some((vals, _)) =>
      if loose || (forall i :: k <= i < |s| ==> IsPad(s[i])) then Some(ToBytes(OfSextets(vals))) else None
  }

  function Symbols(a: Alphabet, vals: seq<bv8>): (r: seq<bv8>)
    requires forall i :: 0 <= i < |vals| ==> vals[i] < 64
    ensures |r| == |vals|
    ensures forall i :: 0 <= i < |vals| ==> r[i] == Symbol(a, vals[i])
  {
    seq(|vals|, i requires 0 <= i < |vals| => Symbol(a, vals[i]))
  }

  function Pads(n: nat): (r: seq<bv8>)
    ensures |r| == n && forall i :: 0 <= i < n ==> IsPad(r[i])
  {
    seq(n, _ => PAD)
  }

  /** Encoding as the standard describes it: the bits in 6-bit groups, the last one filled
      with zeros, then '=' up to a multiple of four. */
  function EncodeSpec(a: Alphabet, s: seq<bv8>): seq<bv8> {
    Symbols(a, ToSextets(OfBytes(s))) + Pads(if |s| % 3 == 0 then 0 else 3 - |s| % 3)
  }

  // ---------- Decoder ----------

  /** The byte assembled from the pending low bits of `last` and the high bits of `part`. */
  function Assemble(last: bv8, part: bv8, bits: nat): bv8
    requires 2 <= bits <= 6
  {
    (last << (8 - bits)) | (part >> (bits - 2))
  }

  lemma Wiring2(last: bv8, part: bv8, b: bv8)
    requires b == (last << 6) | part && part < 64
    ensures (b & 0x80 != 0) == (last & 0x2 != 0)
    ensures (b & 0x40 != 0) == (last & 0x1 != 0)
    ensures (b & 0x20 != 0) == (part & 0x20 != 0)
    ensures (b & 0x10 != 0) == (part & 0x10 != 0)
    ensures (b & 0x8 != 0) == (part & 0x8 != 0)
    ensures (b & 0x4 != 0) == (part & 0x4 != 0)
    ensures (b & 0x2 != 0) == (part & 0x2 != 0)
    ensures (b & 0x1 != 0) == (part & 0x1 != 0)
  {}

  lemma Wiring4(last: bv8, part: bv8, b: bv8)
    requires b == (last << 4) | (part >> 2) && part < 64
    ensures (b & 0x80 != 0) == (last & 0x8 != 0)
    ensures (b & 0x40 != 0) == (last & 0x4 != 0)
    ensures (b & 0x20 != 0) == (last & 0x2 != 0)
    ensures (b & 0x10 != 0) == (last & 0x1 != 0)
    ensures (b & 0x8 != 0) == (part & 0x20 != 0)
    ensures (b & 0x4 != 0) == (part & 0x10 != 0)
    ensures (b & 0x2 != 0) == (part & 0x8 != 0)
    ensures (b & 0x1 != 0) == (part & 0x4 != 0)
  {}

  lemma Wiring6(last: bv8, part: bv8, b: bv8)
    requires b == (last << 2) | (part >> 4) && last < 64 && part < 64
    ensures (b & 0x80 != 0) == (last & 0x20 != 0)
    ensures (b & 0x40 != 0) == (last & 0x10 != 0)
    ensures (b & 0x20 != 0) == (last & 0x8 != 0)
    ensures (b & 0x10 != 0) == (last & 0x4 != 0)
    ensures (b & 0x8 != 0) == (last & 0x2 != 0)
    ensures (b & 0x4 != 0) == (last & 0x1 != 0)
    ensures (b & 0x2 != 0) == (part & 0x20 != 0)
    ensures (b & 0x1 != 0) == (part & 0x10 != 0)
  {}

  lemma AssembleCases(last: bv8, part: bv8)
    ensures Assemble(last, part, 2) == (last << 6) | part
    ensures Assemble(last, part, 4) == (last << 4) | (part >> 2)
    ensures Assemble(last, part, 6) == (last << 2) | (part >> 4)
  {}

  lemma Assembled2(last: bv8, part: bv8)
    requires last < 64 && part < 64
    ensures var x, y := Bits6(last), Bits6(part);
            Bits8(Assemble(last, part, 2)) == [x[4], x[5], y[0], y[1], y[2], y[3], y[4], y[5]]
  {
    var b := Assemble(last, part, 2);
    AssembleCases(last, part);
    Wiring2(last, part, b);
    hide Assemble;
  }

  lemma Assembled4(last: bv8, part: bv8)
    requires last < 64 && part < 64
    ensures var x, y := Bits6(last), Bits6(part);
            Bits8(Assemble(last, part, 4)) == [x[2], x[3], x[4], x[5], y[0], y[1], y[2], y[3]]
  {
    var b := Assemble(last, part, 4);
    AssembleCases(last, part);
    Wiring4(last, part, b);
    hide Assemble;
  }

  lemma Assembled6(last: bv8, part: bv8)
    requires last < 64 && part < 64
    ensures var x, y := Bits6(last), Bits6(part);
            Bits8(Assemble(last, part, 6)) == [x[0], x[1], x[2], x[3], x[4], x[5], y[0], y[1]]
  {
    var b := Assemble(last, part, 6);
    AssembleCases(last, part);
    Wiring6(last, part, b);
    hide Assemble;
  }

  /** The assembled byte takes the pending bits and the next ones, in order. */
  lemma AssembleBits(last: bv8, part: bv8, bits: nat)
    requires bits == 2 || bits == 4 || bits == 6
    requires last < 64 && part < 64
    ensures Low(last, bits) + Bits6(part) == Bits8(Assemble(last, part, bits)) + Low(part, bits - 2)
  {
    hide Bits6, Bits8, Assemble;
    if bits == 2 {
      Assembled2(last, part);
    } else if bits == 4 {
      Assembled4(last, part);
    } else {
      Assembled6(last, part);
    }
  }

  /** What the decoder has consumed is what it has written and the pending bits. */
  ghost predicate Accumulated(vals: seq<bv8>, out: seq<bv8>, last: bv8, bits: nat) {
    && (bits == 0 || bits == 2 || bits == 4 || bits == 6)
    && IsSextet(last)
    && OfSextets(vals) == OfBytes(out) + Low(last, bits)
  }

  lemma AccumulateWrite(vals: seq<bv8>, out: seq<bv8>, last: bv8, bits: nat, part: bv8)
    requires Accumulated(vals, out, last, bits) && bits >= 2 && IsSextet(part)
    ensures Accumulated(vals + [part], out + [Assemble(last, part, bits)], part, bits - 2)
  {
    hide Assemble, Bits8, Bits6, Low, OfSextets, OfBytes;
    var b := Assemble(last, part, bits);
    OfSextetsConcat(vals, [part]);
    OneSextet(part);
    OfBytesConcat(out, [b]);
    OneByte(b);
    AssembleBits(last, part, bits);
    Regroup(OfBytes(out), Low(last, bits), Bits6(part));
    Regroup(OfBytes(out), Bits8(b), Low(part, bits - 2));
  }

  lemma AccumulateHold(vals: seq<bv8>, out: seq<bv8>, last: bv8, part: bv8)
    requires Accumulated(vals, out, last, 0) && IsSextet(part)
    ensures Accumulated(vals + [part], out, part, 6)
  {
    hide Bits6, OfSextets, OfBytes;
    OfSextetsConcat(vals, [part]);
    OneSextet(part);
    assert Low(last, 0) == [] && Low(part, 6) == Bits6(part);
  }

  lemma AccumulatedBytes(vals: seq<bv8>, out: seq<bv8>, last: bv8, bits: nat)
    requires Accumulated(vals, out, last, bits)
    ensures bits == 0 || bits == 2 || bits == 4 || bits == 6
    ensures ToBytes(OfSextets(vals)) == out
    ensures 6 * |vals| == 8 * |out| + bits
  {
    BytesBack(out, Low(last, bits));
  }

  lemma ValuesNext(a: Alphabet, s: seq<bv8>, i: nat)
    requires i < |s|
    ensures Values(a, s[..i + 1]) ==
              match Values(a, s[..i])
              case None => None
              case Some((vals, now)) =>
                match Value(now, s[i])
                case None => None
                case Some((v, next)) => Some((vals + [v], next))
  {
    assert s[..i + 1][..i] == s[..i] && s[..i + 1][i] == s[i];
  }

  lemma {:induction false} ValuesFail(a: Alphabet, s: seq<bv8>, i: nat, j: nat)
    requires i <= j <= |s| && Values(a, s[..i]).None?
    ensures Values(a, s[..j]).None?
    decreases j - i
  {
    if i < j {
      ValuesNext(a, s, i);
      ValuesFail(a, s, i + 1, j);
    }
  }

  lemma AccumulatedStart()
    ensures Accumulated([], [], 0, 0)
  {}

  /** What the first loop of `decode` does from a given state: the bit accumulator. The
      result is the bytes written and the position of the first '='. */
  function Accumulate(s: seq<bv8>, i: nat, last: bv8, bits: nat, now: Alphabet, out: seq<bv8>): Option<(seq<bv8>, nat)>
    requires i <= |s| && bits <= 6 && bits % 2 == 0
    decreases |s| - i
  {
    if i == |s| || IsPad(s[i]) then Some((out, i))
    else
      match Value(now, s[i])
      case None => None
      case Some((part, next)) =>
        if bits + 6 >= 8 then Accumulate(s, i + 1, part, bits - 2, next, out + [Assemble(last, part, bits)])
        else Accumulate(s, i + 1, part, bits + 6, next, out)
  }

  lemma AccumulateNext(s: seq<bv8>, i: nat, last: bv8, bits: nat, now: Alphabet, out: seq<bv8>)
    requires i < |s| && !IsPad(s[i]) && bits <= 6 && bits % 2 == 0
    ensures Accumulate(s, i, last, bits, now, out) ==
            match Value(now, s[i])
            case None => None
            case Some((part, next)) =>
              if bits + 6 >= 8 then Accumulate(s, i + 1, part, bits - 2, next, out + [Assemble(last, part, bits)])
              else Accumulate(s, i + 1, part, bits + 6, next, out)
  {
    hide Value, IsPad, Assemble;
  }

  lemma AccumulateDone(s: seq<bv8>, i: nat, last: bv8, bits: nat, now: Alphabet, out: seq<bv8>)
    requires i <= |s| && (i == |s| || IsPad(s[i])) && bits <= 6 && bits % 2 == 0
    ensures Accumulate(s, i, last, bits, now, out) == Some((out, i))
  {
    hide Value, IsPad, Assemble;
  }

  /** The result the specification prescribes for that loop. */
  ghost function SymbolBytes(a: Alphabet, s: seq<bv8>): Option<(seq<bv8>, nat)> {
    match Values(a, s[..FirstPad(s)])
    case None => None
    case Some((vals, _)) => Some((ToBytes(OfSextets(vals)), FirstPad(s)))
  }

  /** The bit accumulator refines the bit-string specification. */
  lemma {:induction false} AccumulateIsSpec(a: Alphabet, s: seq<bv8>, i: nat, last: bv8, bits: nat, now: Alphabet, out: seq<bv8>, vals: seq<bv8>)
    requires i <= FirstPad(s) && Values(a, s[..i]) == Some((vals, now)) && bits <= 6 && bits % 2 == 0 && Accumulated(vals, out, last, bits)
    ensures Accumulate(s, i, last, bits, now, out) == SymbolBytes(a, s)
    decreases |s| - i
  {
    hide Assemble, OfSextets, OfBytes, ToBytes, Value, Values, FirstPad, Accumulated, IsPad, IsSextet;
    AccumulatedBytes(vals, out, last, bits);
    if i < |s| && !IsPad(s[i]) {
      ValuesNext(a, s, i);
      match Value(now, s[i])
      case None => ValuesFail(a, s, i + 1, FirstPad(s));
      case Some((part, next)) =>
        if bits + 6 >= 8 {
          AccumulateWrite(vals, out, last, bits, part);
          AccumulateIsSpec(a, s, i + 1, part, bits - 2, next, out + [Assemble(last, part, bits)], vals + [part]);
        } else {
          AccumulateHold(vals, out, last, part);
          AccumulateIsSpec(a, s, i + 1, part, bits + 6, next, out, vals + [part]);
        }
    }
  }

  lemma AccumulateAll(a: Alphabet, s: seq<bv8>)
    ensures Accumulate(s, 0, 0, 0, a, []) == SymbolBytes(a, s)
  {
    AccumulatedStart();
    AccumulateIsSpec(a, s, 0, 0, 0, a, [], []);
  }

  lemma {:induction false} AccumulateRoom(s: seq<bv8>, i: nat, last: bv8, bits: nat, now: Alphabet, out: seq<bv8>)
    requires i <= |s| && bits <= 6 && bits % 2 == 0 && 8 * |out| + bits == 6 * i
    ensures var r := Accumulate(s, i, last, bits, now, out); r.Some? ==> |r.value.0| <= r.value.1
    decreases |s| - i
  {
    hide Assemble, Value, IsPad;
    if i < |s| && !IsPad(s[i]) && Value(now, s[i]).Some? {
      var (part, next) := Value(now, s[i]).value;
      if bits + 6 >= 8 {
        AccumulateRoom(s, i + 1, part, bits - 2, next, out + [Assemble(last, part, bits)]);
      } else {
        AccumulateRoom(s, i + 1, part, bits + 6, next, out);
      }
    }
  }

  /** `decode`. */
  method Decode(s: seq<bv8>, alphabet: Alphabet, loose: bool) returns (r: Option<seq<bv8>>)
    ensures r == DecodeSpec(alphabet, s, loose)
  {
    AccumulateAll(alphabet, s);
    hide Assemble, Value, IsPad, Values, FirstPad, ToBytes, OfSextets, Accumulate;
    var out: seq<bv8>, last: bv8, bits: nat, now, i := [], 0, 0, alphabet, 0;
    while i < |s| && !IsPad(s[i])
      invariant 0 <= i <= |s| && bits <= 6 && bits % 2 == 0
      invariant Accumulate(s, i, last, bits, now, out) == SymbolBytes(alphabet, s)
    {
      AccumulateNext(s, i, last, bits, now, out);
      var v := Value(now, s[i]);
      if v.None? {
        return None;
      }
      var part := v.value.0;
      if bits + 6 >= 8 {
        out := out + [Assemble(last, part, bits)];
        bits := bits - 2;
      } else {
        bits := bits + 6;
      }
      now, last, i := v.value.1, part, i + 1;
    }
    AccumulateDone(s, i, last, bits, now, out);
    assert SymbolBytes(alphabet, s) == Some((out, i));
    if !loose {
      while i < |s|
        invariant FirstPad(s) <= i <= |s| && forall j :: FirstPad(s) <= j < i ==> IsPad(s[j])
      {
        if !IsPad(s[i]) {
          return None;
        }
        i := i + 1;
      }
    }
    r := Some(out);
  }

  /** One output byte over an input byte already read. */
  method WriteAt(a: array<bv8>, w: nat, byte: bv8, ghost s: seq<bv8>)
    requires w < a.Length == |s| && a[w..] == s[w..]
    modifies a
    ensures a[..w + 1] == old(a[..w]) + [byte] && a[w + 1..] == s[w + 1..]
  {
    assert a[w + 1..] == a[w..][1..] && s[w + 1..] == s[w..][1..];
    ghost var rest := a[w + 1..];
    a[w] := byte;
    assert a[w + 1..] == rest;
  }

  /** One symbol: a byte is written when enough bits are there. */
  method StorePart(a: array<bv8>, w: nat, last: bv8, bits: nat, part: bv8, ghost s: seq<bv8>, ghost out: seq<bv8>)
      returns (w': nat, bits': nat, ghost out': seq<bv8>)
    requires bits <= 6 && bits % 2 == 0 && w <= a.Length == |s| && (bits >= 2 ==> w < a.Length)
    requires a[..w] == out && a[w..] == s[w..]
    modifies a
    ensures if bits + 6 >= 8 then w' == w + 1 && bits' == bits - 2 && out' == out + [Assemble(last, part, bits)]
            else w' == w && bits' == bits + 6 && out' == out
    ensures w' <= a.Length && a[..w'] == out' && a[w'..] == s[w'..]
    ensures bits' <= 6 && bits' % 2 == 0 && 8 * w' + bits' == 8 * w + bits + 6
  {
    hide Assemble;
    if bits + 6 >= 8 {
      var byte := Assemble(last, part, bits);
      WriteAt(a, w, byte, s);
      w', bits', out' := w + 1, bits - 2, out + [byte];
    } else {
      w', bits', out' := w, bits + 6, out;
    }
  }

  /** The first loop of `decode` writing over its own input. The write index w stays below
      the read index, so every character is read before it is overwritten. */
  method AccumulateInPlace(a: array<bv8>, alphabet: Alphabet) returns (r: Option<(nat, nat)>)
    modifies a
    ensures match Accumulate(old(a[..]), 0, 0, 0, alphabet, [])
            case None => r.None?
            case Some((bytes, k)) => r == Some((|bytes|, k)) && |bytes| <= k <= a.Length && a[..|bytes|] == bytes && a[|bytes|..] == old(a[|bytes|..])
  {
    ghost var s, out: seq<bv8> := a[..], [];
    ghost var goal := Accumulate(s, 0, 0, 0, alphabet, []);
    AccumulateRoom(s, 0, 0, 0, alphabet, []);
    hide Assemble, Value, IsPad, Accumulate;
    var w: nat, last: bv8, bits: nat, now, i := 0, 0, 0, alphabet, 0;
    while i < a.Length && !IsPad(a[i])
      invariant 0 <= w <= i <= a.Length && bits <= 6 && bits % 2 == 0 && 8 * w + bits == 6 * i
      invariant a[..w] == out && a[w..] == s[w..]
      invariant Accumulate(s, i, last, bits, now, out) == goal
    {
      SameAhead(a[..], s, w, i);
      AccumulateNext(s, i, last, bits, now, out);
      var v := Value(now, a[i]);
      if v.None? {
        return None;
      }
      var part := v.value.0;
      w, bits, out := StorePart(a, w, last, bits, part, s, out);
      now, last, i := v.value.1, part, i + 1;
    }
    SameAhead(a[..], s, w, i);
    AccumulateDone(s, i, last, bits, now, out);
    r := Some((w, i));
  }

  /** What is not yet overwritten is the input. */
  lemma SameAhead(x: seq<bv8>, s: seq<bv8>, w: nat, i: nat)
    requires |x| == |s| && w <= i <= |s| && x[w..] == s[w..]
    ensures i < |s| ==> x[i] == s[i]
  {
    assert i < |s| ==> x[i] == x[w..][i - w] && s[i] == s[w..][i - w];
  }

  /** `decode_inplace`: the decoded bytes stand at the front, what lies behind is untouched. */
  method DecodeInPlace(a: array<bv8>, alphabet: Alphabet, loose: bool) returns (n: Option<nat>)
    modifies a
    ensures match DecodeSpec(alphabet, old(a[..]), loose)
            case None => n.None?
            case Some(bytes) => n == Some(|bytes|) && |bytes| <= a.Length && a[..|bytes|] == bytes && a[|bytes|..] == old(a[|bytes|..])
  {
    ghost var s := a[..];
    AccumulateAll(alphabet, s);
    hide Accumulate, IsPad, Values, FirstPad, ToBytes, OfSextets;
    var r := AccumulateInPlace(a, alphabet);
    if r.None? {
      return None;
    }
    var (w, k) := r.value;
    var ok := true;
    if !loose {
      ok := OnlyPads(a, k);
    }
    SamePads(a[..], s, w, k);
    n := if ok then Some(w) else None;
  }

  /** The padding check: nothing but '=' from a position on. */
  method OnlyPads(a: array<bv8>, from: nat) returns (ok: bool)
    requires from <= a.Length
    ensures ok <==> forall j :: from <= j < a.Length ==> IsPad(a[..][j])
  {
    hide IsPad;
    for i := from to a.Length
      invariant forall j :: from <= j < i ==> IsPad(a[..][j])
    {
      if !IsPad(a[i]) {
        assert !IsPad(a[..][i]);
        return false;
      }
    }
    ok := true;
  }

  lemma SamePads(x: seq<bv8>, s: seq<bv8>, w: nat, k: nat)
    requires |x| == |s| && w <= k <= |s| && x[w..] == s[w..]
    ensures (forall j :: k <= j < |x| ==> IsPad(x[j])) <==> (forall j :: k <= j < |s| ==> IsPad(s[j]))
  {
    hide IsPad;
    forall j | k <= j < |s| ensures x[j] == s[j] {
      SameAhead(x, s, w, j);
    }
  }
}
