/** Bit strings, most significant bit first, and how bytes and 6-bit groups cut them up. */
module Bits {

  type Bits = seq<bool>

  function Bits8(b: bv8): (r: Bits)
    ensures |r| == 8
  {
    [b & 0x80 != 0, b & 0x40 != 0, b & 0x20 != 0, b & 0x10 != 0, b & 8 != 0, b & 4 != 0, b & 2 != 0, b & 1 != 0]
  }

  function Bits6(v: bv8): (r: Bits)
    ensures |r| == 6
  {
    [v & 0x20 != 0, v & 0x10 != 0, v & 8 != 0, v & 4 != 0, v & 2 != 0, v & 1 != 0]
  }

  function Bit(b: bool, weight: bv8): bv8 {
    if b then weight else 0
  }

  function Byte(r: Bits): bv8
    requires |r| == 8
  {
    Bit(r[0], 0x80) | Bit(r[1], 0x40) | Bit(r[2], 0x20) | Bit(r[3], 0x10) | Bit(r[4], 8) | Bit(r[5], 4) | Bit(r[6], 2) | Bit(r[7], 1)
  }

  function Sextet(r: Bits): (v: bv8)
    requires |r| == 6
    ensures v < 64
  {
    Bit(r[0], 0x20) | Bit(r[1], 0x10) | Bit(r[2], 8) | Bit(r[3], 4) | Bit(r[4], 2) | Bit(r[5], 1)
  }

  lemma ByteOfBits(b: bv8)
    ensures Byte(Bits8(b)) == b
  {}

  lemma BitsOfSextet(r: Bits)
    requires |r| == 6
    ensures Bits6(Sextet(r)) == r
  {}

  /** The bits of a byte string. */
  function OfBytes(s: seq<bv8>): (r: Bits)
    ensures |r| == 8 * |s|
  {
    if s == [] then [] else OfBytes(s[..|s| - 1]) + Bits8(s[|s| - 1])
  }

  /** The bits of a string of 6-bit groups. */
  function OfSextets(s: seq<bv8>): (r: Bits)
    ensures |r| == 6 * |s|
  {
    if s == [] then [] else OfSextets(s[..|s| - 1]) + Bits6(s[|s| - 1])
  }

  /** Cut into bytes; a remainder of fewer than eight bits is dropped. */
  function ToBytes(r: Bits): (s: seq<bv8>)
    ensures |s| == |r| / 8
  {
    if |r| < 8 then [] else [Byte(r[..8])] + ToBytes(r[8..])
  }

  function Zeros(n: nat): (r: Bits)
    ensures |r| == n
  {
    seq(n, _ => false)
  }

  /** Cut into 6-bit groups; a last incomplete group is filled with zero bits. */
  function ToSextets(r: Bits): (s: seq<bv8>)
    ensures |s| == (|r| + 5) / 6
    ensures forall i :: 0 <= i < |s| ==> s[i] < 64
  {
    if r == [] then []
    else if |r| < 6 then [Sextet(r + Zeros(6 - |r|))]
    else [Sextet(r[..6])] + ToSextets(r[6..])
  }

  lemma {:induction false} OfBytesConcat(a: seq<bv8>, b: seq<bv8>)
    ensures OfBytes(a + b) == OfBytes(a) + OfBytes(b)
  {
    if b == [] {
      assert a + b == a;
    } else {
      assert (a + b)[..|a + b| - 1] == a + b[..|b| - 1];
      OfBytesConcat(a, b[..|b| - 1]);
    }
  }

  lemma {:induction false} OfSextetsConcat(a: seq<bv8>, b: seq<bv8>)
    ensures OfSextets(a + b) == OfSextets(a) + OfSextets(b)
  {
    if b == [] {
      assert a + b == a;
    } else {
      assert (a + b)[..|a + b| - 1] == a + b[..|b| - 1];
      OfSextetsConcat(a, b[..|b| - 1]);
    }
  }

  /** Cutting the bits of a byte string, followed by less than a byte, gives it back. */
  lemma {:induction false} BytesBack(s: seq<bv8>, rest: Bits)
    requires |rest| < 8
    ensures ToBytes(OfBytes(s) + rest) == s
  {
    if s != [] {
      assert s == [s[0]] + s[1..];
      OfBytesConcat([s[0]], s[1..]);
      OneByte(s[0]);
      var r := OfBytes(s) + rest;
      assert r[..8] == Bits8(s[0]) && r[8..] == OfBytes(s[1..]) + rest;
      ByteOfBits(s[0]);
      BytesBack(s[1..], rest);
    }
  }

  lemma OneByte(b: bv8)
    ensures OfBytes([b]) == Bits8(b)
  {
    assert [b][..0] == [];
  }

  lemma OneSextet(v: bv8)
    ensures OfSextets([v]) == Bits6(v)
  {
    assert [v][..0] == [];
  }

  function Fill(n: nat): (k: nat)
    ensures k < 6 && (n + k) % 6 == 0
  {
    if n % 6 == 0 then 0 else 6 - n % 6
  }

  lemma FillZero()
    ensures Fill(0) == 0
  {}

  lemma FillStep(n: nat)
    ensures Fill(n + 6) == Fill(n)
    ensures 0 < n < 6 ==> Fill(n) == 6 - n
  {}

  /** The 6-bit groups of a bit string spell the string and its zero fill. */
  lemma {:induction false} SextetsBack(r: Bits)
    ensures OfSextets(ToSextets(r)) == r + Zeros(Fill(|r|))
  {
    hide Sextet, Bits6, Fill;
    if r == [] {
      FillZero();
    } else if |r| < 6 {
      FillStep(|r|);
      var full := r + Zeros(6 - |r|);
      OneSextet(Sextet(full));
      BitsOfSextet(full);
    } else {
      SextetsBack(r[6..]);
      OfSextetsConcat([Sextet(r[..6])], ToSextets(r[6..]));
      OneSextet(Sextet(r[..6]));
      BitsOfSextet(r[..6]);
      assert r == r[..6] + r[6..];
      FillStep(|r| - 6);
      assert r + Zeros(Fill(|r|)) == r[..6] + (r[6..] + Zeros(Fill(|r|)));
    }
  }

  /** Whole groups can be cut off first. */
  lemma {:induction false} ToSextetsConcat(a: Bits, b: Bits)
    requires |a| % 6 == 0
    ensures ToSextets(a + b) == ToSextets(a) + ToSextets(b)
  {
    if a == [] {
      assert a + b == b;
    } else {
      assert (a + b)[..6] == a[..6] && (a + b)[6..] == a[6..] + b;
      ToSextetsConcat(a[6..], b);
    }
  }

  /** The low n bits of a 6-bit group. */
  function Low(v: bv8, n: nat): (r: Bits)
    requires n <= 6
    ensures |r| == n
  {
    Bits6(v)[6 - n..]
  }
}
