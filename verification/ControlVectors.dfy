/**
 * Loading and summing control vectors, common/common.cpp. A file is the list of its tensors; numbers
 * are exact. Layer 1 is stored first: position d * (layer - 1) + k holds component k of a layer.
 */
module ControlVectors {
  import opened Basics
  import opened Text

  datatype Direction = Direction(name: string, isF32: bool, dims: nat, values: seq<real>)

  /** One file to load: None when it cannot be read. */
  datatype Info = Info(file: Option<seq<Direction>>, strength: real)

  datatype Vectors = Vectors(nEmbd: int, data: seq<real>)

  const FAILED := Vectors(-1, [])

  // ---------- Tensor names ----------

  /** Value of the run of decimal digits at the front of s, and its length. */
  function Digits(s: string, acc: nat, n: nat): (nat, nat)
    decreases |s|
  {
    if s == [] || !('0' <= s[0] <= '9') then (acc, n)
    else Digits(s[1..], 10 * acc + (s[0] as int - '0' as int), n + 1)
  }

  /** `std::stoi`: leading blanks, an optional sign, digits; None where it throws. */
  function Stoi(s: string): Option<int> {
    var t := s[SkipSpaces(s, 0)..];
    var signed := t != [] && (t[0] == '-' || t[0] == '+');
    var (value, n) := Digits(if signed then t[1..] else t, 0, 0);
    var v: int := if signed && t[0] == '-' then -(value as int) else value;
    if n == 0 || !(-0x8000_0000 <= v < 0x8000_0000) then None else Some(v)
  }

  /** Layer number in the name, or -1. */
  function LayerIndex(name: string): int {
    match Find(name, ".", 0)
    case None => -1
    case Some(dot) =>
      if name[..dot] != DIRECTION then -1 else
        match Stoi(name[dot + 1..])
        case None => -1
        case Some(n) => n
  }

  /** A number in decimal. */
  function Decimal(n: nat): string {
    var digit := ['0' + (n % 10) as char];
    if n < 10 then digit else Decimal(n / 10) + digit
  }

  predicate AllDigits(s: string) {
    forall i :: 0 <= i < |s| ==> '0' <= s[i] <= '9'
  }

  lemma {:induction false} DigitsSnoc(s: string, c: char, acc: nat, n: nat)
    requires AllDigits(s) && '0' <= c <= '9'
    ensures var (v, k) := Digits(s, acc, n); Digits(s + [c], acc, n) == (10 * v + (c as int - '0' as int), k + 1)
    decreases |s|
  {
    if s != [] {
      assert (s + [c])[1..] == s[1..] + [c];
      DigitsSnoc(s[1..], c, 10 * acc + (s[0] as int - '0' as int), n + 1);
    } else {
      assert s + [c] == [c] && [c][1..] == [];
    }
  }

  lemma {:induction false} DecimalDigits(n: nat)
    ensures AllDigits(Decimal(n)) && Decimal(n) != [] && Digits(Decimal(n), 0, 0) == (n, |Decimal(n)|)
  {
    var c := '0' + (n % 10) as char;
    assert c as int - '0' as int == n % 10;
    if n < 10 {
      assert Decimal(n) == [] + [c];
      DigitsSnoc([], c, 0, 0);
    } else {
      DecimalDigits(n / 10);
      DigitsSnoc(Decimal(n / 10), c, 0, 0);
    }
  }

  const DIRECTION := "direction"

  lemma FirstDot(rest: string)
    ensures Find(DIRECTION + "." + rest, ".", 0) == Some(9)
  {
    hide Find;
    var name := DIRECTION + "." + rest;
    forall i | 0 <= i < 9 ensures !OccursAt(name, ".", i) {
      assert name[i..i + 1][0] == DIRECTION[i];
    }
    assert name[9..10] == ".";
    assert OccursAt(name, ".", 9);
  }

  lemma StoiOfDecimal(n: nat)
    ensures Stoi(Decimal(n)) == if n < 0x8000_0000 then Some(n) else None
  {
    hide Decimal, Digits;
    DecimalDigits(n);
    var digits := Decimal(n);
    assert SkipSpaces(digits, 0) == 0 && digits[0..] == digits;
  }

  /** A tensor named after a layer is read as that layer, up to the range of int. */
  lemma NamedLayer(n: nat)
    ensures LayerIndex(DIRECTION + "." + Decimal(n)) == if n < 0x8000_0000 then n else -1
  {
    hide Find, Stoi, Decimal;
    var name := DIRECTION + "." + Decimal(n);
    FirstDot(Decimal(n));
    StoiOfDecimal(n);
    assert name[..9] == DIRECTION && name[10..] == Decimal(n);
  }

  function Noughts(z: nat): (r: string)
    ensures |r| == z && forall i :: 0 <= i < z ==> r[i] == '0'
  {
    seq(z, _ => '0')
  }

  /** No decimal digit starts this text. */
  predicate NoDigit(rest: string) {
    rest == "" || !('0' <= rest[0] <= '9')
  }

  lemma {:induction false} DigitsRun(zeros: string, ds: string, rest: string, acc: nat, n: nat)
    requires AllDigits(ds) && NoDigit(rest) && (forall i :: 0 <= i < |zeros| ==> zeros[i] == '0') && (zeros != "" ==> acc == 0)
    ensures Digits(zeros + ds + rest, acc, n) == Digits(ds, acc, n + |zeros|)
    decreases |zeros| + |ds|
  {
    var all := zeros + ds + rest;
    if zeros != "" {
      assert all[1..] == zeros[1..] + ds + rest;
      DigitsRun(zeros[1..], ds, rest, acc, n + 1);
    } else if ds != "" {
      assert all[1..] == zeros + ds[1..] + rest;
      DigitsRun(zeros, ds[1..], rest, 10 * acc + (ds[0] as int - '0' as int), n + 1);
    } else {
      assert all == rest;
    }
  }

  lemma AfterBlanks(blanks: string, rest: string)
    requires AllSpaces(blanks) && (rest == "" || !IsSpace(rest[0]))
    ensures var s := blanks + rest; s[SkipSpaces(s, 0)..] == rest
  {
    var s := blanks + rest;
    var k := SkipSpaces(s, 0);
    assert forall i :: 0 <= i < |blanks| ==> s[i] == blanks[i];
    if rest != "" {
      assert s[|blanks|] == rest[0];
    }
    assert k == |blanks|;
    assert s[|blanks|..] == rest;
  }

  lemma StoiAfter(s: string, sign: string, body: string)
    requires s[SkipSpaces(s, 0)..] == sign + body && sign in ["", "+", "-"] && body != "" && '0' <= body[0] <= '9'
    ensures var (n, k) := Digits(body, 0, 0);
            var v: int := if sign == "-" then -(n as int) else n;
            Stoi(s) == if k == 0 || !(-0x8000_0000 <= v < 0x8000_0000) then None else Some(v)
  {
    hide Digits, SkipSpaces;
    var t := s[SkipSpaces(s, 0)..];
    if sign == "" {
      assert t == body;
    } else {
      assert t[0] == sign[0] && t[1..] == body;
    }
  }

  lemma StoiReads(blanks: string, sign: string, zeros: string, n: nat, rest: string)
    requires AllSpaces(blanks) && sign in ["", "+", "-"] && NoDigit(rest) && forall i :: 0 <= i < |zeros| ==> zeros[i] == '0'
    ensures Stoi(blanks + (sign + (zeros + Decimal(n) + rest)))
            == var v: int := if sign == "-" then -(n as int) else n; if -0x8000_0000 <= v < 0x8000_0000 then Some(v) else None
  {
    hide *;
    DecimalDigits(n);
    var body := zeros + Decimal(n) + rest;
    FirstDigit(zeros, Decimal(n), rest);
    DigitNoBlank(body[0]);
    assert sign == "" ==> sign + body == body;
    assert sign != "" ==> (sign + body)[0] == sign[0];
    DigitNoBlank('+');
    AfterBlanks(blanks, sign + body);
    StoiAfter(blanks + (sign + body), sign, body);
    DigitsRun(zeros, Decimal(n), rest, 0, 0);
    MoreDigits(Decimal(n), |zeros|);
  }

  lemma FirstDigit(zeros: string, ds: string, rest: string)
    requires AllDigits(ds) && ds != "" && forall i :: 0 <= i < |zeros| ==> zeros[i] == '0'
    ensures var body := zeros + ds + rest; body != "" && '0' <= body[0] <= '9'
  {
    var body := zeros + ds + rest;
    if zeros == "" {
      assert body[0] == ds[0];
    } else {
      assert body[0] == zeros[0];
    }
  }

  lemma DigitNoBlank(c: char)
    requires '0' <= c <= '9' || c == '+'
    ensures !IsSpace(c) && !IsSpace('+') && !IsSpace('-')
  {
  }

  lemma {:induction false} DigitsCount(s: string, acc: nat, n: nat, k: nat)
    ensures Digits(s, acc, n + k) == (Digits(s, acc, n).0, Digits(s, acc, n).1 + k)
    decreases |s|
  {
    if s != "" && '0' <= s[0] <= '9' {
      DigitsCount(s[1..], 10 * acc + (s[0] as int - '0' as int), n + 1, k);
    }
  }

  lemma MoreDigits(s: string, k: nat)
    ensures Digits(s, 0, k) == (Digits(s, 0, 0).0, Digits(s, 0, 0).1 + k)
  {
    DigitsCount(s, 0, 0, k);
  }

  lemma NumberOfName(rest: string)
    ensures LayerIndex(DIRECTION + "." + rest) == match Stoi(rest) case None => -1 case Some(v) => v
  {
    hide Find, Stoi;
    var name := DIRECTION + "." + rest;
    FirstDot(rest);
    assert name[..9] == DIRECTION && name[10..] == rest;
  }

  /** The layer that a name stands for: after "direction." blanks, a sign, leading zeros and anything that
      is no digit after the number are allowed; -1 outside int. */
  lemma LayerOfName(blanks: string, sign: string, zeros: nat, n: nat, rest: string)
    requires AllSpaces(blanks) && sign in ["", "+", "-"] && NoDigit(rest)
    ensures LayerIndex("direction" + "." + (blanks + (sign + (Noughts(zeros) + Decimal(n) + rest))))
            == var v: int := if sign == "-" then -(n as int) else n; if -0x8000_0000 <= v < 0x8000_0000 then v else -1
  {
    hide Stoi, Decimal;
    NumberOfName(blanks + (sign + (Noughts(zeros) + Decimal(n) + rest)));
    StoiReads(blanks, sign, Noughts(zeros), n, rest);
  }

  /** Without a number after the blanks and the sign, or without "direction." in front, there is no layer. */
  lemma NoLayer(blanks: string, sign: string, rest: string, other: string)
    requires AllSpaces(blanks) && sign in ["", "+", "-"] && NoDigit(rest)
    requires rest != "" && sign == "" ==> !IsSpace(rest[0]) && rest[0] != '+' && rest[0] != '-'
    requires !("direction" + "." <= other)
    ensures LayerIndex("direction" + "." + (blanks + (sign + rest))) == -1
    ensures LayerIndex(other) == -1
  {
    NumberOfName(blanks + (sign + rest));
    AfterBlanks(blanks, sign + rest);
    if sign == "" {
      assert sign + rest == rest;
    } else {
      assert (sign + rest)[1..] == rest;
    }
  }

  /** Layer 31 by name. */
  lemma LayerThirtyOne()
    ensures LayerIndex("direction.31") == 31
  {
    assert Decimal(3) == "3" && Decimal(31) == Decimal(3) + "1" == "31";
    assert "direction" + "." + Decimal(31) == "direction.31";
    NamedLayer(31);
  }

  function Layer(t: Direction): int {
    LayerIndex(t.name)
  }

  // ---------- What is loaded ----------

  predicate Usable(t: Direction, d: nat) {
    Layer(t) > 0 && t.isF32 && t.dims == 1 && |t.values| == d
  }

  predicate AllUsable(ts: seq<Direction>, d: nat) {
    forall i :: 0 <= i < |ts| ==> Usable(ts[i], d)
  }

  /** A readable file with at least one tensor, all of them valid and of dimension d. */
  predicate Loads(info: Info, d: nat) {
    info.file.Some? && info.file.value != [] && AllUsable(info.file.value, d)
  }

  predicate AllLoad(infos: seq<Info>, d: nat) {
    forall i :: 0 <= i < |infos| ==> Loads(infos[i], d)
  }

  /** Share of one tensor in position p of the flat result. */
  function Share(t: Direction, strength: real, d: nat, p: nat): real
    requires Usable(t, d)
  {
    var start := d * (Layer(t) - 1);
    if start <= p < start + d then strength * t.values[p - start] else 0.0
  }

  function FileSum(ts: seq<Direction>, strength: real, d: nat, p: nat): real
    requires AllUsable(ts, d)
  {
    if ts == [] then 0.0
    else FileSum(ts[..|ts| - 1], strength, d, p) + Share(ts[|ts| - 1], strength, d, p)
  }

  function TotalSum(infos: seq<Info>, d: nat, p: nat): real
    requires AllLoad(infos, d)
  {
    if infos == [] then 0.0 else
      var last := infos[|infos| - 1];
      TotalSum(infos[..|infos| - 1], d, p) + FileSum(last.file.value, last.strength, d, p)
  }

  function Max(a: int, b: int): int {
    if a < b then b else a
  }

  function MaxLayer(ts: seq<Direction>): nat {
    if ts == [] then 0 else Max(MaxLayer(ts[..|ts| - 1]), Layer(ts[|ts| - 1]))
  }

  function TopLayer(infos: seq<Info>, d: nat): nat
    requires AllLoad(infos, d)
  {
    if infos == [] then 0 else
      Max(TopLayer(infos[..|infos| - 1], d), MaxLayer(infos[|infos| - 1].file.value))
  }

  /** Positions past the end count as zero. */
  function At(data: seq<real>, p: nat): real {
    if p < |data| then data[p] else 0.0
  }

  // ---------- The loops ----------

  /** `data.resize(max(size, n), 0.0f)`. */
  method Extend(data: seq<real>, n: int) returns (r: seq<real>)
    ensures |r| == Max(|data|, n)
    ensures forall p: nat :: At(r, p) == At(data, p)
  {
    r := if n > |data| then data + seq(n - |data|, _ => 0.0) else data;
  }

  /** The inner loop over one tensor. */
  method AddDirection(data: seq<real>, start: nat, t: seq<real>, strength: real) returns (r: seq<real>)
    requires start + |t| <= |data|
    ensures |r| == |data|
    ensures forall p: nat :: At(r, p) == At(data, p) + if start <= p < start + |t| then strength * t[p - start] else 0.0
  {
    r := data;
    for j := 0 to |t|
      invariant |r| == |data|
      invariant forall p: nat :: At(r, p) == At(data, p) + if start <= p < start + j then strength * t[p - start] else 0.0
    {
      r := r[start + j := r[start + j] + t[j] * strength];
    }
  }

  lemma ScaledMax(d: nat, a: int, b: int)
    ensures Max(d * a, d * b) == d * Max(a, b)
  {
    if a < b {
      assert d * b == d * a + d * (b - a);
    } else {
      assert d * a == d * b + d * (a - b);
    }
  }

  /** The state of the loop after the tensors ts, all usable. */
  ghost predicate Holds(r: Vectors, ts: seq<Direction>, strength: real, d: nat) {
    && AllUsable(ts, d)
    && r.nEmbd == (if ts == [] then -1 else d)
    && |r.data| == d * MaxLayer(ts)
    && forall p: nat :: At(r.data, p) == FileSum(ts, strength, d, p)
  }

  lemma Offset(d: nat, layer: int)
    requires layer > 0
    ensures 0 <= d * (layer - 1) && d * (layer - 1) + d == d * layer
  {
    assert d * layer == d * (layer - 1) + d;
  }

  /** One valid tensor of dimension d: extend, then add its values at its layer. */
  method AddTensor(data: seq<real>, d: nat, t: Direction, strength: real) returns (r: seq<real>)
    requires Usable(t, d)
    ensures |r| == Max(|data|, d * Layer(t))
    ensures forall p: nat :: At(r, p) == At(data, p) + Share(t, strength, d, p)
  {
    hide LayerIndex, At;
    var layer := LayerIndex(t.name);
    Offset(d, layer);
    var end, start := d * layer, d * (layer - 1);
    r := Extend(data, end);
    r := AddDirection(r, start, t.values, strength);
  }

  lemma HoldsSnoc(r: Vectors, r': Vectors, ts: seq<Direction>, t: Direction, strength: real, d: nat)
    requires Holds(r, ts, strength, d) && Usable(t, d)
    requires r'.nEmbd == d && |r'.data| == Max(|r.data|, Product(d, Layer(t)))
    requires forall p: nat :: At(r'.data, p) == At(r.data, p) + Share(t, strength, d, p)
    ensures Holds(r', ts + [t], strength, d)
  {
    var all := ts + [t];
    assert all[..|all| - 1] == ts;
    ScaledMax(d, MaxLayer(ts), Layer(t));
  }

  /** First value past the range of int, in which dimension times layer is computed. */
  const INT_END := 0x8000_0000

  function Product(d: int, layer: int): int {
    d * layer
  }

  /** A tensor that is reached has a product out of that range: the original is then undefined. */
  ghost predicate Overflows(info: Info) {
    var d := OwnDimension(info);
    info.file.Some? && exists i :: OverflowsAt(info.file.value, d, i)
  }

  ghost predicate OverflowsAt(ts: seq<Direction>, d: nat, i: int) {
    ReachedAndUsable(ts, d, i) && Product(d, Layer(ts[i])) >= INT_END
  }

  ghost predicate ReachedAndUsable(ts: seq<Direction>, d: nat, i: int) {
    0 <= i < |ts| && AllUsable(ts[..i + 1], d)
  }

  /** What loading one file must give when nothing overflows. */
  ghost predicate LoadedOne(info: Info, r: Vectors) {
    if Loads(info, OwnDimension(info)) then Holds(r, info.file.value, info.strength, OwnDimension(info)) else r == FAILED
  }

  datatype Taken = Rejected | OutOfRange | Taken(vectors: Vectors)

  /** One turn of the loop over tensors; d is the dimension of the file's first tensor. */
  method TakeTensor(v: Vectors, t: Direction, strength: real, ghost d: nat) returns (r: Taken)
    requires if v.nEmbd == -1 then |t.values| == d else v.nEmbd == d
    ensures r.Rejected? <==> !Usable(t, d)
    ensures r.OutOfRange? <==> Usable(t, d) && Product(d, Layer(t)) >= INT_END
    ensures r.Taken? ==>
              && r.vectors.nEmbd == d && |r.vectors.data| == Max(|v.data|, Product(d, Layer(t)))
              && forall p: nat :: At(r.vectors.data, p) == At(v.data, p) + Share(t, strength, d, p)
  {
    hide LayerIndex, At, Share;
    var layer := LayerIndex(t.name);
    if layer < 0 || layer == 0 || !t.isF32 || t.dims != 1 || (v.nEmbd != -1 && |t.values| != v.nEmbd) {
      return Rejected;
    }
    var n := if v.nEmbd == -1 then |t.values| else v.nEmbd;
    if Product(n, layer) >= INT_END {
      return OutOfRange;
    }
    var data := AddTensor(v.data, n, t, strength);
    r := Taken(Vectors(n, data));
  }

  /** `common_control_vector_load_one`; None where it overflows. */
  method LoadOne(info: Info) returns (r: Option<Vectors>)
    ensures r.None? <==> Overflows(info)
    ensures r.Some? ==> LoadedOne(info, r.value)
  {
    if info.file.None? {
      return Some(FAILED);
    }
    hide *;
    var v := FAILED;
    var ts := info.file.value;
    var i := 0;
    LoadingStarts(info);
    while i < |ts|
      invariant 0 <= i <= |ts| && Loading(info, v, i)
    {
      LoadingDimension(info, v, i);
      var step := TakeTensor(v, ts[i], info.strength, OwnDimension(info));
      if step.Rejected? {
        Stopped(info, v, i);
        return Some(FAILED);
      } else if step.OutOfRange? {
        Overflowed(info, v, i);
        return None;
      }
      LoadingNext(info, v, i, step.vectors);
      v := step.vectors;
      i := i + 1;
    }
    Finished(info, v);
    r := Some(v);
  }

  /** The state of the loop before tensor i. */
  ghost predicate Loading(info: Info, v: Vectors, i: nat) {
    && info.file.Some? && i <= |info.file.value|
    && Holds(v, info.file.value[..i], info.strength, OwnDimension(info))
    && forall k :: 0 <= k < i ==> Product(OwnDimension(info), Layer(info.file.value[k])) < INT_END
  }

  lemma LoadingStarts(info: Info)
    requires info.file.Some?
    ensures Loading(info, FAILED, 0)
  {
    assert info.file.value[..0] == [];
    NothingHolds(info.strength, OwnDimension(info));
  }

  lemma LoadingDimension(info: Info, v: Vectors, i: nat)
    requires Loading(info, v, i) && i < |info.file.value|
    ensures if v.nEmbd == -1 then |info.file.value[i].values| == OwnDimension(info) else v.nEmbd == OwnDimension(info)
  {
    HoldsDimension(v, info.file.value[..i], info.strength, OwnDimension(info));
  }

  lemma LoadingNext(info: Info, v: Vectors, i: nat, next: Vectors)
    requires Loading(info, v, i) && i < |info.file.value|
    requires var t, d := info.file.value[i], OwnDimension(info);
             && Usable(t, d) && Product(d, Layer(t)) < INT_END
             && next.nEmbd == d && |next.data| == Max(|v.data|, Product(d, Layer(t)))
             && forall p: nat :: At(next.data, p) == At(v.data, p) + Share(t, info.strength, d, p)
    ensures Loading(info, next, i + 1)
  {
    hide Holds, Product, At, Share, Usable;
    var ts, d := info.file.value, OwnDimension(info);
    HoldsDimension(v, ts[..i], info.strength, d);
    UsableSnoc(ts, i, d);
    HoldsSnoc(v, next, ts[..i], ts[i], info.strength, d);
  }

  lemma Overflowed(info: Info, v: Vectors, i: nat)
    requires Loading(info, v, i) && i < |info.file.value| && Usable(info.file.value[i], OwnDimension(info))
    requires Product(OwnDimension(info), Layer(info.file.value[i])) >= INT_END
    ensures Overflows(info)
  {
    HoldsDimension(v, info.file.value[..i], info.strength, OwnDimension(info));
    UsableSnoc(info.file.value, i, OwnDimension(info));
    assert OverflowsAt(info.file.value, OwnDimension(info), i);
  }

  lemma Finished(info: Info, v: Vectors)
    requires info.file.Some? && Loading(info, v, |info.file.value|)
    ensures !Overflows(info) && LoadedOne(info, v)
  {
    hide Product, Layer;
    assert info.file.value[..|info.file.value|] == info.file.value;
    HoldsDimension(v, info.file.value, info.strength, OwnDimension(info));
  }

  lemma UsableSnoc(ts: seq<Direction>, i: nat, d: nat)
    requires i < |ts| && AllUsable(ts[..i], d) && Usable(ts[i], d)
    ensures AllUsable(ts[..i + 1], d) && ts[..i + 1] == ts[..i] + [ts[i]]
  {
  }

  lemma UsableAt(ts: seq<Direction>, d: nat, k: nat, i: nat)
    requires ReachedAndUsable(ts, d, k)
    ensures i <= k ==> Usable(ts[i], d)
  {
    assert forall m :: 0 <= m <= k ==> ts[..k + 1][m] == ts[m];
  }

  /** A tensor that is rejected ends the file before anything after it is reached. */
  lemma Stopped(info: Info, v: Vectors, i: nat)
    requires Loading(info, v, i) && i < |info.file.value| && !Usable(info.file.value[i], OwnDimension(info))
    ensures !Overflows(info) && LoadedOne(info, FAILED)
  {
    hide Holds, Product, Usable, Layer;
    var ts, d := info.file.value, OwnDimension(info);
    forall k | ReachedAndUsable(ts, d, k) ensures k < i {
      UsableAt(ts, d, k, i);
    }
  }

  lemma NothingHolds(strength: real, d: nat)
    ensures Holds(FAILED, [], strength, d)
  {
  }

  lemma HoldsDimension(r: Vectors, ts: seq<Direction>, strength: real, d: nat)
    requires Holds(r, ts, strength, d)
    ensures AllUsable(ts, d) && r.nEmbd == (if ts == [] then -1 else d) && (ts == [] ==> r.data == [])
  {
  }

  /** Dimension of the first tensor of a file. */
  function OwnDimension(info: Info): nat {
    if info.file.None? || info.file.value == [] then 0 else |info.file.value[0].values|
  }

  // ---------- Several files ----------

  ghost predicate AllHold(r: Vectors, infos: seq<Info>, d: nat) {
    && AllLoad(infos, d)
    && r.nEmbd == (if infos == [] then -1 else d)
    && |r.data| == d * TopLayer(infos, d)
    && forall p: nat :: At(r.data, p) == TotalSum(infos, d, p)
  }

  /** Component-wise sum of two loaded results. */
  method AddVectors(data: seq<real>, cur: seq<real>) returns (r: seq<real>)
    ensures |r| == Max(|data|, |cur|)
    ensures forall p: nat :: At(r, p) == At(data, p) + At(cur, p)
  {
    r := Extend(data, |cur|);
    ghost var wide := r;
    for i := 0 to |cur|
      invariant |r| == |wide|
      invariant forall p: nat :: At(r, p) == At(data, p) + if p < i then cur[p] else 0.0
    {
      r := r[i := r[i] + cur[i]];
    }
  }

  lemma AllHoldSnoc(r: Vectors, cur: Vectors, r': Vectors, infos: seq<Info>, info: Info, d: nat)
    requires AllHold(r, infos, d) && Loads(info, d) && Holds(cur, info.file.value, info.strength, d)
    requires r'.nEmbd == d && |r'.data| == Max(|r.data|, |cur.data|)
    requires forall p: nat :: At(r'.data, p) == At(r.data, p) + At(cur.data, p)
    ensures AllHold(r', infos + [info], d)
  {
    var all := infos + [info];
    assert all[..|all| - 1] == infos;
    ScaledMax(d, TopLayer(infos, d), MaxLayer(info.file.value));
  }

  /** Dimension of the first tensor of the first file. */
  function Dimension(infos: seq<Info>): nat {
    if infos == [] then 0 else OwnDimension(infos[0])
  }

  /** Files that load together have the dimension of the first tensor. */
  lemma DimensionIsForced(infos: seq<Info>, d: nat)
    requires infos != [] && AllLoad(infos, d)
    ensures d == Dimension(infos)
  {
    assert Loads(infos[0], d);
    assert Usable(infos[0].file.value[0], d);
  }

  lemma AllHoldDimension(r: Vectors, infos: seq<Info>, d: nat)
    requires AllHold(r, infos, d)
    ensures AllLoad(infos, d) && r.nEmbd == (if infos == [] then -1 else d) && (infos == [] ==> r.data == [])
  {
  }

  lemma NothingLoaded(d: nat)
    ensures AllHold(FAILED, [], d)
  {
  }

  /** Some file that is reached overflows. */
  ghost predicate AnyOverflow(infos: seq<Info>) {
    exists i :: OverflowReached(infos, i)
  }

  ghost predicate OverflowReached(infos: seq<Info>, i: int) {
    0 <= i < |infos| && AllLoad(infos[..i], Dimension(infos)) && Overflows(infos[i])
  }

  /** `common_control_vector_load`: all files or nothing; None where it overflows. */
  method Load(infos: seq<Info>) returns (r: Option<Vectors>)
    ensures r.None? <==> AnyOverflow(infos)
    ensures r.Some? ==>
              if infos != [] && AllLoad(infos, Dimension(infos)) then AllHold(r.value, infos, Dimension(infos)) else r.value == FAILED
  {
    hide Holds, AllHold, Usable, At, Overflows, Dimension;
    var v := FAILED;
    ghost var d := Dimension(infos);
    var i := 0;
    assert infos[..0] == [];
    NothingLoaded(d);
    while i < |infos|
      invariant 0 <= i <= |infos|
      invariant AllHold(v, infos[..i], d)
      invariant forall k :: 0 <= k < i ==> !Overflows(infos[k])
    {
      AllHoldDimension(v, infos[..i], d);
      var one := LoadOne(infos[i]);
      if one.None? {
        assert OverflowReached(infos, i);
        return None;
      }
      var cur := one.value;
      CurrentDimension(infos[i], cur, d);
      if cur.nEmbd == -1 || (v.nEmbd != -1 && v.nEmbd != cur.nEmbd) {
        SameFirst(infos, v, cur, i);
        StoppedAt(infos, i);
        return Some(FAILED);
      }
      var next := cur;
      if v.nEmbd != -1 {
        var data := AddVectors(v.data, cur.data);
        next := Vectors(v.nEmbd, data);
      } else {
        FirstSum(v.data, cur.data);
        FirstDimension(infos);
      }
      assert infos[..i + 1] == infos[..i] + [infos[i]];
      AllHoldSnoc(v, cur, next, infos[..i], infos[i], d);
      v := next;
      i := i + 1;
    }
    AllHoldDimension(v, infos[..i], d);
    assert infos[..|infos|] == infos;
    r := Some(v);
  }

  lemma FirstDimension(infos: seq<Info>)
    ensures infos != [] ==> Dimension(infos) == OwnDimension(infos[0])
  {
  }

  lemma SameFirst(infos: seq<Info>, v: Vectors, cur: Vectors, i: nat)
    requires i < |infos| && AllHold(v, infos[..i], Dimension(infos)) && LoadedOne(infos[i], cur)
    requires cur.nEmbd == -1 || (v.nEmbd != -1 && v.nEmbd != cur.nEmbd)
    ensures !Loads(infos[i], Dimension(infos))
  {
    CurrentDimension(infos[i], cur, Dimension(infos));
  }

  /** A file that does not load ends the loop before any later file is reached. */
  lemma StoppedAt(infos: seq<Info>, i: nat)
    requires i < |infos| && !Loads(infos[i], Dimension(infos)) && !Overflows(infos[i])
    requires forall k :: 0 <= k < i ==> !Overflows(infos[k])
    ensures !AnyOverflow(infos) && !AllLoad(infos, Dimension(infos))
  {
    assert forall k :: i < k < |infos| ==> infos[..k][i] == infos[i];
  }

  lemma FirstSum(none: seq<real>, data: seq<real>)
    requires none == []
    ensures |data| == Max(|none|, |data|) && forall p: nat :: At(data, p) == At(none, p) + At(data, p)
  {
  }

  lemma CurrentDimension(info: Info, cur: Vectors, d: nat)
    requires LoadedOne(info, cur)
    ensures cur.nEmbd == -1 || (cur.nEmbd == OwnDimension(info) && Loads(info, cur.nEmbd))
    ensures Loads(info, d) ==> cur.nEmbd == d
  {
    if Loads(info, d) {
      assert Usable(info.file.value[0], d);
    }
  }

  // ---------- Layer by layer ----------

  /** Component k of a layer, summed over the tensors of a file that name this layer. */
  function LayerFileSum(ts: seq<Direction>, strength: real, d: nat, layer: int, k: nat): real
    requires AllUsable(ts, d) && k < d
  {
    if ts == [] then 0.0 else
      var t := ts[|ts| - 1];
      LayerFileSum(ts[..|ts| - 1], strength, d, layer, k) + if Layer(t) == layer then strength * t.values[k] else 0.0
  }

  function LayerSum(infos: seq<Info>, d: nat, layer: int, k: nat): real
    requires AllLoad(infos, d) && k < d
  {
    if infos == [] then 0.0 else
      var last := infos[|infos| - 1];
      LayerSum(infos[..|infos| - 1], d, layer, k) + LayerFileSum(last.file.value, last.strength, d, layer, k)
  }

  /** Slices of different layers do not overlap. */
  lemma SlicesAreDisjoint(d: nat, layer: int, other: int, k: nat)
    requires k < d
    ensures d * (other - 1) <= d * (layer - 1) + k < d * (other - 1) + d <==> layer == other
  {
    if layer < other {
      NextMultiple(d, layer - 1, other - 1);
    } else if layer > other {
      NextMultiple(d, other - 1, layer - 1);
    }
  }

  lemma {:induction false} FileSlice(ts: seq<Direction>, strength: real, d: nat, layer: int, k: nat)
    requires AllUsable(ts, d) && k < d && layer > 0 && d * (layer - 1) >= 0
    ensures FileSum(ts, strength, d, d * (layer - 1) + k) == LayerFileSum(ts, strength, d, layer, k)
  {
    if ts != [] {
      hide LayerIndex, FileSum, LayerFileSum;
      var t := ts[|ts| - 1];
      FileSlice(ts[..|ts| - 1], strength, d, layer, k);
      assert Usable(t, d);
      SlicesAreDisjoint(d, layer, Layer(t), k);
    }
  }

  lemma {:induction false} TotalSlice(infos: seq<Info>, d: nat, layer: int, k: nat)
    requires AllLoad(infos, d) && k < d && layer > 0 && d * (layer - 1) >= 0
    ensures TotalSum(infos, d, d * (layer - 1) + k) == LayerSum(infos, d, layer, k)
  {
    if infos != [] {
      var last := infos[|infos| - 1];
      TotalSlice(infos[..|infos| - 1], d, layer, k);
      FileSlice(last.file.value, last.strength, d, layer, k);
    }
  }

  /** A loaded result, layer by layer: every layer up to the largest has its slice, which is its sum. */
  lemma LoadedLayers(r: Vectors, infos: seq<Info>, d: nat, layer: int, k: nat)
    requires AllHold(r, infos, d) && 0 < layer <= TopLayer(infos, d) && k < d
    ensures 0 <= d * (layer - 1) + k < |r.data| && r.data[d * (layer - 1) + k] == LayerSum(infos, d, layer, k)
  {
    hide TotalSum, LayerSum, TopLayer;
    var top := TopLayer(infos, d);
    Offset(d, layer);
    assert d * top == d * layer + d * (top - layer);
    assert d * (top - layer) >= 0;
    TotalSlice(infos, d, layer, k);
    var p: nat := d * (layer - 1) + k;
    assert At(r.data, p) == TotalSum(infos, d, p);
  }

  // ---------- The order of the files ----------

  lemma LastFile(infos: seq<Info>, d: nat, p: nat)
    requires AllLoad(infos, d) && infos != []
    ensures var last, before := infos[|infos| - 1], infos[..|infos| - 1];
            && AllLoad(before, d) && Loads(last, d)
            && TotalSum(infos, d, p) == TotalSum(before, d, p) + FileSum(last.file.value, last.strength, d, p)
            && TopLayer(infos, d) == Max(TopLayer(before, d), MaxLayer(last.file.value))
  {
  }

  lemma {:induction false} SumOfBlocks(a: seq<Info>, b: seq<Info>, d: nat, p: nat)
    requires AllLoad(a, d) && AllLoad(b, d)
    ensures AllLoad(a + b, d)
    ensures TotalSum(a + b, d, p) == TotalSum(a, d, p) + TotalSum(b, d, p)
    ensures TopLayer(a + b, d) == Max(TopLayer(a, d), TopLayer(b, d))
    decreases |b|
  {
    hide Loads, FileSum, MaxLayer;
    if b == [] {
      assert a + b == a;
    } else {
      var all := a + b;
      SumOfBlocks(a, b[..|b| - 1], d, p);
      assert all[..|all| - 1] == a + b[..|b| - 1];
      assert all[|all| - 1] == b[|b| - 1];
      LastFile(all, d, p);
      LastFile(b, d, p);
    }
  }

  lemma BlockLoads(a: seq<Info>, b: seq<Info>, d: nat)
    requires AllLoad(a + b, d)
    ensures AllLoad(a, d) && AllLoad(b, d)
  {
    assert forall i :: 0 <= i < |a| ==> a[i] == (a + b)[i];
    assert forall i :: 0 <= i < |b| ==> b[i] == (a + b)[|a| + i];
  }

  lemma WithoutOne(infos: seq<Info>, i: nat, d: nat, p: nat)
    requires AllLoad(infos, d) && i < |infos|
    ensures var rest, x := infos[..i] + infos[i + 1..], infos[i];
            && AllLoad(rest, d) && Loads(x, d)
            && TotalSum(infos, d, p) == TotalSum(rest, d, p) + FileSum(x.file.value, x.strength, d, p)
            && TopLayer(infos, d) == Max(TopLayer(rest, d), MaxLayer(x.file.value))
  {
    hide TotalSum, TopLayer, FileSum, MaxLayer, Loads;
    var a, b, x := infos[..i], infos[i + 1..], [infos[i]];
    assert infos == (a + x) + b && (a + x)[..i] == a && (a + x)[i] == infos[i];
    BlockLoads(a + x, b, d);
    BlockLoads(a, x, d);
    SumOfBlocks(a + x, b, d, p);
    SumOfBlocks(a, b, d, p);
    LastFile(a + x, d, p);
  }

  lemma WithoutItem<T>(s: seq<T>, i: nat)
    requires i < |s|
    ensures multiset(s) == multiset(s[..i] + s[i + 1..]) + multiset{s[i]}
  {
    assert s == s[..i] + [s[i]] + s[i + 1..];
  }

  lemma WithoutLast<T>(s: seq<T>)
    requires s != []
    ensures multiset(s) == multiset(s[..|s| - 1]) + multiset{s[|s| - 1]}
  {
    assert s == s[..|s| - 1] + [s[|s| - 1]];
  }

  /** Sums and the largest layer do not depend on the order of the files. */
  lemma {:induction false} SameSums(infos: seq<Info>, other: seq<Info>, d: nat, p: nat)
    requires AllLoad(infos, d) && AllLoad(other, d) && multiset(infos) == multiset(other)
    ensures TotalSum(infos, d, p) == TotalSum(other, d, p) && TopLayer(infos, d) == TopLayer(other, d)
    decreases |infos|
  {
    hide FileSum, MaxLayer, Loads;
    if infos == [] {
      assert |multiset(other)| == 0;
    } else {
      var i := PlaceOf(infos, other);
      var n := |infos| - 1;
      LastFile(infos, d, p);
      WithoutOne(other, i, d, p);
      SameSums(infos[..n], other[..i] + other[i + 1..], d, p);
    }
  }

  /** The last item of one list stands somewhere in the other, and the rest are the same items. */
  lemma PlaceOf<T>(s: seq<T>, other: seq<T>) returns (i: nat)
    requires s != [] && multiset(s) == multiset(other)
    ensures i < |other| && other[i] == s[|s| - 1]
    ensures multiset(s[..|s| - 1]) == multiset(other[..i] + other[i + 1..])
  {
    var x := s[|s| - 1];
    assert x in multiset(s);
    assert x in other;
    i :| 0 <= i < |other| && other[i] == x;
    WithoutLast(s);
    WithoutItem(other, i);
    assert multiset(s[..|s| - 1]) == multiset(s) - multiset{x};
    assert multiset(other[..i] + other[i + 1..]) == multiset(other) - multiset{x};
  }

  /** Files in any order give the same vectors. */
  lemma OrderOfFilesIsIrrelevant(r: Vectors, s: Vectors, infos: seq<Info>, other: seq<Info>, d: nat)
    requires AllHold(r, infos, d) && AllHold(s, other, d) && multiset(infos) == multiset(other)
    ensures r == s
  {
    hide TotalSum, TopLayer;
    assert infos == [] <==> other == [] by {
      assert |multiset(infos)| == |infos| && |multiset(other)| == |other|;
    }
    SameSums(infos, other, d, 0);
    forall p | 0 <= p < |r.data| ensures r.data[p] == s.data[p] {
      SameSums(infos, other, d, p);
      assert At(r.data, p) == At(s.data, p);
    }
  }
}
