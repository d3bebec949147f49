/**
 Entropy coding of one quantised 8x8 block in zigzag order: the encoder of stb_image_write and
 the decoding procedures of sections F.2.2.1 and F.2.2.2 of ITU-T T.81.
 */
module JpegBlock {
  import opened Arith
  import opened BitStrings
  import opened Common

  // ---------------------------------------------------------------- magnitudes

  /** How many bits a positive number has. */
  function SizeOf(a: nat): (n: nat)
    ensures n >= 1
  {
    if a < 2 then 1 else SizeOf(a / 2) + 1
  }

  lemma {:induction false} SizeBounds(a: nat)
    requires a >= 1
    ensures Pow2(SizeOf(a) - 1) <= a < Pow2(SizeOf(a))
  {
    if a >= 2 {
      SizeBounds(a / 2);
    }
  }

  /** x & (m - 1), for a power of two m. */
  function Masked(x: int, m: nat): nat
    requires m >= 1
  {
    x % m
  }

  /** EXTEND of section F.2.2.1. */
  function Extend(v: nat, t: nat): int
    requires t >= 1
  {
    if v < Pow2(t - 1) then v - Pow2(t) + 1 else v
  }

  /** The number that stands for a coefficient of n bits; negative ones are decremented first. */
  function Magnitude(val: int): nat { Masked(if val < 0 then val - 1 else val, Pow2(SizeOf(Abs(val)))) }

  lemma MaskedSmall(x: int, m: nat)
    requires m >= 1 && 0 - m <= x < m
    ensures Masked(x, m) == if x < 0 then x + m else x
  {
    DivModUnique(if x < 0 then -1 else 0, m, if x < 0 then x + m else x);
  }

  /** Extending the magnitude bits gives the coefficient back. */
  lemma MagnitudeExtends(val: int)
    requires val != 0
    ensures Magnitude(val) < Pow2(SizeOf(Abs(val))) && Extend(Magnitude(val), SizeOf(Abs(val))) == val
  {
    var n := SizeOf(Abs(val));
    SizeBounds(Abs(val));
    MaskedSmall(if val < 0 then val - 1 else val, Pow2(n));
    assert Pow2(n) == 2 * Pow2(n - 1);
  }

  /** The bits of a magnitude: a positive number as it is, a negative one with all bits inverted. */
  lemma MagnitudeBits(val: int)
    requires val != 0
    ensures Pow2(SizeOf(Abs(val)) - 1) <= Abs(val) < Pow2(SizeOf(Abs(val)))
    ensures Magnitude(val) == if val > 0 then val else Pow2(SizeOf(Abs(val))) - 1 - Abs(val)
  {
    var n := SizeOf(Abs(val));
    SizeBounds(Abs(val));
    MaskedSmall(if val < 0 then val - 1 else val, Pow2(n));
  }

  // ---------------------------------------------------------------- symbols

  /** A decoded symbol and the bits after it. */
  datatype Symbol = Symbol(s: nat, rest: seq<bool>)

  type SymbolDecoder = seq<bool> -> Option<Symbol>
  type SymbolCode = nat -> seq<bool>

  predicate ReadsAt(dec: SymbolDecoder, code: SymbolCode, s: nat, rest: seq<bool>) {
    dec(code(s) + rest) == Some(Symbol(s, rest))
  }

  /** The decoder recognises the code of s, whatever follows. */
  ghost predicate Reads(dec: SymbolDecoder, code: SymbolCode, s: nat) {
    forall rest {:trigger ReadsAt(dec, code, s, rest)} :: ReadsAt(dec, code, s, rest)
  }

  /** It recognises end-of-block, sixteen zeros, and all run/size symbols with up to 10 bits. */
  ghost predicate ReadsAc(dec: SymbolDecoder, code: SymbolCode) {
    && Reads(dec, code, 0) && Reads(dec, code, 0xf0)
    && forall r, s {:trigger RunSize(r, s)} :: 0 <= r < 16 && 1 <= s <= 10 ==> Reads(dec, code, RunSize(r, s))
  }

  function RunSize(r: nat, s: nat): nat { r * 16 + s }

  // ---------------------------------------------------------------- AC coefficients

  function Zeros(n: nat): (r: seq<int>)
    ensures |r| == n && forall i :: 0 <= i < n ==> r[i] == 0
  {
    seq(n, _ => 0)
  }

  /** Coefficients and the bits after them. */
  datatype Coeffs = Coeffs(cs: seq<int>, rest: seq<bool>)

  function Prepend(cs: seq<int>, c: Option<Coeffs>): Option<Coeffs> {
    match c
    case None => None
    case Some(d) => Some(Coeffs(cs + d.cs, d.rest))
  }

  /** Section F.2.2.2: coefficients k to 63. */
  function DecodeAc(dec: SymbolDecoder, bits: seq<bool>, k: nat): Option<Coeffs>
    requires k <= 64
    decreases 64 - k
  {
    if k == 64 then Some(Coeffs([], bits)) else
      match dec(bits)
      case None => None
      case Some(sym) => AcSymbol(dec, sym.s / 16, sym.s % 16, sym.rest, k)
  }

  function AcSymbol(dec: SymbolDecoder, r: nat, s: nat, rest: seq<bool>, k: nat): Option<Coeffs>
    requires k < 64
    decreases 64 - k, 0
  {
    if s == 0 then
      if r != 15 then Some(Coeffs(Zeros(64 - k), rest))
      else if k + 16 > 63 then None
      else Prepend(Zeros(16), DecodeAc(dec, rest, k + 16))
    else if k + r > 63 || |rest| < s then None
    else Prepend(Zeros(r) + [Extend(Value(rest[..s]), s)], DecodeAc(dec, rest[s..], k + r + 1))
  }

  /** The first place from k on that is not zero, if there is one up to `end`. */
  function NextNonzero(du: seq<int>, k: nat, end: nat): (z: nat)
    requires k <= end < |du| && du[end] != 0
    ensures k <= z <= end && du[z] != 0 && forall j :: k <= j < z ==> du[j] == 0
    decreases end - k
  {
    if du[k] != 0 then k else NextNonzero(du, k + 1, end)
  }

  /** m codes for sixteen zeros. */
  function ManyZeros(code: SymbolCode, m: nat): seq<bool> { if m == 0 then [] else ManyZeros(code, m - 1) + code(0xf0) }

  /** One coefficient after `run` zeros. */
  function CoeffBits(code: SymbolCode, run: nat, val: int): seq<bool> {
    var n := SizeOf(Abs(val));
    ManyZeros(code, run / 16) + (code(RunSize(run % 16, n)) + Bits(Magnitude(val), n))
  }

  /** How one coefficient after a run of zeros is written. */
  type Coder = (nat, int) -> seq<bool>

  function CoderOf(code: SymbolCode): Coder { (run: nat, val: int) => CoeffBits(code, run, val) }

  /** The codes for coefficients k to 63, the last of which that is not zero is at `end`. */
  function EncodeAc(coeff: Coder, eob: seq<bool>, du: seq<int>, k: nat, end: nat): seq<bool>
    requires end < |du| == 64 && k <= end + 1 && (k <= end ==> du[end] != 0)
    decreases end + 1 - k
  {
    if k == end + 1 then if end == 63 then [] else eob
    else
      var z := NextNonzero(du, k, end);
      coeff(z - k, du[z]) + EncodeAc(coeff, eob, du, z + 1, end)
  }

  lemma PrependTwice(a: seq<int>, b: seq<int>, c: Option<Coeffs>)
    ensures Prepend(a, Prepend(b, c)) == Prepend(a + b, c)
  {
    if c.Some? {
      assert a + (b + c.value.cs) == (a + b) + c.value.cs;
    }
  }

  lemma ZerosAdd(m: nat, n: nat)
    ensures Zeros(m) + Zeros(n) == Zeros(m + n)
  {
  }

  lemma SixteenZeros(dec: SymbolDecoder, code: SymbolCode, tail: seq<bool>, k: nat)
    requires Reads(dec, code, 0xf0) && k + 16 <= 63
    ensures DecodeAc(dec, code(0xf0) + tail, k) == Prepend(Zeros(16), DecodeAc(dec, tail, k + 16))
  {
    assert ReadsAt(dec, code, 0xf0, tail);
  }

  lemma {:induction false} ManyZerosDecode(dec: SymbolDecoder, code: SymbolCode, m: nat, tail: seq<bool>, k: nat)
    requires Reads(dec, code, 0xf0) && k + 16 * m <= 63
    ensures DecodeAc(dec, ManyZeros(code, m) + tail, k) == Prepend(Zeros(16 * m), DecodeAc(dec, tail, k + 16 * m))
  {
    if m == 0 {
      assert ManyZeros(code, 0) + tail == tail;
      PrependNothing(Zeros(0), DecodeAc(dec, tail, k));
    } else {
      assert ManyZeros(code, m) + tail == ManyZeros(code, m - 1) + (code(0xf0) + tail);
      ManyZerosDecode(dec, code, m - 1, code(0xf0) + tail, k);
      SixteenZeros(dec, code, tail, k + 16 * (m - 1));
      PrependTwice(Zeros(16 * (m - 1)), Zeros(16), DecodeAc(dec, tail, k + 16 * m));
      ZerosAdd(16 * (m - 1), 16);
    }
  }

  lemma PrependNothing(cs: seq<int>, c: Option<Coeffs>)
    requires cs == []
    ensures Prepend(cs, c) == c
  {
    if c.Some? {
      assert cs + c.value.cs == c.value.cs;
    }
  }

  lemma RunSizeParts(r: nat, s: nat)
    requires r < 16 && s < 16
    ensures RunSize(r, s) / 16 == r && RunSize(r, s) % 16 == s
  {
  }

  /** A run/size symbol with its magnitude bits. */
  lemma OneCoefficient(dec: SymbolDecoder, code: SymbolCode, r: nat, val: int, tail: seq<bool>, k: nat)
    requires ReadsAc(dec, code) && r < 16 && k + r <= 63 && val != 0 && SizeOf(Abs(val)) <= 10
    ensures var n := SizeOf(Abs(val));
            DecodeAc(dec, code(RunSize(r, n)) + Bits(Magnitude(val), n) + tail, k)
            == Prepend(Zeros(r) + [val], DecodeAc(dec, tail, k + r + 1))
  {
    var n := SizeOf(Abs(val));
    var mag := Bits(Magnitude(val), n);
    MagnitudeExtends(val);
    ValueOfBits(Magnitude(val), n);
    RunSizeParts(r, n);
    assert Reads(dec, code, RunSize(r, n));
    assert ReadsAt(dec, code, RunSize(r, n), mag + tail);
    assert code(RunSize(r, n)) + mag + tail == code(RunSize(r, n)) + (mag + tail);
    assert (mag + tail)[..n] == mag && (mag + tail)[n..] == tail;
  }

  lemma CoefficientDecodes(dec: SymbolDecoder, code: SymbolCode, run: nat, val: int, tail: seq<bool>, k: nat)
    requires ReadsAc(dec, code) && k + run <= 63 && val != 0 && SizeOf(Abs(val)) <= 10
    ensures DecodeAc(dec, CoeffBits(code, run, val) + tail, k) == Prepend(Zeros(run) + [val], DecodeAc(dec, tail, k + run + 1))
  {
    var (n, m, r) := (SizeOf(Abs(val)), run / 16, run % 16);
    var one := code(RunSize(r, n)) + Bits(Magnitude(val), n);
    assert ManyZeros(code, m) + one + tail == ManyZeros(code, m) + (one + tail);
    ManyZerosDecode(dec, code, m, one + tail, k);
    OneCoefficient(dec, code, r, val, tail, k + 16 * m);
    PrependTwice(Zeros(16 * m), Zeros(r) + [val], DecodeAc(dec, tail, k + run + 1));
    assert Zeros(16 * m) + (Zeros(r) + [val]) == Zeros(run) + [val];
  }

  /** AC coefficients that the tables can code, all zero after `end`. */
  ghost predicate Codable(du: seq<int>, end: nat) {
    && |du| == 64 && end < 64 && (end > 0 ==> du[end] != 0)
    && (forall j :: end < j < 64 ==> du[j] == 0)
    && (forall j :: 1 <= j < 64 && du[j] != 0 ==> Small(du[j]))
  }

  /** Decode coefficients k to 63. */
  type AcDecoder = (seq<bool>, nat) -> Option<Coeffs>

  function AcDecoderOf(dec: SymbolDecoder): AcDecoder { (bits: seq<bool>, k: nat) => if k <= 64 then DecodeAc(dec, bits, k) else None }

  predicate TakesAt(ac: AcDecoder, coeff: Coder, run: nat, val: int, k: nat, tail: seq<bool>) {
    ac(coeff(run, val) + tail, k) == Prepend(Zeros(run) + [val], ac(tail, k + run + 1))
  }

  predicate Small(val: int) { val != 0 && SizeOf(Abs(val)) <= 10 }

  /** The decoder takes a coefficient of up to 10 bits with the zeros before it. */
  ghost predicate Takes(ac: AcDecoder, coeff: Coder) {
    forall run: nat, val: int, k: nat, tail {:trigger TakesAt(ac, coeff, run, val, k, tail)} ::
      k + run <= 63 && Small(val) ==> TakesAt(ac, coeff, run, val, k, tail)
  }

  predicate EndsAt(ac: AcDecoder, eob: seq<bool>, k: nat, tail: seq<bool>) {
    if k == 64 then ac(tail, k) == Some(Coeffs([], tail)) else k < 64 && ac(eob + tail, k) == Some(Coeffs(Zeros(64 - k), tail))
  }

  /** It stops after coefficient 63 and fills up with zeros at the end of the block. */
  ghost predicate Ends(ac: AcDecoder, eob: seq<bool>) {
    forall k: nat, tail {:trigger EndsAt(ac, eob, k, tail)} :: k <= 64 ==> EndsAt(ac, eob, k, tail)
  }

  lemma DecoderTakesAt(dec: SymbolDecoder, code: SymbolCode, run: nat, val: int, k: nat, tail: seq<bool>)
    requires ReadsAc(dec, code) && k + run <= 63 && Small(val)
    ensures TakesAt(AcDecoderOf(dec), CoderOf(code), run, val, k, tail)
  {
    CoefficientDecodes(dec, code, run, val, tail, k);
  }

  lemma DecoderTakes(dec: SymbolDecoder, code: SymbolCode, ac: AcDecoder, coeff: Coder)
    requires (var known := ReadsAc(dec, code); known) && ac == AcDecoderOf(dec) && coeff == CoderOf(code)
    ensures Takes(ac, coeff)
  {
    forall run: nat, val: int, k: nat, tail {:trigger TakesAt(ac, coeff, run, val, k, tail)} | k + run <= 63 && Small(val)
      ensures TakesAt(ac, coeff, run, val, k, tail)
    {
      DecoderTakesAt(dec, code, run, val, k, tail);
    }
  }

  lemma DecoderEnds(dec: SymbolDecoder, code: SymbolCode)
    requires ReadsAc(dec, code)
    ensures Ends(AcDecoderOf(dec), code(0))
  {
    forall k: nat, tail {:trigger EndsAt(AcDecoderOf(dec), code(0), k, tail)} | k <= 64
      ensures EndsAt(AcDecoderOf(dec), code(0), k, tail)
    {
      if k < 64 {
        EobDecodes(dec, code, k, tail);
      }
    }
  }

  lemma EobDecodes(dec: SymbolDecoder, code: SymbolCode, k: nat, tail: seq<bool>)
    requires Reads(dec, code, 0) && k < 64
    ensures DecodeAc(dec, code(0) + tail, k) == Some(Coeffs(Zeros(64 - k), tail))
  {
    assert ReadsAt(dec, code, 0, tail);
  }

  /** These bits decode to the coefficients from k on, and what follows is left. */
  predicate Gives(ac: AcDecoder, bits: seq<bool>, du: seq<int>, k: nat, tail: seq<bool>) {
    k <= |du| && ac(bits + tail, k) == Some(Coeffs(du[k..], tail))
  }

  predicate ZeroFrom(du: seq<int>, k: nat, z: nat) { forall j :: k <= j < z <= |du| ==> du[j] == 0 }

  lemma SmallNext(du: seq<int>, k: nat, end: nat)
    requires Codable(du, end) && 1 <= k <= end
    ensures var z := NextNonzero(du, k, end);
            var next := k <= z <= end && Small(du[z]) && ZeroFrom(du, k, z); next
  {
  }

  lemma AcStep(ac: AcDecoder, coeff: Coder, du: seq<int>, k: nat, z: nat, rest: seq<bool>, tail: seq<bool>)
    requires var takes := Takes(ac, coeff); takes
    requires |du| == 64 && k <= z < 64 && Small(du[z]) && ZeroFrom(du, k, z)
    requires Gives(ac, rest, du, z + 1, tail)
    ensures Gives(ac, coeff(z - k, du[z]) + rest, du, k, tail)
  {
    assert coeff(z - k, du[z]) + rest + tail == coeff(z - k, du[z]) + (rest + tail);
    assert TakesAt(ac, coeff, z - k, du[z], k, rest + tail);
    assert du[k..] == Zeros(z - k) + [du[z]] + du[z + 1..];
  }

  lemma EncodeStep(coeff: Coder, eob: seq<bool>, du: seq<int>, i: nat, end: nat)
    requires i <= end < |du| == 64 && du[end] != 0
    ensures var z := NextNonzero(du, i, end);
            EncodeAc(coeff, eob, du, i, end) == coeff(z - i, du[z]) + EncodeAc(coeff, eob, du, z + 1, end)
  {
  }

  lemma EncodedStep(ac: AcDecoder, coeff: Coder, eob: seq<bool>, du: seq<int>, k: nat, z: nat, end: nat, tail: seq<bool>)
    requires var takes := Takes(ac, coeff); takes
    requires (var codable := Codable(du, end); codable) && 1 <= k <= end && z == NextNonzero(du, k, end)
    requires var gives := Gives(ac, EncodeAc(coeff, eob, du, z + 1, end), du, z + 1, tail); gives
    ensures var gives := Gives(ac, EncodeAc(coeff, eob, du, k, end), du, k, tail); gives
  {
    EncodeStep(coeff, eob, du, k, end);
    SmallNext(du, k, end);
    AcStep(ac, coeff, du, k, z, EncodeAc(coeff, eob, du, z + 1, end), tail);
  }

  /** Decoding returns all coefficients from k on, whatever follows. */
  lemma {:induction false} AcDecodes(ac: AcDecoder, coeff: Coder, eob: seq<bool>, du: seq<int>, k: nat, end: nat, tail: seq<bool>)
    requires var suited := Takes(ac, coeff) && Ends(ac, eob); suited
    requires (var codable := Codable(du, end); codable) && 1 <= k <= end + 1
    ensures var gives := Gives(ac, EncodeAc(coeff, eob, du, k, end), du, k, tail); gives
    decreases end + 1 - k
  {
    if k == end + 1 {
      EndStep(ac, coeff, eob, du, end, tail);
    } else {
      var z := NextNonzero(du, k, end);
      AcDecodes(ac, coeff, eob, du, z + 1, end, tail);
      EncodedStep(ac, coeff, eob, du, k, z, end, tail);
    }
  }

  lemma EndStep(ac: AcDecoder, coeff: Coder, eob: seq<bool>, du: seq<int>, end: nat, tail: seq<bool>)
    requires Ends(ac, eob) && Codable(du, end)
    ensures Gives(ac, EncodeAc(coeff, eob, du, end + 1, end), du, end + 1, tail)
  {
    assert EndsAt(ac, eob, end + 1, tail);
    if end == 63 {
      assert [] + tail == tail;
      assert du[64..] == [];
    } else {
      assert du[end + 1..] == Zeros(64 - (end + 1));
    }
  }

  // ---------------------------------------------------------------- the block

  /** The DC difference: its size, then its magnitude unless it is zero. */
  function EncodeDc(code: SymbolCode, diff: int): seq<bool> {
    if diff == 0 then code(0) else code(SizeOf(Abs(diff))) + Bits(Magnitude(diff), SizeOf(Abs(diff)))
  }

  /** Section F.2.2.1. */
  function DecodeDc(dec: SymbolDecoder, bits: seq<bool>): Option<Coeffs> {
    match dec(bits)
    case None => None
    case Some(sym) =>
      if sym.s == 0 then Some(Coeffs([0], sym.rest))
      else if |sym.rest| < sym.s then None
      else Some(Coeffs([Extend(Value(sym.rest[..sym.s]), sym.s)], sym.rest[sym.s..]))
  }

  /** It recognises the sizes 0 to 11. */
  ghost predicate ReadsDc(dec: SymbolDecoder, code: SymbolCode) { forall s :: 0 <= s <= 11 ==> Reads(dec, code, s) }

  lemma DcDecodes(dec: SymbolDecoder, code: SymbolCode, diff: int, tail: seq<bool>)
    requires ReadsDc(dec, code) && (diff != 0 ==> SizeOf(Abs(diff)) <= 11)
    ensures DecodeDc(dec, EncodeDc(code, diff) + tail) == Some(Coeffs([diff], tail))
  {
    if diff == 0 {
      assert Reads(dec, code, 0);
      assert ReadsAt(dec, code, 0, tail);
    } else {
      var n := SizeOf(Abs(diff));
      var mag := Bits(Magnitude(diff), n);
      MagnitudeExtends(diff);
      ValueOfBits(Magnitude(diff), n);
      assert Reads(dec, code, n);
      assert ReadsAt(dec, code, n, mag + tail);
      assert code(n) + mag + tail == code(n) + (mag + tail);
      assert (mag + tail)[..n] == mag && (mag + tail)[n..] == tail;
    }
  }

  function EncodeBlock(dcCode: SymbolCode, acCode: SymbolCode, du: seq<int>, pred: int, end: nat): seq<bool>
    requires end < |du| == 64 && (end > 0 ==> du[end] != 0)
  {
    EncodeDc(dcCode, du[0] - pred) + EncodeAc(CoderOf(acCode), acCode(0), du, 1, end)
  }

  /** A block in zigzag order and the bits after it, given the DC coefficient of the block before. */
  function DecodeBlock(dcDec: SymbolDecoder, acDec: SymbolDecoder, bits: seq<bool>, pred: int): Option<Coeffs> {
    match DecodeDc(dcDec, bits)
    case None => None
    case Some(dc) => if |dc.cs| != 1 then None else Prepend([pred + dc.cs[0]], DecodeAc(acDec, dc.rest, 1))
  }

  /** Decoding what the encoder writes returns the block and leaves what follows. */
  lemma BlockDecodes(dcDec: SymbolDecoder, dcCode: SymbolCode, acDec: SymbolDecoder, acCode: SymbolCode,
                     du: seq<int>, pred: int, end: nat, tail: seq<bool>)
    requires ReadsDc(dcDec, dcCode) && ReadsAc(acDec, acCode) && Codable(du, end)
    requires du[0] != pred ==> SizeOf(Abs(du[0] - pred)) <= 11
    ensures DecodeBlock(dcDec, acDec, EncodeBlock(dcCode, acCode, du, pred, end) + tail, pred) == Some(Coeffs(du, tail))
  {
    var (dc, ac) := (EncodeDc(dcCode, du[0] - pred), EncodeAc(CoderOf(acCode), acCode(0), du, 1, end));
    DcDecodes(dcDec, dcCode, du[0] - pred, ac + tail);
    AllAcDecodes(acDec, acCode, du, end, tail);
    BlockJoins(dcDec, acDec, dc, ac, du, pred, tail);
  }

  lemma AllAcDecodes(dec: SymbolDecoder, code: SymbolCode, du: seq<int>, end: nat, tail: seq<bool>)
    requires ReadsAc(dec, code) && Codable(du, end)
    ensures DecodeAc(dec, EncodeAc(CoderOf(code), code(0), du, 1, end) + tail, 1) == Some(Coeffs(du[1..], tail))
  {
    DecoderTakes(dec, code, AcDecoderOf(dec), CoderOf(code));
    DecoderEnds(dec, code);
    AcDecodes(AcDecoderOf(dec), CoderOf(code), code(0), du, 1, end, tail);
  }

  lemma BlockJoins(dcDec: SymbolDecoder, acDec: SymbolDecoder, dc: seq<bool>, ac: seq<bool>, du: seq<int>, pred: int, tail: seq<bool>)
    requires |du| == 64
    requires DecodeDc(dcDec, dc + (ac + tail)) == Some(Coeffs([du[0] - pred], ac + tail))
    requires DecodeAc(acDec, ac + tail, 1) == Some(Coeffs(du[1..], tail))
    ensures DecodeBlock(dcDec, acDec, dc + ac + tail, pred) == Some(Coeffs(du, tail))
  {
    assert dc + ac + tail == dc + (ac + tail);
    assert [du[0]] + du[1..] == du;
  }
}
