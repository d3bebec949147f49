/** The coding half of stbiw__jpg_processDU, writing through the bit writer. */
module JpegEncoder {
  import opened BitStrings
  import opened Common
  import opened JpegBits
  import opened JpegBlock
  import opened JpegHuffman

  /** stbiw__jpg_calcBits; for zero it answers one bit. */
  method CalcBits(val: int) returns (bits: Code)
    ensures bits == Code(Magnitude(val), SizeOf(Abs(val)))
    ensures val != 0 ==> bits.value < Pow2(bits.len) && Extend(bits.value, bits.len) == val
  {
    var tmp: nat := Abs(val);
    var v := if val < 0 then val - 1 else val;
    var len := 1;
    tmp := tmp / 2;
    while tmp != 0
      invariant len >= 1 && SizeOf(Abs(val)) == if tmp == 0 then len else len + SizeOf(tmp)
      decreases tmp
    {
      len := len + 1;
      tmp := tmp / 2;
    }
    bits := Code(Masked(v, Pow2(len)), len);
    if val != 0 {
      MagnitudeExtends(val);
    }
  }

  /** The tables code everything in the block. */
  predicate Ready(du: seq<int>, dc: int) {
    && |du| == 64 && (du[0] != dc ==> SizeOf(Abs(du[0] - dc)) <= 11)
    && forall j :: 1 <= j < 64 && du[j] != 0 ==> Small(du[j])
  }

  lemma UseDc(htdc: Table, head: Dht, s: nat)
    requires DcTable(htdc, head) && s <= 11
    ensures s < |htdc| && htdc[s].Fits()
  {
    assert Coded(head, htdc, s);
    CodeFits(head, htdc, s);
  }

  lemma UseAc(htac: Table, head: Dht, r: nat, s: nat)
    requires AcTable(htac, head) && r < 16 && ((1 <= s <= 10) || (s == 0 && (r == 0 || r == 15)))
    ensures RunSize(r, s) < |htac| && htac[RunSize(r, s)].Fits()
  {
    CodeFits(head, htac, RunSize(r, s));
  }

  /** The DC part. */
  method WriteDc(w: BitWriter, diff: int, htdc: Table, ghost head: Dht)
    requires (var valid := w.Valid(); valid) && (var ok := DcTable(htdc, head); ok) && (diff != 0 ==> SizeOf(Abs(diff)) <= 11)
    modifies w
    ensures (var valid := w.Valid(); valid) && w.content == old(w.content) + EncodeDc(CodeOf(htdc), diff)
  {
    if diff == 0 {
      UseDc(htdc, head, 0);
      w.WriteBits(htdc[0]);
    } else {
      var bits := CalcBits(diff);
      UseDc(htdc, head, bits.len);
      w.WriteBits(htdc[bits.len]);
      w.WriteBits(bits);
      Associative(old(w.content), htdc[bits.len].AsBits(), bits.AsBits());
    }
  }

  /** end0pos: the last place that is not zero, or 0. */
  method LastNonzero(du: seq<int>) returns (end: nat)
    requires |du| == 64
    ensures end < 64 && (end > 0 ==> du[end] != 0) && forall j :: end < j < 64 ==> du[j] == 0
  {
    end := 63;
    while end > 0 && du[end] == 0
      invariant end < 64 && forall j :: end < j < 64 ==> du[j] == 0
    {
      end := end - 1;
    }
  }

  /** Skip zeros from i on. */
  method SkipZeros(du: seq<int>, start: nat, end: nat) returns (i: nat)
    requires |du| == 64 && start <= end < 64 && du[end] != 0
    ensures start <= i <= end && i == NextNonzero(du, start, end)
  {
    i := start;
    while du[i] == 0 && i <= end
      invariant start <= i <= end && NextNonzero(du, start, end) == NextNonzero(du, i, end)
      decreases end - i
    {
      i := i + 1;
    }
  }

  /** lng codes for sixteen zeros. */
  method WriteZeroRuns(w: BitWriter, lng: nat, htac: Table, ghost head: Dht)
    requires (var valid := w.Valid(); valid) && (var ok := AcTable(htac, head); ok)
    modifies w
    ensures (var valid := w.Valid(); valid) && w.content == old(w.content) + ManyZeros(CodeOf(htac), lng)
  {
    assert old(w.content) + [] == old(w.content);
    UseAc(htac, head, 15, 0);
    for marker := 0 to lng
      invariant (var valid := w.Valid(); valid) && w.content == old(w.content) + ManyZeros(CodeOf(htac), marker)
    {
      Associative(old(w.content), ManyZeros(CodeOf(htac), marker), htac[0xf0].AsBits());
      w.WriteBits(htac[0xf0]);
    }
  }

  /** Sixteens of zeros, if there are any; what is left goes with the coefficient. */
  method WriteLongRun(w: BitWriter, run: nat, htac: Table, ghost head: Dht) returns (nrzeroes: nat)
    requires (var valid := w.Valid(); valid) && (var ok := AcTable(htac, head); ok)
    modifies w
    ensures (var valid := w.Valid(); valid) && nrzeroes == run % 16
    ensures w.content == old(w.content) + ManyZeros(CodeOf(htac), run / 16)
  {
    nrzeroes := run;
    if nrzeroes >= 16 {
      WriteZeroRuns(w, nrzeroes / 16, htac, head);
      nrzeroes := nrzeroes % 16;
    } else {
      assert w.content + [] == w.content;
    }
  }

  /** A run/size symbol and the magnitude bits. */
  method WriteSymbol(w: BitWriter, r: nat, val: int, htac: Table, ghost head: Dht)
    requires (var valid := w.Valid(); valid) && (var ok := AcTable(htac, head); ok) && r < 16 && Small(val)
    modifies w
    ensures var valid := w.Valid(); valid
    ensures var n := SizeOf(Abs(val)); w.content == old(w.content) + (CodeOf(htac)(RunSize(r, n)) + Bits(Magnitude(val), n))
  {
    var bits := CalcBits(val);
    UseAc(htac, head, r, bits.len);
    var sym := htac[RunSize(r, bits.len)];
    w.WriteBits(sym);
    w.WriteBits(bits);
    Associative(old(w.content), sym.AsBits(), bits.AsBits());
  }

  /** One coefficient after `run` zeros. */
  method WriteCoefficient(w: BitWriter, run: nat, val: int, htac: Table, ghost head: Dht)
    requires (var valid := w.Valid(); valid) && (var ok := AcTable(htac, head); ok) && Small(val)
    modifies w
    ensures (var valid := w.Valid(); valid) && w.content == old(w.content) + CoeffBits(CodeOf(htac), run, val)
  {
    var nrzeroes := WriteLongRun(w, run, htac, head);
    WriteSymbol(w, nrzeroes, val, htac, head);
    ghost var n := SizeOf(Abs(val));
    Associative(old(w.content), ManyZeros(CodeOf(htac), run / 16), CodeOf(htac)(RunSize(nrzeroes, n)) + Bits(Magnitude(val), n));
  }

  predicate CodesAt(coeff: Coder, htac: Table, run: nat, val: int) { coeff(run, val) == CoeffBits(CodeOf(htac), run, val) }

  /** The coder that belongs to a table. */
  ghost predicate Codes(coeff: Coder, htac: Table) {
    forall run: nat, val: int {:trigger CodesAt(coeff, htac, run, val)} :: CodesAt(coeff, htac, run, val)
  }

  method WriteCoded(w: BitWriter, run: nat, val: int, htac: Table, ghost head: Dht, ghost coeff: Coder)
    requires (var valid := w.Valid(); valid) && Small(val)
    requires var given := AcTable(htac, head) && Codes(coeff, htac); given
    modifies w
    ensures (var valid := w.Valid(); valid) && w.content == old(w.content) + coeff(run, val)
  {
    WriteCoefficient(w, run, val, htac, head);
    assert CodesAt(coeff, htac, run, val);
  }

  /** One turn of the AC loop, at coefficient i. */
  method WriteNext(w: BitWriter, du: seq<int>, i: nat, end: nat, htac: Table, ghost head: Dht, ghost coeff: Coder, ghost eob: seq<bool>)
    returns (next: nat)
    requires (var valid := w.Valid(); valid) && 1 <= i <= end
    requires var given := AcTable(htac, head) && Codes(coeff, htac) && Codable(du, end); given
    modifies w
    ensures (var valid := w.Valid(); valid) && i < next <= end + 1
    ensures w.content + EncodeAc(coeff, eob, du, next, end) == old(w.content) + EncodeAc(coeff, eob, du, i, end)
  {
    var z := SkipZeros(du, i, end);
    EncodeStep(coeff, eob, du, i, end);
    WriteCoded(w, z - i, du[z], htac, head, coeff);
    next := z + 1;
    Associative(old(w.content), coeff(z - i, du[z]), EncodeAc(coeff, eob, du, next, end));
  }

  /** The AC loop and the end-of-block code after it. */
  method WriteAc(w: BitWriter, du: seq<int>, end: nat, htac: Table, ghost head: Dht, ghost coeff: Coder, ghost eob: seq<bool>)
    requires var valid := w.Valid(); valid
    requires var given := AcTable(htac, head) && Codes(coeff, htac) && Codable(du, end); given
    requires eob == CodeOf(htac)(0)
    modifies w
    ensures (var valid := w.Valid(); valid) && w.content == old(w.content) + EncodeAc(coeff, eob, du, 1, end)
  {
    ghost var goal := w.content + EncodeAc(coeff, eob, du, 1, end);
    var i := 1;
    while i <= end
      invariant 1 <= i <= end + 1 && (var valid := w.Valid(); valid)
      invariant w.content + EncodeAc(coeff, eob, du, i, end) == goal
      decreases end + 1 - i
    {
      i := WriteNext(w, du, i, end, htac, head, coeff, eob);
    }
    if end != 63 {
      UseAc(htac, head, 0, 0);
      w.WriteBits(htac[0]);
    } else {
      assert w.content + [] == w.content;
    }
  }

  lemma CoderCodes(htac: Table)
    ensures Codes(CoderOf(CodeOf(htac)), htac)
  {
    forall run: nat, val: int {:trigger CodesAt(CoderOf(CodeOf(htac)), htac, run, val)}
      ensures CodesAt(CoderOf(CodeOf(htac)), htac, run, val)
    {
    }
  }

  /** Both parts of a block. */
  method WriteBlock(w: BitWriter, du: seq<int>, dc: int, htdc: Table, ghost dcHead: Dht, htac: Table, ghost acHead: Dht,
                    ghost coeff: Coder, ghost eob: seq<bool>)
    returns (next: int, ghost end: nat)
    requires var valid := w.Valid(); valid
    requires var given := DcTable(htdc, dcHead) && AcTable(htac, acHead) && Ready(du, dc) && Codes(coeff, htac); given
    requires eob == CodeOf(htac)(0)
    modifies w
    ensures (var valid := w.Valid(); valid) && next == du[0] && (var codable := Codable(du, end); codable)
    ensures w.content == old(w.content) + (EncodeDc(CodeOf(htdc), du[0] - dc) + EncodeAc(coeff, eob, du, 1, end))
  {
    WriteDc(w, du[0] - dc, htdc, dcHead);
    var last := LastNonzero(du);
    end := last;
    WriteAc(w, du, last, htac, acHead, coeff, eob);
    Associative(old(w.content), EncodeDc(CodeOf(htdc), du[0] - dc), EncodeAc(coeff, eob, du, 1, end));
    next := du[0];
  }

  /**
   The coding half of stbiw__jpg_processDU: the writer gains exactly the bits of the block, and
   the decoder of T.81, with the tables of the file's header, gets the block back from them,
   whatever is written later.
   */
  method ProcessDU(w: BitWriter, du: seq<int>, dc: int, htdc: Table, ghost dcHead: Dht, htac: Table, ghost acHead: Dht)
    returns (next: int, ghost bits: seq<bool>)
    requires var valid := w.Valid(); valid
    requires var given := DcTable(htdc, dcHead) && AcTable(htac, acHead) && Ready(du, dc); given
    modifies w
    ensures (var valid := w.Valid(); valid) && next == du[0] && w.content == old(w.content) + bits
    ensures Decodes(bits, du, dc, dcHead, acHead)
  {
    CoderCodes(htac);
    ghost var end;
    next, end := WriteBlock(w, du, dc, htdc, dcHead, htac, acHead, CoderOf(CodeOf(htac)), CodeOf(htac)(0));
    bits := EncodeBlock(CodeOf(htdc), CodeOf(htac), du, dc, end);
    AllTails(du, dc, end, htdc, dcHead, htac, acHead);
  }

  /** Decodes to the block, whatever follows. */
  ghost predicate Decodes(bits: seq<bool>, du: seq<int>, dc: int, dcHead: Dht, acHead: Dht) {
    forall tail {:trigger DecodesAt(bits, du, dc, dcHead, acHead, tail)} :: DecodesAt(bits, du, dc, dcHead, acHead, tail)
  }

  predicate DecodesAt(bits: seq<bool>, du: seq<int>, dc: int, dcHead: Dht, acHead: Dht, tail: seq<bool>) {
    DecodeBlock(HeaderDecoder(dcHead), HeaderDecoder(acHead), bits + tail, dc) == Some(Coeffs(du, tail))
  }

  lemma AllTails(du: seq<int>, dc: int, end: nat, htdc: Table, dcHead: Dht, htac: Table, acHead: Dht)
    requires var given := DcTable(htdc, dcHead) && AcTable(htac, acHead) && Ready(du, dc) && Codable(du, end); given
    ensures Decodes(EncodeBlock(CodeOf(htdc), CodeOf(htac), du, dc, end), du, dc, dcHead, acHead)
  {
    var bits := EncodeBlock(CodeOf(htdc), CodeOf(htac), du, dc, end);
    forall tail {:trigger DecodesAt(bits, du, dc, dcHead, acHead, tail)}
      ensures DecodesAt(bits, du, dc, dcHead, acHead, tail)
    {
      RoundTrip(htdc, dcHead, htac, acHead, du, dc, end, tail);
    }
  }
}
