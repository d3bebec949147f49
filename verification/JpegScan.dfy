/**
 The scan of a JPEG file: the macroblocks of stbi_write_jpg_core, each a luminance and two
 chrominance blocks, with DC prediction from one macroblock to the next.
 */
module JpegScan {
  import opened BitStrings
  import opened Common
  import opened JpegBits
  import opened JpegBlock
  import opened JpegHuffman
  import opened JpegEncoder
  import JpegTables

  /** The quantised blocks of one macroblock, in zigzag order. */
  datatype Mcu = Mcu(y: seq<int>, u: seq<int>, v: seq<int>)

  /** The DC coefficients that the next macroblock is predicted from. */
  datatype Preds = Preds(y: int, u: int, v: int)

  function NextPreds(m: Mcu): Preds { Preds(Dc(m.y), Dc(m.u), Dc(m.v)) }

  function Dc(du: seq<int>): int { if |du| > 0 then du[0] else 0 }

  function PredsAfter(mcus: seq<Mcu>): Preds { if mcus == [] then Preds(0, 0, 0) else NextPreds(mcus[|mcus| - 1]) }

  /** The four tables of the header. */
  datatype Heads = Heads(ydc: Dht, yac: Dht, cdc: Dht, cac: Dht)

  // ---------------------------------------------------------------- the decoder

  type BlockDecoder = (seq<bool>, int) -> Option<Coeffs>

  function BlockDecoderOf(dc: Dht, ac: Dht): BlockDecoder {
    (bits: seq<bool>, pred: int) => DecodeBlock(HeaderDecoder(dc), HeaderDecoder(ac), bits, pred)
  }

  /** Decoders of luminance and chrominance blocks. */
  datatype Decoders = Decoders(y: BlockDecoder, c: BlockDecoder)

  function DecodersOf(h: Heads): Decoders { Decoders(BlockDecoderOf(h.ydc, h.yac), BlockDecoderOf(h.cdc, h.cac)) }

  datatype McuAnd = McuAnd(m: Mcu, rest: seq<bool>)

  /** Y, U and V of one macroblock. */
  function DecodeMcu(d: Decoders, bits: seq<bool>, p: Preds): Option<McuAnd> {
    match d.y(bits, p.y)
    case None => None
    case Some(y) =>
      match d.c(y.rest, p.u)
      case None => None
      case Some(u) =>
        match d.c(u.rest, p.v)
        case None => None
        case Some(v) => Some(McuAnd(Mcu(y.cs, u.cs, v.cs), v.rest))
  }

  datatype Scan = Scan(mcus: seq<Mcu>, rest: seq<bool>)

  /** The first n macroblocks, and the bits after them. */
  function DecodeScan(d: Decoders, bits: seq<bool>, n: nat): Option<Scan> {
    if n == 0 then Some(Scan([], bits)) else
      match DecodeScan(d, bits, n - 1)
      case None => None
      case Some(scan) =>
        match DecodeMcu(d, scan.rest, PredsAfter(scan.mcus))
        case None => None
        case Some(next) => Some(Scan(scan.mcus + [next.m], next.rest))
  }

  // ---------------------------------------------------------------- bits that decode

  predicate McuAt(d: Decoders, bits: seq<bool>, p: Preds, m: Mcu, tail: seq<bool>) { DecodeMcu(d, bits + tail, p) == Some(McuAnd(m, tail)) }

  /** The bits decode to the macroblock, whatever follows. */
  ghost predicate IsMcu(d: Decoders, bits: seq<bool>, p: Preds, m: Mcu) {
    forall tail {:trigger McuAt(d, bits, p, m, tail)} :: McuAt(d, bits, p, m, tail)
  }

  predicate ScanAt(d: Decoders, bits: seq<bool>, mcus: seq<Mcu>, tail: seq<bool>) {
    DecodeScan(d, bits + tail, |mcus|) == Some(Scan(mcus, tail))
  }

  /** The bits decode to the macroblocks, whatever follows. */
  ghost predicate IsScan(d: Decoders, bits: seq<bool>, mcus: seq<Mcu>) {
    forall tail {:trigger ScanAt(d, bits, mcus, tail)} :: ScanAt(d, bits, mcus, tail)
  }

  predicate BlockAt(dec: BlockDecoder, bits: seq<bool>, pred: int, du: seq<int>, tail: seq<bool>) {
    dec(bits + tail, pred) == Some(Coeffs(du, tail))
  }

  ghost predicate IsBlock(dec: BlockDecoder, bits: seq<bool>, pred: int, du: seq<int>) {
    forall tail {:trigger BlockAt(dec, bits, pred, du, tail)} :: BlockAt(dec, bits, pred, du, tail)
  }

  lemma BlockDecodesAs(dc: Dht, ac: Dht, bits: seq<bool>, pred: int, du: seq<int>)
    requires var decodes := Decodes(bits, du, pred, dc, ac); decodes
    ensures IsBlock(BlockDecoderOf(dc, ac), bits, pred, du)
  {
    forall tail {:trigger BlockAt(BlockDecoderOf(dc, ac), bits, pred, du, tail)}
      ensures BlockAt(BlockDecoderOf(dc, ac), bits, pred, du, tail)
    {
      assert DecodesAt(bits, du, pred, dc, ac, tail);
    }
  }

  lemma ThreeBlocks(d: Decoders, p: Preds, m: Mcu, y: seq<bool>, u: seq<bool>, v: seq<bool>, tail: seq<bool>)
    requires BlockAt(d.y, y, p.y, m.y, u + (v + tail)) && BlockAt(d.c, u, p.u, m.u, v + tail) && BlockAt(d.c, v, p.v, m.v, tail)
    ensures McuAt(d, y + u + v, p, m, tail)
  {
    assert y + u + v + tail == y + (u + (v + tail));
  }

  lemma McuDecodes(d: Decoders, p: Preds, m: Mcu, y: seq<bool>, u: seq<bool>, v: seq<bool>)
    requires var blocks := IsBlock(d.y, y, p.y, m.y) && IsBlock(d.c, u, p.u, m.u) && IsBlock(d.c, v, p.v, m.v); blocks
    ensures var isMcu := IsMcu(d, y + u + v, p, m); isMcu
  {
    forall tail {:trigger McuAt(d, y + u + v, p, m, tail)}
      ensures McuAt(d, y + u + v, p, m, tail)
    {
      assert BlockAt(d.y, y, p.y, m.y, u + (v + tail)) && BlockAt(d.c, u, p.u, m.u, v + tail) && BlockAt(d.c, v, p.v, m.v, tail);
      ThreeBlocks(d, p, m, y, u, v, tail);
    }
  }

  lemma EmptyScan(d: Decoders)
    ensures IsScan(d, [], [])
  {
    forall tail {:trigger ScanAt(d, [], [], tail)}
      ensures ScanAt(d, [], [], tail)
    {
      assert [] + tail == tail;
    }
  }

  lemma OneMore(d: Decoders, bits: seq<bool>, mcus: seq<Mcu>, more: seq<bool>, m: Mcu, tail: seq<bool>)
    requires ScanAt(d, bits, mcus, more + tail) && McuAt(d, more, PredsAfter(mcus), m, tail)
    ensures ScanAt(d, bits + more, mcus + [m], tail)
  {
    assert bits + more + tail == bits + (more + tail);
  }

  lemma ScanGrows(d: Decoders, bits: seq<bool>, mcus: seq<Mcu>, more: seq<bool>, m: Mcu)
    requires var decodes := IsScan(d, bits, mcus) && IsMcu(d, more, PredsAfter(mcus), m); decodes
    ensures var isScan := IsScan(d, bits + more, mcus + [m]); isScan
  {
    forall tail {:trigger ScanAt(d, bits + more, mcus + [m], tail)}
      ensures ScanAt(d, bits + more, mcus + [m], tail)
    {
      assert ScanAt(d, bits, mcus, more + tail) && McuAt(d, more, PredsAfter(mcus), m, tail);
      OneMore(d, bits, mcus, more, m, tail);
    }
  }

  // ---------------------------------------------------------------- component by component

  function Concat(parts: seq<seq<bool>>): seq<bool> {
    if parts == [] then [] else Concat(parts[..|parts| - 1]) + parts[|parts| - 1]
  }

  lemma ConcatOne(parts: seq<seq<bool>>, a: seq<bool>)
    ensures Concat(parts + [a]) == Concat(parts) + a
  {
    assert (parts + [a])[..|parts|] == parts;
  }

  lemma ConcatThree(parts: seq<seq<bool>>, y: seq<bool>, u: seq<bool>, v: seq<bool>)
    ensures Concat(parts + [y, u, v]) == Concat(parts) + (y + u + v)
  {
    ConcatOne(parts, y);
    ConcatOne(parts + [y], u);
    ConcatOne(parts + [y] + [u], v);
    assert parts + [y, u, v] == parts + [y] + [u] + [v];
    Regroup(Concat(parts), y, u, v);
  }

  /** The code of block i of one component, predicted from the DC coefficient of its own block before; the first one from 0. */
  ghost predicate CodedAfter(dec: BlockDecoder, bits: seq<bool>, blocks: seq<seq<int>>, i: nat) {
    && i < |blocks|
    && IsBlock(dec, bits, if i > 0 && |blocks[i - 1]| > 0 then blocks[i - 1][0] else 0, blocks[i])
  }

  function Lumas(mcus: seq<Mcu>): (r: seq<seq<int>>)
    ensures |r| == |mcus| && forall i :: 0 <= i < |mcus| ==> r[i] == mcus[i].y
  {
    seq(|mcus|, i requires 0 <= i < |mcus| => mcus[i].y)
  }

  function Us(mcus: seq<Mcu>): (r: seq<seq<int>>)
    ensures |r| == |mcus| && forall i :: 0 <= i < |mcus| ==> r[i] == mcus[i].u
  {
    seq(|mcus|, i requires 0 <= i < |mcus| => mcus[i].u)
  }

  function Vs(mcus: seq<Mcu>): (r: seq<seq<int>>)
    ensures |r| == |mcus| && forall i :: 0 <= i < |mcus| ==> r[i] == mcus[i].v
  {
    seq(|mcus|, i requires 0 <= i < |mcus| => mcus[i].v)
  }

  /** Parts 3 * i, 3 * i + 1 and 3 * i + 2 code block i of Y, of U and of V. */
  ghost predicate PartsAt(d: Decoders, mcus: seq<Mcu>, parts: seq<seq<bool>>, i: nat) {
    && 3 * i + 2 < |parts|
    && CodedAfter(d.y, parts[3 * i], Lumas(mcus), i)
    && CodedAfter(d.c, parts[3 * i + 1], Us(mcus), i)
    && CodedAfter(d.c, parts[3 * i + 2], Vs(mcus), i)
  }

  /** The parts code the first n macroblocks, each component from its own differences. */
  ghost predicate PartsTo(d: Decoders, mcus: seq<Mcu>, parts: seq<seq<bool>>, n: nat) {
    |parts| == 3 * n && forall i: nat {:trigger PartsAt(d, mcus, parts, i)} :: i < n ==> PartsAt(d, mcus, parts, i)
  }

  lemma PartsGrow(d: Decoders, mcus: seq<Mcu>, parts: seq<seq<bool>>, n: nat, y: seq<bool>, u: seq<bool>, v: seq<bool>)
    requires (var so := PartsTo(d, mcus, parts, n); so) && n < |mcus|
    requires var next := CodedAfter(d.y, y, Lumas(mcus), n) && CodedAfter(d.c, u, Us(mcus), n) && CodedAfter(d.c, v, Vs(mcus), n); next
    ensures var so := PartsTo(d, mcus, parts + [y, u, v], n + 1); so
  {
    var more := parts + [y, u, v];
    forall i: nat {:trigger PartsAt(d, mcus, more, i)} | i < n + 1
      ensures PartsAt(d, mcus, more, i)
    {
      if i < n {
        assert PartsAt(d, mcus, parts, i);
        assert more[3 * i] == parts[3 * i] && more[3 * i + 1] == parts[3 * i + 1] && more[3 * i + 2] == parts[3 * i + 2];
      } else {
        assert more[3 * i] == y && more[3 * i + 1] == u && more[3 * i + 2] == v;
      }
    }
  }

  /** The predictors carried from macroblock to macroblock are each component's own. */
  lemma OwnPreds(d: Decoders, mcus: seq<Mcu>, n: nat, y: seq<bool>, u: seq<bool>, v: seq<bool>)
    requires n < |mcus|
    requires var p := PredsAfter(mcus[..n]);
             var m := mcus[n];
             var coded := IsBlock(d.y, y, p.y, m.y) && IsBlock(d.c, u, p.u, m.u) && IsBlock(d.c, v, p.v, m.v); coded
    ensures var next := CodedAfter(d.y, y, Lumas(mcus), n) && CodedAfter(d.c, u, Us(mcus), n) && CodedAfter(d.c, v, Vs(mcus), n); next
  {
    if n > 0 {
      assert mcus[..n][n - 1] == mcus[n - 1];
    }
  }

  // ---------------------------------------------------------------- the encoder

  /** The encoder's tables. */
  datatype Tables = Tables(ydc: Table, yac: Table, cdc: Table, cac: Table)

  ghost predicate TablesOk(t: Tables, h: Heads) {
    DcTable(t.ydc, h.ydc) && AcTable(t.yac, h.yac) && DcTable(t.cdc, h.cdc) && AcTable(t.cac, h.cac)
  }

  /** The tables can code the macroblock behind these. */
  predicate McuReady(m: Mcu, p: Preds) { Ready(m.y, p.y) && Ready(m.u, p.u) && Ready(m.v, p.v) }

  predicate ReadyAt(mcus: seq<Mcu>, i: nat) { i < |mcus| && McuReady(mcus[i], PredsAfter(mcus[..i])) }

  ghost predicate AllReady(mcus: seq<Mcu>) { forall i: nat {:trigger ReadyAt(mcus, i)} :: i < |mcus| ==> ReadyAt(mcus, i) }

  /** One block with a DC and an AC table. */
  method EncodeBlockOf(w: BitWriter, du: seq<int>, pred: int, htdc: Table, ghost dc: Dht, htac: Table, ghost ac: Dht)
    returns (next: int, ghost bits: seq<bool>)
    requires (var valid := w.Valid(); valid) && (var ok := DcTable(htdc, dc) && AcTable(htac, ac); ok) && (var ready := Ready(du, pred); ready)
    modifies w
    ensures (var valid := w.Valid(); valid) && next == Dc(du) && w.content == old(w.content) + bits
    ensures var isBlock := IsBlock(BlockDecoderOf(dc, ac), bits, pred, du); isBlock
  {
    next, bits := ProcessDU(w, du, pred, htdc, dc, htac, ac);
    BlockDecodesAs(dc, ac, bits, pred, du);
  }

  /** The two chrominance blocks. */
  method EncodeChroma(w: BitWriter, du: seq<int>, dv: seq<int>, pu: int, pv: int, htdc: Table, ghost dc: Dht, htac: Table, ghost ac: Dht)
    returns (nu: int, nv: int, ghost u: seq<bool>, ghost v: seq<bool>)
    requires (var valid := w.Valid(); valid) && (var ok := DcTable(htdc, dc) && AcTable(htac, ac); ok)
    requires var ready := Ready(du, pu) && Ready(dv, pv); ready
    modifies w
    ensures (var valid := w.Valid(); valid) && nu == Dc(du) && nv == Dc(dv) && w.content == old(w.content) + u + v
    ensures var blocks := IsBlock(BlockDecoderOf(dc, ac), u, pu, du) && IsBlock(BlockDecoderOf(dc, ac), v, pv, dv); blocks
  {
    nu, u := EncodeBlockOf(w, du, pu, htdc, dc, htac, ac);
    nv, v := EncodeBlockOf(w, dv, pv, htdc, dc, htac, ac);
  }

  /** The three stbiw__jpg_processDU calls for one macroblock. */
  method EncodeMcu(w: BitWriter, t: Tables, m: Mcu, p: Preds, ghost h: Heads, ghost d: Decoders)
    returns (next: Preds, ghost y: seq<bool>, ghost u: seq<bool>, ghost v: seq<bool>)
    requires (var valid := w.Valid(); valid) && (var ok := TablesOk(t, h); ok) && d == DecodersOf(h) && (var ready := McuReady(m, p); ready)
    modifies w
    ensures (var valid := w.Valid(); valid) && next == NextPreds(m) && w.content == old(w.content) + (y + u + v)
    ensures var coded := IsBlock(d.y, y, p.y, m.y) && IsBlock(d.c, u, p.u, m.u) && IsBlock(d.c, v, p.v, m.v); coded
  {
    ghost var before := w.content;
    var dcy, dcu, dcv;
    dcy, y := EncodeBlockOf(w, m.y, p.y, t.ydc, h.ydc, t.yac, h.yac);
    dcu, dcv, u, v := EncodeChroma(w, m.u, m.v, p.u, p.v, t.cdc, h.cdc, t.cac, h.cac);
    next := Preds(dcy, dcu, dcv);
    Regroup(before, y, u, v);
  }

  lemma Regroup(a: seq<bool>, y: seq<bool>, u: seq<bool>, v: seq<bool>)
    ensures a + y + u + v == a + (y + u + v)
  {
  }

  /** What is written for the first i macroblocks: their parts, which decode to them. */
  ghost predicate WrittenTo(d: Decoders, mcus: seq<Mcu>, parts: seq<seq<bool>>, i: nat, content: seq<bool>) {
    i <= |mcus| && PartsTo(d, mcus, parts, i) && content == Concat(parts) && IsScan(d, content, mcus[..i])
  }

  lemma WrittenNext(d: Decoders, mcus: seq<Mcu>, parts: seq<seq<bool>>, i: nat, content: seq<bool>, y: seq<bool>, u: seq<bool>, v: seq<bool>)
    requires (var written := WrittenTo(d, mcus, parts, i, content); written) && i < |mcus|
    requires var p := PredsAfter(mcus[..i]);
             var m := mcus[i];
             var coded := IsBlock(d.y, y, p.y, m.y) && IsBlock(d.c, u, p.u, m.u) && IsBlock(d.c, v, p.v, m.v); coded
    ensures var written := WrittenTo(d, mcus, parts + [y, u, v], i + 1, content + (y + u + v)); written
  {
    OwnPreds(d, mcus, i, y, u, v);
    PartsGrow(d, mcus, parts, i, y, u, v);
    ConcatThree(parts, y, u, v);
    McuDecodes(d, PredsAfter(mcus[..i]), mcus[i], y, u, v);
    ScanGrows(d, content, mcus[..i], y + u + v, mcus[i]);
    assert mcus[..i + 1] == mcus[..i] + [mcus[i]];
  }

  /** One turn of the loops over the macroblocks. */
  method EncodeNext(w: BitWriter, t: Tables, mcus: seq<Mcu>, i: nat, p: Preds, ghost h: Heads, ghost d: Decoders, ghost parts: seq<seq<bool>>)
    returns (next: Preds, ghost more: seq<seq<bool>>)
    requires (var valid := w.Valid(); valid) && (var ok := TablesOk(t, h); ok) && d == DecodersOf(h)
    requires i < |mcus| && (var ready := AllReady(mcus); ready) && p == PredsAfter(mcus[..i])
    requires var written := WrittenTo(d, mcus, parts, i, w.content); written
    modifies w
    ensures (var valid := w.Valid(); valid) && next == PredsAfter(mcus[..i + 1])
    ensures var written := WrittenTo(d, mcus, more, i + 1, w.content); written
  {
    ghost var before := w.content;
    assert ReadyAt(mcus, i);
    ghost var y, u, v;
    next, y, u, v := EncodeMcu(w, t, mcus[i], p, h, d);
    WrittenNext(d, mcus, parts, i, before, y, u, v);
    more := parts + [y, u, v];
    assert mcus[..i + 1][i] == mcus[i];
  }

  /** The loops over the macroblocks. */
  method EncodeMcus(w: BitWriter, t: Tables, mcus: seq<Mcu>, ghost h: Heads, ghost d: Decoders) returns (ghost parts: seq<seq<bool>>)
    requires (var valid := w.Valid(); valid) && w.content == [] && (var ok := TablesOk(t, h); ok) && d == DecodersOf(h) && (var ready := AllReady(mcus); ready)
    modifies w
    ensures var valid := w.Valid(); valid
    ensures var written := WrittenTo(d, mcus, parts, |mcus|, w.content); written
  {
    EmptyScan(d);
    var p := Preds(0, 0, 0);
    parts := [];
    assert mcus[..0] == [];
    for i := 0 to |mcus|
      invariant (var valid := w.Valid(); valid) && p == PredsAfter(mcus[..i])
      invariant var written := WrittenTo(d, mcus, parts, i, w.content); written
    {
      p, parts := EncodeNext(w, t, mcus, i, p, h, d, parts);
    }
  }

  lemma FillFits(fill: Code, one: nat)
    requires fill == Code(0x7f, 7) && one == 1
    ensures fill.Fits()
  {
    ShlValues(one);
    assert Pow2(8) == 2 * Pow2(fill.len);
  }

  /** Seven fill bits push every bit of the blocks out, in whole bytes. */
  lemma FillPushesOut(bits: seq<bool>, fill: seq<bool>, out: seq<bool>, pending: seq<bool>) returns (tail: seq<bool>)
    requires bits + fill == out + pending && |fill| == 7 && |pending| <= 7
    ensures out == bits + tail
  {
    tail := out[|bits|..];
    assert out[..|bits|] == (out + pending)[..|bits|] == (bits + fill)[..|bits|] == bits;
  }

  lemma OutDecodes(d: Decoders, bits: seq<bool>, mcus: seq<Mcu>, tail: seq<bool>, out: seq<bool>)
    requires (var isScan := IsScan(d, bits, mcus); isScan) && out == bits + tail
    ensures DecodeScan(d, out, |mcus|) == Some(Scan(mcus, tail))
  {
    assert ScanAt(d, bits, mcus, tail);
  }

  lemma OutIsParts(d: Decoders, mcus: seq<Mcu>, parts: seq<seq<bool>>, content: seq<bool>, tail: seq<bool>, out: seq<bool>)
    requires (var written := WrittenTo(d, mcus, parts, |mcus|, content); written) && out == content + tail
    ensures var so := PartsTo(d, mcus, parts, |mcus|); so
    ensures out == Concat(parts) + tail && DecodeScan(d, out, |mcus|) == Some(Scan(mcus, tail))
  {
    assert mcus[..|mcus|] == mcus;
    OutDecodes(d, content, mcus, tail, out);
  }

  /**
   The scan, from an empty writer to the fill bits: a decoder with the tables of the header gets
   all macroblocks back from the bytes written, which are the codes of the blocks of Y, U and V
   in turn, each with the DC difference to the block before of the same component.
   */
  method WriteScan(t: Tables, mcus: seq<Mcu>, ghost h: Heads, ghost d: Decoders) returns (out: seq<int>, ghost parts: seq<seq<bool>>, ghost tail: seq<bool>)
    requires (var ok := TablesOk(t, h); ok) && (var ready := AllReady(mcus); ready) && d == DecodersOf(h)
    ensures Stuffed(out) && ByteBits(Unstuff(out)) == Concat(parts) + tail
    ensures DecodeScan(d, ByteBits(Unstuff(out)), |mcus|) == Some(Scan(mcus, tail))
    ensures var so := PartsTo(d, mcus, parts, |mcus|); so
  {
    var w := BitWriter.Start();
    parts := EncodeMcus(w, t, mcus, h, d);
    ghost var bits := w.content;
    var fill := Code(0x7f, 7);
    FillFits(fill, 1);
    w.WriteBits(fill);
    out := w.out;
    tail := FillPushesOut(bits, fill.AsBits(), ByteBits(Unstuff(out)), Bits(w.pending, w.bitCnt));
    OutIsParts(d, mcus, parts, bits, tail, ByteBits(Unstuff(out)));
  }

  // ---------------------------------------------------------------- with the writer's own tables

  ghost function OwnHeads(): Heads {
    Heads(JpegTables.Head(JpegTables.LumaDc), JpegTables.Head(JpegTables.LumaAc),
          JpegTables.Head(JpegTables.ChromaDc), JpegTables.Head(JpegTables.ChromaAc))
  }

  function OwnTables(): Tables {
    Tables(JpegTables.TableOf(JpegTables.LumaDc), JpegTables.TableOf(JpegTables.LumaAc),
           JpegTables.TableOf(JpegTables.ChromaDc), JpegTables.TableOf(JpegTables.ChromaAc))
  }

  lemma OwnTablesOk()
    ensures var ok := TablesOk(OwnTables(), OwnHeads()); ok
  {
    JpegTables.DcAgrees(JpegTables.LumaDc);
    JpegTables.AcAgrees(JpegTables.LumaAc);
    JpegTables.DcAgrees(JpegTables.ChromaDc);
    JpegTables.AcAgrees(JpegTables.ChromaAc);
  }

  /** Luminance with the first two tables of the header, chrominance with the other two. */
  ghost predicate OwnDecoders(d: Decoders) {
    && d.y == BlockDecoderOf(JpegTables.Head(JpegTables.LumaDc), JpegTables.Head(JpegTables.LumaAc))
    && d.c == BlockDecoderOf(JpegTables.Head(JpegTables.ChromaDc), JpegTables.Head(JpegTables.ChromaAc))
  }

  /** The scan that stbi_write_jpg_core writes decodes with the tables that it wrote into the header. */
  method WriteOwnScan(mcus: seq<Mcu>, ghost d: Decoders) returns (out: seq<int>, ghost parts: seq<seq<bool>>, ghost tail: seq<bool>)
    requires (var ready := AllReady(mcus); ready) && (var own := OwnDecoders(d); own)
    ensures Stuffed(out) && ByteBits(Unstuff(out)) == Concat(parts) + tail
    ensures var decoded := DecodeScan(d, ByteBits(Unstuff(out)), |mcus|) == Some(Scan(mcus, tail)); decoded
    ensures var so := PartsTo(d, mcus, parts, |mcus|); so
  {
    OwnTablesOk();
    out, parts, tail := WriteScan(OwnTables(), mcus, OwnHeads(), d);
  }
}
