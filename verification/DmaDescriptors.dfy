/**
 pulp_dma_xfer_async: the descriptor list for a transfer between PULP memory and a user
 buffer, and what executing it does to the two memories.
 */
module DmaDescriptors {
  import opened ScatterGather

  // ---------------------------------------------------------------- segments, byte by byte

  lemma {:induction false} ChainAt(b: Buffer, segs: seq<Segment>, k: nat)
    requires Chain(b, segs) && k < |segs|
    ensures Sound(b, segs[k])
    ensures if k == 0 then segs[0].firstPage == 0 else Linked(b, segs[k - 1], segs[k])
    decreases |segs|
  {
    if k < |segs| - 1 {
      ChainAt(b, segs[..|segs| - 1], k);
    }
  }

  /** Contiguous pages lie one page apart in physical memory. */
  lemma {:induction false} ContiguousPhys(b: Buffer, first: nat, p: nat)
    requires first <= p && Contiguous(b, first, p)
    ensures b.phys[p] == b.phys[first] + 4096 * (p - first)
  {
    if first < p {
      ContiguousPhys(b, first, p - 1);
      assert !b.Gap(p);
    }
  }

  /** Where page `page` of the buffer ends. */
  function EndOf(b: Buffer, page: nat): nat {
    if page == |b.phys| - 1 then b.end else b.Base() + 4096 * (page + 1)
  }

  lemma SegmentEnd(b: Buffer, segs: seq<Segment>, k: nat)
    requires Segmentation(b, segs) && k < |segs|
    ensures segs[k].end == EndOf(b, segs[k].lastPage)
  {
    if k < |segs| - 1 {
      ChainAt(b, segs, k + 1);
      ChainAt(b, segs, k);
    }
  }

  /** The bytes of pages first .. last are those between the two page borders. */
  lemma PageOfByte(b: Buffer, first: nat, last: nat, x: nat)
    requires b.Valid() && first <= last < |b.phys| && StartOf(b, first) <= x < EndOf(b, last)
    ensures b.start <= x < b.end
    ensures first <= x / 4096 - b.start / 4096 <= last
  {
  }

  lemma PageSpan(b: Buffer, first: nat, last: nat)
    requires b.Valid() && first <= last < |b.phys|
    ensures b.start <= StartOf(b, first) < EndOf(b, last) <= b.end
  {
  }

  /** Every byte of a segment lies as far from its physical as from its virtual start. */
  lemma SegmentBytes(b: Buffer, segs: seq<Segment>, k: nat, x: nat)
    requires b.Valid() && Segmentation(b, segs) && k < |segs| && segs[k].start <= x < segs[k].end
    ensures b.start <= x < b.end && b.Translate(x) == segs[k].offset + (x - segs[k].start)
  {
    var s := segs[k];
    ChainAt(b, segs, k);
    SegmentEnd(b, segs, k);
    PageOfByte(b, s.firstPage, s.lastPage, x);
    var p := x / 4096 - b.start / 4096;
    ContiguousPhys(b, s.firstPage, p);
    ByteOffset(b, s.firstPage, p, x);
  }

  lemma ByteOffset(b: Buffer, first: nat, p: nat, x: nat)
    requires b.start <= x && first <= p < |b.phys| && p == x / 4096 - b.start / 4096
    requires b.phys[p] == b.phys[first] + 4096 * (p - first)
    ensures b.phys[p] + x % 4096 == OffsetOf(b, first) + (x - StartOf(b, first))
  {
  }

  // ---------------------------------------------------------------- descriptors

  datatype Desc = Desc(src: nat, dst: nat, len: nat, callback: bool)

  /** The byte moves (from, to) of one descriptor, and of a list executed in order. */
  function DescMoves(d: Desc): (m: seq<(nat, nat)>)
    ensures |m| == d.len
  {
    seq(d.len, j requires j >= 0 => (d.src + j, d.dst + j))
  }

  function Moves(ds: seq<Desc>): seq<(nat, nat)> {
    if ds == [] then [] else Moves(ds[..|ds| - 1]) + DescMoves(ds[|ds| - 1])
  }

  /** Byte k of the buffer, between addrPulp + k and its physical address. */
  function Move(b: Buffer, addrPulp: nat, toL3: bool, k: nat): (nat, nat)
    requires b.Valid() && k < b.end - b.start
  {
    var l3 := b.Translate(b.start + k);
    if toL3 then (addrPulp + k, l3) else (l3, addrPulp + k)
  }

  /** The first n byte moves of the transfer. */
  function Wanted(b: Buffer, addrPulp: nat, toL3: bool, n: nat): (m: seq<(nat, nat)>)
    requires b.Valid() && n <= b.end - b.start
    ensures |m| == n
  {
    seq(n, k requires 0 <= k < n => Move(b, addrPulp, toL3, k))
  }

  function MakeDesc(s: Segment, pulp: nat, toL3: bool, last: bool): Desc
    requires s.start <= s.end
  {
    if toL3 then Desc(pulp, s.offset, s.end - s.start, last) else Desc(s.offset, pulp, s.end - s.start, last)
  }

  /** Where segment i starts in the buffer; the buffer's size for i == |segs|. */
  function Position(b: Buffer, segs: seq<Segment>, i: nat): int
    requires i <= |segs|
  {
    (if i < |segs| then segs[i].start else b.end) - b.start
  }

  lemma SegmentFits(b: Buffer, segs: seq<Segment>, i: nat)
    requires b.Valid() && Segmentation(b, segs) && i < |segs|
    ensures 0 <= Position(b, segs, i) < Position(b, segs, i + 1) <= b.end - b.start
    ensures segs[i].end - b.start == Position(b, segs, i + 1)
    ensures i == 0 ==> Position(b, segs, i) == 0
  {
    ChainAt(b, segs, i);
    SegmentEnd(b, segs, i);
    PageSpan(b, segs[i].firstPage, segs[i].lastPage);
    if i + 1 < |segs| {
      ChainAt(b, segs, i + 1);
    }
  }

  /** The descriptor of a segment moves exactly its bytes. */
  lemma DescMovesSegment(b: Buffer, segs: seq<Segment>, i: nat, at: nat, d: Desc, addrPulp: nat, toL3: bool, last: bool)
    requires b.Valid() && Segmentation(b, segs) && i < |segs| && at == segs[i].start - b.start && segs[i].start <= segs[i].end <= b.end
    requires d == MakeDesc(segs[i], addrPulp + at, toL3, last)
    ensures |DescMoves(d)| == segs[i].end - segs[i].start
    ensures forall j :: 0 <= j < |DescMoves(d)| ==> DescMoves(d)[j] == Move(b, addrPulp, toL3, at + j)
  {
    forall j | 0 <= j < |DescMoves(d)|
      ensures DescMoves(d)[j] == Move(b, addrPulp, toL3, at + j)
    {
      SegmentBytes(b, segs, i, segs[i].start + j);
    }
  }

  lemma WantedGrows(b: Buffer, addrPulp: nat, toL3: bool, at: nat, moves: seq<(nat, nat)>)
    requires b.Valid() && at + |moves| <= b.end - b.start
    requires forall j :: 0 <= j < |moves| ==> moves[j] == Move(b, addrPulp, toL3, at + j)
    ensures Wanted(b, addrPulp, toL3, at + |moves|) == Wanted(b, addrPulp, toL3, at) + moves
  {
    var (left, right) := (Wanted(b, addrPulp, toL3, at) + moves, Wanted(b, addrPulp, toL3, at + |moves|));
    forall k | 0 <= k < at + |moves|
      ensures left[k] == right[k]
    {
      assert k >= at ==> moves[k - at] == Move(b, addrPulp, toL3, at + (k - at));
    }
  }

  lemma MovesAppend(ds: seq<Desc>, d: Desc)
    ensures Moves(ds + [d]) == Moves(ds) + DescMoves(d)
  {
    assert (ds + [d])[..|ds|] == ds;
  }

  /** One more descriptor moves the bytes of one more segment, from `at` on up to `next`. */
  lemma MovesGrow(b: Buffer, segs: seq<Segment>, i: nat, ds: seq<Desc>, addrPulp: nat, toL3: bool, last: bool, at: nat, next: nat, d: Desc)
    requires b.Valid() && i < |segs| && (var whole := Segmentation(b, segs); whole)
    requires at == segs[i].start - b.start && next == segs[i].end - b.start && at < next <= b.end - b.start
    requires d == MakeDesc(segs[i], addrPulp + at, toL3, last) && Moves(ds) == Wanted(b, addrPulp, toL3, at)
    ensures Moves(ds + [d]) == Wanted(b, addrPulp, toL3, next)
  {
    DescMovesSegment(b, segs, i, at, d, addrPulp, toL3, last);
    MovesAppend(ds, d);
    WantedGrows(b, addrPulp, toL3, at, DescMoves(d));
  }

  /** The first descriptors move the bytes of the first segments; the last of all notifies. */
  ghost predicate Built(b: Buffer, segs: seq<Segment>, ds: seq<Desc>, addrPulp: nat, toL3: bool)
    requires b.Valid()
  {
    && |ds| <= |segs| && 0 <= Position(b, segs, |ds|) <= b.end - b.start
    && Moves(ds) == Wanted(b, addrPulp, toL3, Position(b, segs, |ds|))
    && forall i :: 0 <= i < |ds| ==> (ds[i].callback <==> i == |segs| - 1)
  }

  lemma BuiltGrows(b: Buffer, segs: seq<Segment>, ds: seq<Desc>, addrPulp: nat, toL3: bool)
    requires b.Valid() && Segmentation(b, segs) && Built(b, segs, ds, addrPulp, toL3) && |ds| < |segs|
    ensures var i := |ds|;
            && segs[i].start <= segs[i].end
            && Position(b, segs, i) + (segs[i].end - segs[i].start) == Position(b, segs, i + 1)
            && Built(b, segs, ds + [MakeDesc(segs[i], addrPulp + Position(b, segs, i), toL3, i == |segs| - 1)], addrPulp, toL3)
  {
    var i := |ds|;
    SegmentFits(b, segs, i);
    var d := MakeDesc(segs[i], addrPulp + Position(b, segs, i), toL3, i == |segs| - 1);
    MovesGrow(b, segs, i, ds, addrPulp, toL3, i == |segs| - 1, Position(b, segs, i), Position(b, segs, i + 1), d);
    var ds' := ds + [d];
    assert |ds'| == i + 1 && forall k :: 0 <= k < i ==> ds'[k] == ds[k];
  }

  lemma BuiltStart(b: Buffer, segs: seq<Segment>, addrPulp: nat, toL3: bool)
    requires b.Valid() && Segmentation(b, segs)
    ensures Built(b, segs, [], addrPulp, toL3) && Position(b, segs, 0) == 0
  {
    SegmentFits(b, segs, 0);
  }

  /** The segment loop of pulp_dma_xfer_async; `toL3` is dma_cmd. */
  method FillDescs(b: Buffer, table: array<Segment>, n: nat, descs: array<Desc>, addrPulp: nat, toL3: bool)
    requires b.Valid() && n <= table.Length && Segmentation(b, table[..n]) && descs.Length == n
    modifies descs
    ensures Built(b, table[..n], descs[..], addrPulp, toL3)
  {
    ghost var segs := table[..n];
    BuiltStart(b, segs, addrPulp, toL3);
    var pulp, size := addrPulp, 0;
    for i := 0 to n
      invariant table[..n] == segs
      invariant Built(b, segs, descs[..i], addrPulp, toL3) && pulp + size == addrPulp + Position(b, segs, i)
    {
      BuiltGrows(b, segs, descs[..i], addrPulp, toL3);
      pulp := pulp + size;
      assert table[i] == segs[i];
      size := table[i].end - table[i].start;
      ghost var before := descs[..i];
      descs[i] := MakeDesc(table[i], pulp, toL3, i == n - 1);
      assert descs[..i + 1] == before + [descs[i]];
    }
    assert descs[..n] == descs[..];
  }

  /** pulp_dma_xfer_async: segment the buffer, then build and submit the descriptors in order. */
  method XferAsync(b: Buffer, addrPulp: nat, toL3: bool) returns (descs: array<Desc>)
    requires b.Valid()
    ensures descs.Length >= 1
    ensures Moves(descs[..]) == Wanted(b, addrPulp, toL3, b.end - b.start)
    ensures forall i :: 0 <= i < descs.Length ==> (descs[i].callback <==> i == descs.Length - 1)
  {
    var n, table := MapSg(b);
    descs := new Desc[n](_ => Desc(0, 0, 0, false));
    FillDescs(b, table, n, descs, addrPulp, toL3);
  }

  // ---------------------------------------------------------------- executing the list

  type Memory = map<nat, int>

  /** Execute byte moves in order, from one memory into another. */
  function Execute(moves: seq<(nat, nat)>, src: Memory, dst: Memory): Memory
    requires forall i :: 0 <= i < |moves| ==> moves[i].0 in src
  {
    if moves == [] then dst
    else
      var m := moves[|moves| - 1];
      Execute(moves[..|moves| - 1], src, dst)[m.1 := src[m.0]]
  }

  lemma {:induction false} ExecuteCopies(moves: seq<(nat, nat)>, src: Memory, dst: Memory)
    requires forall i :: 0 <= i < |moves| ==> moves[i].0 in src
    requires forall i, j :: 0 <= i < j < |moves| ==> moves[i].1 != moves[j].1
    ensures forall i :: 0 <= i < |moves| ==>
              moves[i].1 in Execute(moves, src, dst) && Execute(moves, src, dst)[moves[i].1] == src[moves[i].0]
    ensures forall a :: (forall i :: 0 <= i < |moves| ==> moves[i].1 != a) ==>
              (a in Execute(moves, src, dst) <==> a in dst) && (a in dst ==> Execute(moves, src, dst)[a] == dst[a])
    decreases |moves|
  {
    if moves != [] {
      ExecuteCopies(moves[..|moves| - 1], src, dst);
    }
  }

  /** No two pages of the buffer share physical bytes. */
  predicate DistinctPages(b: Buffer) {
    forall i, j :: 0 <= i < j < |b.phys| ==> b.phys[i] + 4096 <= b.phys[j] || b.phys[j] + 4096 <= b.phys[i]
  }

  lemma TranslateInjective(b: Buffer, x: nat, y: nat)
    requires b.Valid() && DistinctPages(b) && b.start <= x < y < b.end
    ensures b.Translate(x) != b.Translate(y)
  {
    var (p, q) := (x / 4096 - b.start / 4096, y / 4096 - b.start / 4096);
    assert 0 <= p <= q < |b.phys|;
    if p < q {
      assert b.phys[p] + 4096 <= b.phys[q] || b.phys[q] + 4096 <= b.phys[p];
    }
  }

  /** The moves of the transfer go to different places. */
  lemma WantedTargets(b: Buffer, addrPulp: nat, toL3: bool, m: seq<(nat, nat)>)
    requires b.Valid() && (toL3 ==> DistinctPages(b)) && m == Wanted(b, addrPulp, toL3, b.end - b.start)
    ensures forall k: nat :: k < |m| ==> m[k] == Move(b, addrPulp, toL3, k)
    ensures forall i, j :: 0 <= i < j < |m| ==> m[i].1 != m[j].1
  {
    forall i, j | 0 <= i < j < |m|
      ensures m[i].1 != m[j].1
    {
      if toL3 {
        TranslateInjective(b, b.start + i, b.start + j);
      }
    }
  }

  /** Page i of the buffer is at phys[i]. */
  lemma TranslatePage(b: Buffer, i: nat, o: nat)
    requires b.Valid() && o < 4096 && b.start <= b.Base() + 4096 * i + o < b.end
    ensures i < |b.phys| && b.Translate(b.Base() + 4096 * i + o) == b.phys[i] + o
  {
    var x := b.Base() + 4096 * i + o;
    assert x / 4096 == b.start / 4096 + i && x % 4096 == o;
  }

  /** Towards the host byte k goes from addrPulp + k to where the buffer's byte lies, otherwise back. */
  lemma MoveDirection(b: Buffer, addrPulp: nat, k: nat, m: (nat, nat))
    requires b.Valid() && k < b.end - b.start
    ensures m == Move(b, addrPulp, true, k) <==> m.0 == addrPulp + k && m.1 == b.Translate(b.start + k)
    ensures m == Move(b, addrPulp, false, k) <==> m.0 == b.Translate(b.start + k) && m.1 == addrPulp + k
  {
  }

  /**
   Executing the descriptors is exactly a copy of the buffer: every byte arrives, and no
   other byte of the destination changes. Towards PULP this needs nothing of the page table;
   towards the host the pages must not share memory, or later bytes would overwrite earlier
   ones.
   */
  lemma DescriptorsCopyBuffer(b: Buffer, addrPulp: nat, toL3: bool, descs: seq<Desc>, src: Memory, dst: Memory)
    requires b.Valid() && (toL3 ==> DistinctPages(b))
    requires Moves(descs) == Wanted(b, addrPulp, toL3, b.end - b.start)
    requires forall k: nat :: k < b.end - b.start ==> Move(b, addrPulp, toL3, k).0 in src
    ensures forall i :: 0 <= i < |Moves(descs)| ==> Moves(descs)[i].0 in src
    ensures forall k: nat :: k < b.end - b.start ==>
              && Move(b, addrPulp, toL3, k).1 in Execute(Moves(descs), src, dst)
              && Execute(Moves(descs), src, dst)[Move(b, addrPulp, toL3, k).1] == src[Move(b, addrPulp, toL3, k).0]
    ensures forall a :: (forall k: nat :: k < b.end - b.start ==> Move(b, addrPulp, toL3, k).1 != a) ==>
              (a in Execute(Moves(descs), src, dst) <==> a in dst)
              && (a in dst ==> Execute(Moves(descs), src, dst)[a] == dst[a])
  {
    WantedTargets(b, addrPulp, toL3, Moves(descs));
    ExecuteCopies(Moves(descs), src, dst);
  }
}
