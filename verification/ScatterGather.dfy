/**
 Scatter-gather in the PULP driver: counting the pages of a user buffer, merging them into
 maximal physically contiguous segments, and turning the segments into DMA descriptors.
 A page is 4096 bytes. Addresses do not wrap around 2^32 and every requested page was obtained.
 */
module ScatterGather {

  /** pulp_mem_get_num_pages: exactly the pages that the bytes [addr, addr + size) touch. */
  function NumPages(addr: nat, size: nat): (n: nat)
    ensures size > 0 ==> n >= 1 && (addr + size - 1) / 4096 == addr / 4096 + n - 1
    ensures size == 0 ==> n == (if addr % 4096 == 0 then 0 else 1)
  {
    var n := (addr % 4096 + size) / 4096;
    if (addr % 4096 + size) % 4096 != 0 then n + 1 else n
  }

  /** A user buffer: its virtual bytes [start, end) and the physical addresses of its pages. */
  datatype Buffer = Buffer(start: nat, end: nat, phys: seq<nat>) {
    predicate Valid() { start < end && |phys| == NumPages(start, end - start) }

    /** start & BF_MASK_GEN(PAGE_SHIFT, 32 - PAGE_SHIFT) */
    function Base(): nat { start / 4096 * 4096 }

    /** The physical address of the virtual byte `x`. */
    function Translate(x: nat): nat
      requires start <= x < end && Valid()
    {
      phys[x / 4096 - start / 4096] + x % 4096
    }

    /** Pages i - 1 and i are not contiguous in physical memory. */
    predicate Gap(i: nat)
      requires 0 < i < |phys|
    {
      phys[i] != phys[i - 1] + 4096
    }
  }

  /** How many of the first `n` pages start a new segment. */
  function Gaps(b: Buffer, n: nat): nat
    requires n <= |b.phys|
  {
    if n <= 1 then 0 else Gaps(b, n - 1) + (if b.Gap(n - 1) then 1 else 0)
  }

  datatype Segment = Segment(start: nat, end: nat, offset: nat, firstPage: nat, lastPage: nat)

  /** The pages of a segment follow each other in physical memory. */
  ghost predicate Contiguous(b: Buffer, first: nat, last: nat) {
    last < |b.phys| && forall i :: first < i <= last ==> !b.Gap(i)
  }

  /** The first segment starts with the buffer, every other one with its first page. */
  function StartOf(b: Buffer, page: nat): nat {
    if page == 0 then b.start else b.Base() + 4096 * page
  }

  function OffsetOf(b: Buffer, page: nat): nat
    requires page < |b.phys|
  {
    if page == 0 then b.phys[0] + b.start % 4096 else b.phys[page]
  }

  /** A segment is physically contiguous and records where it starts in both address spaces. */
  ghost predicate Sound(b: Buffer, x: Segment) {
    && x.firstPage <= x.lastPage && Contiguous(b, x.firstPage, x.lastPage)
    && x.start == StartOf(b, x.firstPage) && x.offset == OffsetOf(b, x.firstPage)
  }

  /** `y` starts where `x` ends, and they could not be merged. */
  predicate Linked(b: Buffer, x: Segment, y: Segment) {
    && y.start == x.end && y.firstPage == x.lastPage + 1
    && 0 < y.firstPage < |b.phys| && b.Gap(y.firstPage)
  }

  /** Adjacent, maximal segments from page 0 on. */
  ghost predicate Chain(b: Buffer, segs: seq<Segment>) {
    var n := |segs|;
    n > 0 ==>
      && Sound(b, segs[n - 1])
      && (if n == 1 then segs[0].firstPage == 0 else Linked(b, segs[n - 2], segs[n - 1]))
      && Chain(b, segs[..n - 1])
  }

  /** The segments cover the whole buffer. */
  ghost predicate Segmentation(b: Buffer, segs: seq<Segment>) {
    && |segs| >= 1 && Chain(b, segs)
    && segs[|segs| - 1].lastPage == |b.phys| - 1 && segs[|segs| - 1].end == b.end
  }

  /** The segment of pages first .. last, ending at `end`. */
  function Slice(b: Buffer, first: nat, last: nat, end: nat): Segment
    requires first < |b.phys|
  {
    Segment(StartOf(b, first), end, OffsetOf(b, first), first, last)
  }

  /** A segment from page `first` on goes behind these. */
  predicate Follows(b: Buffer, segs: seq<Segment>, first: nat)
    requires first < |b.phys|
  {
    if segs == [] then first == 0 else Linked(b, segs[|segs| - 1], Slice(b, first, first, 0))
  }

  /** The finished rows, with the first offset that is only set at the end. */
  function Finished(b: Buffer, rows: seq<Segment>, n: nat): seq<Segment>
    requires n <= |rows| && |b.phys| >= 1
  {
    if n == 0 then [] else [rows[0].(offset := OffsetOf(b, 0))] + rows[1..n]
  }

  /** After `i` pages: `n - 1` finished rows and an open one that starts at page `first`. */
  ghost predicate Progress(b: Buffer, rows: seq<Segment>, n: nat, i: nat, first: nat) {
    && 1 <= n <= i <= |b.phys| == |rows|
    && Chain(b, Finished(b, rows, n - 1))
    && first < i && Contiguous(b, first, i - 1)
    && rows[n - 1].start == StartOf(b, first) && rows[n - 1].firstPage == first
    && (if n == 1 then first == 0
        else rows[n - 1].offset == OffsetOf(b, first) && Linked(b, rows[n - 2], Slice(b, first, first, 0)))
  }

  /** Row n - 1 as it will be when all is finished. */
  function FinalRow(b: Buffer, rows: seq<Segment>, n: nat): Segment
    requires 1 <= n <= |rows| && |b.phys| >= 1
  {
    if n == 1 then rows[0].(offset := OffsetOf(b, 0)) else rows[n - 1]
  }

  lemma FinishedSplit(b: Buffer, rows: seq<Segment>, n: nat)
    requires 1 <= n <= |rows| && |b.phys| >= 1
    ensures |Finished(b, rows, n - 1)| == n - 1 && Finished(b, rows, n) == Finished(b, rows, n - 1) + [FinalRow(b, rows, n)]
  {
    if n > 1 {
      assert rows[1..n] == rows[1..n - 1] + [rows[n - 1]];
    }
  }

  /** The open row is the slice from `first` on; whatever its offset, the row before it links to it. */
  lemma OpenFollows(b: Buffer, rows: seq<Segment>, n: nat, i: nat, first: nat, end: nat)
    requires var progress := Progress(b, rows, n, i, first); progress
    requires rows[n - 1].end == end && rows[n - 1].lastPage == i - 1
    ensures (var follows := Follows(b, Finished(b, rows, n - 1), first); follows) && (var chain := Chain(b, Finished(b, rows, n - 1)); chain)
    ensures first <= i - 1 && (var contiguous := Contiguous(b, first, i - 1); contiguous)
    ensures FinalRow(b, rows, n) == Slice(b, first, i - 1, end)
  {
    if n > 1 {
      FinishedSplit(b, rows, n - 1);
    }
  }

  lemma FinishedGrows(b: Buffer, rows: seq<Segment>, n: nat, i: nat, first: nat, end: nat)
    requires var progress := Progress(b, rows, n, i, first); progress
    requires rows[n - 1].end == end && rows[n - 1].lastPage == i - 1
    ensures |Finished(b, rows, n)| == n && Finished(b, rows, n)[n - 1] == Slice(b, first, i - 1, end)
    ensures var chain := Chain(b, Finished(b, rows, n)); chain
  {
    OpenFollows(b, rows, n, i, first, end);
    FinishedSplit(b, rows, n);
    ChainGrows(b, Finished(b, rows, n - 1), first, i - 1, end);
  }

  /** The end and the last page of the open row do not matter yet. */
  lemma RetouchProgress(b: Buffer, rows: seq<Segment>, n: nat, i: nat, first: nat, end: nat, last: nat)
    requires Progress(b, rows, n, i, first)
    ensures var progress := Progress(b, rows[n - 1 := rows[n - 1].(end := end, lastPage := last)], n, i, first); progress
  {
    assert Finished(b, rows[n - 1 := rows[n - 1].(end := end, lastPage := last)], n - 1) == Finished(b, rows, n - 1);
  }

  /** A new open row behind finished ones. */
  lemma OpenRow(b: Buffer, rows: seq<Segment>, n: nat, i: nat, row: Segment)
    requires 1 <= n <= i < |b.phys| == |rows| && b.Gap(i)
    requires var chain := Chain(b, Finished(b, rows, n)); chain
    requires rows[n - 1].end == b.Base() + 4096 * i && rows[n - 1].lastPage == i - 1
    requires row.start == b.Base() + 4096 * i && row.offset == b.phys[i] && row.firstPage == i
    ensures var progress := Progress(b, rows[n := row], n + 1, i + 1, i); progress
  {
    assert Finished(b, rows[n := row], n) == Finished(b, rows, n);
  }

  lemma NextPage(b: Buffer, rows: seq<Segment>, n: nat, i: nat, first: nat)
    requires Progress(b, rows, n, i, first) && i < |b.phys| && !b.Gap(i)
    ensures Progress(b, rows, n, i + 1, first)
  {
  }

  /** Finish the open slice. */
  method EndSlice(b: Buffer, table: array<Segment>, n: nat, i: nat, end: nat, ghost first: nat)
    requires Progress(b, table[..], n, i, first)
    modifies table
    ensures Progress(b, table[..], n, i, first) && table[n - 1].end == end && table[n - 1].lastPage == i - 1
  {
    RetouchProgress(b, table[..], n, i, first, end, i - 1);
    ghost var last := table[..][n - 1 := table[n - 1].(end := end, lastPage := i - 1)];
    table[n - 1] := table[n - 1].(end := end, lastPage := i - 1);
    assert table[..] == last;
  }

  /** Finish the current slice and start a new one at page `i`. */
  method CutSlice(b: Buffer, table: array<Segment>, n: nat, i: nat, ghost first: nat)
    requires Progress(b, table[..], n, i, first) && i < |b.phys| && b.Gap(i)
    modifies table
    ensures Progress(b, table[..], n + 1, i + 1, i)
  {
    var at := b.Base() + 4096 * i;
    EndSlice(b, table, n, i, at, first);
    FinishedGrows(b, table[..], n, i, first, at);
    var row := table[n].(start := at, offset := b.phys[i], firstPage := i);
    OpenRow(b, table[..], n, i, row);
    ghost var cut := table[..][n := row];
    table[n] := row;
    assert table[..] == cut;
  }

  /** The body of the loop over the pages. */
  method VisitPage(b: Buffer, table: array<Segment>, n: nat, i: nat, ghost first: nat) returns (n': nat, ghost first': nat)
    requires Progress(b, table[..], n, i, first) && i < |b.phys|
    modifies table
    ensures n' == n + (if b.Gap(i) then 1 else 0) && Progress(b, table[..], n', i + 1, first')
    ensures i == |b.phys| - 1 ==> table[n' - 1].end == b.end && table[n' - 1].lastPage == i
  {
    n', first' := n, first;
    if b.phys[i] != b.phys[i - 1] + 4096 {
      CutSlice(b, table, n, i, first);
      n', first' := n + 1, i;
    } else {
      NextPage(b, table[..], n, i, first);
    }
    if i == |b.phys| - 1 {
      EndSlice(b, table, n', i + 1, b.end, first');
    }
  }

  /** Allocate the table and initialise its first row. */
  method NewTable(b: Buffer) returns (table: array<Segment>)
    requires |b.phys| >= 1
    ensures fresh(table) && table.Length == |b.phys|
    ensures Progress(b, table[..], 1, 1, 0) && table[0].end == b.end && table[0].lastPage == 0
  {
    table := new Segment[|b.phys|](_ => Segment(0, 0, 0, 0, 0));
    table[0] := Segment(b.start, b.end, 0, 0, 0);
    assert Chain(b, Finished(b, table[..], 0));
  }

  lemma AllFinished(b: Buffer, rows: seq<Segment>, n: nat, first: nat)
    requires Progress(b, rows, n, |b.phys|, first)
    requires rows[n - 1].end == b.end && rows[n - 1].lastPage == |b.phys| - 1
    ensures Segmentation(b, Finished(b, rows, n))
  {
    FinishedGrows(b, rows, n, |b.phys|, first, b.end);
  }

  /** Finishing the rows takes no more than the first offset. */
  lemma FirstOffset(b: Buffer, rows: seq<Segment>, n: nat)
    requires 1 <= n <= |rows| && |b.phys| >= 1
    ensures Finished(b, rows, n) == rows[0 := rows[0].(offset := OffsetOf(b, 0))][..n]
  {
  }

  method SetFirstOffset(b: Buffer, table: array<Segment>, n: nat, ghost first: nat)
    requires Progress(b, table[..], n, |b.phys|, first)
    requires table[n - 1].end == b.end && table[n - 1].lastPage == |b.phys| - 1
    modifies table
    ensures var whole := Segmentation(b, table[..n]); whole
  {
    AllFinished(b, table[..], n, first);
    FirstOffset(b, table[..], n);
    ghost var last := table[..][0 := table[0].(offset := OffsetOf(b, 0))];
    table[0] := table[0].(offset := b.phys[0] + b.start % 4096);
    assert table[..] == last;
    assert table[..n] == last[..n];
  }

  /** The loop over the pages. */
  method VisitPages(b: Buffer, table: array<Segment>) returns (n: nat, ghost first: nat)
    requires |b.phys| >= 1 && Progress(b, table[..], 1, 1, 0) && table[0].end == b.end && table[0].lastPage == 0
    modifies table
    ensures n == 1 + Gaps(b, |b.phys|) && Progress(b, table[..], n, |b.phys|, first)
    ensures table[n - 1].end == b.end && table[n - 1].lastPage == |b.phys| - 1
  {
    n, first := 1, 0;
    for i := 1 to |b.phys|
      invariant n == 1 + Gaps(b, i) && Progress(b, table[..], n, i, first)
      invariant i == |b.phys| ==> table[n - 1].end == b.end && table[n - 1].lastPage == |b.phys| - 1
    {
      n, first := VisitPage(b, table, n, i, first);
    }
  }

  /**
   pulp_mem_map_sg: fill the segment table and return the number of segments. The five
   parallel vectors of the driver are the five fields of one table row.
   */
  method MapSg(b: Buffer) returns (n: nat, table: array<Segment>)
    requires |b.phys| >= 1
    ensures 1 <= n <= |b.phys| == table.Length
    ensures n == 1 + Gaps(b, |b.phys|)
    ensures Segmentation(b, table[..n])
  {
    table := NewTable(b);
    ghost var first;
    n, first := VisitPages(b, table);
    SetFirstOffset(b, table, n, first);
  }

  /** pulp_mem_check_num_sg counts the same segments. */
  method CheckNumSg(b: Buffer) returns (n: nat)
    ensures n == 1 + Gaps(b, |b.phys|)
  {
    n := 1;
    if |b.phys| > 1 {
      for i := 1 to |b.phys|
        invariant n == 1 + Gaps(b, i)
      {
        if b.phys[i] != b.phys[i - 1] + 4096 {
          n := n + 1;
        }
      }
    }
  }

  lemma ChainGrows(b: Buffer, segs: seq<Segment>, first: nat, last: nat, end: nat)
    requires var chain := Chain(b, segs); chain
    requires first <= last && (var contiguous := Contiguous(b, first, last); contiguous)
    requires var follows := Follows(b, segs, first); follows
    ensures var longer := Chain(b, segs + [Slice(b, first, last, end)]); longer
  {
    var r := segs + [Slice(b, first, last, end)];
    assert r[..|r| - 1] == segs;
  }
}
