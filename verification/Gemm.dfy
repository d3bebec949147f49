/**
 The GEMM kernels of darknet over exact reals: gemm_nn, gemm_nt, gemm_tn, gemm_tt and
 gemm_cpu, all proved to add the same matrix product to the same block of C.
 */
module Gemm {
  import opened Arith
  import opened Sums

  /** A matrix inside a flat array: where it starts, its row stride, and how it is read. */
  datatype Mat = Mat(data: seq<real>, off: nat, ld: nat, trans: bool) {
    function Index(i: nat, k: nat): nat { off + (if trans then k * ld + i else i * ld + k) }

    function Get(i: nat, k: nat): real {
      if Index(i, k) < |data| then data[Index(i, k)] else 0.0
    }

    /** All entries of a rows x cols matrix lie inside the array. */
    ghost predicate Fits(rows: nat, cols: nat) {
      forall i: nat, k: nat {:trigger Index(i, k)} :: i < rows && k < cols ==> Index(i, k) < |data|
    }
  }

  /** The first k terms of entry (i, j) of alpha * A * B. */
  function Dot(alpha: real, a: Mat, b: Mat, i: nat, j: nat, k: nat): real {
    if k == 0 then 0.0 else Dot(alpha, a, b, i, j, k - 1) + alpha * a.Get(i, k - 1) * b.Get(k - 1, j)
  }

  /** The block of C that a call may change: rows x cols entries from `off`, `ld` apart. */
  datatype Block = Block(off: nat, ld: nat, rows: nat, cols: nat) {
    predicate Valid(len: nat) { 0 < ld && cols <= ld && (rows > 0 && cols > 0 ==> off + (rows - 1) * ld + cols <= len) }

    function Index(i: nat, j: nat): nat { off + (i * ld + j) }

    function Row(x: nat): int
      requires 0 < ld
    {
      (x - off) / ld
    }

    function Col(x: nat): int
      requires 0 < ld
    {
      (x - off) % ld
    }

    predicate Has(x: nat)
      requires 0 < ld
    {
      off <= x && Row(x) < rows && Col(x) < cols
    }
  }

  lemma BlockIndex(b: Block, len: nat, i: nat, j: nat)
    requires b.Valid(len) && i < b.rows && j < b.cols
    ensures b.Index(i, j) < len && b.Has(b.Index(i, j)) && b.Row(b.Index(i, j)) == i && b.Col(b.Index(i, j)) == j
  {
    DivModUnique(i, b.ld, j);
    MulMonotone(i, b.rows - 1, b.ld);
  }

  /** An index of the block is determined by its row and column. */
  lemma BlockUnique(b: Block, x: nat)
    requires 0 < b.ld && b.Has(x)
    ensures 0 <= b.Row(x) && 0 <= b.Col(x) && x == b.Index(b.Row(x), b.Col(x))
  {
  }

  /** C is C0 with `add(row, col)` added to every entry of the block, and nothing else changed. */
  ghost predicate Added(b: Block, c0: seq<real>, c: seq<real>, add: (int, int) -> real) {
    && 0 < b.ld && |c| == |c0|
    && forall x: nat :: x < |c| ==> c[x] == if b.Has(x) then c0[x] + add(b.Row(x), b.Col(x)) else c0[x]
  }

  /** What is added matters on the block only. */
  lemma AddedSame(b: Block, c0: seq<real>, c: seq<real>, f: (int, int) -> real, g: (int, int) -> real)
    requires Added(b, c0, c, f)
    requires forall i: nat, j: nat :: i < b.rows && j < b.cols ==> f(i, j) == g(i, j)
    ensures Added(b, c0, c, g)
  {
    forall x: nat | x < |c| && b.Has(x)
      ensures f(b.Row(x), b.Col(x)) == g(b.Row(x), b.Col(x))
    {
      BlockUnique(b, x);
    }
  }

  /** Adding to entry (i, j) changes what was added there and nowhere else. */
  lemma AddedAt(b: Block, c0: seq<real>, c: seq<real>, f: (int, int) -> real, i: nat, j: nat, v: real, g: (int, int) -> real)
    requires b.Valid(|c|) && Added(b, c0, c, f) && i < b.rows && j < b.cols
    requires g(i, j) == f(i, j) + v
    requires forall i': nat, j': nat :: i' < b.rows && j' < b.cols && (i' != i || j' != j) ==> g(i', j') == f(i', j')
    ensures b.Index(i, j) < |c| && Added(b, c0, c[b.Index(i, j) := c[b.Index(i, j)] + v], g)
  {
    BlockIndex(b, |c|, i, j);
    var y := b.Index(i, j);
    var d := c[y := c[y] + v];
    forall x: nat | x < |d|
      ensures d[x] == if b.Has(x) then c0[x] + g(b.Row(x), b.Col(x)) else c0[x]
    {
      if b.Has(x) && x != y {
        BlockUnique(b, x);
      }
    }
  }

  /** The product as a function of row and column, K terms each. */
  function Product(alpha: real, a: Mat, b: Mat, K: nat): (int, int) -> real {
    (i: int, j: int) => if i < 0 || j < 0 then 0.0 else Dot(alpha, a, b, i, j, K)
  }

  /** gemm_nn and gemm_tn after rows < i, terms < k of row i, and columns < j of term k. */
  function ByTerms(alpha: real, a: Mat, b: Mat, K: nat, i: nat, k: nat, j: nat): (int, int) -> real {
    (r: int, s: int) =>
      if r < 0 || s < 0 || r > i then 0.0
      else Dot(alpha, a, b, r, s, if r < i then K else if s < j then k + 1 else k)
  }

  /** gemm_nt and gemm_tt after rows < i and columns < j of row i. */
  function ByEntries(alpha: real, a: Mat, b: Mat, K: nat, i: nat, j: nat): (int, int) -> real {
    (r: int, s: int) =>
      if r < 0 || s < 0 || r > i || (r == i && s >= j) then 0.0 else Dot(alpha, a, b, r, s, K)
  }

  lemma TermAdded(alpha: real, a: Mat, b: Mat, K: nat, blk: Block, c0: seq<real>, c: seq<real>, i: nat, k: nat, j: nat, v: real)
    requires blk.Valid(|c|) && i < blk.rows && j < blk.cols && v == alpha * a.Get(i, k) * b.Get(k, j)
    requires Added(blk, c0, c, ByTerms(alpha, a, b, K, i, k, j))
    ensures blk.Index(i, j) < |c|
    ensures Added(blk, c0, c[blk.Index(i, j) := c[blk.Index(i, j)] + v], ByTerms(alpha, a, b, K, i, k, j + 1))
  {
    assert Dot(alpha, a, b, i, j, k + 1) == Dot(alpha, a, b, i, j, k) + v;
    AddedAt(blk, c0, c, ByTerms(alpha, a, b, K, i, k, j), i, j, v, ByTerms(alpha, a, b, K, i, k, j + 1));
  }

  lemma ByTermsStart(alpha: real, a: Mat, b: Mat, K: nat, i: nat)
    ensures forall r: nat, s: nat :: ByTerms(alpha, a, b, K, i, 0, 0)(r, s)
                                     == if r < i then Dot(alpha, a, b, r, s, K) else 0.0
  {
    forall r: nat, s: nat
      ensures ByTerms(alpha, a, b, K, i, 0, 0)(r, s) == if r < i then Dot(alpha, a, b, r, s, K) else 0.0
    {
      assert Dot(alpha, a, b, r, s, 0) == 0.0;
    }
  }

  lemma NothingAdded(blk: Block, c: seq<real>, f: (int, int) -> real)
    requires 0 < blk.ld && forall i: nat, j: nat :: i < blk.rows && j < blk.cols ==> f(i, j) == 0.0
    ensures Added(blk, c, c, f)
  {
    forall x: nat | x < |c| && blk.Has(x)
      ensures f(blk.Row(x), blk.Col(x)) == 0.0
    {
      BlockUnique(blk, x);
    }
  }

  /** The innermost loop of gemm_nn and gemm_tn: C[i*ldc+j] += A_PART * B[k*ldb+j] for every j. */
  method AddTerm(alpha: real, a: Mat, b: Mat, K: nat, C: array<real>, blk: Block, i: nat, k: nat, part: real, ghost c0: seq<real>)
    requires !b.trans && b.Fits(K, blk.cols) && blk.Valid(C.Length) && i < blk.rows && k < K
    requires part == alpha * a.Get(i, k) && Added(blk, c0, C[..], ByTerms(alpha, a, b, K, i, k, 0))
    modifies C
    ensures Added(blk, c0, C[..], ByTerms(alpha, a, b, K, i, k + 1, 0))
  {
    for j := 0 to blk.cols
      invariant Added(blk, c0, C[..], ByTerms(alpha, a, b, K, i, k, j))
    {
      assert b.Index(k, j) < |b.data|;
      var v := part * b.data[b.off + (k * b.ld + j)];
      TermAdded(alpha, a, b, K, blk, c0, C[..], i, k, j, v);
      ghost var next := C[..][blk.Index(i, j) := C[..][blk.Index(i, j)] + v];
      C[blk.off + (i * blk.ld + j)] := C[blk.off + (i * blk.ld + j)] + v;
      assert C[..] == next;
    }
    AddedSame(blk, c0, C[..], ByTerms(alpha, a, b, K, i, k, blk.cols), ByTerms(alpha, a, b, K, i, k + 1, 0));
  }

  lemma EntryAdded(alpha: real, a: Mat, b: Mat, K: nat, blk: Block, c0: seq<real>, c: seq<real>, i: nat, j: nat)
    requires blk.Valid(|c|) && i < blk.rows && j < blk.cols
    requires Added(blk, c0, c, ByEntries(alpha, a, b, K, i, j))
    ensures blk.Index(i, j) < |c|
    ensures Added(blk, c0, c[blk.Index(i, j) := c[blk.Index(i, j)] + Dot(alpha, a, b, i, j, K)], ByEntries(alpha, a, b, K, i, j + 1))
  {
    AddedAt(blk, c0, c, ByEntries(alpha, a, b, K, i, j), i, j, Dot(alpha, a, b, i, j, K), ByEntries(alpha, a, b, K, i, j + 1));
  }

  /** C[i*ldc+j] += sum at the end of an entry of gemm_nt and gemm_tt. */
  method AddEntry(alpha: real, a: Mat, b: Mat, K: nat, C: array<real>, blk: Block, i: nat, j: nat, sum: real, ghost c0: seq<real>)
    requires blk.Valid(C.Length) && i < blk.rows && j < blk.cols && sum == Dot(alpha, a, b, i, j, K)
    requires Added(blk, c0, C[..], ByEntries(alpha, a, b, K, i, j))
    modifies C
    ensures Added(blk, c0, C[..], ByEntries(alpha, a, b, K, i, j + 1))
  {
    EntryAdded(alpha, a, b, K, blk, c0, C[..], i, j);
    ghost var next := C[..][blk.Index(i, j) := C[..][blk.Index(i, j)] + sum];
    C[blk.off + (i * blk.ld + j)] := C[blk.off + (i * blk.ld + j)] + sum;
    assert C[..] == next;
  }

  /** gemm_nn */
  method GemmNn(alpha: real, a: Mat, b: Mat, K: nat, C: array<real>, blk: Block)
    requires !a.trans && !b.trans && a.Fits(blk.rows, K) && b.Fits(K, blk.cols) && blk.Valid(C.Length)
    modifies C
    ensures Added(blk, old(C[..]), C[..], Product(alpha, a, b, K))
  {
    ghost var c0 := C[..];
    ByTermsStart(alpha, a, b, K, 0);
    NothingAdded(blk, c0, ByTerms(alpha, a, b, K, 0, 0, 0));
    for i := 0 to blk.rows
      invariant Added(blk, c0, C[..], ByTerms(alpha, a, b, K, i, 0, 0))
    {
      for k := 0 to K
        invariant Added(blk, c0, C[..], ByTerms(alpha, a, b, K, i, k, 0))
      {
        assert a.Index(i, k) < |a.data|;
        var part := alpha * a.data[a.off + (i * a.ld + k)];
        AddTerm(alpha, a, b, K, C, blk, i, k, part, c0);
      }
      ByTermsStart(alpha, a, b, K, i + 1);
      AddedSame(blk, c0, C[..], ByTerms(alpha, a, b, K, i, K, 0), ByTerms(alpha, a, b, K, i + 1, 0, 0));
    }
    ByTermsStart(alpha, a, b, K, blk.rows);
    AddedSame(blk, c0, C[..], ByTerms(alpha, a, b, K, blk.rows, 0, 0), Product(alpha, a, b, K));
  }

  /** gemm_tn: A is read transposed */
  method GemmTn(alpha: real, a: Mat, b: Mat, K: nat, C: array<real>, blk: Block)
    requires a.trans && !b.trans && a.Fits(blk.rows, K) && b.Fits(K, blk.cols) && blk.Valid(C.Length)
    modifies C
    ensures Added(blk, old(C[..]), C[..], Product(alpha, a, b, K))
  {
    ghost var c0 := C[..];
    ByTermsStart(alpha, a, b, K, 0);
    NothingAdded(blk, c0, ByTerms(alpha, a, b, K, 0, 0, 0));
    for i := 0 to blk.rows
      invariant Added(blk, c0, C[..], ByTerms(alpha, a, b, K, i, 0, 0))
    {
      for k := 0 to K
        invariant Added(blk, c0, C[..], ByTerms(alpha, a, b, K, i, k, 0))
      {
        assert a.Index(i, k) < |a.data|;
        var part := alpha * a.data[a.off + (k * a.ld + i)];
        AddTerm(alpha, a, b, K, C, blk, i, k, part, c0);
      }
      ByTermsStart(alpha, a, b, K, i + 1);
      AddedSame(blk, c0, C[..], ByTerms(alpha, a, b, K, i, K, 0), ByTerms(alpha, a, b, K, i + 1, 0, 0));
    }
    ByTermsStart(alpha, a, b, K, blk.rows);
    AddedSame(blk, c0, C[..], ByTerms(alpha, a, b, K, blk.rows, 0, 0), Product(alpha, a, b, K));
  }

  /** The innermost loop of gemm_nt. */
  method SumNt(alpha: real, a: Mat, b: Mat, K: nat, rows: nat, cols: nat, i: nat, j: nat) returns (sum: real)
    requires !a.trans && b.trans && a.Fits(rows, K) && b.Fits(K, cols) && i < rows && j < cols
    ensures sum == Dot(alpha, a, b, i, j, K)
  {
    sum := 0.0;
    for k := 0 to K
      invariant sum == Dot(alpha, a, b, i, j, k)
    {
      assert a.Index(i, k) < |a.data| && b.Index(k, j) < |b.data|;
      sum := sum + alpha * a.data[a.off + (i * a.ld + k)] * b.data[b.off + (j * b.ld + k)];
    }
  }

  /** gemm_nt: B is read transposed */
  method GemmNt(alpha: real, a: Mat, b: Mat, K: nat, C: array<real>, blk: Block)
    requires !a.trans && b.trans && a.Fits(blk.rows, K) && b.Fits(K, blk.cols) && blk.Valid(C.Length)
    modifies C
    ensures Added(blk, old(C[..]), C[..], Product(alpha, a, b, K))
  {
    ghost var c0 := C[..];
    NothingAdded(blk, c0, ByEntries(alpha, a, b, K, 0, 0));
    for i := 0 to blk.rows
      invariant Added(blk, c0, C[..], ByEntries(alpha, a, b, K, i, 0))
    {
      for j := 0 to blk.cols
        invariant Added(blk, c0, C[..], ByEntries(alpha, a, b, K, i, j))
      {
        var sum := SumNt(alpha, a, b, K, blk.rows, blk.cols, i, j);
        AddEntry(alpha, a, b, K, C, blk, i, j, sum, c0);
      }
      AddedSame(blk, c0, C[..], ByEntries(alpha, a, b, K, i, blk.cols), ByEntries(alpha, a, b, K, i + 1, 0));
    }
    AddedSame(blk, c0, C[..], ByEntries(alpha, a, b, K, blk.rows, 0), Product(alpha, a, b, K));
  }

  /** The innermost loop of gemm_tt. */
  method SumTt(alpha: real, a: Mat, b: Mat, K: nat, rows: nat, cols: nat, i: nat, j: nat) returns (sum: real)
    requires a.trans && b.trans && a.Fits(rows, K) && b.Fits(K, cols) && i < rows && j < cols
    ensures sum == Dot(alpha, a, b, i, j, K)
  {
    sum := 0.0;
    for k := 0 to K
      invariant sum == Dot(alpha, a, b, i, j, k)
    {
      assert a.Index(i, k) < |a.data| && b.Index(k, j) < |b.data|;
      sum := sum + alpha * a.data[a.off + (k * a.ld + i)] * b.data[b.off + (j * b.ld + k)];
    }
  }

  /** gemm_tt: both operands are read transposed */
  method GemmTt(alpha: real, a: Mat, b: Mat, K: nat, C: array<real>, blk: Block)
    requires a.trans && b.trans && a.Fits(blk.rows, K) && b.Fits(K, blk.cols) && blk.Valid(C.Length)
    modifies C
    ensures Added(blk, old(C[..]), C[..], Product(alpha, a, b, K))
  {
    ghost var c0 := C[..];
    NothingAdded(blk, c0, ByEntries(alpha, a, b, K, 0, 0));
    for i := 0 to blk.rows
      invariant Added(blk, c0, C[..], ByEntries(alpha, a, b, K, i, 0))
    {
      for j := 0 to blk.cols
        invariant Added(blk, c0, C[..], ByEntries(alpha, a, b, K, i, j))
      {
        var sum := SumTt(alpha, a, b, K, blk.rows, blk.cols, i, j);
        AddEntry(alpha, a, b, K, C, blk, i, j, sum, c0);
      }
      AddedSame(blk, c0, C[..], ByEntries(alpha, a, b, K, i, blk.cols), ByEntries(alpha, a, b, K, i + 1, 0));
    }
    AddedSame(blk, c0, C[..], ByEntries(alpha, a, b, K, blk.rows, 0), Product(alpha, a, b, K));
  }

  /** The BETA scaling at the start of gemm_cpu. */
  method Scale(beta: real, C: array<real>, blk: Block)
    requires blk.Valid(C.Length)
    modifies C
    ensures |C[..]| == |old(C[..])|
    ensures forall x: nat :: x < C.Length ==> C[x] == if blk.Has(x) then old(C[..])[x] * beta else old(C[..])[x]
  {
    MapBlock(v => v * beta, C, blk);
  }

  /** The loop nest that updates every entry of a block in place. */
  method MapBlock(f: real -> real, C: array<real>, blk: Block)
    requires blk.Valid(C.Length)
    modifies C
    ensures |C[..]| == |old(C[..])|
    ensures forall x: nat :: x < C.Length ==> C[x] == if blk.Has(x) then f(old(C[..])[x]) else old(C[..])[x]
  {
    ghost var c0 := C[..];
    for i := 0 to blk.rows
      invariant var mapped := Mapped(f, blk, c0, C[..], i, 0); mapped
    {
      MapRow(f, C, blk, i, c0);
    }
    MappedAll(f, blk, c0, C[..]);
  }

  method MapRow(f: real -> real, C: array<real>, blk: Block, i: nat, ghost c0: seq<real>)
    requires blk.Valid(C.Length) && i < blk.rows && (var mapped := Mapped(f, blk, c0, C[..], i, 0); mapped)
    modifies C
    ensures var mapped := Mapped(f, blk, c0, C[..], i + 1, 0); mapped
  {
    for j := 0 to blk.cols
      invariant Mapped(f, blk, c0, C[..], i, j)
    {
      MappedAt(f, blk, c0, C[..], i, j);
      ghost var next := C[..][blk.Index(i, j) := f(C[..][blk.Index(i, j)])];
      C[blk.off + (i * blk.ld + j)] := f(C[blk.off + (i * blk.ld + j)]);
      assert C[..] == next;
    }
    MappedRow(f, blk, c0, C[..], i);
  }

  /** Rows below i and columns below j of row i are updated, everything else is as in `c0`. */
  ghost predicate Mapped(f: real -> real, blk: Block, c0: seq<real>, c: seq<real>, i: nat, j: nat) {
    && 0 < blk.ld && |c| == |c0|
    && forall x: nat :: x < |c| ==>
         c[x] == if blk.Has(x) && (blk.Row(x) < i || (blk.Row(x) == i && blk.Col(x) < j)) then f(c0[x]) else c0[x]
  }

  lemma MappedAt(f: real -> real, blk: Block, c0: seq<real>, c: seq<real>, i: nat, j: nat)
    requires blk.Valid(|c|) && Mapped(f, blk, c0, c, i, j) && i < blk.rows && j < blk.cols
    ensures blk.Index(i, j) < |c|
    ensures Mapped(f, blk, c0, c[blk.Index(i, j) := f(c[blk.Index(i, j)])], i, j + 1)
  {
    BlockIndex(blk, |c|, i, j);
    forall x: nat | x < |c| && blk.Has(x) && x != blk.Index(i, j)
      ensures blk.Row(x) != i || blk.Col(x) != j
    {
      BlockUnique(blk, x);
    }
  }

  lemma MappedRow(f: real -> real, blk: Block, c0: seq<real>, c: seq<real>, i: nat)
    requires Mapped(f, blk, c0, c, i, blk.cols)
    ensures Mapped(f, blk, c0, c, i + 1, 0)
  {
  }

  lemma MappedAll(f: real -> real, blk: Block, c0: seq<real>, c: seq<real>)
    requires Mapped(f, blk, c0, c, blk.rows, 0)
    ensures forall x: nat :: x < |c| ==> c[x] == if blk.Has(x) then f(c0[x]) else c0[x]
  {
  }

  /** C after gemm_cpu: beta * C + alpha * op(A) * op(B) on the block, unchanged elsewhere. */
  ghost predicate GemmResult(alpha: real, a: Mat, b: Mat, K: nat, beta: real, blk: Block, c0: seq<real>, c: seq<real>) {
    && 0 < blk.ld && |c| == |c0|
    && forall x: nat :: x < |c| ==>
         c[x] == if blk.Has(x) then c0[x] * beta + Product(alpha, a, b, K)(blk.Row(x), blk.Col(x)) else c0[x]
  }

  /** gemm_cpu; TA and TB are the `trans` fields of the operands. */
  method GemmCpu(alpha: real, a: Mat, b: Mat, K: nat, beta: real, C: array<real>, blk: Block)
    requires var fit := a.Fits(blk.rows, K) && b.Fits(K, blk.cols) && blk.Valid(C.Length); fit
    modifies C
    ensures var result := GemmResult(alpha, a, b, K, beta, blk, old(C[..]), C[..]); result
  {
    Scale(beta, C, blk);
    if !a.trans && !b.trans {
      GemmNn(alpha, a, b, K, C, blk);
    } else if a.trans && !b.trans {
      GemmTn(alpha, a, b, K, C, blk);
    } else if !a.trans && b.trans {
      GemmNt(alpha, a, b, K, C, blk);
    } else {
      GemmTt(alpha, a, b, K, C, blk);
    }
  }

  // ---------------------------------------------------------------- by indices

  predicate IsTerm(alpha: real, a: Mat, b: Mat, i: nat, j: nat, f: int -> real, t: nat) {
    f(t) == alpha * a.Get(i, t) * b.Get(t, j)
  }

  lemma {:induction false} DotSums(alpha: real, a: Mat, b: Mat, i: nat, j: nat, k: nat, f: int -> real)
    requires forall t: nat {:trigger IsTerm(alpha, a, b, i, j, f, t)} :: t < k ==> IsTerm(alpha, a, b, i, j, f, t)
    ensures Dot(alpha, a, b, i, j, k) == Sum(k, f)
  {
    if k > 0 {
      DotSums(alpha, a, b, i, j, k - 1, f);
      assert IsTerm(alpha, a, b, i, j, f, k - 1);
    }
  }

  /** Entry (i, t) of an operand with its rows, or when transposed its columns, `ld` apart. */
  function Operand(a: Mat, i: nat, t: nat): int { if a.trans then a.off + t * a.ld + i else a.off + i * a.ld + t }

  /** f(t) is term t of the inner product, read from the arrays. */
  predicate ReadsTerm(alpha: real, a: Mat, b: Mat, i: nat, j: nat, f: int -> real, t: nat) {
    && 0 <= Operand(a, i, t) < |a.data| && 0 <= Operand(b, t, j) < |b.data|
    && f(t) == alpha * a.data[Operand(a, i, t)] * b.data[Operand(b, t, j)]
  }

  /** Entry (i, j) of the block after gemm_cpu is the scaled old value plus the sum of the K products. */
  lemma GemmByIndices(alpha: real, a: Mat, b: Mat, K: nat, beta: real, blk: Block, c0: seq<real>, c: seq<real>, i: nat, j: nat, f: int -> real)
    requires (var result := GemmResult(alpha, a, b, K, beta, blk, c0, c); result) && blk.Valid(|c|) && i < blk.rows && j < blk.cols
    requires forall t: nat {:trigger ReadsTerm(alpha, a, b, i, j, f, t)} :: t < K ==> ReadsTerm(alpha, a, b, i, j, f, t)
    ensures 0 <= blk.off + i * blk.ld + j < |c| == |c0|
    ensures c[blk.off + i * blk.ld + j] == c0[blk.off + i * blk.ld + j] * beta + Sum(K, f)
  {
    BlockIndex(blk, |c|, i, j);
    forall t: nat {:trigger IsTerm(alpha, a, b, i, j, f, t)} | t < K
      ensures IsTerm(alpha, a, b, i, j, f, t)
    {
      assert ReadsTerm(alpha, a, b, i, j, f, t);
    }
    DotSums(alpha, a, b, i, j, K, f);
    assert Product(alpha, a, b, K)(i, j) == Dot(alpha, a, b, i, j, K);
  }
}
