/**
 gemm_nn_tiled, the variant without offload: a walk over tiles whose step is cut short near
 the end of each dimension. Every index is visited exactly once, except that the last index
 of a dimension is left out when that dimension is 1 modulo the block size.
 */
module TiledGemm {
  import opened Arith
  import opened Gemm

  function MyMin(a: int, b: int): int { if a < b then a else b }

  /** How much of a dimension the walk visits. */
  function Cover(x: nat, bs: nat): (c: nat)
    requires bs >= 1
    ensures c == x || c == x - 1
    ensures c == x <==> x == 0 || (x - 1) % bs != 0
  {
    if x > 0 && (x - 1) % bs == 0 then x - 1 else x
  }

  /** Loop head of one walk: at `b` after q steps, with [0, d) visited. */
  ghost predicate Walk(x: nat, bs: nat, b: nat, d: nat, q: nat)
    requires bs >= 1
  {
    || (b == q * bs && d == b && (b == 0 || b < x))
    || (b == x - 1 && d == x && Cover(x, bs) == x)
  }

  predicate WalkGoesOn(x: nat, b: nat) { b < x && x - b - 1 != 0 }

  function Limit(x: nat, bs: nat, b: nat): int { MyMin(x - b, bs) }

  function Stride(x: nat, bs: nat, b: nat): int { MyMin(x - b - 1, bs) }

  lemma WalkStart(x: nat, bs: nat)
    requires bs >= 1
    ensures Walk(x, bs, 0, 0, 0)
  {
  }

  /** One step visits the next indices, all of them inside the cover, and moves on. */
  lemma WalkStep(x: nat, bs: nat, b: nat, d: nat, q: nat)
    requires bs >= 1 && Walk(x, bs, b, d, q) && WalkGoesOn(x, b)
    ensures d == b && Limit(x, bs, b) >= 1 && b + Limit(x, bs, b) <= Cover(x, bs)
    ensures Stride(x, bs, b) >= 1 && Walk(x, bs, b + Stride(x, bs, b), b + Limit(x, bs, b), q + 1)
  {
    assert (q + 1) * bs == q * bs + bs;
    if x - b - 1 < bs {
      DivModUnique(q, bs, x - 1 - b);
    }
  }

  lemma WalkEnd(x: nat, bs: nat, b: nat, d: nat, q: nat)
    requires bs >= 1 && Walk(x, bs, b, d, q) && !WalkGoesOn(x, b)
    ensures d == Cover(x, bs)
  {
    if b == q * bs && x > 0 && b == x - 1 && d == b {
      DivModUnique(q, bs, 0);
    }
  }

  /** The operands and the walked sizes of one call; lda == K, ldb == ldc == N. */
  datatype Call = Call(M: nat, N: nat, K: nat, A: seq<real>, B: seq<real>) {
    predicate Valid() { |A| == M * K && |B| == K * N }
    function MatA(): Mat { Mat(A, 0, K, false) }
    function MatB(): Mat { Mat(B, 0, N, false) }
    function Term(m: nat, n: nat, k: nat): real { Dot(1.0, MatA(), MatB(), m, n, k) }

    /** The part of C that a call covering rows x cols entries changes. */
    function Part(rows: nat, cols: nat): Block { Block(0, if N == 0 then 1 else N, rows, cols) }
  }

  lemma PartValid(p: Call, rows: nat, cols: nat)
    requires rows <= p.M && cols <= p.N
    ensures p.Part(rows, cols).Valid(p.M * p.N)
  {
    if rows > 0 && cols > 0 {
      DigitBound(rows - 1, p.M, cols - 1, p.N);
    }
  }

  /** `terms(m, n)` products have been added to entry (m, n). */
  function Terms(p: Call, terms: (int, int) -> nat): (int, int) -> real {
    (m: int, n: int) => if m < 0 || n < 0 then 0.0 else p.Term(m, n, terms(m, n))
  }

  /** A tile [bm, em) x [bn, en) has been brought to `hi` terms. */
  function TileDone(before: (int, int) -> nat, bm: nat, bn: nat, em: nat, en: nat, hi: nat): (int, int) -> nat {
    (r: int, s: int) => if bm <= r < em && bn <= s < en then hi else before(r, s)
  }

  function NoTerms(): (int, int) -> nat { (m: int, n: int) => 0 }

  ghost predicate State(p: Call, blk: Block, c0: seq<real>, c: seq<real>, terms: (int, int) -> nat) {
    blk.Valid(|c|) && Added(blk, c0, c, Terms(p, terms))
  }

  lemma StateSame(p: Call, blk: Block, c0: seq<real>, c: seq<real>, f: (int, int) -> nat, g: (int, int) -> nat)
    requires var state := State(p, blk, c0, c, f); state
    requires forall r: nat, s: nat :: r < blk.rows && s < blk.cols ==> f(r, s) == g(r, s)
    ensures var state := State(p, blk, c0, c, g); state
  {
    AddedSame(blk, c0, c, Terms(p, f), Terms(p, g));
  }

  /** One product is added to entry (m, n). */
  lemma StateTerm(p: Call, blk: Block, c0: seq<real>, c: seq<real>, f: (int, int) -> nat, m: nat, n: nat, v: real, g: (int, int) -> nat)
    requires State(p, blk, c0, c, f) && m < blk.rows && n < blk.cols
    requires v == p.MatA().Get(m, f(m, n)) * p.MatB().Get(f(m, n), n)
    requires g(m, n) == f(m, n) + 1
    requires forall r: nat, s: nat :: r < blk.rows && s < blk.cols && (r != m || s != n) ==> g(r, s) == f(r, s)
    ensures blk.Index(m, n) < |c|
    ensures var state := State(p, blk, c0, c[blk.Index(m, n) := c[blk.Index(m, n)] + v], g); state
  {
    assert p.Term(m, n, g(m, n)) == p.Term(m, n, f(m, n)) + v;
    AddedAt(blk, c0, c, Terms(p, f), m, n, v, Terms(p, g));
  }

  /** A[m*K+k] * B[k*N+n], inside both arrays. */
  function ReadProduct(p: Call, m: nat, n: nat, k: nat): (v: real)
    requires p.Valid() && m < p.M && n < p.N && k < p.K
    ensures v == p.MatA().Get(m, k) * p.MatB().Get(k, n)
  {
    DigitBound(m, p.M, k, p.K);
    DigitBound(k, p.K, n, p.N);
    p.A[m * p.K + k] * p.B[k * p.N + n]
  }

  /** C[m*N+n] += v. */
  method AddTo(p: Call, blk: Block, C: array<real>, m: nat, n: nat, v: real)
    requires blk.off == 0 && blk.ld == p.N && blk.Index(m, n) < C.Length
    modifies C
    ensures C[..] == old(C[..])[blk.Index(m, n) := old(C[..])[blk.Index(m, n)] + v]
  {
    C[m * p.N + n] := C[m * p.N + n] + v;
  }

  /** Term k of entry (m, n). */
  method AddProduct(p: Call, blk: Block, C: array<real>, m: nat, n: nat, k: nat, ghost c0: seq<real>, ghost f: (int, int) -> nat, ghost g: (int, int) -> nat)
    requires p.Valid() && m < blk.rows <= p.M && n < blk.cols <= p.N && k < p.K && blk.off == 0 && blk.ld == p.N
    requires var state := State(p, blk, c0, C[..], f); state
    requires f(m, n) == k && g(m, n) == k + 1
    requires forall r: nat, s: nat :: r < blk.rows && s < blk.cols && (r != m || s != n) ==> g(r, s) == f(r, s)
    modifies C
    ensures var state := State(p, blk, c0, C[..], g); state
  {
    var v := ReadProduct(p, m, n, k);
    StateTerm(p, blk, c0, C[..], f, m, n, v, g);
    AddTo(p, blk, C, m, n, v);
  }

  /** The innermost loop: entry (m, n) goes from lo to hi terms. */
  method Entry(p: Call, blk: Block, C: array<real>, m: nat, n: nat, lo: nat, hi: nat, ghost c0: seq<real>, ghost before: (int, int) -> nat)
    requires p.Valid() && m < blk.rows <= p.M && n < blk.cols <= p.N && lo <= hi <= p.K && blk.off == 0 && blk.ld == p.N
    requires State(p, blk, c0, C[..], before) && before(m, n) == lo
    modifies C
    ensures var state := State(p, blk, c0, C[..], TileDone(before, m, n, m + 1, n + 1, hi)); state
  {
    StateSame(p, blk, c0, C[..], before, TileDone(before, m, n, m + 1, n + 1, lo));
    for k := lo to hi
      invariant var state := State(p, blk, c0, C[..], TileDone(before, m, n, m + 1, n + 1, k)); state
    {
      AddProduct(p, blk, C, m, n, k, c0, TileDone(before, m, n, m + 1, n + 1, k), TileDone(before, m, n, m + 1, n + 1, k + 1));
    }
  }

  /** The three loops over one tile [bm, em) x [bn, en), from lo to hi terms. */
  method Tile(p: Call, blk: Block, C: array<real>, bm: nat, em: nat, bn: nat, en: nat, lo: nat, hi: nat,
              ghost c0: seq<real>, ghost before: (int, int) -> nat)
    requires p.Valid() && bm <= em <= blk.rows <= p.M && bn <= en <= blk.cols <= p.N && lo <= hi <= p.K
    requires blk.off == 0 && blk.ld == p.N
    requires var state := State(p, blk, c0, C[..], before); state
    requires forall r: nat, s: nat :: bm <= r < em && bn <= s < en ==> before(r, s) == lo
    modifies C
    ensures var state := State(p, blk, c0, C[..], TileDone(before, bm, bn, em, en, hi)); state
  {
    StateSame(p, blk, c0, C[..], before, TileDone(before, bm, bn, bm, en, hi));
    for m := bm to em
      invariant var state := State(p, blk, c0, C[..], TileDone(before, bm, bn, m, en, hi)); state
    {
      TileRow(p, blk, C, m, bn, en, lo, hi, c0, TileDone(before, bm, bn, m, en, hi));
      StateSame(p, blk, c0, C[..], TileDone(TileDone(before, bm, bn, m, en, hi), m, bn, m + 1, en, hi),
                TileDone(before, bm, bn, m + 1, en, hi));
    }
  }

  /** The loops over n and k for one row of a tile. */
  method TileRow(p: Call, blk: Block, C: array<real>, m: nat, bn: nat, en: nat, lo: nat, hi: nat,
                 ghost c0: seq<real>, ghost before: (int, int) -> nat)
    requires p.Valid() && m < blk.rows <= p.M && bn <= en <= blk.cols <= p.N && lo <= hi <= p.K
    requires blk.off == 0 && blk.ld == p.N
    requires var state := State(p, blk, c0, C[..], before); state
    requires forall s: nat :: bn <= s < en ==> before(m, s) == lo
    modifies C
    ensures var state := State(p, blk, c0, C[..], TileDone(before, m, bn, m + 1, en, hi)); state
  {
    StateSame(p, blk, c0, C[..], before, TileDone(before, m, bn, m + 1, bn, hi));
    for n := bn to en
      invariant var state := State(p, blk, c0, C[..], TileDone(before, m, bn, m + 1, n, hi)); state
    {
      Entry(p, blk, C, m, n, lo, hi, c0, TileDone(before, m, bn, m + 1, n, hi));
      StateSame(p, blk, c0, C[..], TileDone(TileDone(before, m, bn, m + 1, n, hi), m, n, m + 1, n + 1, hi),
                TileDone(before, m, bn, m + 1, n + 1, hi));
    }
  }

  /** One more tile of a column whose first d rows are done. */
  method TileBelow(p: Call, blk: Block, C: array<real>, ghost d: nat, bm: nat, em: nat, bn: nat, en: nat, lo: nat, hi: nat,
                   ghost c0: seq<real>, ghost before: (int, int) -> nat)
    requires p.Valid() && d == bm <= em <= blk.rows <= p.M && bn <= en <= blk.cols <= p.N && lo <= hi <= p.K
    requires blk.off == 0 && blk.ld == p.N
    requires var state := State(p, blk, c0, C[..], TileDone(before, 0, bn, d, en, hi)); state
    requires forall r: nat, s: nat :: r < blk.rows && bn <= s < en ==> before(r, s) == lo
    modifies C
    ensures var state := State(p, blk, c0, C[..], TileDone(before, 0, bn, em, en, hi)); state
  {
    Tile(p, blk, C, bm, em, bn, en, lo, hi, c0, TileDone(before, 0, bn, d, en, hi));
    StateSame(p, blk, c0, C[..], TileDone(TileDone(before, 0, bn, d, en, hi), bm, bn, em, en, hi), TileDone(before, 0, bn, em, en, hi));
  }

  /** The loop over bm: one column of tiles goes from lo to hi terms on all covered rows. */
  method TileColumn(p: Call, blk: Block, C: array<real>, bs: nat, bn: nat, en: nat, lo: nat, hi: nat,
                    ghost c0: seq<real>, ghost before: (int, int) -> nat)
    requires p.Valid() && bs >= 1 && blk == p.Part(Cover(p.M, bs), Cover(p.N, bs)) && p.N > 0
    requires bn <= en <= blk.cols && lo <= hi <= p.K
    requires var state := State(p, blk, c0, C[..], before); state
    requires forall r: nat, s: nat :: r < blk.rows && bn <= s < en ==> before(r, s) == lo
    modifies C
    ensures var state := State(p, blk, c0, C[..], TileDone(before, 0, bn, blk.rows, en, hi)); state
  {
    var bm: nat := 0;
    ghost var d: nat, q: nat := 0, 0;
    WalkStart(p.M, bs);
    StateSame(p, blk, c0, C[..], before, TileDone(before, 0, bn, 0, en, hi));
    while bm < p.M && p.M - bm - 1 != 0
      invariant Walk(p.M, bs, bm, d, q) && d <= blk.rows && bm <= p.M
      invariant var state := State(p, blk, c0, C[..], TileDone(before, 0, bn, d, en, hi)); state
      decreases p.M - bm
    {
      WalkStep(p.M, bs, bm, d, q);
      var limit := MyMin(p.M - bm, bs);
      TileBelow(p, blk, C, d, bm, bm + limit, bn, en, lo, hi, c0, before);
      d, q := bm + limit, q + 1;
      bm := bm + MyMin(p.M - bm - 1, bs);
    }
    WalkEnd(p.M, bs, bm, d, q);
  }

  /** Growing a finished tile by an adjacent one. */
  lemma StateJoin(p: Call, blk: Block, c0: seq<real>, c: seq<real>, before: (int, int) -> nat, mid: nat, end: nat, hi: nat)
    requires mid <= end
    requires var state := State(p, blk, c0, c, TileDone(TileDone(before, 0, 0, blk.rows, mid, hi), 0, mid, blk.rows, end, hi)); state
    ensures var state := State(p, blk, c0, c, TileDone(before, 0, 0, blk.rows, end, hi)); state
  {
    StateSame(p, blk, c0, c, TileDone(TileDone(before, 0, 0, blk.rows, mid, hi), 0, mid, blk.rows, end, hi),
              TileDone(before, 0, 0, blk.rows, end, hi));
  }

  /** Raising a finished tile to more terms. */
  lemma StateRaise(p: Call, blk: Block, c0: seq<real>, c: seq<real>, before: (int, int) -> nat, bn: nat, en: nat, lo: nat, hi: nat)
    requires var state := State(p, blk, c0, c, TileDone(TileDone(before, 0, bn, blk.rows, en, lo), 0, bn, blk.rows, en, hi)); state
    ensures var state := State(p, blk, c0, c, TileDone(before, 0, bn, blk.rows, en, hi)); state
  {
    StateSame(p, blk, c0, c, TileDone(TileDone(before, 0, bn, blk.rows, en, lo), 0, bn, blk.rows, en, hi),
              TileDone(before, 0, bn, blk.rows, en, hi));
  }

  /** One step of the loop over bk. */
  method TermsStep(p: Call, blk: Block, C: array<real>, bs: nat, bn: nat, en: nat, bk: nat, ghost d: nat, ghost q: nat,
                   ghost c0: seq<real>, ghost before: (int, int) -> nat) returns (bk': nat, ghost d': nat)
    requires p.Valid() && bs >= 1 && blk == p.Part(Cover(p.M, bs), Cover(p.N, bs)) && p.N > 0 && bn <= en <= blk.cols
    requires Walk(p.K, bs, bk, d, q) && WalkGoesOn(p.K, bk)
    requires var state := State(p, blk, c0, C[..], TileDone(before, 0, bn, blk.rows, en, d)); state
    modifies C
    ensures Walk(p.K, bs, bk', d', q + 1) && bk < bk' <= p.K
    ensures var state := State(p, blk, c0, C[..], TileDone(before, 0, bn, blk.rows, en, d')); state
  {
    WalkStep(p.K, bs, bk, d, q);
    var limit := MyMin(p.K - bk, bs);
    TileColumn(p, blk, C, bs, bn, en, bk, bk + limit, c0, TileDone(before, 0, bn, blk.rows, en, bk));
    StateRaise(p, blk, c0, C[..], before, bn, en, bk, bk + limit);
    d' := bk + limit;
    bk' := bk + MyMin(p.K - bk - 1, bs);
  }

  /** The loop over bk: one column of tiles receives every covered term. */
  method TileTerms(p: Call, blk: Block, C: array<real>, bs: nat, bn: nat, en: nat,
                   ghost c0: seq<real>, ghost before: (int, int) -> nat)
    requires p.Valid() && bs >= 1 && blk == p.Part(Cover(p.M, bs), Cover(p.N, bs)) && p.N > 0
    requires bn <= en <= blk.cols && State(p, blk, c0, C[..], before)
    requires forall r: nat, s: nat :: r < blk.rows && bn <= s < en ==> before(r, s) == 0
    modifies C
    ensures var state := State(p, blk, c0, C[..], TileDone(before, 0, bn, blk.rows, en, Cover(p.K, bs))); state
  {
    StateSame(p, blk, c0, C[..], before, TileDone(before, 0, bn, blk.rows, en, 0));
    var bk: nat := 0;
    ghost var d: nat, q: nat := 0, 0;
    WalkStart(p.K, bs);
    while bk < p.K && p.K - bk - 1 != 0
      invariant Walk(p.K, bs, bk, d, q) && bk <= p.K
      invariant var state := State(p, blk, c0, C[..], TileDone(before, 0, bn, blk.rows, en, d)); state
      decreases p.K - bk
    {
      bk, d := TermsStep(p, blk, C, bs, bn, en, bk, d, q, c0, before);
      q := q + 1;
    }
    WalkEnd(p.K, bs, bk, d, q);
  }

  /** One step of the loop over bn. */
  method ColumnsStep(p: Call, blk: Block, C: array<real>, bs: nat, bn: nat, ghost d: nat, ghost q: nat,
                     ghost c0: seq<real>, ghost before: (int, int) -> nat) returns (bn': nat, ghost d': nat)
    requires p.Valid() && bs >= 1 && blk == p.Part(Cover(p.M, bs), Cover(p.N, bs))
    requires Walk(p.N, bs, bn, d, q) && WalkGoesOn(p.N, bn)
    requires forall r: nat, s: nat :: r < blk.rows && s < blk.cols ==> before(r, s) == 0
    requires var state := State(p, blk, c0, C[..], TileDone(before, 0, 0, blk.rows, d, Cover(p.K, bs))); state
    modifies C
    ensures Walk(p.N, bs, bn', d', q + 1) && bn < bn' <= p.N
    ensures var state := State(p, blk, c0, C[..], TileDone(before, 0, 0, blk.rows, d', Cover(p.K, bs))); state
  {
    WalkStep(p.N, bs, bn, d, q);
    var limit := MyMin(p.N - bn, bs);
    TileTerms(p, blk, C, bs, bn, bn + limit, c0, TileDone(before, 0, 0, blk.rows, bn, Cover(p.K, bs)));
    StateJoin(p, blk, c0, C[..], before, bn, bn + limit, Cover(p.K, bs));
    d' := bn + limit;
    bn' := bn + MyMin(p.N - bn - 1, bs);
  }

  /** gemm_nn_tiled for any block size: the product over the covered part of each dimension. */
  method GemmNnTiled(p: Call, bs: nat, C: array<real>)
    requires p.Valid() && bs >= 1 && C.Length == p.M * p.N
    modifies C
    ensures TiledResult(p, bs, old(C[..]), C[..])
  {
    ghost var c0, none := C[..], NoTerms();
    var blk := p.Part(Cover(p.M, bs), Cover(p.N, bs));
    StateStart(p, blk, c0, Cover(p.K, bs));
    var bn: nat := 0;
    ghost var d: nat, q: nat := 0, 0;
    WalkStart(p.N, bs);
    while bn < p.N && p.N - bn - 1 != 0
      invariant Walk(p.N, bs, bn, d, q) && bn <= p.N
      invariant var state := State(p, blk, c0, C[..], TileDone(none, 0, 0, blk.rows, d, Cover(p.K, bs))); state
      decreases p.N - bn
    {
      bn, d := ColumnsStep(p, blk, C, bs, bn, d, q, c0, none);
      q := q + 1;
    }
    WalkEnd(p.N, bs, bn, d, q);
    StateEnd(p, blk, c0, C[..], Cover(p.K, bs));
  }

  lemma StateStart(p: Call, blk: Block, c: seq<real>, hi: nat)
    requires |c| == p.M * p.N && blk.rows <= p.M && blk.cols <= p.N && blk == p.Part(blk.rows, blk.cols)
    ensures var state := State(p, blk, c, c, TileDone(NoTerms(), 0, 0, blk.rows, 0, hi)); state
  {
    PartValid(p, blk.rows, blk.cols);
    var f := TileDone(NoTerms(), 0, 0, blk.rows, 0, hi);
    forall r: nat, s: nat
      ensures Terms(p, f)(r, s) == 0.0
    {
      assert p.Term(r, s, 0) == 0.0;
    }
    NothingAdded(blk, c, Terms(p, f));
  }

  lemma StateEnd(p: Call, blk: Block, c0: seq<real>, c: seq<real>, hi: nat)
    requires var state := State(p, blk, c0, c, TileDone(NoTerms(), 0, 0, blk.rows, blk.cols, hi)); state
    ensures Added(blk, c0, c, Product(1.0, p.MatA(), p.MatB(), hi))
  {
    var (f, g) := (Terms(p, TileDone(NoTerms(), 0, 0, blk.rows, blk.cols, hi)), Product(1.0, p.MatA(), p.MatB(), hi));
    forall i: nat, j: nat | i < blk.rows && j < blk.cols
      ensures f(i, j) == g(i, j)
    {
      assert f(i, j) == p.Term(i, j, hi) == g(i, j);
    }
    AddedSame(blk, c0, c, f, g);
  }

  /** `c` is what gemm_nn_tiled leaves of c0. */
  ghost predicate TiledResult(p: Call, bs: nat, c0: seq<real>, c: seq<real>)
    requires bs >= 1
  {
    Added(p.Part(Cover(p.M, bs), Cover(p.N, bs)), c0, c, Product(1.0, p.MatA(), p.MatB(), Cover(p.K, bs)))
  }

  /** `d` is what gemm_nn leaves of c0. */
  ghost predicate PlainResult(p: Call, c0: seq<real>, d: seq<real>) {
    Added(p.Part(p.M, p.N), c0, d, Product(1.0, p.MatA(), p.MatB(), p.K))
  }

  /** No dimension is 1 modulo the block size, or there is nothing to add. */
  predicate WalkIsWhole(M: nat, N: nat, K: nat, bs: nat)
    requires bs >= 1
  {
    M == 0 || N == 0 || K == 0 || ((M - 1) % bs != 0 && (N - 1) % bs != 0 && (K - 1) % bs != 0)
  }

  /** Then tiled and plain GEMM leave the same, on the same operands and the same C. */
  lemma TiledIsPlain(p: Call, bs: nat, c0: seq<real>, c: seq<real>, d: seq<real>)
    requires bs >= 1 && |c0| == p.M * p.N && WalkIsWhole(p.M, p.N, p.K, bs)
    requires TiledResult(p, bs, c0, c) && PlainResult(p, c0, d)
    ensures c == d
  {
    if p.M == 0 || p.N == 0 {
      assert |c| == |d| == 0;
    } else if p.K == 0 {
      NothingInProduct(p, p.Part(Cover(p.M, bs), Cover(p.N, bs)), c0, c);
      NothingInProduct(p, p.Part(p.M, p.N), c0, d);
    }
  }

  lemma NothingInProduct(p: Call, b: Block, c0: seq<real>, c: seq<real>)
    requires Added(b, c0, c, Product(1.0, p.MatA(), p.MatB(), 0))
    ensures c == c0
  {
  }

  lemma {:induction false} OnesTerm(p: Call, m: nat, n: nat, k: nat)
    requires p.Valid() && m < p.M && n < p.N && k <= p.K
    requires (forall x :: 0 <= x < |p.A| ==> p.A[x] == 1.0) && (forall x :: 0 <= x < |p.B| ==> p.B[x] == 1.0)
    ensures p.Term(m, n, k) == k as real
  {
    if k > 0 {
      OnesTerm(p, m, n, k - 1);
      var v := ReadProduct(p, m, n, k - 1);
      DigitBound(m, p.M, k - 1, p.K);
      DigitBound(k - 1, p.K, n, p.N);
      assert p.MatA().Get(m, k - 1) == 1.0 && p.MatB().Get(k - 1, n) == 1.0;
    }
  }

  /** Otherwise they differ: with all-one operands the last entry is short of its sum. */
  lemma TiledFallsShort(p: Call, bs: nat, c0: seq<real>, c: seq<real>, d: seq<real>)
    requires bs >= 1 && p.Valid() && |c0| == p.M * p.N && !WalkIsWhole(p.M, p.N, p.K, bs)
    requires (forall x :: 0 <= x < |p.A| ==> p.A[x] == 1.0) && (forall x :: 0 <= x < |p.B| ==> p.B[x] == 1.0)
    requires TiledResult(p, bs, c0, c) && PlainResult(p, c0, d)
    ensures c != d
  {
    var full := p.Part(p.M, p.N);
    PartValid(p, p.M, p.N);
    BlockIndex(full, |c0|, p.M - 1, p.N - 1);
    var x := full.Index(p.M - 1, p.N - 1);
    OnesTerm(p, p.M - 1, p.N - 1, p.K);
    OnesTerm(p, p.M - 1, p.N - 1, Cover(p.K, bs));
    assert d[x] == c0[x] + p.K as real;
    assert c[x] == c0[x] || c[x] == c0[x] + (p.K - 1) as real;
  }

  function Ones(n: nat): (r: seq<real>)
    ensures |r| == n && forall i :: 0 <= i < n ==> r[i] == 1.0
  {
    seq(n, _ => 1.0)
  }

  /** C with something added to a block. */
  function WithAdded(b: Block, c0: seq<real>, add: (int, int) -> real): (c: seq<real>)
    requires 0 < b.ld
    ensures Added(b, c0, c, add)
  {
    seq(|c0|, x requires 0 <= x < |c0| => if b.Has(x) then c0[x] + add(b.Row(x), b.Col(x)) else c0[x])
  }

  /** The results of both on operands of the given dimensions. */
  ghost predicate BothResults(M: nat, N: nat, K: nat, bs: nat, p: Call, c0: seq<real>, c: seq<real>, d: seq<real>)
    requires bs >= 1
  {
    && p.Valid() && p.M == M && p.N == N && p.K == K && |c0| == M * N
    && TiledResult(p, bs, c0, c) && PlainResult(p, c0, d)
  }

  /** gemm_nn_tiled equals gemm_nn on all operands exactly for dimensions with a whole walk. */
  lemma TiledIff(M: nat, N: nat, K: nat, bs: nat)
    requires bs >= 1
    ensures (forall p, c0, c, d :: BothResults(M, N, K, bs, p, c0, c, d) ==> c == d) <==> WalkIsWhole(M, N, K, bs)
  {
    if WalkIsWhole(M, N, K, bs) {
      forall p, c0, c, d | BothResults(M, N, K, bs, p, c0, c, d)
        ensures c == d
      {
        TiledIsPlain(p, bs, c0, c, d);
      }
    } else {
      var (p, c0) := (Call(M, N, K, Ones(M * K), Ones(K * N)), Ones(M * N));
      var c := WithAdded(p.Part(Cover(M, bs), Cover(N, bs)), c0, Product(1.0, p.MatA(), p.MatB(), Cover(K, bs)));
      var d := WithAdded(p.Part(M, N), c0, Product(1.0, p.MatA(), p.MatB(), K));
      TiledFallsShort(p, bs, c0, c, d);
      assert BothResults(M, N, K, bs, p, c0, c, d);
    }
  }
}
