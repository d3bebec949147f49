/**
 The data gradient of backward_convolutional_layer (gemm_tn, then col2im_cpu), and the proof
 that what it adds to net.delta is the adjoint of the forward map. Filter sizes other than 1.
 */
module ConvGradient {
  import opened Arith
  import opened Sums
  import opened Gemm
  import opened Im2col
  import opened Convolution

  // ---------------------------------------------------------------- exchanging the sums

  type Fn2 = (int, int) -> real

  function Times3(a: real, b: real, c: real): real { a * b * c }

  /** w(f, r) * d(f, p) * v(r, p) as a function of f for fixed (r, p), and of r for fixed (f, p). */
  function OverF(w: Fn2, d: Fn2, v: Fn2, r: int, p: int): int -> real { f => Times3(w(f, r), d(f, p), v(r, p)) }

  function OverR(w: Fn2, d: Fn2, v: Fn2, f: int, p: int): int -> real { r => Times3(w(f, r), d(f, p), v(r, p)) }

  /** The terms of the gradient matrix entry (r, p) and of the output entry (f, p). */
  function GradTerms(w: Fn2, d: Fn2, r: int, p: int): int -> real { f => w(f, r) * d(f, p) }

  function ConvTerms(w: Fn2, v: Fn2, f: int, p: int): int -> real { r => w(f, r) * v(r, p) }

  /** Gradient matrix times column matrix, and output times delta, entry by entry. */
  function GradSide(w: Fn2, d: Fn2, v: Fn2, m: nat): Fn2 { (r: int, p: int) => Sum(m, GradTerms(w, d, r, p)) * v(r, p) }

  function ConvSide(w: Fn2, d: Fn2, v: Fn2, k: nat): Fn2 { (f: int, p: int) => Sum(k, ConvTerms(w, v, f, p)) * d(f, p) }

  lemma PullGrad(w: Fn2, d: Fn2, v: Fn2, m: nat, r: int, p: int)
    ensures GradSide(w, d, v, m)(r, p) == Sum(m, OverF(w, d, v, r, p))
  {
    var (a, s) := (v(r, p), Sum(m, GradTerms(w, d, r, p)));
    forall f | 0 <= f < m
      ensures OverF(w, d, v, r, p)(f) == a * GradTerms(w, d, r, p)(f)
    {
      Commute3(w(f, r), d(f, p), a);
    }
    SumTimes(m, a, GradTerms(w, d, r, p), OverF(w, d, v, r, p));
    Commute(s, a);
  }

  lemma PullConv(w: Fn2, d: Fn2, v: Fn2, k: nat, f: int, p: int)
    ensures ConvSide(w, d, v, k)(f, p) == Sum(k, OverR(w, d, v, f, p))
  {
    var (a, s) := (d(f, p), Sum(k, ConvTerms(w, v, f, p)));
    forall r | 0 <= r < k
      ensures OverR(w, d, v, f, p)(r) == a * ConvTerms(w, v, f, p)(r)
    {
      Commute3(w(f, r), v(r, p), a);
      Commute3'(w(f, r), a, v(r, p));
    }
    SumTimes(k, a, ConvTerms(w, v, f, p), OverR(w, d, v, f, p));
    Commute(s, a);
  }

  lemma Commute(a: real, b: real)
    ensures a * b == b * a
  {
  }

  lemma Commute3(a: real, b: real, c: real)
    ensures Times3(a, b, c) == c * (a * b)
  {
  }

  lemma Commute3'(a: real, b: real, c: real)
    ensures Times3(a, b, c) == Times3(a, c, b)
  {
  }

  /** The triple products with f as the outer or the inner variable, for fixed p. */
  function Slice(w: Fn2, d: Fn2, v: Fn2, p: int): Fn2 { (r: int, f: int) => Times3(w(f, r), d(f, p), v(r, p)) }

  /** For one pixel, summing gradient entries over r is summing output entries over f. */
  lemma PixelExchange(w: Fn2, d: Fn2, v: Fn2, k: nat, m: nat, p: int)
    ensures Sum(k, Col(GradSide(w, d, v, m), p)) == Sum(m, Col(ConvSide(w, d, v, k), p))
  {
    var t := Slice(w, d, v, p);
    forall r | 0 <= r < k
      ensures Col(GradSide(w, d, v, m), p)(r) == RowSums(t, m)(r)
    {
      PullGrad(w, d, v, m, r, p);
      SumEq(m, OverF(w, d, v, r, p), Row(t, r));
    }
    forall f | 0 <= f < m
      ensures Col(ConvSide(w, d, v, k), p)(f) == ColSums(t, k)(f)
    {
      PullConv(w, d, v, k, f, p);
      SumEq(k, OverR(w, d, v, f, p), Col(t, f));
    }
    SumEq(k, Col(GradSide(w, d, v, m), p), RowSums(t, m));
    SumSwap(k, m, t);
    SumEq(m, Col(ConvSide(w, d, v, k), p), ColSums(t, k));
  }

  /** Over all pixels: <W^T D, V> == <W V, D>. */
  lemma MatrixExchange(w: Fn2, d: Fn2, v: Fn2, k: nat, m: nat, n: nat)
    ensures Sum(k, RowSums(GradSide(w, d, v, m), n)) == Sum(m, RowSums(ConvSide(w, d, v, k), n))
  {
    SumSwap(k, n, GradSide(w, d, v, m));
    SumSwap(m, n, ConvSide(w, d, v, k));
    forall p | 0 <= p < n
      ensures ColSums(GradSide(w, d, v, m), k)(p) == ColSums(ConvSide(w, d, v, k), m)(p)
    {
      PixelExchange(w, d, v, k, m, p);
    }
    SumEq(n, ColSums(GradSide(w, d, v, m), k), ColSums(ConvSide(w, d, v, k), m));
  }

  // ---------------------------------------------------------------- one block

  /** Entry (i, j) of a dense matrix that starts at `off`. */
  function Dense(data: seq<real>, off: int, ld: nat): Fn2 { (i: int, j: int) => WeightAt(data, off + (i * ld + j)) }

  function BlockWeights(l: Layer, w: seq<real>, block: nat): Fn2
    requires Sized(l)
  {
    Dense(w, block % l.groups * (l.m * l.k), l.k)
  }

  function BlockDelta(l: Layer, delta: seq<real>, block: nat): Fn2 { Dense(delta, block * l.block, l.pixels) }

  function BlockImage(l: Layer, x: seq<real>, block: nat): Fn2
    requires Sized(l)
  {
    (r: int, p: int) => if r < 0 || p < 0 then 0.0
                        else Pick(x, block * l.image, l.geo.At(r, p / l.geo.wc, p % l.geo.wc))
  }

  /** The operands of the gemm_tn call: weights read transposed, and the block's delta. */
  function WeightsT(l: Layer, w: seq<real>, block: nat): Mat
    requires Sized(l)
  {
    Mat(w, block % l.groups * (l.m * l.k), l.k, true)
  }

  function DeltaM(l: Layer, delta: seq<real>, block: nat): Mat { Mat(delta, block * l.block, l.pixels, false) }

  /** Entry (r, p) of the gradient matrix. */
  function Grad(l: Layer, w: seq<real>, delta: seq<real>, block: nat): Fn2
    requires Sized(l)
  {
    Product(1.0, WeightsT(l, w, block), DeltaM(l, delta, block), l.m)
  }

  /** The gradient matrix as it lies in the workspace. */
  function GradMatrix(l: Layer, w: seq<real>, delta: seq<real>, block: nat): (g: seq<real>)
    requires Sized(l)
    ensures |g| == l.k * l.pixels
    ensures forall q: nat :: q < |g| ==> g[q] == Grad(l, w, delta, block)(q / l.pixels, q % l.pixels)
  {
    seq(l.k * l.pixels, q requires q >= 0 => Grad(l, w, delta, block)(q / l.pixels, q % l.pixels))
  }

  lemma DenseGet(data: seq<real>, off: nat, ld: nat, i: nat, j: nat)
    ensures Mat(data, off, ld, false).Get(i, j) == Dense(data, off, ld)(i, j)
    ensures Mat(data, off, ld, true).Get(j, i) == Dense(data, off, ld)(i, j)
  {
    MulNonNegative(i, ld);
    assert Dense(data, off, ld)(i, j) == WeightAt(data, off + (i * ld + j));
    assert Mat(data, off, ld, false).Index(i, j) == off + (i * ld + j) == Mat(data, off, ld, true).Index(j, i);
  }

  lemma SameTerms(a: Mat, b: Mat, u: Fn2, v: Fn2, r: nat, p: nat, f: nat)
    requires a.Get(r, f) == u(f, r) && b.Get(f, p) == v(f, p)
    ensures GemmTerms(a, b, r, p)(f) == GradTerms(u, v, r, p)(f)
  {
  }

  lemma ProductIsSum(a: Mat, b: Mat, u: Fn2, v: Fn2, m: nat, r: nat, p: nat)
    requires forall f: nat :: f < m ==> a.Get(r, f) == u(f, r) && b.Get(f, p) == v(f, p)
    ensures Product(1.0, a, b, m)(r, p) == Sum(m, GradTerms(u, v, r, p))
  {
    DotIsSum(a, b, r, p, m);
    forall f | 0 <= f < m
      ensures GemmTerms(a, b, r, p)(f) == GradTerms(u, v, r, p)(f)
    {
      SameTerms(a, b, u, v, r, p, f);
    }
    SumEq(m, GemmTerms(a, b, r, p), GradTerms(u, v, r, p));
  }

  lemma TransposedProduct(w: seq<real>, off: nat, ld: nat, d: seq<real>, doff: nat, dld: nat, m: nat, r: nat, p: nat)
    ensures Product(1.0, Mat(w, off, ld, true), Mat(d, doff, dld, false), m)(r, p)
            == Sum(m, GradTerms(Dense(w, off, ld), Dense(d, doff, dld), r, p))
  {
    var (a, b, u, v) := (Mat(w, off, ld, true), Mat(d, doff, dld, false), Dense(w, off, ld), Dense(d, doff, dld));
    forall f: nat | f < m
      ensures a.Get(r, f) == u(f, r) && b.Get(f, p) == v(f, p)
    {
      DenseGet(w, off, ld, f, r);
      DenseGet(d, doff, dld, f, p);
    }
    ProductIsSum(a, b, u, v, m, r, p);
  }

  lemma TapIsTerm(g: Geo, w: seq<real>, x: seq<real>, s: Site, off: int, k: nat, v: Fn2, f: nat, p: nat, r: nat)
    requires g.size >= 1 && s.weight == off + f * k && v(r, p) == Pick(x, s.image, g.At(r, s.y, s.x))
    ensures FlatTaps(g, w, x, s)(r) == ConvTerms(Dense(w, off, k), v, f, p)(r)
  {
    var (a, b) := (WeightAt(w, s.weight + r), v(r, p));
    assert Dense(w, off, k)(f, r) == a;
    assert ConvTerms(Dense(w, off, k), v, f, p)(r) == a * b;
  }

  lemma DirectIsSum(g: Geo, w: seq<real>, x: seq<real>, s: Site, off: int, k: nat, v: Fn2, f: nat, p: nat)
    requires g.size >= 1 && k == g.ch * g.size * g.size && s.weight == off + f * k
    requires forall r: nat :: r < k ==> v(r, p) == Pick(x, s.image, g.At(r, s.y, s.x))
    ensures Direct(g, w, x, s) == Sum(k, ConvTerms(Dense(w, off, k), v, f, p))
  {
    FlatIsDirect(g, w, x, s);
    forall r | 0 <= r < k
      ensures FlatTaps(g, w, x, s)(r) == ConvTerms(Dense(w, off, k), v, f, p)(r)
    {
      TapIsTerm(g, w, x, s, off, k, v, f, p, r);
    }
    SumEq(k, FlatTaps(g, w, x, s), ConvTerms(Dense(w, off, k), v, f, p));
  }

  lemma ValueIsSum(l: Layer, w: seq<real>, x: seq<real>, block: nat, f: nat, p: nat)
    requires Flat(l) && p < l.pixels
    ensures BlockValue(l, w, x, block, f * l.pixels + p)
            == Sum(l.k, ConvTerms(BlockWeights(l, w, block), BlockImage(l, x, block), f, p))
  {
    DivModUnique(f, l.pixels, p);
    DirectIsSum(l.geo, w, x, SiteAt(l, block, f, p), block % l.groups * (l.m * l.k), l.k, BlockImage(l, x, block), f, p);
  }

  /** Output entry times delta entry, over one block. */
  function BlockProducts(l: Layer, w: seq<real>, x: seq<real>, delta: seq<real>, block: nat): int -> real
    requires Sized(l)
  {
    e => if e < 0 then 0.0 else BlockValue(l, w, x, block, e) * WeightAt(delta, block * l.block + e)
  }

  lemma GradSum(l: Layer, w: seq<real>, x: seq<real>, delta: seq<real>, block: nat)
    requires Flat(l)
    ensures Sum(l.k * l.pixels, ColProducts(SrcMap(l.geo), GradMatrix(l, w, delta, block), x, block * l.image))
            == Sum(l.k, RowSums(GradSide(BlockWeights(l, w, block), BlockDelta(l, delta, block), BlockImage(l, x, block), l.m), l.pixels))
  {
    var cp := ColProducts(SrcMap(l.geo), GradMatrix(l, w, delta, block), x, block * l.image);
    var side := GradSide(BlockWeights(l, w, block), BlockDelta(l, delta, block), BlockImage(l, x, block), l.m);
    SumSplit(l.k, l.pixels, cp);
    forall r | 0 <= r < l.k
      ensures DigitSums(cp, l.pixels)(r) == RowSums(side, l.pixels)(r)
    {
      forall p | 0 <= p < l.pixels
        ensures Digit(cp, l.pixels, r)(p) == Row(side, r)(p)
      {
        GradEntry(l, w, x, delta, block, r, p);
      }
      SumEq(l.pixels, Digit(cp, l.pixels, r), Row(side, r));
    }
    SumEq(l.k, DigitSums(cp, l.pixels), RowSums(side, l.pixels));
  }

  lemma ProductAt(src: int -> int, col: seq<real>, x: seq<real>, off: nat, q: nat,
                  w: Fn2, d: Fn2, v: Fn2, m: nat, r: int, p: int)
    requires q < |col| && col[q] == Sum(m, GradTerms(w, d, r, p)) && Pick(x, off, src(q)) == v(r, p)
    ensures ColProducts(src, col, x, off)(q) == GradSide(w, d, v, m)(r, p)
  {
  }

  lemma SrcMapAt(l: Layer, r: nat, p: nat)
    requires Flat(l) && r < l.k && p < l.pixels
    ensures r * l.pixels + p >= 0 && SrcMap(l.geo)(r * l.pixels + p) == l.geo.At(r, p / l.geo.wc, p % l.geo.wc)
  {
    ColumnSrc(l.geo, r, p);
  }

  lemma GradMatrixAt(l: Layer, w: seq<real>, delta: seq<real>, block: nat, r: nat, p: nat)
    requires Sized(l) && r < l.k && p < l.pixels
    ensures 0 <= r * l.pixels + p < l.k * l.pixels
    ensures GradMatrix(l, w, delta, block)[r * l.pixels + p]
            == Sum(l.m, GradTerms(BlockWeights(l, w, block), BlockDelta(l, delta, block), r, p))
  {
    DigitBound(r, l.k, p, l.pixels);
    DivModUnique(r, l.pixels, p);
    TransposedProduct(w, block % l.groups * (l.m * l.k), l.k, delta, block * l.block, l.pixels, l.m, r, p);
  }

  lemma GradEntry(l: Layer, w: seq<real>, x: seq<real>, delta: seq<real>, block: nat, r: nat, p: nat)
    requires Flat(l) && r < l.k && p < l.pixels
    ensures ColProducts(SrcMap(l.geo), GradMatrix(l, w, delta, block), x, block * l.image)(r * l.pixels + p)
            == GradSide(BlockWeights(l, w, block), BlockDelta(l, delta, block), BlockImage(l, x, block), l.m)(r, p)
  {
    GradMatrixAt(l, w, delta, block, r, p);
    ImageAt(l, x, block, r, p);
    ProductAt(SrcMap(l.geo), GradMatrix(l, w, delta, block), x, block * l.image, r * l.pixels + p,
              BlockWeights(l, w, block), BlockDelta(l, delta, block), BlockImage(l, x, block), l.m, r, p);
  }

  lemma ImageAt(l: Layer, x: seq<real>, block: nat, r: nat, p: nat)
    requires Flat(l) && r < l.k && p < l.pixels
    ensures r * l.pixels + p >= 0
    ensures Pick(x, block * l.image, SrcMap(l.geo)(r * l.pixels + p)) == BlockImage(l, x, block)(r, p)
  {
    SrcMapAt(l, r, p);
  }

  lemma ConvEntry(l: Layer, w: seq<real>, x: seq<real>, delta: seq<real>, block: nat, f: nat, p: nat)
    requires Flat(l) && p < l.pixels
    ensures BlockProducts(l, w, x, delta, block)(f * l.pixels + p)
            == ConvSide(BlockWeights(l, w, block), BlockDelta(l, delta, block), BlockImage(l, x, block), l.k)(f, p)
  {
    MulNonNegative(f, l.pixels);
    ValueIsSum(l, w, x, block, f, p);
    ValueAt(l, w, x, delta, block, f * l.pixels + p, BlockWeights(l, w, block), BlockDelta(l, delta, block), BlockImage(l, x, block), f, p);
  }

  lemma ValueAt(l: Layer, w: seq<real>, x: seq<real>, delta: seq<real>, block: nat, e: nat, bw: Fn2, d: Fn2, v: Fn2, f: int, p: int)
    requires Sized(l) && BlockValue(l, w, x, block, e) == Sum(l.k, ConvTerms(bw, v, f, p))
    requires WeightAt(delta, block * l.block + e) == d(f, p)
    ensures BlockProducts(l, w, x, delta, block)(e) == ConvSide(bw, d, v, l.k)(f, p)
  {
  }

  lemma ConvSum(l: Layer, w: seq<real>, x: seq<real>, delta: seq<real>, block: nat)
    requires Flat(l)
    ensures Sum(l.block, BlockProducts(l, w, x, delta, block))
            == Sum(l.m, RowSums(ConvSide(BlockWeights(l, w, block), BlockDelta(l, delta, block), BlockImage(l, x, block), l.k), l.pixels))
  {
    var bp := BlockProducts(l, w, x, delta, block);
    var side := ConvSide(BlockWeights(l, w, block), BlockDelta(l, delta, block), BlockImage(l, x, block), l.k);
    SumSplit(l.m, l.pixels, bp);
    forall f | 0 <= f < l.m
      ensures DigitSums(bp, l.pixels)(f) == RowSums(side, l.pixels)(f)
    {
      forall p | 0 <= p < l.pixels
        ensures Digit(bp, l.pixels, f)(p) == Row(side, f)(p)
      {
        ConvEntry(l, w, x, delta, block, f, p);
      }
      SumEq(l.pixels, Digit(bp, l.pixels, f), Row(side, f));
    }
    SumEq(l.m, DigitSums(bp, l.pixels), RowSums(side, l.pixels));
  }

  /** One block: scattering the gradient pairs with x as the convolution of x pairs with delta. */
  lemma BlockAdjoint(l: Layer, w: seq<real>, x: seq<real>, delta: seq<real>, block: nat)
    requires Flat(l)
    ensures Sum(l.k * l.pixels, ColProducts(SrcMap(l.geo), GradMatrix(l, w, delta, block), x, block * l.image))
            == Sum(l.block, BlockProducts(l, w, x, delta, block))
  {
    GradSum(l, w, x, delta, block);
    MatrixExchange(BlockWeights(l, w, block), BlockDelta(l, delta, block), BlockImage(l, x, block), l.k, l.m, l.pixels);
    ConvSum(l, w, x, delta, block);
  }

  // ---------------------------------------------------------------- the whole batch

  /** net.delta after the first `blocks` blocks. */
  function Backward(l: Layer, w: seq<real>, delta: seq<real>, d0: seq<real>, blocks: nat): (d: seq<real>)
    requires Sized(l)
    ensures |d| == |d0|
  {
    if blocks == 0 then d0
    else
      Scatter(SrcMap(l.geo), GradMatrix(l, w, delta, blocks - 1), Backward(l, w, delta, d0, blocks - 1),
              (blocks - 1) * l.image, l.k * l.pixels)
  }

  function BlockSums(l: Layer, w: seq<real>, x: seq<real>, delta: seq<real>): int -> real
    requires Sized(l)
  {
    b => if b < 0 then 0.0 else Sum(l.block, BlockProducts(l, w, x, delta, b))
  }

  /** What one block adds to net.delta. */
  function BlockBackward(l: Layer, w: seq<real>, delta: seq<real>, im: seq<real>, block: nat): seq<real>
    requires Sized(l)
  {
    Scatter(SrcMap(l.geo), GradMatrix(l, w, delta, block), im, block * l.image, l.k * l.pixels)
  }

  lemma BackwardStep(l: Layer, w: seq<real>, x: seq<real>, delta: seq<real>, d: seq<real>, d': seq<real>, block: nat)
    requires Flat(l) && |x| == |d| && d' == BlockBackward(l, w, delta, d, block)
    ensures Inner(x, d') == Inner(x, d) + BlockSums(l, w, x, delta)(block)
  {
    ScatterAdjoint(SrcMap(l.geo), GradMatrix(l, w, delta, block), d, block * l.image, l.k * l.pixels, x);
    BlockAdjoint(l, w, x, delta, block);
  }

  lemma OneBlock(l: Layer, w: seq<real>, delta: seq<real>, d0: seq<real>, b: nat)
    requires Sized(l)
    ensures Backward(l, w, delta, d0, b + 1) == BlockBackward(l, w, delta, Backward(l, w, delta, d0, b), b)
  {
  }

  lemma SumMore(n: nat, f: int -> real, start: real, before: real, after: real, sum: real)
    requires before == start + Sum(n, f) && after == before + f(n) && sum == Sum(n + 1, f)
    ensures after == start + sum
  {
  }

  /** The inner product with x has grown by the sums of the first b blocks. */
  ghost predicate HasGrown(l: Layer, w: seq<real>, x: seq<real>, delta: seq<real>, d0: seq<real>, d: seq<real>, b: nat) {
    Sized(l) && Inner(x, d) == Inner(x, d0) + Sum(b, BlockSums(l, w, x, delta))
  }

  lemma GrowsOnce(l: Layer, w: seq<real>, x: seq<real>, delta: seq<real>, d0: seq<real>, d: seq<real>, d': seq<real>, b: nat)
    requires Flat(l) && |x| == |d| && d' == BlockBackward(l, w, delta, d, b) && HasGrown(l, w, x, delta, d0, d, b)
    ensures HasGrown(l, w, x, delta, d0, d', b + 1)
  {
    BackwardStep(l, w, x, delta, d, d', b);
    SumMore(b, BlockSums(l, w, x, delta), Inner(x, d0), Inner(x, d), Inner(x, d'), Sum(b + 1, BlockSums(l, w, x, delta)));
  }

  predicate BlockAdded(l: Layer, w: seq<real>, delta: seq<real>, back: nat -> seq<real>, b: nat)
    requires Sized(l)
  {
    |back(b)| == |back(0)| && back(b + 1) == BlockBackward(l, w, delta, back(b), b)
  }

  lemma {:induction false} BlocksGrow(l: Layer, w: seq<real>, x: seq<real>, delta: seq<real>, back: nat -> seq<real>, blocks: nat)
    requires (var flat := Flat(l); flat) && |x| == |back(0)|
    requires forall b: nat {:trigger BlockAdded(l, w, delta, back, b)} :: BlockAdded(l, w, delta, back, b)
    ensures var grown := HasGrown(l, w, x, delta, back(0), back(blocks), blocks); grown
  {
    if blocks > 0 {
      BlocksGrow(l, w, x, delta, back, blocks - 1);
      assert BlockAdded(l, w, delta, back, blocks - 1);
      GrowsOnce(l, w, x, delta, back(0), back(blocks - 1), back(blocks), blocks - 1);
    }
  }

  lemma BackwardGrows(l: Layer, w: seq<real>, x: seq<real>, delta: seq<real>, d0: seq<real>, blocks: nat)
    requires Flat(l) && |x| == |d0|
    ensures var grown := HasGrown(l, w, x, delta, d0, Backward(l, w, delta, d0, blocks), blocks); grown
  {
    var back := (b: nat) => Backward(l, w, delta, d0, b);
    forall b: nat {:trigger BlockAdded(l, w, delta, back, b)}
      ensures BlockAdded(l, w, delta, back, b)
    {
      OneBlock(l, w, delta, d0, b);
    }
    assert back(0) == d0 && back(blocks) == Backward(l, w, delta, d0, blocks);
    BlocksGrow(l, w, x, delta, back, blocks);
  }

  /** The forward map as a vector. */
  function ConvOutput(l: Layer, w: seq<real>, x: seq<real>): (out: seq<real>)
    requires Sized(l)
    ensures |out| == l.OutputSize()
    ensures forall o: nat :: o < |out| ==> out[o] == ConvAt(l, w, x, o)
  {
    MulNonNegative(l.blocks, l.block);
    seq(l.OutputSize(), o requires o >= 0 => ConvAt(l, w, x, o))
  }

  lemma OutputEntry(l: Layer, w: seq<real>, x: seq<real>, delta: seq<real>, b: nat, e: nat)
    requires Sized(l) && |delta| == l.OutputSize() && b < l.blocks && e < l.block
    ensures Products(ConvOutput(l, w, x), delta)(b * l.block + e) == BlockProducts(l, w, x, delta, b)(e)
  {
    DigitBound(b, l.blocks, e, l.block);
    DivModUnique(b, l.block, e);
    OutputAt(l, w, x, delta, b, e, b * l.block + e);
  }

  lemma OutputAt(l: Layer, w: seq<real>, x: seq<real>, delta: seq<real>, b: nat, e: nat, o: nat)
    requires Sized(l) && o < |delta| == l.OutputSize() && o == b * l.block + e && o / l.block == b && o % l.block == e
    ensures Products(ConvOutput(l, w, x), delta)(o) == BlockProducts(l, w, x, delta, b)(e)
  {
    assert ConvOutput(l, w, x)[o] == ConvAt(l, w, x, o) == BlockValue(l, w, x, b, e);
    assert delta[o] == WeightAt(delta, o);
  }

  lemma OutputProducts(l: Layer, w: seq<real>, x: seq<real>, delta: seq<real>)
    requires Sized(l) && |delta| == l.OutputSize()
    ensures Inner(ConvOutput(l, w, x), delta) == Sum(l.blocks, BlockSums(l, w, x, delta))
  {
    var out := ConvOutput(l, w, x);
    var prods := Products(out, delta);
    SumSplit(l.blocks, l.block, prods);
    forall b | 0 <= b < l.blocks
      ensures DigitSums(prods, l.block)(b) == BlockSums(l, w, x, delta)(b)
    {
      forall e | 0 <= e < l.block
        ensures Digit(prods, l.block, b)(e) == BlockProducts(l, w, x, delta, b)(e)
      {
        OutputEntry(l, w, x, delta, b, e);
      }
      SumEq(l.block, Digit(prods, l.block, b), BlockProducts(l, w, x, delta, b));
    }
    SumEq(l.blocks, DigitSums(prods, l.block), BlockSums(l, w, x, delta));
  }

  /**
   The data gradient is the adjoint of the forward map: for every input x and every delta, the
   inner product of x with net.delta grows by exactly the inner product of conv(x) with delta.
   */
  lemma DataGradientIsAdjoint(l: Layer, w: seq<real>, x: seq<real>, delta: seq<real>, d0: seq<real>)
    requires l.Valid() && |x| == |d0| == l.InputSize() && |delta| == l.OutputSize()
    ensures Sized(l)
    ensures Inner(x, Backward(l, w, delta, d0, l.blocks)) == Inner(x, d0) + Inner(ConvOutput(l, w, x), delta)
  {
    ValidIsSized(l);
    BackwardGrows(l, w, x, delta, d0, l.blocks);
    OutputProducts(l, w, x, delta);
  }

  /** The workspace holds exactly the gradient matrix after the gemm_tn call with BETA == 0. */
  lemma WorkspaceIsGrad(l: Layer, w: seq<real>, delta: seq<real>, block: nat, ws0: seq<real>, ws: seq<real>)
    requires Sized(l) && |ws| == l.k * l.pixels
    requires var gemm := GemmResult(1.0, WeightsT(l, w, block), DeltaM(l, delta, block), l.m, 0.0, Block(0, l.pixels, l.k, l.pixels), ws0, ws); gemm
    ensures ws == GradMatrix(l, w, delta, block)
  {
    var blk := Block(0, l.pixels, l.k, l.pixels);
    forall q: nat | q < |ws|
      ensures ws[q] == GradMatrix(l, w, delta, block)[q]
    {
      QuotientBound(q, l.k, l.pixels);
      assert blk.Has(q);
    }
  }

  /** A block of delta is inside its array. */
  lemma DeltaFits(delta: seq<real>, blocks: nat, size: nat, m: nat, pixels: nat, block: nat, off: nat)
    requires size == m * pixels && block < blocks && |delta| == blocks * size && off == block * size
    ensures var fits := Mat(delta, off, pixels, false).Fits(m, pixels); fits
  {
    BlockInside(blocks, size, block);
    DenseFits(delta, off, m, pixels);
  }

  lemma GroupFitsTransposed(weights: seq<real>, groups: nat, m: nat, k: nat, j: nat, off: nat)
    requires |weights| == groups * (m * k) && j < groups && off == j * (m * k)
    ensures var fits := Mat(weights, off, k, true).Fits(k, m); fits
  {
    BlockInside(groups, m * k, j);
    DenseFitsTransposed(weights, off, m, k);
  }

  /** The gemm_tn call of the loop body. */
  method MultiplyGradient(l: Layer, weights: seq<real>, delta: seq<real>, workspace: array<real>, block: nat, j: nat)
    requires Flat(l) && |weights| == l.WeightSize() && |delta| == l.OutputSize() && workspace.Length == l.k * l.pixels
    requires block < l.blocks && j < l.groups && block % l.groups == j
    modifies workspace
    ensures workspace[..] == GradMatrix(l, weights, delta, block)
  {
    GroupFitsTransposed(weights, l.groups, l.m, l.k, j, j * (l.m * l.k));
    DeltaFits(delta, l.blocks, l.block, l.m, l.pixels, block, block * l.block);
    DenseBlock(0, l.k, l.pixels, workspace.Length);
    var a, b := Mat(weights, j * (l.m * l.k), l.k, true), Mat(delta, block * l.block, l.pixels, false);
    ghost var ws0 := workspace[..];
    GemmCpu(1.0, a, b, l.m, 0.0, workspace, Block(0, l.pixels, l.k, l.pixels));
    WorkspaceIsGrad(l, weights, delta, block, ws0, workspace[..]);
  }

  /** The lengths of weights, delta and workspace. */
  predicate Sizes(l: Layer, weights: seq<real>, delta: seq<real>, workspace: nat) {
    |weights| == l.WeightSize() && |delta| == l.OutputSize() && workspace == l.k * l.pixels
  }

  /** A column matrix of n entries can be scattered from `off` on. */
  predicate CanScatter(l: Layer, n: nat, off: nat, len: nat) {
    l.geo.Shaped() && n == l.geo.Entries() && l.image == l.geo.ch * l.geo.h * l.geo.w && off + l.image <= len
  }

  /** The col2im_cpu call of the loop body: all of the matrix is scattered. */
  method ScatterAll(l: Layer, col: seq<real>, netDelta: array<real>, off: nat)
    requires CanScatter(l, |col|, off, netDelta.Length)
    modifies netDelta
    ensures l.geo.Shaped() && netDelta[..] == Scatter(SrcMap(l.geo), col, old(netDelta[..]), off, |col|)
  {
    Col2imCpu(l.geo, col, netDelta, off);
  }

  /** The loop body of the data-gradient pass. */
  method BackwardBlock(l: Layer, weights: seq<real>, delta: seq<real>, workspace: array<real>, netDelta: array<real>, block: nat, j: nat, off: nat)
    requires (var sized := Flat(l) && Sizes(l, weights, delta, workspace.Length); sized) && workspace != netDelta
    requires block < l.blocks && j < l.groups && block % l.groups == j
    requires var fits := CanScatter(l, workspace.Length, off, netDelta.Length); fits
    modifies workspace, netDelta
    ensures netDelta[..] == Scatter(SrcMap(l.geo), GradMatrix(l, weights, delta, block), old(netDelta[..]), off, l.k * l.pixels)
  {
    MultiplyGradient(l, weights, delta, workspace, block, j);
    ScatterAll(l, workspace[..], netDelta, off);
  }

  /** One more block. */
  method NextBlock(l: Layer, weights: seq<real>, delta: seq<real>, workspace: array<real>, netDelta: array<real>, b: nat, i: nat, j: nat, ghost d0: seq<real>)
    requires (var sized := Flat(l) && Sizes(l, weights, delta, workspace.Length); sized) && workspace != netDelta && l.blocks == l.batch * l.groups
    requires netDelta.Length == l.InputSize() && (var fits := CanScatter(l, workspace.Length, 0, l.image); fits)
    requires i < l.batch && j < l.groups && b == i * l.groups + j
    requires var done := netDelta[..] == Backward(l, weights, delta, d0, b); done
    modifies workspace, netDelta
    ensures var done := netDelta[..] == Backward(l, weights, delta, d0, b + 1); done
  {
    BlockScatters(l, workspace.Length, netDelta.Length, i, j, b);
    BackwardBlock(l, weights, delta, workspace, netDelta, b, j, b * l.image);
    OneBlock(l, weights, delta, d0, b);
  }

  /** The loop over the groups of one image. */
  method BackwardImage(l: Layer, weights: seq<real>, delta: seq<real>, workspace: array<real>, netDelta: array<real>, i: nat, first: nat, ghost d0: seq<real>)
    requires (var sized := Flat(l) && Sizes(l, weights, delta, workspace.Length); sized) && workspace != netDelta && l.blocks == l.batch * l.groups
    requires netDelta.Length == l.InputSize() && (var fits := CanScatter(l, workspace.Length, 0, l.image); fits)
    requires i < l.batch && first == i * l.groups && (var done := netDelta[..] == Backward(l, weights, delta, d0, first); done)
    modifies workspace, netDelta
    ensures var done := netDelta[..] == Backward(l, weights, delta, d0, first + l.groups); done
  {
    for j := 0 to l.groups
      invariant var done := netDelta[..] == Backward(l, weights, delta, d0, first + j); done
    {
      NextBlock(l, weights, delta, workspace, netDelta, first + j, i, j, d0);
    }
  }

  lemma BlockScatters(l: Layer, n: nat, len: nat, i: nat, j: nat, b: nat)
    requires (var flat := Flat(l); flat) && l.blocks == l.batch * l.groups && len == l.InputSize() && (var fits := CanScatter(l, n, 0, l.image); fits)
    requires i < l.batch && j < l.groups && b == i * l.groups + j
    ensures b < l.blocks && b % l.groups == j && (var fits := CanScatter(l, n, b * l.image, len); fits)
  {
    DigitBound(i, l.batch, j, l.groups);
    DivModUnique(i, l.groups, j);
    BlockInside(l.blocks, l.image, b);
  }

  /** The data-gradient part of backward_convolutional_layer. */
  method BackwardData(l: Layer, weights: seq<real>, delta: seq<real>, workspace: array<real>, netDelta: array<real>)
    requires l.Valid() && l.geo.size != 1 && |weights| == l.WeightSize() && |delta| == l.OutputSize()
    requires workspace.Length == l.WorkspaceSize() && netDelta.Length == l.InputSize() && workspace != netDelta
    modifies workspace, netDelta
    ensures Sized(l) && netDelta[..] == Backward(l, weights, delta, old(netDelta[..]), l.blocks)
  {
    ValidIsSized(l);
    WorkspaceFits(l);
    BackwardImages(l, weights, delta, workspace, netDelta);
  }

  /** The loop over the images. */
  method BackwardImages(l: Layer, weights: seq<real>, delta: seq<real>, workspace: array<real>, netDelta: array<real>)
    requires (var sized := Flat(l) && Sizes(l, weights, delta, workspace.Length); sized) && workspace != netDelta && l.blocks == l.batch * l.groups
    requires netDelta.Length == l.InputSize() && (var fits := CanScatter(l, workspace.Length, 0, l.image); fits)
    modifies workspace, netDelta
    ensures var done := netDelta[..] == Backward(l, weights, delta, old(netDelta[..]), l.blocks); done
  {
    ghost var d0 := netDelta[..];
    var first := 0;
    for i := 0 to l.batch
      invariant first == i * l.groups && (var done := netDelta[..] == Backward(l, weights, delta, d0, first); done)
    {
      BackwardImage(l, weights, delta, workspace, netDelta, i, first, d0);
      assert (i + 1) * l.groups == i * l.groups + l.groups;
      first := first + l.groups;
    }
  }
}
