/**
 The data gradient of backward_convolutional_layer for 1x1 filters: gemm_tn writes straight into
 net.delta with BETA == 0, so it overwrites what other layers have added there.
 */
module UnitGradient {
  import opened Arith
  import opened Sums
  import opened Gemm
  import opened Im2col
  import opened Convolution
  import opened ConvGradient

  // ---------------------------------------------------------------- blocks written one by one

  function Entry(cols: nat -> seq<real>, image: nat, i: nat): real {
    if image > 0 && i % image < |cols(i / image)| then cols(i / image)[i % image] else 0.0
  }

  /** Entries `off` to `off + |col|` are replaced by col. */
  ghost predicate Replaced(im: seq<real>, off: nat, col: seq<real>, im': seq<real>) {
    && |im'| == |im| && off + |col| <= |im|
    && forall i: nat :: i < |im| ==> im'[i] == if off <= i < off + |col| then col[i - off] else im[i]
  }

  /** The first b images are columns, the rest is as in d0. */
  ghost predicate Written(cols: nat -> seq<real>, image: nat, d0: seq<real>, d: seq<real>, b: nat) {
    && |d| == |d0| && b * image <= |d|
    && forall i: nat :: i < |d| ==> d[i] == if i < b * image then Entry(cols, image, i) else d0[i]
  }

  lemma WrittenNext(cols: nat -> seq<real>, image: nat, d0: seq<real>, d: seq<real>, b: nat, d': seq<real>)
    requires Written(cols, image, d0, d, b) && |cols(b)| == image && Replaced(d, b * image, cols(b), d')
    ensures Written(cols, image, d0, d', b + 1)
  {
    assert (b + 1) * image == b * image + image;
    forall i: nat | i < |d'|
      ensures d'[i] == if i < (b + 1) * image then Entry(cols, image, i) else d0[i]
    {
      if b * image <= i < b * image + image {
        DivModUnique(b, image, i - b * image);
      }
    }
  }

  /** Whatever was there before, all of it is gone at the end. */
  lemma AllWritten(cols: nat -> seq<real>, image: nat, d0: seq<real>, d: seq<real>, e0: seq<real>, e: seq<real>, blocks: nat)
    requires Written(cols, image, d0, d, blocks) && Written(cols, image, e0, e, blocks) && |d| == |e| == blocks * image
    ensures d == e
  {
  }

  // ---------------------------------------------------------------- what the general pass does to zeros

  function Zeros(n: nat): (z: seq<real>)
    ensures |z| == n && forall i :: 0 <= i < n ==> z[i] == 0.0
  {
    seq(n, _ => 0.0)
  }

  /** Scattering columns over zeros puts them there, if every entry stands for the element of its index. */
  lemma {:induction false} ScatterOverZeros(src: int -> int, col: seq<real>, im: seq<real>, off: nat, n: nat)
    requires n <= |col| && off + n <= |im| && forall q: nat :: q < n ==> src(q) == q
    requires forall i: nat :: off <= i < off + n ==> im[i] == 0.0
    ensures Replaced(im, off, col[..n], Scatter(src, col, im, off, n))
  {
    if n > 0 {
      ScatterOverZeros(src, col, im, off, n - 1);
    }
  }

  /** 1x1 filters with stride 1 and no padding: an image is as large as its column matrix. */
  predicate Unit(l: Layer) { l.Valid() && Flat(l) && l.geo.size == 1 && l.geo.stride == 1 && l.geo.pad == 0 && l.image == l.k * l.pixels }

  function Columns(l: Layer, w: seq<real>, delta: seq<real>): nat -> seq<real>
    requires Sized(l)
  {
    (block: nat) => GradMatrix(l, w, delta, block)
  }

  lemma BlockOverZeros(l: Layer, col: seq<real>, im: seq<real>, off: nat)
    requires Unit(l) && |col| == l.k * l.pixels && off + |col| <= |im|
    requires forall i: nat :: off <= i < |im| ==> im[i] == 0.0
    ensures Replaced(im, off, col, Scatter(SrcMap(l.geo), col, im, off, |col|))
  {
    UnitIdentity(l.geo);
    WorkspaceFits(l);
    assert col[..|col|] == col;
    ScatterOverZeros(SrcMap(l.geo), col, im, off, |col|);
  }

  lemma {:induction false} BackwardOverZeros(l: Layer, w: seq<real>, delta: seq<real>, z: seq<real>, b: nat)
    requires Unit(l) && b <= l.blocks && |z| == l.InputSize() && forall i :: 0 <= i < |z| ==> z[i] == 0.0
    ensures var written := Written(Columns(l, w, delta), l.image, z, Backward(l, w, delta, z, b), b); written
  {
    if b > 0 {
      BackwardOverZeros(l, w, delta, z, b - 1);
      NextOverZeros(l, w, delta, z, Backward(l, w, delta, z, b - 1), b - 1);
    }
  }

  lemma NextOverZeros(l: Layer, w: seq<real>, delta: seq<real>, z: seq<real>, d: seq<real>, b: nat)
    requires Unit(l) && b < l.blocks && |z| == l.InputSize() && forall i :: 0 <= i < |z| ==> z[i] == 0.0
    requires var written := Written(Columns(l, w, delta), l.image, z, d, b); written
    ensures var written := Written(Columns(l, w, delta), l.image, z, BlockBackward(l, w, delta, d, b), b + 1); written
  {
    BlockInside(l.blocks, l.image, b);
    BlockOverZeros(l, GradMatrix(l, w, delta, b), d, b * l.image);
    WrittenNext(Columns(l, w, delta), l.image, z, d, b, BlockBackward(l, w, delta, d, b));
  }

  // ---------------------------------------------------------------- the loops

  /** With BETA == 0 the block holds the gradient matrix afterwards. */
  lemma GemmReplaces(l: Layer, w: seq<real>, delta: seq<real>, block: nat, d: seq<real>, d': seq<real>)
    requires Flat(l) && l.image == l.k * l.pixels && block * l.image + l.image <= |d|
    requires var gemm := GemmResult(1.0, WeightsT(l, w, block), DeltaM(l, delta, block), l.m, 0.0, Block(block * l.image, l.pixels, l.k, l.pixels), d, d'); gemm
    ensures var replaced := Replaced(d, block * l.image, GradMatrix(l, w, delta, block), d'); replaced
  {
    BlockReplaced(l.image, l.pixels, l.k, block, GradMatrix(l, w, delta, block), Grad(l, w, delta, block), d, d');
  }

  lemma BlockReplaced(image: nat, pixels: nat, k: nat, block: nat, col: seq<real>, add: Fn2, d: seq<real>, d': seq<real>)
    requires pixels >= 1 && |col| == image == k * pixels && |d'| == |d| && block * image + image <= |d|
    requires forall q: nat :: q < |col| ==> col[q] == add(q / pixels, q % pixels)
    requires var blk := Block(block * image, pixels, k, pixels);
             forall i: nat :: i < |d'| ==> d'[i] == if blk.Has(i) then d[i] * 0.0 + add(blk.Row(i), blk.Col(i)) else d[i]
    ensures Replaced(d, block * image, col, d')
  {
    forall i: nat | i < |d'|
      ensures d'[i] == if block * image <= i < block * image + |col| then col[i - block * image] else d[i]
    {
      MembersFrom(image, pixels, k, block, i);
      if block * image <= i < block * image + image {
        assert col[i - block * image] == add((i - block * image) / pixels, (i - block * image) % pixels);
      }
    }
  }

  lemma MembersFrom(image: nat, pixels: nat, k: nat, block: nat, i: nat)
    requires pixels >= 1 && image == k * pixels
    ensures Block(block * image, pixels, k, pixels).Has(i) <==> block * image <= i < block * image + image
  {
    if image > 0 {
      BlockMembers(image, pixels, block, i, k);
    } else {
      assert k == 0 by { MulMonotone(1, pixels, k); }
    }
  }

  /** The gemm_tn call of the loop body. */
  method MultiplyInto(l: Layer, weights: seq<real>, delta: seq<real>, netDelta: array<real>, block: nat, j: nat)
    requires Flat(l) && l.image == l.k * l.pixels
    requires |weights| == l.WeightSize() && |delta| == l.OutputSize() && netDelta.Length == l.InputSize()
    requires block < l.blocks && j < l.groups && block % l.groups == j
    modifies netDelta
    ensures var gemm := GemmResult(1.0, WeightsT(l, weights, block), DeltaM(l, delta, block), l.m, 0.0,
                                   Block(block * l.image, l.pixels, l.k, l.pixels), old(netDelta[..]), netDelta[..]); gemm
  {
    GroupFitsTransposed(weights, l.groups, l.m, l.k, j, j * (l.m * l.k));
    DeltaFits(delta, l.blocks, l.block, l.m, l.pixels, block, block * l.block);
    OutputFits(l.blocks, l.image, l.k, l.pixels, block, block * l.image);
    var a, b := Mat(weights, j * (l.m * l.k), l.k, true), Mat(delta, block * l.block, l.pixels, false);
    GemmCpu(1.0, a, b, l.m, 0.0, netDelta, Block(block * l.image, l.pixels, l.k, l.pixels));
  }

  method UnitBlock(l: Layer, weights: seq<real>, delta: seq<real>, netDelta: array<real>, block: nat, j: nat)
    requires Flat(l) && l.image == l.k * l.pixels
    requires |weights| == l.WeightSize() && |delta| == l.OutputSize() && netDelta.Length == l.InputSize()
    requires block < l.blocks && j < l.groups && block % l.groups == j
    modifies netDelta
    ensures var replaced := Replaced(old(netDelta[..]), block * l.image, GradMatrix(l, weights, delta, block), netDelta[..]); replaced
  {
    MultiplyInto(l, weights, delta, netDelta, block, j);
    BlockInside(l.blocks, l.image, block);
    GemmReplaces(l, weights, delta, block, old(netDelta[..]), netDelta[..]);
  }

  lemma UnitSizes(l: Layer)
    requires l.Valid() && l.geo.size == 1 && l.geo.stride == 1 && l.geo.pad == 0
    ensures Unit(l)
  {
    ValidIsSized(l);
    var g := l.geo;
    assert g.hc == g.h && g.wc == g.w;
    Associate(g.ch, g.h, g.w);
  }

  /** The batch and group loops. */
  method UnitBlocks(l: Layer, weights: seq<real>, delta: seq<real>, netDelta: array<real>, ghost d0: seq<real>)
    requires Flat(l) && l.image == l.k * l.pixels && l.blocks == l.batch * l.groups && d0 == netDelta[..]
    requires |weights| == l.WeightSize() && |delta| == l.OutputSize() && netDelta.Length == l.InputSize()
    modifies netDelta
    ensures var written := Written(Columns(l, weights, delta), l.image, d0, netDelta[..], l.blocks); written
  {
    assert 0 * l.image == 0 && 0 * l.groups == 0;
    for i := 0 to l.batch
      invariant var written := i * l.groups >= 0 && Written(Columns(l, weights, delta), l.image, d0, netDelta[..], i * l.groups); written
    {
      for j := 0 to l.groups
        invariant var written := i * l.groups + j >= 0 && Written(Columns(l, weights, delta), l.image, d0, netDelta[..], i * l.groups + j); written
      {
        DigitBound(i, l.batch, j, l.groups);
        DivModUnique(i, l.groups, j);
        ghost var before := netDelta[..];
        UnitBlock(l, weights, delta, netDelta, i * l.groups + j, j);
        WrittenNext(Columns(l, weights, delta), l.image, d0, before, i * l.groups + j, netDelta[..]);
      }
      assert (i + 1) * l.groups == i * l.groups + l.groups;
    }
  }

  /** The data-gradient part for size == 1: what the general pass would make of a zero net.delta. */
  method BackwardUnit(l: Layer, weights: seq<real>, delta: seq<real>, netDelta: array<real>)
    requires l.Valid() && l.geo.size == 1 && l.geo.stride == 1 && l.geo.pad == 0
    requires |weights| == l.WeightSize() && |delta| == l.OutputSize() && netDelta.Length == l.InputSize()
    modifies netDelta
    ensures Sized(l) && netDelta[..] == Backward(l, weights, delta, Zeros(netDelta.Length), l.blocks)
  {
    UnitSizes(l);
    ghost var z := Zeros(netDelta.Length);
    BackwardOverZeros(l, weights, delta, z, l.blocks);
    ghost var d0 := netDelta[..];
    UnitBlocks(l, weights, delta, netDelta, d0);
    AllWritten(Columns(l, weights, delta), l.image, d0, netDelta[..], z, Backward(l, weights, delta, z, l.blocks), l.blocks);
  }

  // ---------------------------------------------------------------- when that is the gradient

  lemma InnerZero(x: seq<real>, y: seq<real>)
    requires forall i :: 0 <= i < |y| ==> y[i] == 0.0
    ensures Inner(x, y) == 0.0
  {
    SumZero(|x|, Products(x, y));
  }

  lemma InnerUnit(y: seq<real>, i: nat)
    requires i < |y|
    ensures Inner(UnitVector(|y|, i), y) == y[i]
  {
    SumSingle(|y|, Products(UnitVector(|y|, i), y), i);
  }

  predicate AddsAt(l: Layer, w: seq<real>, delta: seq<real>, d0: seq<real>, d: seq<real>, x: seq<real>)
    requires Sized(l)
  {
    Inner(x, d) == Inner(x, d0) + Inner(ConvOutput(l, w, x), delta)
  }

  /** The law of the data gradient: net.delta grows by the adjoint of the forward map. */
  ghost predicate Adds(l: Layer, w: seq<real>, delta: seq<real>, d0: seq<real>, d: seq<real>)
    requires Sized(l)
  {
    forall x {:trigger AddsAt(l, w, delta, d0, d, x)} :: |x| == |d0| ==> AddsAt(l, w, delta, d0, d, x)
  }

  /** For 1x1 filters the law holds exactly if net.delta was all zero before. */
  lemma UnitGradientIff(l: Layer, w: seq<real>, delta: seq<real>, d0: seq<real>, d: seq<real>)
    requires l.Valid() && Sized(l) && |delta| == l.OutputSize() && |d0| == l.InputSize()
    requires d == Backward(l, w, delta, Zeros(|d0|), l.blocks)
    ensures Adds(l, w, delta, d0, d) <==> forall i :: 0 <= i < |d0| ==> d0[i] == 0.0
  {
    if forall i :: 0 <= i < |d0| ==> d0[i] == 0.0 {
      assert d0 == Zeros(|d0|);
      forall x {:trigger AddsAt(l, w, delta, d0, d, x)} | |x| == |d0|
        ensures AddsAt(l, w, delta, d0, d, x)
      {
        DataGradientIsAdjoint(l, w, x, delta, d0);
      }
    } else {
      var i :| 0 <= i < |d0| && d0[i] != 0.0;
      var x := UnitVector(|d0|, i);
      DataGradientIsAdjoint(l, w, x, delta, Zeros(|d0|));
      InnerZero(x, Zeros(|d0|));
      InnerUnit(d0, i);
      assert !AddsAt(l, w, delta, d0, d, x);
    }
  }
}
