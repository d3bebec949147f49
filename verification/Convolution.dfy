/**
 The linear part of forward_convolutional_layer: im2col followed by GEMM, batch by batch and
 group by group, equals direct zero-padded grouped convolution.
 */
module Convolution {
  import opened Arith
  import opened Sums
  import opened Gemm
  import opened Im2col

  /**
   A layer and its derived sizes. Channels and filters per group are exact: c == groups *
   geo.ch and n == groups * m. A block is one image and one group.
   */
  datatype Layer = Layer(batch: nat, groups: nat, m: nat, geo: Geo,
                         k: nat, pixels: nat, image: nat, block: nat, blocks: nat) {
    predicate Valid() {
      && groups >= 1 && m >= 1 && geo.Valid()
      && k == geo.ch * geo.size * geo.size     // weights per filter
      && pixels == geo.hc * geo.wc             // output pixels per filter
      && image == geo.ch * geo.h * geo.w       // elements of an image group
      && block == m * pixels                   // outputs of a block
      && blocks == batch * groups
    }

    function InputSize(): int { blocks * image }
    function OutputSize(): int { blocks * block }
    function WeightSize(): int { groups * (m * k) }

    /** get_workspace_size, in floats. */
    function WorkspaceSize(): int { geo.hc * geo.wc * geo.size * geo.size * geo.ch }
  }

  // ---------------------------------------------------------------- direct convolution

  /** The position of one output value: its weights, its image group, its pixel. */
  datatype Site = Site(weight: nat, image: nat, y: nat, x: nat)

  function WeightAt(w: seq<real>, i: int): real { if 0 <= i < |w| then w[i] else 0.0 }

  /** Weight (ci, ky, kx) times the input pixel under it. */
  function Taps(g: Geo, w: seq<real>, x: seq<real>, s: Site, ci: int, ky: int): int -> real {
    kx => WeightAt(w, s.weight + ((ci * g.size + ky) * g.size + kx))
          * Pick(x, s.image, g.Element(ci, ky + s.y * g.stride - g.pad, kx + s.x * g.stride - g.pad))
  }

  function RowTaps(g: Geo, w: seq<real>, x: seq<real>, s: Site, ci: int): int -> real {
    ky => Sum(g.size, Taps(g, w, x, s, ci, ky))
  }

  function ChannelTaps(g: Geo, w: seq<real>, x: seq<real>, s: Site): int -> real {
    ci => Sum(g.size, RowTaps(g, w, x, s, ci))
  }

  /** One output value: the sum over channels, window rows and window columns. */
  function Direct(g: Geo, w: seq<real>, x: seq<real>, s: Site): real { Sum(g.ch, ChannelTaps(g, w, x, s)) }

  /** The same products by flat weight index. */
  function FlatTaps(g: Geo, w: seq<real>, x: seq<real>, s: Site): int -> real
    requires g.size >= 1
  {
    r => if r < 0 then 0.0 else WeightAt(w, s.weight + r) * Pick(x, s.image, g.At(r, s.y, s.x))
  }

  lemma TapDigits(g: Geo, w: seq<real>, x: seq<real>, s: Site, ci: nat, ky: nat, kx: nat)
    requires g.size >= 1 && ky < g.size && kx < g.size
    ensures FlatTaps(g, w, x, s)((ci * g.size + ky) * g.size + kx) == Taps(g, w, x, s, ci, ky)(kx)
  {
    MulNonNegative(ci, g.size);
    MulNonNegative(ci * g.size + ky, g.size);
    DivModUnique(ci * g.size + ky, g.size, kx);
    DivModUnique(ci, g.size, ky);
  }

  /** Summing by flat index is direct convolution. */
  lemma FlatIsDirect(g: Geo, w: seq<real>, x: seq<real>, s: Site)
    requires g.size >= 1
    ensures g.ch * g.size * g.size >= 0
    ensures Sum(g.ch * g.size * g.size, FlatTaps(g, w, x, s)) == Direct(g, w, x, s)
  {
    var f := FlatTaps(g, w, x, s);
    MulNonNegative(g.ch, g.size);
    SumSplit(g.ch * g.size, g.size, f);
    SumSplit(g.ch, g.size, DigitSums(f, g.size));
    forall ci | 0 <= ci < g.ch
      ensures DigitSums(DigitSums(f, g.size), g.size)(ci) == ChannelTaps(g, w, x, s)(ci)
    {
      forall ky | 0 <= ky < g.size
        ensures Digit(DigitSums(f, g.size), g.size, ci)(ky) == RowTaps(g, w, x, s, ci)(ky)
      {
        forall kx | 0 <= kx < g.size
          ensures Digit(f, g.size, ci * g.size + ky)(kx) == Taps(g, w, x, s, ci, ky)(kx)
        {
          TapDigits(g, w, x, s, ci, ky, kx);
        }
        SumEq(g.size, Digit(f, g.size, ci * g.size + ky), Taps(g, w, x, s, ci, ky));
      }
      SumEq(g.size, Digit(DigitSums(f, g.size), g.size, ci), RowTaps(g, w, x, s, ci));
    }
    SumEq(g.ch, DigitSums(DigitSums(f, g.size), g.size), ChannelTaps(g, w, x, s));
  }

  // ---------------------------------------------------------------- im2col and GEMM

  /** Terms of one GEMM entry as a function of the inner index. */
  function GemmTerms(a: Mat, b: Mat, i: nat, j: nat): int -> real {
    t => if t < 0 then 0.0 else a.Get(i, t) * b.Get(t, j)
  }

  lemma DotIsSum(a: Mat, b: Mat, i: nat, j: nat, k: nat)
    ensures Dot(1.0, a, b, i, j, k) == Sum(k, GemmTerms(a, b, i, j))
  {
    forall t: nat {:trigger IsTerm(1.0, a, b, i, j, GemmTerms(a, b, i, j), t)} | t < k
      ensures IsTerm(1.0, a, b, i, j, GemmTerms(a, b, i, j), t)
    {
    }
    DotSums(1.0, a, b, i, j, k, GemmTerms(a, b, i, j));
  }

  /** The workspace holds the column matrix of the image group at `off`. */
  ghost predicate HoldsColumns(g: Geo, x: seq<real>, off: nat, ws: seq<real>)
    requires g.Shaped()
  {
    g.Entries() <= |ws| && forall q: nat :: q < g.Entries() ==> ws[q] == Value(g, x, off, q)
  }

  /** Column p of row r is window position (r, p / wc, p % wc). */
  lemma ColumnSrc(g: Geo, r: nat, p: nat)
    requires g.Shaped() && r < g.ch * g.size * g.size && p < g.hc * g.wc
    ensures 0 <= r * (g.hc * g.wc) + p < g.Entries()
    ensures g.Src(r * (g.hc * g.wc) + p) == g.At(r, p / g.wc, p % g.wc)
  {
    QuotientBound(p, g.hc, g.wc);
    assert p == (p / g.wc) * g.wc + p % g.wc;
    ColumnSrcAt(g, r, p / g.wc, p % g.wc, r * (g.hc * g.wc) + p);
  }

  lemma ColumnSrcAt(g: Geo, r: nat, y: nat, c: nat, q: int)
    requires g.Shaped() && r < g.ch * g.size * g.size && y < g.hc && c < g.wc
    requires q == r * (g.hc * g.wc) + (y * g.wc + c)
    ensures 0 <= q < g.Entries() && g.Src(q) == g.At(r, y, c)
  {
    Regroup(r, g.hc, g.wc, y, c);
    EntryBound(g, r, y, c);
    EntryDigits(g, r, y, c);
  }

  lemma Regroup(r: int, h: int, w: int, y: int, c: int)
    ensures (r * h + y) * w + c == r * (h * w) + (y * w + c)
  {
    assert (r * h + y) * w == r * h * w + y * w;
    assert r * h * w == r * (h * w);
  }

  /** `b` reads as the column matrix of the image group at `off`. */
  ghost predicate ColumnMat(g: Geo, x: seq<real>, off: nat, b: Mat, k: nat, pixels: nat)
    requires g.Shaped()
  {
    forall r: nat, p: nat {:trigger b.Get(r, p)} :: r < k && p < pixels ==>
      b.Get(r, p) == Pick(x, off, g.At(r, p / g.wc, p % g.wc))
  }

  lemma WorkspaceColumns(g: Geo, x: seq<real>, off: nat, ws: seq<real>, k: nat, pixels: nat)
    requires g.Shaped() && HoldsColumns(g, x, off, ws) && k == g.ch * g.size * g.size && pixels == g.hc * g.wc
    ensures ColumnMat(g, x, off, Mat(ws, 0, pixels, false), k, pixels)
  {
    forall r: nat, p: nat | r < k && p < pixels
      ensures Mat(ws, 0, pixels, false).Get(r, p) == Pick(x, off, g.At(r, p / g.wc, p % g.wc))
    {
      ColumnSrc(g, r, p);
      assert ws[r * pixels + p] == Value(g, x, off, r * pixels + p);
    }
  }

  /** Every entry of the column matrix stands for the image element of the same index. */
  ghost predicate Identity(g: Geo)
    requires g.Shaped()
  {
    forall q: nat :: q < g.Entries() ==> g.Src(q) == q
  }

  /** With that, the image itself is its column matrix: the size == 1 shortcut. */
  lemma ShortcutColumns(g: Geo, x: seq<real>, off: nat, k: nat, pixels: nat)
    requires g.Shaped() && Identity(g) && k == g.ch * g.size * g.size && pixels == g.hc * g.wc
    ensures ColumnMat(g, x, off, Mat(x, off, pixels, false), k, pixels)
  {
    forall r: nat, p: nat | r < k && p < pixels
      ensures Mat(x, off, pixels, false).Get(r, p) == Pick(x, off, g.At(r, p / g.wc, p % g.wc))
    {
      ColumnSrc(g, r, p);
      assert g.Src(r * pixels + p) == r * pixels + p;
    }
  }

  lemma TermIsTap(g: Geo, w: seq<real>, x: seq<real>, s: Site, a: Mat, b: Mat, weight: nat, fi: nat, p: nat, k: nat, r: nat)
    requires g.size >= 1 && a == Mat(w, weight, k, false) && s.weight == weight + fi * k
    requires b.Get(r, p) == Pick(x, s.image, g.At(r, s.y, s.x))
    ensures GemmTerms(a, b, fi, p)(r) == FlatTaps(g, w, x, s)(r)
  {
    assert a.Get(fi, r) == WeightAt(w, s.weight + r) by { MulNonNegative(fi, k); }
  }

  /** One entry of the product of weights and column matrix is one direct convolution value. */
  lemma EntryIsDirect(g: Geo, w: seq<real>, x: seq<real>, off: nat, b: Mat, weight: nat, fi: nat, p: nat, k: nat, pixels: nat)
    requires g.Shaped() && ColumnMat(g, x, off, b, k, pixels) && k == g.ch * g.size * g.size && p < pixels
    ensures Dot(1.0, Mat(w, weight, k, false), b, fi, p, k)
            == Direct(g, w, x, Site(weight + fi * k, off, p / g.wc, p % g.wc))
  {
    var a := Mat(w, weight, k, false);
    var s := Site(weight + fi * k, off, p / g.wc, p % g.wc);
    DotIsSum(a, b, fi, p, k);
    forall r | 0 <= r < k
      ensures GemmTerms(a, b, fi, p)(r) == FlatTaps(g, w, x, s)(r)
    {
      assert b.Get(r, p) == Pick(x, off, g.At(r, p / g.wc, p % g.wc));
      TermIsTap(g, w, x, s, a, b, weight, fi, p, k, r);
    }
    SumEq(k, GemmTerms(a, b, fi, p), FlatTaps(g, w, x, s));
    FlatIsDirect(g, w, x, s);
  }

  // ---------------------------------------------------------------- the whole output

  predicate Sized(l: Layer) { l.block >= 1 && l.pixels >= 1 && l.geo.Shaped() && l.groups >= 1 }

  /** The derived sizes of a block, without the output size formula. */
  predicate Flat(l: Layer) {
    && Sized(l) && l.k == l.geo.ch * l.geo.size * l.geo.size
    && l.pixels == l.geo.hc * l.geo.wc && l.block == l.m * l.pixels
  }

  lemma ValidIsSized(l: Layer)
    requires l.Valid()
    ensures Sized(l) && Flat(l)
  {
    ValidIsShaped(l.geo);
    MulMonotone(1, l.geo.hc, l.geo.wc);
    MulMonotone(1, l.m, l.pixels);
  }

  function SiteAt(l: Layer, block: nat, filter: nat, pixel: nat): Site
    requires Sized(l)
  {
    Site(block % l.groups * (l.m * l.k) + filter * l.k, block * l.image, pixel / l.geo.wc, pixel % l.geo.wc)
  }

  /** Grouped, zero-padded convolution: output `entry` of a block. */
  function BlockValue(l: Layer, w: seq<real>, x: seq<real>, block: nat, entry: nat): real
    requires Sized(l)
  {
    Direct(l.geo, w, x, SiteAt(l, block, entry / l.pixels, entry % l.pixels))
  }

  /** Output element o of the layer. */
  function ConvAt(l: Layer, w: seq<real>, x: seq<real>, o: nat): real
    requires Sized(l)
  {
    BlockValue(l, w, x, o / l.block, o % l.block)
  }

  /** The first `blocks` blocks of the output are convolved, the rest is zero. */
  ghost predicate Convolved(l: Layer, w: seq<real>, x: seq<real>, out: seq<real>, blocks: nat)
    requires Sized(l)
  {
    && |out| == l.OutputSize()
    && forall o: nat :: o < |out| ==> out[o] == if o < blocks * l.block then ConvAt(l, w, x, o) else 0.0
  }

  lemma BlockMembers(mp: nat, p: nat, block: nat, o: nat, m: nat)
    requires p >= 1 && mp == m * p && mp >= 1
    ensures Block(block * mp, p, m, p).Has(o) <==> block * mp <= o < block * mp + mp
    ensures block * mp <= o < block * mp + mp ==> o / mp == block && o % mp == o - block * mp
  {
    var e := o - block * mp;
    if e >= 0 {
      assert e == (e / p) * p + e % p;
      if e / p < m {
        DigitBound(e / p, m, e % p, p);
      } else {
        MulMonotone(m, e / p, p);
      }
      if e < mp {
        DivModUnique(block, mp, e);
      }
    }
  }

  /** What one GEMM call adds is the block's convolution. */
  lemma ProductIsBlock(l: Layer, w: seq<real>, x: seq<real>, b: Mat, block: nat, e: nat)
    requires Flat(l) && ColumnMat(l.geo, x, block * l.image, b, l.k, l.pixels) && e < l.block
    ensures Product(1.0, Mat(w, block % l.groups * (l.m * l.k), l.k, false), b, l.k)
                   (e / l.pixels, e % l.pixels) == BlockValue(l, w, x, block, e)
  {
    EntryIsDirect(l.geo, w, x, block * l.image, b, block % l.groups * (l.m * l.k),
                  e / l.pixels, e % l.pixels, l.k, l.pixels);
  }

  /** After one more GEMM call one more block is convolved. */
  lemma ConvolvedNext(l: Layer, w: seq<real>, x: seq<real>, block: nat, out: seq<real>, out': seq<real>, add: (int, int) -> real)
    requires Flat(l) && Convolved(l, w, x, out, block) && |out'| == |out|
    requires forall e: nat :: e < l.block ==> add(e / l.pixels, e % l.pixels) == BlockValue(l, w, x, block, e)
    requires var blk := Block(block * l.block, l.pixels, l.m, l.pixels);
             forall o: nat :: o < |out'| ==>
               out'[o] == if blk.Has(o) then out[o] * 1.0 + add(blk.Row(o), blk.Col(o)) else out[o]
    ensures Convolved(l, w, x, out', block + 1)
  {
    var mp := l.block;
    assert (block + 1) * mp == block * mp + mp;
    forall o: nat | o < |out'|
      ensures out'[o] == if o < (block + 1) * mp then ConvAt(l, w, x, o) else 0.0
    {
      BlockMembers(mp, l.pixels, block, o, l.m);
      if block * mp <= o < block * mp + mp {
        var e := o - block * mp;
        assert add(e / l.pixels, e % l.pixels) == BlockValue(l, w, x, block, e);
      }
    }
  }

  // ---------------------------------------------------------------- sizes

  /** The column matrix fills the workspace exactly. */
  lemma WorkspaceFits(l: Layer)
    requires l.Valid()
    ensures l.geo.Entries() == l.k * l.pixels == l.WorkspaceSize()
  {
    var g := l.geo;
    Associate(l.k, g.hc, g.wc);
    Shuffle(g.ch, g.size, g.hc * g.wc);
  }

  lemma Associate(a: int, b: int, c: int)
    ensures a * b * c == a * (b * c)
  {
  }

  lemma Shuffle(c: int, s: int, p: int)
    ensures c * s * s * p == p * s * s * c
  {
    assert c * s * s * p == (c * s) * (s * p);
    assert p * s * s * c == (p * s) * (s * c);
  }

  lemma BlockInside(n: nat, size: nat, block: nat)
    requires block < n
    ensures block * size + size <= n * size
  {
    MulMonotone(block + 1, n, size);
    assert (block + 1) * size == block * size + size;
  }

  /** A dense rows x cols matrix of its own stride, rows * cols entries from `off` on. */
  lemma DenseFits(data: seq<real>, off: nat, rows: nat, cols: nat)
    requires off + rows * cols <= |data|
    ensures Mat(data, off, cols, false).Fits(rows, cols)
  {
    var a := Mat(data, off, cols, false);
    forall i: nat, k: nat | i < rows && k < cols
      ensures a.Index(i, k) < |data|
    {
      DigitBound(i, rows, k, cols);
    }
  }

  lemma DenseFitsTransposed(data: seq<real>, off: nat, rows: nat, cols: nat)
    requires off + rows * cols <= |data|
    ensures Mat(data, off, cols, true).Fits(cols, rows)
  {
    var a := Mat(data, off, cols, true);
    forall i: nat, k: nat | i < cols && k < rows
      ensures a.Index(i, k) < |data|
    {
      DigitBound(k, rows, i, cols);
    }
  }

  lemma DenseBlock(off: nat, rows: nat, cols: nat, len: nat)
    requires off + rows * cols <= len && cols >= 1
    ensures Block(off, cols, rows, cols).Valid(len)
  {
    if rows > 0 {
      assert rows * cols == (rows - 1) * cols + cols;
    }
  }

  // ---------------------------------------------------------------- the loops

  /** The second GEMM operand: the workspace after im2col_cpu, or the image itself. */
  method Columns(l: Layer, input: seq<real>, workspace: array<real>, block: nat) returns (b: Mat)
    requires l.Valid() && Flat(l) && |input| == l.InputSize() && workspace.Length == l.WorkspaceSize() && block < l.blocks
    requires l.geo.size == 1 ==> Fine(l.geo)
    modifies workspace
    ensures !b.trans && b.Fits(l.k, l.pixels) && ColumnMat(l.geo, input, block * l.image, b, l.k, l.pixels)
  {
    BlockInside(l.blocks, l.image, block);
    WorkspaceFits(l);
    if l.geo.size == 1 {
      FineIdentity(l.geo);
      b := Mat(input, block * l.image, l.pixels, false);
      ShortcutColumns(l.geo, input, block * l.image, l.k, l.pixels);
      FineSizes(l);
      DenseFits(input, block * l.image, l.k, l.pixels);
    } else {
      Im2colCpu(l.geo, input, block * l.image, workspace);
      b := Mat(workspace[..], 0, l.pixels, false);
      WorkspaceColumns(l.geo, input, block * l.image, workspace[..], l.k, l.pixels);
      DenseFits(workspace[..], 0, l.k, l.pixels);
    }
  }

  /** The image can stand for its column matrix. */
  predicate Fine(g: Geo) { g.pad == 0 && (g.stride == 1 || (g.hc == 1 && g.wc == 1 && (g.ch == 1 || g.h * g.w == 1))) }

  lemma FineIdentity(g: Geo)
    requires g.Valid() && g.Shaped() && g.size == 1 && Fine(g)
    ensures Identity(g)
  {
    if g.stride == 1 {
      UnitIdentity(g);
    } else {
      SinglePixel(g);
    }
  }

  lemma FineSizes(l: Layer)
    requires l.Valid() && l.geo.size == 1 && Fine(l.geo)
    ensures l.k * l.pixels <= l.image
  {
    var g := l.geo;
    assert l.k == g.ch;
    if g.stride == 1 {
      assert g.hc == g.h && g.wc == g.w;
      Associate(g.ch, g.h, g.w);
    } else {
      MulMonotone(1, g.h, g.ch);
      MulMonotone(1, g.w, g.ch * g.h);
    }
  }

  lemma UnitIdentity(g: Geo)
    requires g.Valid() && g.Shaped() && g.size == 1 && g.stride == 1 && g.pad == 0
    ensures Identity(g)
  {
    assert g.hc == g.h && g.wc == g.w;
    forall q: nat | q < g.Entries()
      ensures g.Src(q) == q
    {
      UnitSrc(g, q);
    }
  }

  lemma UnitSrc(g: Geo, q: nat)
    requires g.Shaped() && g.size == 1 && g.stride == 1 && g.pad == 0 && g.hc == g.h && g.wc == g.w
    ensures g.Src(q) == q
  {
    var (rest, x) := (q / g.w, q % g.w);
    var (c, y) := (rest / g.h, rest % g.h);
    assert q == rest * g.w + x && rest == c * g.h + y;
  }

  /** The weights of group j are inside their array, and so is the output of a block. */
  lemma GroupFits(weights: seq<real>, groups: nat, m: nat, k: nat, j: nat, off: nat)
    requires |weights| == groups * (m * k) && j < groups && off == j * (m * k)
    ensures var fits := Mat(weights, off, k, false).Fits(m, k); fits
  {
    BlockInside(groups, m * k, j);
    DenseFits(weights, off, m, k);
  }

  lemma OutputFits(blocks: nat, size: nat, m: nat, pixels: nat, block: nat, off: nat)
    requires size == m * pixels && pixels >= 1 && block < blocks && off == block * size
    ensures Block(off, pixels, m, pixels).Valid(blocks * size)
  {
    BlockInside(blocks, size, block);
    DenseBlock(off, m, pixels, blocks * size);
  }

  lemma BlockStep(l: Layer, w: seq<real>, x: seq<real>, a: Mat, b: Mat, block: nat, out: seq<real>, out': seq<real>)
    requires Flat(l) && a == Mat(w, block % l.groups * (l.m * l.k), l.k, false)
    requires var columns := ColumnMat(l.geo, x, block * l.image, b, l.k, l.pixels); columns
    requires (var done := Convolved(l, w, x, out, block); done) && |out'| == |out|
    requires var gemm := GemmResult(1.0, a, b, l.k, 1.0, Block(block * l.block, l.pixels, l.m, l.pixels), out, out'); gemm
    ensures var done := Convolved(l, w, x, out', block + 1); done
  {
    forall e: nat | e < l.block
      ensures Product(1.0, a, b, l.k)(e / l.pixels, e % l.pixels) == BlockValue(l, w, x, block, e)
    {
      ProductIsBlock(l, w, x, b, block, e);
    }
    ConvolvedNext(l, w, x, block, out, out', Product(1.0, a, b, l.k));
  }

  /** The GEMM call of the loop body. */
  method MultiplyBlock(l: Layer, weights: seq<real>, ghost input: seq<real>, b: Mat, output: array<real>, block: nat, j: nat)
    requires Flat(l) && |weights| == l.WeightSize() && output.Length == l.OutputSize()
    requires block < l.blocks && j < l.groups && block % l.groups == j
    requires var columns := b.Fits(l.k, l.pixels) && ColumnMat(l.geo, input, block * l.image, b, l.k, l.pixels); columns
    requires var done := Convolved(l, weights, input, output[..], block); done
    modifies output
    ensures var done := Convolved(l, weights, input, output[..], block + 1); done
  {
    ghost var before := output[..];
    GroupFits(weights, l.groups, l.m, l.k, j, j * (l.m * l.k));
    OutputFits(l.blocks, l.block, l.m, l.pixels, block, block * l.block);
    var a := Mat(weights, j * (l.m * l.k), l.k, false);
    GemmCpu(1.0, a, b, l.k, 1.0, output, Block(block * l.block, l.pixels, l.m, l.pixels));
    BlockStep(l, weights, input, a, b, block, before, output[..]);
  }

  /** The loop body: one image, one group. */
  method ForwardBlock(l: Layer, weights: seq<real>, input: seq<real>, workspace: array<real>, output: array<real>, block: nat, j: nat)
    requires l.Valid() && Flat(l) && |weights| == l.WeightSize() && |input| == l.InputSize()
    requires workspace.Length == l.WorkspaceSize() && output.Length == l.OutputSize() && workspace != output
    requires l.geo.size == 1 ==> Fine(l.geo)
    requires block < l.blocks && j < l.groups && block % l.groups == j
    requires var done := Convolved(l, weights, input, output[..], block); done
    modifies workspace, output
    ensures var done := Convolved(l, weights, input, output[..], block + 1); done
  {
    BlockInside(l.blocks, l.image, block);
    var b := Columns(l, input, workspace, block);
    MultiplyBlock(l, weights, input, b, output, block, j);
  }

  method FillZero(a: array<real>)
    modifies a
    ensures forall i: nat :: i < a.Length ==> a[i] == 0.0
  {
    for i := 0 to a.Length
      invariant forall k: nat :: k < i ==> a[k] == 0.0
    {
      a[i] := 0.0;
    }
  }

  /** fill_cpu, then the batch and group loops of forward_convolutional_layer. */
  method Forward(l: Layer, weights: seq<real>, input: seq<real>, workspace: array<real>, output: array<real>)
    requires l.Valid() && |weights| == l.WeightSize() && |input| == l.InputSize()
    requires workspace.Length == l.WorkspaceSize() && output.Length == l.OutputSize() && workspace != output
    requires l.geo.size == 1 ==> Fine(l.geo)
    modifies workspace, output
    ensures Sized(l) && WindowsFit(l.geo.hc, l.geo.size, l.geo.stride, l.geo.h + 2 * l.geo.pad)
    ensures WindowsFit(l.geo.wc, l.geo.size, l.geo.stride, l.geo.w + 2 * l.geo.pad)
    ensures forall o: nat :: o < output.Length ==> output[o] == ConvAt(l, weights, input, o)
  {
    ValidIsSized(l);
    OutputSizeIff(l.geo);
    FillZero(output);
    assert 0 * l.block == 0 && 0 * l.groups == 0;
    for i := 0 to l.batch
      invariant var done := Convolved(l, weights, input, output[..], i * l.groups); done
    {
      for j := 0 to l.groups
        invariant var done := Convolved(l, weights, input, output[..], i * l.groups + j); done
      {
        DigitBound(i, l.batch, j, l.groups);
        DivModUnique(i, l.groups, j);
        ForwardBlock(l, weights, input, workspace, output, i * l.groups + j, j);
      }
      assert (i + 1) * l.groups == i * l.groups + l.groups;
    }
  }

  // ---------------------------------------------------------------- the size == 1 shortcut

  /** What GEMM makes of the image itself as second operand: filter `fi` at pixel p. */
  function ShortcutAt(g: Geo, w: seq<real>, x: seq<real>, weight: nat, off: nat, fi: nat, p: nat): real {
    Dot(1.0, Mat(w, weight, g.ch, false), Mat(x, off, g.hc * g.wc, false), fi, p, g.ch)
  }

  /** The convolution value there. */
  function WantedAt(g: Geo, w: seq<real>, x: seq<real>, weight: nat, off: nat, fi: nat, p: nat): real
    requires g.Shaped()
  {
    Direct(g, w, x, Site(weight + fi * g.ch, off, p / g.wc, p % g.wc))
  }

  /** The shortcut gives the convolution for all weights and all inputs that hold an image at `off`. */
  ghost predicate ShortcutRight(g: Geo)
    requires g.Shaped()
  {
    forall w, x, weight: nat, off: nat, fi: nat, p: nat {:trigger ShortcutAt(g, w, x, weight, off, fi, p)} ::
      off + g.ch * g.h * g.w <= |x| && p < g.hc * g.wc ==>
        ShortcutAt(g, w, x, weight, off, fi, p) == WantedAt(g, w, x, weight, off, fi, p)
  }

  /**
   When the shortcut for 1x1 filters computes the convolution: exactly without padding and with
   stride 1, apart from layers with a single output pixel that read one channel or 1x1 images.
   */
  lemma ShortcutIff(g: Geo)
    requires g.Valid() && g.Shaped() && g.size == 1 && g.ch >= 1
    ensures ShortcutRight(g) <==> Fine(g)
  {
    if Fine(g) {
      FineIdentity(g);
      forall w, x, weight: nat, off: nat, fi: nat, p: nat {:trigger ShortcutAt(g, w, x, weight, off, fi, p)}
        | off + g.ch * g.h * g.w <= |x| && p < g.hc * g.wc
        ensures ShortcutAt(g, w, x, weight, off, fi, p) == WantedAt(g, w, x, weight, off, fi, p)
      {
        ShortcutColumns(g, x, off, g.ch, g.hc * g.wc);
        EntryIsDirect(g, w, x, off, Mat(x, off, g.hc * g.wc, false), weight, fi, p, g.ch, g.hc * g.wc);
      }
    } else {
      var q := ShortcutFails(g);
      var w, x, p := ShortcutWrong(g, q);
    }
  }

  /** All zero but for one. */
  function UnitVector(n: nat, i: nat): (r: seq<real>)
    ensures |r| == n && forall j :: 0 <= j < n ==> r[j] == if j == i then 1.0 else 0.0
  {
    seq(n, j requires 0 <= j < n => if j == i then 1.0 else 0.0)
  }

  lemma {:induction false} SumSingle(n: nat, f: int -> real, r: nat)
    requires r < n && forall t :: 0 <= t < n && t != r ==> f(t) == 0.0
    ensures Sum(n, f) == f(r)
  {
    if r == n - 1 {
      SumZero(n - 1, f);
    } else {
      SumSingle(n - 1, f, r);
    }
  }

  /** Row and column of entry q of the column matrix. */
  lemma EntryPlace(g: Geo, q: nat, pixels: nat) returns (r: nat, p: nat)
    requires g.Shaped() && g.size == 1 && q < g.Entries() && pixels == g.hc * g.wc
    ensures r < g.ch && p < pixels && q == r * pixels + p && g.Src(q) == g.At(r, p / g.wc, p % g.wc)
  {
    MulMonotone(1, g.hc, g.wc);
    Associate(g.ch, g.hc, g.wc);
    QuotientBound(q, g.ch, pixels);
    r, p := q / pixels, q % pixels;
    ColumnSrc(g, r, p);
  }

  /** With a filter that is 1 at r only, GEMM picks entry (r, p). */
  lemma UnitProduct(w: seq<real>, b: Mat, ch: nat, r: nat, p: nat)
    requires r < ch && w == UnitVector(ch, r)
    ensures Dot(1.0, Mat(w, 0, ch, false), b, 0, p, ch) == b.Get(r, p)
  {
    var f := GemmTerms(Mat(w, 0, ch, false), b, 0, p);
    DotIsSum(Mat(w, 0, ch, false), b, 0, p, ch);
    forall t | 0 <= t < ch
      ensures f(t) == if t == r then b.Get(r, p) else 0.0
    {
      assert Mat(w, 0, ch, false).Get(0, t) == w[t];
    }
    SumSingle(ch, f, r);
  }

  /** With that filter, convolution picks the element under row r. */
  lemma UnitDirect(g: Geo, w: seq<real>, x: seq<real>, r: nat, y: nat, c: nat)
    requires g.size == 1 && r < g.ch && w == UnitVector(g.ch, r)
    ensures Direct(g, w, x, Site(0, 0, y, c)) == Pick(x, 0, g.At(r, y, c))
  {
    var f := FlatTaps(g, w, x, Site(0, 0, y, c));
    FlatIsDirect(g, w, x, Site(0, 0, y, c));
    forall t | 0 <= t < g.ch
      ensures f(t) == if t == r then Pick(x, 0, g.At(r, y, c)) else 0.0
    {
      assert WeightAt(w, t) == w[t];
    }
    SumSingle(g.ch, f, r);
  }

  /** GEMM finds the 1 of a unit image at entry q. */
  lemma UnitFound(x: seq<real>, w: seq<real>, ch: nat, q: nat, r: nat, p: nat, pixels: nat)
    requires r < ch && q == r * pixels + p && q < |x| && w == UnitVector(ch, r) && x == UnitVector(|x|, q)
    ensures Dot(1.0, Mat(w, 0, ch, false), Mat(x, 0, pixels, false), 0, p, ch) == 1.0
  {
    var b := Mat(x, 0, pixels, false);
    assert b.Get(r, p) == x[q];
    UnitProduct(w, b, ch, r, p);
  }

  /** Convolution finds a 0 at any other place. */
  lemma UnitMissed(g: Geo, w: seq<real>, x: seq<real>, q: nat, r: nat, y: nat, c: nat)
    requires g.size == 1 && r < g.ch && g.At(r, y, c) != q && w == UnitVector(g.ch, r) && x == UnitVector(|x|, q)
    ensures Direct(g, w, x, Site(0, 0, y, c)) == 0.0
  {
    UnitDirect(g, w, x, r, y, c);
  }

  /** A unit image and a unit filter that tell entry q from the element it should stand for. */
  lemma ShortcutWrong(g: Geo, q: nat) returns (w: seq<real>, x: seq<real>, p: nat)
    requires g.Shaped() && g.size == 1 && q < g.Entries() && g.Src(q) != q
    ensures g.ch * g.h * g.w <= |x| && p < g.hc * g.wc
    ensures ShortcutAt(g, w, x, 0, 0, 0, p) == 1.0 && WantedAt(g, w, x, 0, 0, 0, p) == 0.0
  {
    var r;
    r, p := EntryPlace(g, q, g.hc * g.wc);
    var image := g.ch * g.h * g.w;
    assert image >= 0 by { MulNonNegative(g.ch, g.h); MulNonNegative(g.ch * g.h, g.w); }
    w, x := UnitVector(g.ch, r), UnitVector(q + 1 + image, q);
    UnitFound(x, w, g.ch, q, r, p, g.hc * g.wc);
    UnitMissed(g, w, x, q, r, p / g.wc, p % g.wc);
  }

  lemma SinglePixel(g: Geo)
    requires g.Valid() && g.Shaped() && g.size == 1 && g.pad == 0 && g.hc == 1 && g.wc == 1
    requires g.ch == 1 || g.h * g.w == 1
    ensures Identity(g)
  {
    forall q: nat | q < g.Entries()
      ensures g.Src(q) == q
    {
      assert q < g.ch && g.Src(q) == g.w * (g.h * q);
      assert g.w * (g.h * q) == g.h * g.w * q;
    }
  }

  /** An entry that does not stand for the element of the same index. */
  lemma ShortcutFails(g: Geo) returns (q: nat)
    requires g.Valid() && g.Shaped() && g.size == 1 && g.ch >= 1 && !Fine(g)
    ensures q < g.Entries() && g.Src(q) != q
  {
    if g.pad > 0 {
      q := PaddedCorner(g);
    } else if g.wc > 1 {
      q := SecondColumn(g);
    } else if g.hc > 1 {
      q := SecondRow(g);
    } else {
      q := SecondChannel(g);
    }
  }

  lemma PaddedCorner(g: Geo) returns (q: nat)
    requires g.Shaped() && g.size == 1 && g.ch >= 1 && g.pad > 0
    ensures q < g.Entries() && g.Src(q) != q
  {
    q := 0;
    EntryBound(g, 0, 0, 0);
    EntryDigits(g, 0, 0, 0);
  }

  lemma SecondColumn(g: Geo) returns (q: nat)
    requires g.Valid() && g.Shaped() && g.size == 1 && g.ch >= 1 && g.pad == 0 && g.stride > 1 && g.wc > 1
    ensures q < g.Entries() && g.Src(q) != q
  {
    q := 1;
    SecondSample(g.w, g.stride, g.wc);
    EntryBound(g, 0, 0, 1);
    EntryDigits(g, 0, 0, 1);
    assert g.Src(1) == g.stride;
  }

  lemma SecondRow(g: Geo) returns (q: nat)
    requires g.Valid() && g.Shaped() && g.size == 1 && g.ch >= 1 && g.pad == 0 && g.stride > 1 && g.wc == 1 && g.hc > 1
    ensures q < g.Entries() && g.Src(q) != q
  {
    q := 1;
    SecondSample(g.h, g.stride, g.hc);
    EntryBound(g, 0, 1, 0);
    EntryDigits(g, 0, 1, 0);
    assert g.Src(1) == g.w * g.stride;
    MulMonotone(1, g.w, g.stride);
  }

  lemma SecondChannel(g: Geo) returns (q: nat)
    requires g.Valid() && g.size == 1 && g.ch > 1 && g.pad == 0 && g.wc == 1 && g.hc == 1 && g.h * g.w != 1
    ensures g.Shaped() && q < g.Entries() && g.Src(q) != q
  {
    q := 1;
    EntryBound(g, 1, 0, 0);
    EntryDigits(g, 1, 0, 0);
    assert g.Src(1) == g.w * g.h;
  }

  /** A second sample at a distance of `stride` lies inside. */
  lemma SecondSample(len: nat, stride: nat, samples: nat)
    requires stride >= 1 && len >= 1 && samples == (len - 1) / stride + 1 && samples > 1
    ensures stride < len
  {
    if stride >= len {
      assert (len - 1) / stride == 0 by { DivModUnique(0, stride, len - 1); }
    }
  }
}
