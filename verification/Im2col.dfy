/**
 im2col_cpu and col2im_cpu: the column matrix of an image group, and the scatter that adds a
 column matrix back into an image. Both visit the entries of the matrix in order; entry q
 stands for one image element, or for padding.
 */
module Im2col {
  import opened Arith
  import opened Sums

  /** One group's image, the filter window, and the output size. */
  datatype Geo = Geo(ch: nat, h: nat, w: nat, size: nat, stride: nat, pad: nat, hc: nat, wc: nat) {
    /** convolutional_out_height and convolutional_out_width, for a non-empty output. */
    predicate Valid() {
      && size >= 1 && stride >= 1 && h + 2 * pad >= size && w + 2 * pad >= size
      && hc == (h + 2 * pad - size) / stride + 1 && wc == (w + 2 * pad - size) / stride + 1
    }

    /** The image element under window position (c, y, x), or -1 in the padding. */
    function At(c: nat, y: nat, x: nat): int
      requires size >= 1
    {
      Element(c / size / size, (c / size) % size + y * stride - pad, c % size + x * stride - pad)
    }

    function Element(channel: int, row: int, col: int): int {
      if row < 0 || col < 0 || row >= h || col >= w then -1 else col + w * (row + h * channel)
    }

    /** channels_col rows of height_col * width_col entries. */
    function Entries(): int { ch * size * size * hc * wc }

    /** The image element that entry q stands for, or -1. */
    function Src(q: nat): int
      requires size >= 1 && hc >= 1 && wc >= 1
    {
      At(q / wc / hc, (q / wc) % hc, q % wc)
    }

    predicate Shaped() { size >= 1 && hc >= 1 && wc >= 1 }
  }

  lemma ValidIsShaped(g: Geo)
    requires g.Valid()
    ensures g.Shaped()
  {
    NonNegativeQuotient(g.h + 2 * g.pad - g.size, g.stride);
    NonNegativeQuotient(g.w + 2 * g.pad - g.size, g.stride);
  }

  /** n windows of `size` places, `stride` apart, fit into `len` places, and no more. */
  predicate WindowsFit(n: nat, size: nat, stride: nat, len: int) { n >= 1 && (n - 1) * stride + size <= len < n * stride + size }

  lemma CountWindows(n: nat, size: nat, stride: nat, len: int)
    requires stride >= 1
    ensures len >= size && n == (len - size) / stride + 1 <==> WindowsFit(n, size, stride, len)
  {
    if len >= size {
      var (q, x) := ((len - size) / stride, (len - size) % stride);
      assert len - size == q * stride + x;
      QuotientIff(q, x, stride, n - 1, len - size);
    } else if n >= 1 {
      MulNonNegative(n - 1, stride);
    }
  }

  lemma QuotientIff(q: int, x: int, d: nat, k: int, v: int)
    requires d >= 1 && v == q * d + x && 0 <= x < d
    ensures k == q <==> k * d <= v < k * d + d
  {
    if k < q {
      MulMonotone(k + 1, q, d);
      assert (k + 1) * d == k * d + d;
    } else if k > q {
      MulMonotone(q + 1, k, d);
      assert (q + 1) * d == q * d + d;
    }
  }

  /**
   The output size: as many windows as fit into the padded image, the last one inside it and one
   more beyond it.
   */
  lemma OutputSizeIff(g: Geo)
    ensures g.Valid() <==> g.size >= 1 && g.stride >= 1 && WindowsFit(g.hc, g.size, g.stride, g.h + 2 * g.pad)
                           && WindowsFit(g.wc, g.size, g.stride, g.w + 2 * g.pad)
  {
    if g.stride >= 1 {
      CountWindows(g.hc, g.size, g.stride, g.h + 2 * g.pad);
      CountWindows(g.wc, g.size, g.stride, g.w + 2 * g.pad);
    }
  }

  lemma NonNegativeQuotient(x: nat, d: nat)
    requires d >= 1
    ensures x / d >= 0
  {
  }

  /** Loop indices (c, y, x) are the digits of the entry index that the loops compute. */
  lemma EntryDigits(g: Geo, c: nat, y: nat, x: nat)
    requires g.Shaped() && y < g.hc && x < g.wc
    ensures (c * g.hc + y) * g.wc + x >= 0
    ensures g.Src((c * g.hc + y) * g.wc + x) == g.At(c, y, x)
  {
    MulNonNegative(c, g.hc);
    MulNonNegative(c * g.hc + y, g.wc);
    DivModUnique(c * g.hc + y, g.wc, x);
    DivModUnique(c, g.hc, y);
  }

  /** Image elements lie inside the image. */
  lemma ElementBound(g: Geo, channel: int, row: int, col: int)
    requires 0 <= channel < g.ch
    ensures -1 <= g.Element(channel, row, col) < g.ch * g.h * g.w
  {
    if 0 <= row < g.h && 0 <= col < g.w {
      DigitBound(channel, g.ch, row, g.h);
      DigitBound(channel * g.h + row, g.ch * g.h, col, g.w);
      assert g.Element(channel, row, col) == (channel * g.h + row) * g.w + col;
    } else {
      MulNonNegative(g.ch, g.h);
      MulNonNegative(g.ch * g.h, g.w);
    }
  }

  lemma ChannelBound(c: nat, ch: nat, size: nat)
    requires size >= 1 && c < ch * size * size
    ensures 0 <= c / size / size < ch
  {
    QuotientBound(c, ch * size, size);
    QuotientBound(c / size, ch, size);
  }

  lemma QuotientBound(x: nat, q: int, d: nat)
    requires d >= 1 && x < q * d
    ensures 0 <= x / d < q
  {
    if x / d >= q {
      MulMonotone(q, x / d, d);
    }
  }

  /** Element s of the image that starts at `off`, or zero for padding. */
  function Pick(im: seq<real>, off: nat, s: int): real {
    if 0 <= s && off + s < |im| then im[off + s] else 0.0
  }

  /** The zero-padded image value that entry q stands for. */
  function Value(g: Geo, im: seq<real>, off: nat, q: nat): real
    requires g.Shaped()
  {
    Pick(im, off, g.Src(q))
  }

  /** im2col_get_pixel: zero outside the image, never a read outside the array. */
  method GetPixel(g: Geo, im: seq<real>, off: nat, row: int, col: int, channel: nat) returns (v: real)
    requires channel < g.ch && off + g.ch * g.h * g.w <= |im|
    ensures v == Pick(im, off, g.Element(channel, row - g.pad, col - g.pad))
  {
    ElementBound(g, channel, row - g.pad, col - g.pad);
    ElementSign(g, channel, row - g.pad, col - g.pad);
    var row', col' := row - g.pad, col - g.pad;
    if row' < 0 || col' < 0 || row' >= g.h || col' >= g.w {
      return 0.0;
    }
    return im[off + (col' + g.w * (row' + g.h * channel))];
  }

  lemma ElementSign(g: Geo, channel: nat, row: int, col: int)
    ensures g.Element(channel, row, col) >= 0 <==> 0 <= row < g.h && 0 <= col < g.w
  {
    if 0 <= row < g.h && 0 <= col < g.w {
      MulNonNegative(g.h, channel);
      MulNonNegative(g.w, row + g.h * channel);
    }
  }

  /** im2col_cpu: fill the matrix, and nothing after it. */
  method Im2colCpu(g: Geo, im: seq<real>, off: nat, col: array<real>)
    requires g.Shaped() && off + g.ch * g.h * g.w <= |im| && g.Entries() <= col.Length
    modifies col
    ensures forall q: nat :: q < col.Length ==>
              col[q] == if q < g.Entries() then Value(g, im, off, q) else old(col[..])[q]
  {
    ghost var col0 := col[..];
    var channels := g.ch * g.size * g.size;
    assert 0 * g.hc * g.wc == 0;
    for c := 0 to channels
      invariant Filled(g, im, off, col0, col[..], c * g.hc * g.wc)
    {
      var wOff, hOff, cIm := c % g.size, (c / g.size) % g.size, c / g.size / g.size;
      ChannelBound(c, g.ch, g.size);
      for y := 0 to g.hc
        invariant Filled(g, im, off, col0, col[..], (c * g.hc + y) * g.wc)
      {
        FillRow(g, im, off, c, hOff, wOff, cIm, y, col, col0);
      }
      assert (c * g.hc + g.hc) * g.wc == (c + 1) * g.hc * g.wc;
    }
  }

  /** The first n entries are filled. */
  ghost predicate Filled(g: Geo, im: seq<real>, off: nat, col0: seq<real>, col: seq<real>, n: int)
    requires g.Shaped()
  {
    && |col| == |col0|
    && forall q: nat :: q < |col| ==> col[q] == if q < n then Value(g, im, off, q) else col0[q]
  }

  lemma EntryBound(g: Geo, c: nat, y: nat, x: nat)
    requires c < g.ch * g.size * g.size && y < g.hc && x < g.wc
    ensures 0 <= (c * g.hc + y) * g.wc + x < g.Entries()
  {
    DigitBound(c, g.ch * g.size * g.size, y, g.hc);
    DigitBound(c * g.hc + y, g.ch * g.size * g.size * g.hc, x, g.wc);
  }

  /** The innermost loop of im2col_cpu, for window offset (hOff, wOff) in channel cIm. */
  method FillRow(g: Geo, im: seq<real>, off: nat, c: nat, hOff: nat, wOff: nat, cIm: nat, y: nat, col: array<real>, ghost col0: seq<real>)
    requires g.Shaped() && off + g.ch * g.h * g.w <= |im| && g.Entries() <= col.Length
    requires c < g.ch * g.size * g.size && y < g.hc && cIm < g.ch
    requires cIm == c / g.size / g.size && hOff == (c / g.size) % g.size && wOff == c % g.size
    requires Filled(g, im, off, col0, col[..], (c * g.hc + y) * g.wc)
    modifies col
    ensures Filled(g, im, off, col0, col[..], (c * g.hc + (y + 1)) * g.wc)
  {
    ghost var base := (c * g.hc + y) * g.wc;
    for x := 0 to g.wc
      invariant Filled(g, im, off, col0, col[..], base + x)
    {
      var v := GetPixel(g, im, off, hOff + y * g.stride, wOff + x * g.stride, cIm);
      EntryBound(g, c, y, x);
      EntryDigits(g, c, y, x);
      PutEntry(g, im, off, col, (c * g.hc + y) * g.wc + x, v, col0);
    }
    assert (c * g.hc + (y + 1)) * g.wc == base + g.wc;
  }

  method PutEntry(g: Geo, im: seq<real>, off: nat, col: array<real>, q: nat, v: real, ghost col0: seq<real>)
    requires g.Shaped() && q < col.Length && v == Value(g, im, off, q) && Filled(g, im, off, col0, col[..], q)
    modifies col
    ensures Filled(g, im, off, col0, col[..], q + 1)
  {
    col[q] := v;
  }

  // ---------------------------------------------------------------- col2im

  /** Add v to element s of the image that starts at `off`, unless s is padding. */
  function Bump(im: seq<real>, off: nat, s: int, v: real): (r: seq<real>)
    ensures |r| == |im|
  {
    if 0 <= s && off + s < |im| then im[off + s := im[off + s] + v] else im
  }

  /** Which image element each entry stands for. */
  function SrcMap(g: Geo): int -> int
    requires g.Shaped()
  {
    q => if q >= 0 then g.Src(q) else -1
  }

  /** The image after the first n entries of a column matrix were added to it. */
  function Scatter(src: int -> int, col: seq<real>, im: seq<real>, off: nat, n: nat): (r: seq<real>)
    requires n <= |col|
    ensures |r| == |im|
  {
    if n == 0 then im else Bump(Scatter(src, col, im, off, n - 1), off, src(n - 1), col[n - 1])
  }

  /** col2im_add_pixel: never a write outside the image. */
  method AddPixel(g: Geo, im: array<real>, off: nat, row: int, col: int, channel: nat, v: real)
    requires channel < g.ch && off + g.ch * g.h * g.w <= im.Length
    modifies im
    ensures im[..] == Bump(old(im[..]), off, g.Element(channel, row - g.pad, col - g.pad), v)
  {
    ElementBound(g, channel, row - g.pad, col - g.pad);
    ElementSign(g, channel, row - g.pad, col - g.pad);
    var row', col' := row - g.pad, col - g.pad;
    if row' < 0 || col' < 0 || row' >= g.h || col' >= g.w {
      return;
    }
    var x := off + (col' + g.w * (row' + g.h * channel));
    im[x] := im[x] + v;
  }

  /** One entry of the column matrix. */
  method ScatterEntry(g: Geo, col: seq<real>, c: nat, hOff: nat, wOff: nat, cIm: nat, y: nat, x: nat, im: array<real>, off: nat, ghost im0: seq<real>)
    requires g.Shaped() && off + g.ch * g.h * g.w <= im.Length && g.Entries() <= |col|
    requires c < g.ch * g.size * g.size && y < g.hc && x < g.wc && cIm < g.ch
    requires cIm == c / g.size / g.size && hOff == (c / g.size) % g.size && wOff == c % g.size
    requires var done := Scattered(g, col, im0, off, (c * g.hc + y) * g.wc + x, im[..]); done
    modifies im
    ensures var done := Scattered(g, col, im0, off, (c * g.hc + y) * g.wc + x + 1, im[..]); done
  {
    ghost var n := (c * g.hc + y) * g.wc + x;
    EntryBound(g, c, y, x);
    EntryDigits(g, c, y, x);
    AddPixel(g, im, off, hOff + y * g.stride, wOff + x * g.stride, cIm, col[(c * g.hc + y) * g.wc + x]);
    ScatterNext(g, col, im0, off, n, im[..]);
  }

  /** The innermost loop of col2im_cpu. */
  method ScatterRow(g: Geo, col: seq<real>, c: nat, hOff: nat, wOff: nat, cIm: nat, y: nat, im: array<real>, off: nat, ghost im0: seq<real>)
    requires g.Shaped() && off + g.ch * g.h * g.w <= im.Length && g.Entries() <= |col|
    requires c < g.ch * g.size * g.size && y < g.hc && cIm < g.ch
    requires cIm == c / g.size / g.size && hOff == (c / g.size) % g.size && wOff == c % g.size
    requires Scattered(g, col, im0, off, (c * g.hc + y) * g.wc, im[..])
    modifies im
    ensures Scattered(g, col, im0, off, (c * g.hc + (y + 1)) * g.wc, im[..])
  {
    ghost var base := (c * g.hc + y) * g.wc;
    for x := 0 to g.wc
      invariant var done := Scattered(g, col, im0, off, base + x, im[..]); done
    {
      ScatterEntry(g, col, c, hOff, wOff, cIm, y, x, im, off, im0);
    }
    assert (c * g.hc + (y + 1)) * g.wc == base + g.wc;
  }

  ghost predicate Scattered(g: Geo, col: seq<real>, im0: seq<real>, off: nat, n: int, im: seq<real>)
    requires g.Shaped()
  {
    0 <= n <= |col| && im == Scatter(SrcMap(g), col, im0, off, n)
  }

  lemma ScatterNext(g: Geo, col: seq<real>, im0: seq<real>, off: nat, n: nat, im: seq<real>)
    requires g.Shaped() && n < |col| && im == Bump(Scatter(SrcMap(g), col, im0, off, n), off, g.Src(n), col[n])
    ensures Scattered(g, col, im0, off, n + 1, im)
  {
  }

  /** col2im_cpu: add every entry of the column matrix to its image element. */
  method Col2imCpu(g: Geo, col: seq<real>, im: array<real>, off: nat)
    requires g.Shaped() && off + g.ch * g.h * g.w <= im.Length && 0 <= g.Entries() <= |col|
    modifies im
    ensures im[..] == Scatter(SrcMap(g), col, old(im[..]), off, g.Entries())
  {
    ghost var im0 := im[..];
    var channels := g.ch * g.size * g.size;
    assert 0 * g.hc * g.wc == 0;
    for c := 0 to channels
      invariant Scattered(g, col, im0, off, c * g.hc * g.wc, im[..])
    {
      var wOff, hOff, cIm := c % g.size, (c / g.size) % g.size, c / g.size / g.size;
      ChannelBound(c, g.ch, g.size);
      for y := 0 to g.hc
        invariant Scattered(g, col, im0, off, (c * g.hc + y) * g.wc, im[..])
      {
        ScatterRow(g, col, c, hOff, wOff, cIm, y, im, off, im0);
      }
      assert (c * g.hc + g.hc) * g.wc == (c + 1) * g.hc * g.wc;
    }
  }

  /** The products of a column matrix with the image elements that its entries stand for. */
  function ColProducts(src: int -> int, col: seq<real>, x: seq<real>, off: nat): int -> real {
    q => if 0 <= q < |col| then col[q] * Pick(x, off, src(q)) else 0.0
  }

  /**
   col2im is the adjoint of im2col: for every image x, the inner product with x grows by
   exactly the inner product of the added matrix with the column matrix of x.
   */
  lemma {:induction false} ScatterAdjoint(src: int -> int, col: seq<real>, im: seq<real>, off: nat, n: nat, x: seq<real>)
    requires n <= |col| && |x| == |im|
    ensures Inner(x, Scatter(src, col, im, off, n)) == Inner(x, im) + Sum(n, ColProducts(src, col, x, off))
  {
    if n > 0 {
      ScatterAdjoint(src, col, im, off, n - 1, x);
      ScatterStep(src, col, im, off, n, x);
    }
  }

  lemma ScatterStep(src: int -> int, col: seq<real>, im: seq<real>, off: nat, n: nat, x: seq<real>)
    requires 0 < n <= |col| && |x| == |im|
    ensures Inner(x, Scatter(src, col, im, off, n))
            == Inner(x, Scatter(src, col, im, off, n - 1)) + ColProducts(src, col, x, off)(n - 1)
  {
    var before, after := Scatter(src, col, im, off, n - 1), Scatter(src, col, im, off, n);
    var s, v := src(n - 1), col[n - 1];
    assert after == Bump(before, off, s, v);
    assert ColProducts(src, col, x, off)(n - 1) == v * Pick(x, off, s);
    assert Inner(x, after) == Inner(x, before) + v * Pick(x, off, s) by {
      BumpInner(x, before, off, s, v);
    }
  }

  lemma BumpInner(x: seq<real>, im: seq<real>, off: nat, s: int, v: real)
    requires |x| == |im|
    ensures Inner(x, Bump(im, off, s, v)) == Inner(x, im) + v * Pick(x, off, s)
  {
    if 0 <= s && off + s < |im| {
      InnerAdd(x, im, off + s, v);
    }
  }
}
