/**
 The forward pass by array indices: images, channels, filters, rows and columns as they lie in
 the weights, the input and the output, with the groups spelled out.
 */
module ConvIndices {
  import opened Arith
  import opened Sums
  import opened Im2col
  import opened Convolution

  /** Output position: image, group, filter of the group, row and column. */
  datatype Place = Place(i: nat, j: nat, f: nat, y: nat, x: nat) {
    predicate In(l: Layer) { i < l.batch && j < l.groups && f < l.m && y < l.geo.hc && x < l.geo.wc }
  }

  /** Where the place lies in the output: images of groups * m planes of hc * wc values. */
  function OutIndex(l: Layer, o: Place): int { ((o.i * (l.groups * l.m) + (o.j * l.m + o.f)) * l.geo.hc + o.y) * l.geo.wc + o.x }

  function ValueAt(a: seq<real>, i: int): real { if 0 <= i < |a| then a[i] else 0.0 }

  /** Weight (ci, ky, kx) of filter j * m + f: filters of ch planes of size * size weights. */
  function WeightOf(l: Layer, w: seq<real>, o: Place, ci: int, ky: int, kx: int): real {
    ValueAt(w, (((o.j * l.m + o.f) * l.geo.ch + ci) * l.geo.size + ky) * l.geo.size + kx)
  }

  /** Input pixel (row, col) of channel ci of the group: images of groups * ch planes of h * w values; zero outside. */
  function InputOf(l: Layer, x: seq<real>, o: Place, ci: int, row: int, col: int): real {
    if 0 <= row < l.geo.h && 0 <= col < l.geo.w then
      ValueAt(x, ((o.i * (l.groups * l.geo.ch) + (o.j * l.geo.ch + ci)) * l.geo.h + row) * l.geo.w + col)
    else 0.0
  }

  /** The window starts `pad` before y * stride and x * stride. */
  function Term(l: Layer, w: seq<real>, x: seq<real>, o: Place, ci: int, ky: int): int -> real {
    kx => WeightOf(l, w, o, ci, ky, kx) * InputOf(l, x, o, ci, o.y * l.geo.stride + ky - l.geo.pad, o.x * l.geo.stride + kx - l.geo.pad)
  }

  function TermRow(l: Layer, w: seq<real>, x: seq<real>, o: Place, ci: int): int -> real {
    ky => Sum(l.geo.size, Term(l, w, x, o, ci, ky))
  }

  function TermPlane(l: Layer, w: seq<real>, x: seq<real>, o: Place): int -> real {
    ci => Sum(l.geo.size, TermRow(l, w, x, o, ci))
  }

  // ---------------------------------------------------------------- indices

  lemma ThreeFactors(q: int, c: int, a: int, b: int, r: int)
    ensures (q * c + r) * a * b == q * (c * a * b) + r * a * b
  {
    assert (q * c + r) * a == q * c * a + r * a;
    Regroup(q, c * a, b);
    assert q * (c * a) == q * c * a;
  }

  lemma Regroup(q: int, x: int, b: int)
    ensures q * x * b == q * (x * b)
  {
  }

  /** The weights of filter F start at F * (ch * size * size). */
  lemma WeightIndex(ch: int, s: int, F: int, ci: int, ky: int, kx: int)
    ensures ((F * ch + ci) * s + ky) * s + kx == F * (ch * s * s) + ((ci * s + ky) * s + kx)
  {
    ThreeFactors(F, ch, s, s, ci);
    assert ((F * ch + ci) * s + ky) * s == (F * ch + ci) * s * s + ky * s;
    assert (ci * s + ky) * s == ci * s * s + ky * s;
  }

  lemma FilterStart(j: int, m: int, f: int, k: int)
    ensures j * (m * k) + f * k == (j * m + f) * k
  {
    assert j * (m * k) == j * m * k;
  }

  /** Channel ci of group b starts at (b * ch + ci) * (h * w). */
  lemma ImageIndex(ch: int, h: int, w: int, b: int, ci: int, row: int, col: int)
    ensures ((b * ch + ci) * h + row) * w + col == b * (ch * h * w) + (col + w * (row + h * ci))
  {
    ThreeFactors(b, ch, h, w, ci);
    assert ((b * ch + ci) * h + row) * w == (b * ch + ci) * h * w + row * w;
    assert w * (row + h * ci) == row * w + ci * h * w;
  }

  lemma PlaneOf(i: int, groups: int, j: int, n: int, z: int)
    ensures i * (groups * n) + (j * n + z) == (i * groups + j) * n + z
  {
    assert i * (groups * n) == i * groups * n;
  }

  lemma OutputIndex(m: int, h: int, w: int, b: int, f: int, y: int, x: int)
    ensures ((b * m + f) * h + y) * w + x == b * (m * (h * w)) + (f * (h * w) + (y * w + x))
  {
    ThreeFactors(b, m, h, w, f);
    assert ((b * m + f) * h + y) * w == (b * m + f) * h * w + y * w;
    assert m * h * w == m * (h * w) && f * h * w == f * (h * w);
  }

  // ---------------------------------------------------------------- the same sums

  /** The sizes that the indices need. */
  predicate Dims(l: Layer) { l.k == l.geo.ch * l.geo.size * l.geo.size && l.image == l.geo.ch * l.geo.h * l.geo.w }

  lemma WeightIsAt(l: Layer, w: seq<real>, o: Place, start: int, ci: nat, ky: nat, kx: nat)
    requires Dims(l) && start == o.j * (l.m * l.k) + o.f * l.k
    ensures WeightOf(l, w, o, ci, ky, kx) == WeightAt(w, start + ((ci * l.geo.size + ky) * l.geo.size + kx))
  {
    FilterStart(o.j, l.m, o.f, l.k);
    WeightIndex(l.geo.ch, l.geo.size, o.j * l.m + o.f, ci, ky, kx);
  }

  lemma PixelIsPick(l: Layer, x: seq<real>, o: Place, start: nat, ci: nat, row: int, col: int)
    requires Dims(l) && start == (o.i * l.groups + o.j) * l.image
    ensures InputOf(l, x, o, ci, row, col) == Pick(x, start, l.geo.Element(ci, row, col))
  {
    var g := l.geo;
    ElementSign(g, ci, row, col);
    PlaneOf(o.i, l.groups, o.j, g.ch, ci);
    ImageIndex(g.ch, g.h, g.w, o.i * l.groups + o.j, ci, row, col);
  }

  /** Weights and pixels of the tap. */
  lemma TermIsTap(l: Layer, w: seq<real>, x: seq<real>, o: Place, s: Site, ci: nat, ky: nat, kx: nat)
    requires var at := AtSite(l, o, s); at
    ensures Term(l, w, x, o, ci, ky)(kx) == Taps(l.geo, w, x, s, ci, ky)(kx)
  {
    var g := l.geo;
    WeightIsAt(l, w, o, s.weight, ci, ky, kx);
    PixelIsPick(l, x, o, s.image, ci, o.y * g.stride + ky - g.pad, o.x * g.stride + kx - g.pad);
    SameProduct(l, w, x, o, s, ci, ky, kx, o.y * g.stride + ky - g.pad, o.x * g.stride + kx - g.pad);
  }

  lemma SameProduct(l: Layer, w: seq<real>, x: seq<real>, o: Place, s: Site, ci: nat, ky: nat, kx: nat, row: int, col: int)
    requires row == o.y * l.geo.stride + ky - l.geo.pad && col == o.x * l.geo.stride + kx - l.geo.pad && s.y == o.y && s.x == o.x
    requires WeightOf(l, w, o, ci, ky, kx) == WeightAt(w, s.weight + ((ci * l.geo.size + ky) * l.geo.size + kx))
    requires InputOf(l, x, o, ci, row, col) == Pick(x, s.image, l.geo.Element(ci, row, col))
    ensures Term(l, w, x, o, ci, ky)(kx) == Taps(l.geo, w, x, s, ci, ky)(kx)
  {
    var (u, v) := (WeightOf(l, w, o, ci, ky, kx), InputOf(l, x, o, ci, row, col));
    TermValue(l, w, x, o, ci, ky, kx, row, col, u, v);
    TapValue(l, w, x, s, ci, ky, kx, row, col, u, v);
  }

  lemma TermValue(l: Layer, w: seq<real>, x: seq<real>, o: Place, ci: nat, ky: nat, kx: nat, row: int, col: int, u: real, v: real)
    requires row == o.y * l.geo.stride + ky - l.geo.pad && col == o.x * l.geo.stride + kx - l.geo.pad
    requires u == WeightOf(l, w, o, ci, ky, kx) && v == InputOf(l, x, o, ci, row, col)
    ensures Term(l, w, x, o, ci, ky)(kx) == u * v
  {
  }

  lemma TapValue(l: Layer, w: seq<real>, x: seq<real>, s: Site, ci: nat, ky: nat, kx: nat, row: int, col: int, u: real, v: real)
    requires row == ky + s.y * l.geo.stride - l.geo.pad && col == kx + s.x * l.geo.stride - l.geo.pad
    requires u == WeightAt(w, s.weight + ((ci * l.geo.size + ky) * l.geo.size + kx)) && v == Pick(x, s.image, l.geo.Element(ci, row, col))
    ensures Taps(l.geo, w, x, s, ci, ky)(kx) == u * v
  {
  }

  predicate AtSite(l: Layer, o: Place, s: Site) {
    && Dims(l) && s.weight == o.j * (l.m * l.k) + o.f * l.k && s.image == (o.i * l.groups + o.j) * l.image
    && s.y == o.y && s.x == o.x
  }

  lemma SumsAgree(l: Layer, w: seq<real>, x: seq<real>, o: Place, s: Site)
    requires var at := AtSite(l, o, s); at
    ensures Sum(l.geo.ch, TermPlane(l, w, x, o)) == Direct(l.geo, w, x, s)
  {
    var g := l.geo;
    forall ci | 0 <= ci < g.ch
      ensures TermPlane(l, w, x, o)(ci) == ChannelTaps(g, w, x, s)(ci)
    {
      forall ky | 0 <= ky < g.size
        ensures TermRow(l, w, x, o, ci)(ky) == RowTaps(g, w, x, s, ci)(ky)
      {
        forall kx | 0 <= kx < g.size
          ensures Term(l, w, x, o, ci, ky)(kx) == Taps(g, w, x, s, ci, ky)(kx)
        {
          TermIsTap(l, w, x, o, s, ci, ky, kx);
        }
        SumEq(g.size, Term(l, w, x, o, ci, ky), Taps(g, w, x, s, ci, ky));
      }
      SumEq(g.size, TermRow(l, w, x, o, ci), RowTaps(g, w, x, s, ci));
    }
    SumEq(g.ch, TermPlane(l, w, x, o), ChannelTaps(g, w, x, s));
  }

  /** Block, filter, row and column of an output index. */
  lemma OutDigits(l: Layer, o: Place, b: nat, e: nat, p: nat)
    requires Flat(l) && l.blocks == l.batch * l.groups && o.In(l)
    requires b == o.i * l.groups + o.j && e == o.f * l.pixels + p && p == o.y * l.geo.wc + o.x
    ensures e < l.block && b < l.blocks && b % l.groups == o.j
    ensures e / l.pixels == o.f && e % l.pixels == p && p / l.geo.wc == o.y && p % l.geo.wc == o.x
  {
    var g := l.geo;
    DigitBound(o.y, g.hc, o.x, g.wc);
    DigitBound(o.f, l.m, p, l.pixels);
    DigitBound(o.i, l.batch, o.j, l.groups);
    DivModUnique(o.i, l.groups, o.j);
    DivModUnique(o.f, l.pixels, p);
    DivModUnique(o.y, g.wc, o.x);
  }

  lemma OutPlace(l: Layer, o: Place, b: nat, e: nat)
    requires Flat(l) && b == o.i * l.groups + o.j && e == o.f * l.pixels + (o.y * l.geo.wc + o.x)
    ensures OutIndex(l, o) == b * l.block + e
  {
    var g := l.geo;
    PlaneOf(o.i, l.groups, o.j, l.m, o.f);
    OutputIndex(l.m, g.hc, g.wc, b, o.f, o.y, o.x);
  }

  /** The digits of the output index lead to the place's weights, image and window. */
  lemma ValueIsDirect(l: Layer, w: seq<real>, x: seq<real>, o: Place, b: nat, e: nat, p: nat) returns (s: Site)
    requires Flat(l) && Dims(l) && l.blocks == l.batch * l.groups && o.In(l)
    requires b == o.i * l.groups + o.j && e == o.f * l.pixels + p && p == o.y * l.geo.wc + o.x
    ensures 0 <= OutIndex(l, o) < l.OutputSize() && ConvAt(l, w, x, OutIndex(l, o)) == Direct(l.geo, w, x, s)
    ensures var at := AtSite(l, o, s); at
  {
    OutDigits(l, o, b, e, p);
    OutPlace(l, o, b, e);
    DigitBound(b, l.blocks, e, l.block);
    DivModUnique(b, l.block, e);
    s := SiteAt(l, b, o.f, p);
  }

  /**
   Every output value of the forward pass, by its image, group, filter, row and column: the sum
   over the channels of its group and the window positions.
   */
  lemma ForwardByIndices(l: Layer, w: seq<real>, x: seq<real>, o: Place)
    requires l.Valid() && Sized(l) && o.In(l)
    ensures 0 <= OutIndex(l, o) < l.OutputSize()
    ensures ConvAt(l, w, x, OutIndex(l, o)) == Sum(l.geo.ch, TermPlane(l, w, x, o))
  {
    ValidIsSized(l);
    MulNonNegative(o.i, l.groups);
    MulNonNegative(o.f, l.pixels);
    MulNonNegative(o.y, l.geo.wc);
    var p := o.y * l.geo.wc + o.x;
    var s := ValueIsDirect(l, w, x, o, o.i * l.groups + o.j, o.f * l.pixels + p, p);
    SumsAgree(l, w, x, o, s);
  }
}
