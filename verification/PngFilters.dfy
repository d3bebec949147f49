/**
 PNG scanline filters of stb_image_write: the writer's line encoder and its choice of filter,
 against the filters and their inverse of section 6 of RFC 2083.
 */
module PngFilters {
  import opened Common

  type Byte = b: int | 0 <= b < 256

  // ---------------------------------------------------------------- section 6 of RFC 2083

  /** PaethPredictor, section 6.6; ties go to a, then b. */
  function PaethPredictor(a: Byte, b: Byte, c: Byte): Byte {
    var p := a + b - c;
    var (pa, pb, pc) := (Abs(p - a), Abs(p - b), Abs(p - c));
    if pa <= pb && pa <= pc then a else if pb <= pc then b else c
  }

  function Average(a: int, b: int): int { (a + b) / 2 }

  /** The prediction of each filter type from the bytes to the left, above, and above left. */
  function Predict(filter: nat, a: Byte, b: Byte, c: Byte): Byte {
    if filter == 0 then 0 else if filter == 1 then a else if filter == 2 then b
    else if filter == 3 then Average(a, b) else PaethPredictor(a, b, c)
  }

  /** The byte one pixel (n bytes) to the left, or zero. */
  function Left(s: seq<Byte>, n: nat, i: nat): Byte
    requires n >= 1 && i <= |s|
  {
    if i < n then 0 else s[i - n]
  }

  function FilterAt(filter: nat, n: nat, cur: seq<Byte>, up: seq<Byte>, i: nat): Byte
    requires n >= 1 && |up| == |cur| && i < |cur|
  {
    (cur[i] - Predict(filter, Left(cur, n, i), up[i], Left(up, n, i))) % 256
  }

  /** The first k bytes of a filtered line. */
  function FilterTo(filter: nat, n: nat, cur: seq<Byte>, up: seq<Byte>, k: nat): (r: seq<Byte>)
    requires n >= 1 && |up| == |cur| && k <= |cur|
    ensures |r| == k
  {
    if k == 0 then [] else FilterTo(filter, n, cur, up, k - 1) + [FilterAt(filter, n, cur, up, k - 1)]
  }

  /** A whole filtered line. */
  function Filter(filter: nat, n: nat, cur: seq<Byte>, up: seq<Byte>): (r: seq<Byte>)
    requires n >= 1 && |up| == |cur|
    ensures |r| == |cur|
  {
    FilterTo(filter, n, cur, up, |cur|)
  }

  lemma {:induction false} FilterElement(filter: nat, n: nat, cur: seq<Byte>, up: seq<Byte>, k: nat, i: nat)
    requires n >= 1 && |up| == |cur| && i < k <= |cur|
    ensures FilterTo(filter, n, cur, up, k)[i] == FilterAt(filter, n, cur, up, i)
  {
    if i < k - 1 {
      FilterElement(filter, n, cur, up, k - 1, i);
    }
  }

  /** v is the neighbour nearest to a + b - c; of equally near ones a goes before b, and b before c. */
  predicate Nearest(a: int, b: int, c: int, v: int) {
    && (v == a || v == b || v == c)
    && Abs(a + b - c - v) <= Abs(a + b - c - a) && Abs(a + b - c - v) <= Abs(a + b - c - b) && Abs(a + b - c - v) <= Abs(a + b - c - c)
    && (v != a ==> Abs(a + b - c - v) < Abs(a + b - c - a))
    && (v != a && v != b ==> Abs(a + b - c - v) < Abs(a + b - c - b))
  }

  /** The predictor is that neighbour, and there is only one. */
  lemma PaethIsNearest(a: Byte, b: Byte, c: Byte, v: int)
    ensures v == PaethPredictor(a, b, c) <==> Nearest(a, b, c, v)
  {
  }

  /** What section 6 says the prediction v is: nothing, left, up, the mean rounded down, the nearest of three. */
  predicate Predicts(filter: nat, left: int, up: int, corner: int, v: int) {
    match filter
    case 0 => v == 0
    case 1 => v == left
    case 2 => v == up
    case 3 => 2 * v <= left + up < 2 * v + 2
    case _ => Nearest(left, up, corner, v)
  }

  /**
   The bytes of a filtered line: each is the byte of the row less the prediction from the bytes
   one pixel to the left, above, and above to the left, which are zero outside the row.
   */
  lemma FilteredByte(filter: nat, n: nat, cur: seq<Byte>, up: seq<Byte>, i: nat, v: int)
    requires n >= 1 && |up| == |cur| && i < |cur| && filter <= 4
    requires Predicts(filter, if i < n then 0 else cur[i - n], up[i], if i < n then 0 else up[i - n], v)
    ensures 0 <= v < 256 && Filter(filter, n, cur, up)[i] == (cur[i] - v) % 256
  {
    FilterElement(filter, n, cur, up, |cur|, i);
    PaethIsNearest(Left(cur, n, i), up[i], Left(up, n, i), v);
  }

  /** Undo a filter, left to right, for the first k bytes. */
  function Recon(filter: nat, n: nat, up: seq<Byte>, line: seq<Byte>, k: nat): (r: seq<Byte>)
    requires n >= 1 && |up| == |line| && k <= |line|
    ensures |r| == k
  {
    if k == 0 then [] else
      var r := Recon(filter, n, up, line, k - 1);
      r + [(line[k - 1] + Predict(filter, Left(r, n, k - 1), up[k - 1], Left(up, n, k - 1))) % 256]
  }

  function Zeros(len: nat): (r: seq<Byte>)
    ensures |r| == len && forall i :: 0 <= i < len ==> r[i] == 0
  {
    seq(len, _ => 0)
  }

  /** Decode a stream of filter bytes and lines; stops at an unknown filter or a short line. */
  function Decode(s: seq<Byte>, len: nat, n: nat, up: seq<Byte>): (rows: seq<seq<Byte>>)
    requires n >= 1 && |up| == len
    decreases |s|
  {
    if |s| < len + 1 || s[0] > 4 then [] else
      var row := Recon(s[0], n, up, s[1..len + 1], len);
      [row] + Decode(s[len + 1..], len, n, row)
  }

  lemma {:induction false} ReconUndoesFilter(filter: nat, n: nat, cur: seq<Byte>, up: seq<Byte>, k: nat)
    requires n >= 1 && |up| == |cur| && k <= |cur|
    ensures Recon(filter, n, up, Filter(filter, n, cur, up), k) == cur[..k]
  {
    if k > 0 {
      ReconUndoesFilter(filter, n, cur, up, k - 1);
      FilterElement(filter, n, cur, up, |cur|, k - 1);
      assert Left(cur[..k - 1], n, k - 1) == Left(cur, n, k - 1);
      Wraps(cur[k - 1], Predict(filter, Left(cur, n, k - 1), up[k - 1], Left(up, n, k - 1)));
    }
  }

  lemma Wraps(x: Byte, p: Byte)
    ensures ((x - p) % 256 + p) % 256 == x
  {
  }

  // ---------------------------------------------------------------- the image

  /** Rows of `len` bytes each. */
  predicate Rect(rows: seq<seq<Byte>>, len: nat) { forall y :: 0 <= y < |rows| ==> |rows[y]| == len }

  /** The row before, or zeros. */
  function Prior(rows: seq<seq<Byte>>, len: nat, y: nat): (r: seq<Byte>)
    requires Rect(rows, len) && y <= |rows|
    ensures |r| == len
  {
    if y == 0 then Zeros(len) else rows[y - 1]
  }

  /** Row y as a filter leaves it. */
  function FilterRow(rows: seq<seq<Byte>>, len: nat, n: nat, y: nat, filter: nat): (r: seq<Byte>)
    requires Rect(rows, len) && n >= 1 && y < |rows|
    ensures |r| == len
  {
    Filter(filter, n, rows[y], Prior(rows, len, y))
  }

  /** The bytes from z on are the row. */
  predicate Shown(px: seq<Byte>, z: int, row: seq<Byte>) {
    0 <= z && z + |row| <= |px| && forall i :: 0 <= i < |row| ==> px[z + i] == row[i]
  }

  /** Pixel bytes, row stride, height, bytes per pixel, the flip setting, and bytes per line. */
  datatype Image = Image(px: seq<Byte>, stride: nat, h: nat, n: nat, flip: bool, len: nat) {
    /** Where the line that is written as number y starts. */
    function Start(y: nat): int { stride * (if flip then h - 1 - y else y) }

    /** The writer's rows, in the order in which they are written. */
    ghost predicate Shows(rows: seq<seq<Byte>>) {
      && 1 <= n <= len && |rows| == h && Rect(rows, len)
      && forall y {:trigger RowShown(rows, y)} :: 0 <= y < h ==> RowShown(rows, y)
    }

    predicate RowShown(rows: seq<seq<Byte>>, y: nat)
      requires y < |rows|
    {
      Shown(px, Start(y), rows[y])
    }

    function SignedStride(): int { if flip then 0 - stride else stride }
  }

  /** One signed stride back is the line written before. */
  lemma StepBack(img: Image, y: nat)
    requires 0 < y < img.h
    ensures img.Start(y) - img.SignedStride() == img.Start(y - 1)
  {
    if img.flip {
      assert img.stride * (img.h - 1 - (y - 1)) == img.stride * (img.h - 1 - y) + img.stride;
    } else {
      assert img.stride * y == img.stride * (y - 1) + img.stride;
    }
  }

  /** Line 0 is the first of the pixels, or with flip the last; each next line is one stride on, or back. */
  lemma LinesInOrder(img: Image, rows: seq<seq<Byte>>, y: nat, i: nat)
    requires img.Shows(rows) && y < img.h && i < img.len
    ensures var line := if img.flip then img.h - 1 - y else y;
            0 <= line * img.stride + i < |img.px| && rows[y][i] == img.px[line * img.stride + i]
  {
    assert img.RowShown(rows, y);
    assert img.Start(y) == (if img.flip then img.h - 1 - y else y) * img.stride;
  }

  // ---------------------------------------------------------------- stbiw__encode_png_line

  /** mapping and firstmap: on the first line, filters that look up get variants of their own. */
  function LineType(y: nat, filter: nat): nat
    requires filter < 5
  {
    if y != 0 then filter else [0, 1, 0, 5, 6][filter]
  }

  /** Does the line type read the line above? */
  predicate LooksUp(t: nat) { 2 <= t <= 4 }

  function Sub(a: Byte, b: Byte): Byte { (a - b) % 256 }

  /** The first switch: the leftmost pixel. */
  function FirstPixel(px: seq<Byte>, t: nat, z: nat, up: int): Byte
    requires t <= 6 && z < |px| && (LooksUp(t) ==> 0 <= up < |px|)
  {
    match t
    case 2 => Sub(px[z], px[up])
    case 3 => Sub(px[z], px[up] / 2)
    case 4 => Sub(px[z], PaethPredictor(0, px[up], 0))
    case _ => px[z]
  }

  /** The second switch: all other pixels. */
  function LaterPixel(px: seq<Byte>, t: nat, z: nat, up: int, n: nat): Byte
    requires t <= 6 && n <= z < |px| && (LooksUp(t) ==> n <= up < |px|)
  {
    match t
    case 0 => px[z]
    case 1 => Sub(px[z], px[z - n])
    case 2 => Sub(px[z], px[up])
    case 3 => Sub(px[z], Average(px[z - n], px[up]))
    case 4 => Sub(px[z], PaethPredictor(px[z - n], px[up], px[up - n]))
    case 5 => Sub(px[z], px[z - n] / 2)
    case _ => Sub(px[z], PaethPredictor(px[z - n], 0, 0))
  }

  lemma FirstAgrees(px: seq<Byte>, y: nat, filter: nat, z: nat, up: int, b: Byte)
    requires filter < 5 && z < |px| && (y == 0 ==> b == 0) && (y > 0 ==> 0 <= up < |px| && b == px[up])
    ensures Sub(px[z], Predict(filter, 0, b, 0)) == FirstPixel(px, LineType(y, filter), z, up)
  {
  }

  lemma LaterAgrees(px: seq<Byte>, y: nat, filter: nat, z: nat, up: int, n: nat, b: Byte, c: Byte)
    requires filter < 5 && n <= z < |px| && (y == 0 ==> b == c == 0) && (y > 0 ==> n <= up < |px| && b == px[up] && c == px[up - n])
    ensures Sub(px[z], Predict(filter, px[z - n], b, c)) == LaterPixel(px, LineType(y, filter), z, up, n)
  {
  }

  /** The rows that the switches read: `cur` at z and, below the first line, `up` one stride before. */
  ghost predicate Reads(px: seq<Byte>, y: nat, n: nat, z: int, above: int, cur: seq<Byte>, up: seq<Byte>) {
    && 1 <= n <= |cur| == |up| && Shown(px, z, cur)
    && (if y == 0 then up == Zeros(|cur|) else Shown(px, above, up))
  }

  /** Both switches compute the filter of RFC 2083. */
  lemma PixelIsFilter(px: seq<Byte>, y: nat, n: nat, z: int, above: int, cur: seq<Byte>, up: seq<Byte>, filter: nat, i: nat)
    requires Reads(px, y, n, z, above, cur, up) && filter < 5 && i < |cur|
    ensures var t := LineType(y, filter);
            && i <= z + i < |px|
            && (LooksUp(t) ==> i <= above + i < |px|)
            && FilterAt(filter, n, cur, up, i)
               == (if i < n then FirstPixel(px, t, z + i, above + i) else LaterPixel(px, t, z + i, above + i, n))
  {
    assert y > 0 ==> up[i] == px[above + i];
    assert cur[i] == px[z + i];
    if i < n {
      FirstAgrees(px, y, filter, z + i, above + i, up[i]);
    } else {
      assert cur[i - n] == px[z + (i - n)];
      assert y > 0 ==> up[i - n] == px[above + (i - n)];
      LaterAgrees(px, y, filter, z + i, above + i, n, up[i], up[i - n]);
    }
  }

  /** The first i bytes of the line are filtered. */
  ghost predicate FilteredTo(line: seq<Byte>, filter: nat, n: nat, cur: seq<Byte>, up: seq<Byte>, i: nat) {
    n >= 1 && |up| == |cur| == |line| && i <= |cur| && line[..i] == FilterTo(filter, n, cur, up, i)
  }

  lemma FilteredMore(line: seq<Byte>, filter: nat, n: nat, cur: seq<Byte>, up: seq<Byte>, i: nat, b: Byte)
    requires FilteredTo(line, filter, n, cur, up, i) && i < |cur| && b == FilterAt(filter, n, cur, up, i)
    ensures FilteredTo(line[i := b], filter, n, cur, up, i + 1)
  {
    assert line[i := b][..i + 1] == line[..i] + [b];
  }

  /** The first loop of stbiw__encode_png_line. */
  method EncodeFirst(px: seq<Byte>, y: nat, n: nat, z: int, signedStride: int, filter: nat, line: array<Byte>, ghost cur: seq<Byte>, ghost up: seq<Byte>)
    requires Reads(px, y, n, z, z - signedStride, cur, up) && filter < 5 && line.Length == |cur|
    modifies line
    ensures FilteredTo(line[..], filter, n, cur, up, n)
  {
    var t := LineType(y, filter);
    for i := 0 to n
      invariant FilteredTo(line[..], filter, n, cur, up, i)
    {
      PixelIsFilter(px, y, n, z, z - signedStride, cur, up, filter, i);
      var b := FirstPixel(px, t, z + i, z - signedStride + i);
      FilteredMore(line[..], filter, n, cur, up, i, b);
      line[i] := b;
    }
  }

  /** The second loop. */
  method EncodeLater(px: seq<Byte>, y: nat, n: nat, z: int, signedStride: int, filter: nat, line: array<Byte>, ghost cur: seq<Byte>, ghost up: seq<Byte>)
    requires Reads(px, y, n, z, z - signedStride, cur, up) && filter < 5 && line.Length == |cur|
    requires FilteredTo(line[..], filter, n, cur, up, n)
    modifies line
    ensures FilteredTo(line[..], filter, n, cur, up, |cur|)
  {
    var t := LineType(y, filter);
    for i := n to line.Length
      invariant FilteredTo(line[..], filter, n, cur, up, i)
    {
      PixelIsFilter(px, y, n, z, z - signedStride, cur, up, filter, i);
      var b := LaterPixel(px, t, z + i, z - signedStride + i, n);
      FilteredMore(line[..], filter, n, cur, up, i, b);
      line[i] := b;
    }
  }

  /** Line y of the image is `cur`, and the line written before it is `up`. */
  ghost predicate LineOk(img: Image, y: nat, cur: seq<Byte>, up: seq<Byte>) {
    img.len == |cur| && Reads(img.px, y, img.n, img.Start(y), img.Start(y) - img.SignedStride(), cur, up)
  }

  lemma ImageReads(img: Image, rows: seq<seq<Byte>>, y: nat)
    requires img.Shows(rows) && y < img.h
    ensures LineOk(img, y, rows[y], Prior(rows, img.len, y))
  {
    assert img.RowShown(rows, y);
    if y > 0 {
      StepBack(img, y);
      assert img.RowShown(rows, y - 1);
    }
  }

  /** stbiw__encode_png_line. */
  method EncodeLine(img: Image, y: nat, filter: nat, line: array<Byte>, ghost cur: seq<Byte>, ghost up: seq<Byte>)
    requires LineOk(img, y, cur, up) && filter < 5 && line.Length == img.len
    modifies line
    ensures line[..] == Filter(filter, img.n, cur, up)
  {
    var z, signedStride := img.Start(y), img.SignedStride();
    EncodeFirst(img.px, y, img.n, z, signedStride, filter, line, cur, up);
    EncodeLater(img.px, y, img.n, z, signedStride, filter, line, cur, up);
    assert line[..] == line[..][..|cur|];
  }

  // ---------------------------------------------------------------- choosing a filter

  /** A byte read as a signed char. */
  function Signed(b: Byte): int { if b < 128 then b else b - 256 }

  /** The signed value between -128 and 127 that has these eight bits. */
  lemma SignedIsResidue(b: Byte, v: int)
    ensures v == Signed(b) <==> -128 <= v < 128 && v % 256 == b
  {
  }

  /** The sum of absolute residuals of the first k bytes. */
  function Estimate(s: seq<Byte>, k: nat): (r: nat)
    requires k <= |s|
    ensures r <= 128 * k
  {
    if k == 0 then 0 else Estimate(s, k - 1) + Abs(Signed(s[k - 1]))
  }

  method EstimateLine(line: array<Byte>) returns (est: nat)
    ensures est == Estimate(line[..], line.Length)
  {
    est := 0;
    for i := 0 to line.Length
      invariant est == Estimate(line[..], i)
    {
      est := est + Abs(Signed(line[i]));
    }
  }

  /** What a filter would cost on a row. */
  function Cost(n: nat, cur: seq<Byte>, up: seq<Byte>, filter: nat): nat
    requires n >= 1 && |up| == |cur|
  {
    Estimate(Filter(filter, n, cur, up), |cur|)
  }

  /** The cheapest of the five filters, the first one on ties. */
  predicate Cheapest(n: nat, cur: seq<Byte>, up: seq<Byte>, filter: nat)
    requires n >= 1 && |up| == |cur|
  {
    && filter < 5
    && (forall f :: 0 <= f < 5 ==> Cost(n, cur, up, filter) <= Cost(n, cur, up, f))
    && (forall f :: 0 <= f < filter ==> Cost(n, cur, up, filter) < Cost(n, cur, up, f))
  }

  /** The filter a row gets: the forced one if it is 0 to 4, otherwise the cheapest. */
  predicate Chosen(n: nat, cur: seq<Byte>, up: seq<Byte>, force: int, filter: nat)
    requires n >= 1 && |up| == |cur|
  {
    if 0 <= force < 5 then filter == force else Cheapest(n, cur, up, filter)
  }

  /** The search so far: filters below `tried`, of which `best` costs `bestVal`. */
  ghost predicate Searching(cost: nat -> nat, tried: nat, best: nat, bestVal: nat) {
    && best <= tried <= 5 && best < 5
    && (forall f :: 0 <= f < tried ==> bestVal <= cost(f))
    && (forall f :: 0 <= f < best ==> bestVal < cost(f))
    && (bestVal == cost(best) || (best == 0 && bestVal == 0x7fff_ffff))
  }

  function CostOf(n: nat, cur: seq<Byte>, up: seq<Byte>): nat -> nat
    requires n >= 1 && |up| == |cur|
  {
    (f: nat) => Cost(n, cur, up, f)
  }

  lemma SearchEnds(n: nat, cur: seq<Byte>, up: seq<Byte>, best: nat, bestVal: nat)
    requires n >= 1 && |up| == |cur| && 128 * |cur| <= 0x7fff_ffff
    requires Searching(CostOf(n, cur, up), 5, best, bestVal)
    ensures Cheapest(n, cur, up, best)
  {
    var cost := CostOf(n, cur, up);
    assert cost(best) == Cost(n, cur, up, best) <= 0x7fff_ffff;
    forall f | 0 <= f < 5
      ensures Cost(n, cur, up, best) <= Cost(n, cur, up, f)
    {
      assert bestVal <= cost(f);
    }
    forall f | 0 <= f < best
      ensures Cost(n, cur, up, best) < Cost(n, cur, up, f)
    {
      assert bestVal < cost(f);
    }
  }

  method TryFilter(img: Image, y: nat, filter: nat, line: array<Byte>, ghost cur: seq<Byte>, ghost up: seq<Byte>) returns (est: nat)
    requires LineOk(img, y, cur, up) && filter < 5 && line.Length == img.len
    modifies line
    ensures est == CostOf(img.n, cur, up)(filter)
  {
    EncodeLine(img, y, filter, line, cur, up);
    est := EstimateLine(line);
  }

  /** Try all filters; `line` then holds the residuals of the chosen one. */
  method ChooseFilter(img: Image, y: nat, line: array<Byte>, ghost cur: seq<Byte>, ghost up: seq<Byte>) returns (filter: nat)
    requires LineOk(img, y, cur, up) && line.Length == img.len && 128 * img.len <= 0x7fff_ffff
    modifies line
    ensures Cheapest(img.n, cur, up, filter)
    ensures line[..] == Filter(filter, img.n, cur, up)
  {
    var best: nat, bestVal: nat := 0, 0x7fff_ffff;
    ghost var cost := CostOf(img.n, cur, up);
    filter := 0;
    while filter < 5
      invariant Searching(cost, filter, best, bestVal)
    {
      var est := TryFilter(img, y, filter, line, cur, up);
      if est < bestVal {
        bestVal, best := est, filter;
      }
      filter := filter + 1;
    }
    SearchEnds(img.n, cur, up, best, bestVal);
    if filter != best {
      EncodeLine(img, y, best, line, cur, up);
      filter := best;
    }
  }

  // ---------------------------------------------------------------- the filtered stream

  function EmitRow(rows: seq<seq<Byte>>, len: nat, n: nat, y: nat, f: Byte): (r: seq<Byte>)
    requires Rect(rows, len) && n >= 1 && y < |rows|
    ensures |r| == len + 1
  {
    [f] + FilterRow(rows, len, n, y, f)
  }

  function Emitter(rows: seq<seq<Byte>>, len: nat, n: nat): (nat, Byte) -> seq<Byte>
    requires Rect(rows, len) && n >= 1
  {
    (y: nat, f: Byte) => if y < |rows| then EmitRow(rows, len, n, y, f) else []
  }

  /** The stream of rows y up to y + |fs|: for each, the filter byte and the residuals. */
  function Emit(emit: (nat, Byte) -> seq<Byte>, y: nat, fs: seq<Byte>): seq<Byte>
    decreases |fs|
  {
    if fs == [] then [] else emit(y, fs[0]) + Emit(emit, y + 1, fs[1..])
  }

  lemma {:induction false} EmitAppend(emit: (nat, Byte) -> seq<Byte>, y: nat, fs: seq<Byte>, f: Byte)
    ensures Emit(emit, y, fs + [f]) == Emit(emit, y, fs) + emit(y + |fs|, f)
    decreases |fs|
  {
    if fs == [] {
      assert fs + [f] == [f];
      assert [f][1..] == [];
    } else {
      EmitAppend(emit, y + 1, fs[1..], f);
      assert (fs + [f])[1..] == fs[1..] + [f];
    }
  }

  lemma DecodeStep(f: Byte, n: nat, cur: seq<Byte>, up: seq<Byte>, rest: seq<Byte>)
    requires f < 5 && n >= 1 && |up| == |cur|
    ensures Decode([f] + Filter(f, n, cur, up) + rest, |cur|, n, up) == [cur] + Decode(rest, |cur|, n, cur)
  {
    var s := [f] + Filter(f, n, cur, up) + rest;
    assert s[1..|cur| + 1] == Filter(f, n, cur, up) && s[|cur| + 1..] == rest;
    ReconUndoesFilter(f, n, cur, up, |cur|);
    assert cur[..|cur|] == cur;
  }

  lemma EmitUnfold(rows: seq<seq<Byte>>, len: nat, n: nat, y: nat, fs: seq<Byte>)
    requires Rect(rows, len) && n >= 1 && y < |rows| && fs != []
    ensures Emit(Emitter(rows, len, n), y, fs)
            == [fs[0]] + Filter(fs[0], n, rows[y], Prior(rows, len, y)) + Emit(Emitter(rows, len, n), y + 1, fs[1..])
  {
  }

  lemma DecodeJoins(rows: seq<seq<Byte>>, len: nat, n: nat, y: nat, f: Byte, rest: seq<Byte>)
    requires Rect(rows, len) && n >= 1 && y < |rows| && f < 5
    requires Decode(rest, len, n, rows[y]) == rows[y + 1..]
    ensures Decode([f] + Filter(f, n, rows[y], Prior(rows, len, y)) + rest, len, n, Prior(rows, len, y)) == rows[y..]
  {
    DecodeStep(f, n, rows[y], Prior(rows, len, y), rest);
    assert rows[y..] == [rows[y]] + rows[y + 1..];
  }

  /** Decoding from row y on, with the row before as context, returns the rows. */
  lemma {:induction false} DecodesFrom(rows: seq<seq<Byte>>, len: nat, n: nat, y: nat, fs: seq<Byte>)
    requires Rect(rows, len) && n >= 1 && y + |fs| == |rows| && forall j :: 0 <= j < |fs| ==> fs[j] < 5
    ensures Decode(Emit(Emitter(rows, len, n), y, fs), len, n, Prior(rows, len, y)) == rows[y..]
    decreases |fs|
  {
    if fs != [] {
      var rest := Emit(Emitter(rows, len, n), y + 1, fs[1..]);
      DecodesFrom(rows, len, n, y + 1, fs[1..]);
      EmitUnfold(rows, len, n, y, fs);
      DecodeJoins(rows, len, n, y, fs[0], rest);
    }
  }

  /** For all rows and every choice of filters, decoding the stream gives the rows back. */
  lemma RoundTrip(rows: seq<seq<Byte>>, len: nat, n: nat, fs: seq<Byte>)
    requires Rect(rows, len) && n >= 1 && |fs| == |rows| && forall j :: 0 <= j < |fs| ==> fs[j] < 5
    ensures Decode(Emit(Emitter(rows, len, n), 0, fs), len, n, Zeros(len)) == rows
  {
    DecodesFrom(rows, len, n, 0, fs);
    assert rows[0..] == rows;
  }

  /** Place one line: filter byte and residuals, at `pos`. */
  method PutLine(filt: array<Byte>, pos: nat, filter: Byte, line: array<Byte>)
    requires pos + 1 + line.Length <= filt.Length && line != filt
    modifies filt
    ensures filt[..pos + 1 + line.Length] == old(filt[..pos]) + ([filter] + line[..])
  {
    filt[pos] := filter;
    for i := 0 to line.Length
      invariant filt[..pos + 1] == old(filt[..pos]) + [filter]
      invariant filt[pos + 1..pos + 1 + i] == line[..i]
    {
      filt[pos + 1 + i] := line[i];
    }
    assert filt[..pos + 1 + line.Length] == filt[..pos + 1] + filt[pos + 1..pos + 1 + line.Length];
  }

  /** Row y of the row loop: pick the filter and leave its residuals in `line`. */
  method OneLine(img: Image, y: nat, force: int, line: array<Byte>, ghost cur: seq<Byte>, ghost up: seq<Byte>) returns (filter: nat)
    requires LineOk(img, y, cur, up) && line.Length == img.len && 128 * img.len <= 0x7fff_ffff && force < 5
    modifies line
    ensures filter < 5 && Chosen(img.n, cur, up, force, filter)
    ensures line[..] == Filter(filter, img.n, cur, up)
  {
    if force > -1 {
      filter := force;
      EncodeLine(img, y, force, line, cur, up);
    } else {
      filter := ChooseFilter(img, y, line, cur, up);
    }
  }

  predicate ChosenAt(rows: seq<seq<Byte>>, len: nat, n: nat, force: int, fs: seq<Byte>, j: nat)
    requires Rect(rows, len) && n >= 1 && j < |rows| && j < |fs|
  {
    fs[j] < 5 && Chosen(n, rows[j], Prior(rows, len, j), force, fs[j])
  }

  /** The stream written for the first rows, with the filters fs. */
  ghost predicate Written(rows: seq<seq<Byte>>, len: nat, n: nat, force: int, s: seq<Byte>, fs: seq<Byte>) {
    && Rect(rows, len) && n >= 1 && |fs| <= |rows|
    && (forall j {:trigger ChosenAt(rows, len, n, force, fs, j)} :: 0 <= j < |fs| ==> ChosenAt(rows, len, n, force, fs, j))
    && s == Emit(Emitter(rows, len, n), 0, fs)
  }

  lemma WrittenStep(rows: seq<seq<Byte>>, len: nat, n: nat, force: int, s: seq<Byte>, fs: seq<Byte>, f: Byte)
    requires Written(rows, len, n, force, s, fs) && |fs| < |rows| && f < 5 && Chosen(n, rows[|fs|], Prior(rows, len, |fs|), force, f)
    ensures Written(rows, len, n, force, s + ([f] + FilterRow(rows, len, n, |fs|, f)), fs + [f])
  {
    EmitAppend(Emitter(rows, len, n), 0, fs, f);
    forall j | 0 <= j < |fs| + 1
      ensures ChosenAt(rows, len, n, force, fs + [f], j)
    {
      assert j < |fs| ==> ChosenAt(rows, len, n, force, fs, j);
    }
  }

  /** The size of j lines. */
  function Size(one: nat, j: nat): nat { if j == 0 then 0 else Size(one, j - 1) + one }

  lemma {:induction false} SizeIsProduct(one: nat, j: nat)
    ensures Size(one, j) == one * j
  {
    if j > 0 {
      SizeIsProduct(one, j - 1);
      assert one * j == one * (j - 1) + one;
    }
  }

  lemma {:induction false} SizeGrows(one: nat, j: nat, h: nat)
    requires j <= h
    ensures Size(one, j) <= Size(one, h)
  {
    if j < h {
      SizeGrows(one, j, h - 1);
    }
  }

  /** One turn of the row loop, with the stream written up to `pos`. */
  method WriteRow(img: Image, y: nat, force: int, filt: array<Byte>, pos: nat, line: array<Byte>, ghost rows: seq<seq<Byte>>, ghost fs: seq<Byte>)
    returns (filter: Byte)
    requires img.Shows(rows) && y == |fs| < img.h && line.Length == img.len && 128 * img.len <= 0x7fff_ffff && force < 5
    requires pos + img.len + 1 <= filt.Length && line != filt && Written(rows, img.len, img.n, force, filt[..pos], fs)
    modifies filt, line
    ensures Written(rows, img.len, img.n, force, filt[..pos + img.len + 1], fs + [filter])
  {
    ImageReads(img, rows, y);
    filter := OneLine(img, y, force, line, rows[y], Prior(rows, img.len, y));
    WrittenStep(rows, img.len, img.n, force, filt[..pos], fs, filter);
    PutLine(filt, pos, filter, line);
  }

  /** The row loop; `pos` is the offset of row j. */
  method WriteRows(img: Image, force: int, filt: array<Byte>, ghost rows: seq<seq<Byte>>) returns (ghost fs: seq<Byte>)
    requires img.Shows(rows) && 128 * img.len <= 0x7fff_ffff && filt.Length == Size(img.len + 1, img.h) && force < 5
    modifies filt
    ensures |fs| == img.h && Written(rows, img.len, img.n, force, filt[..], fs)
  {
    var line := new Byte[img.len];
    var pos := 0;
    fs := [];
    for j := 0 to img.h
      invariant pos == Size(img.len + 1, j) <= filt.Length && |fs| == j
      invariant Written(rows, img.len, img.n, force, filt[..pos], fs)
    {
      SizeGrows(img.len + 1, j + 1, img.h);
      var filter := WriteRow(img, j, force, filt, pos, line, rows, fs);
      fs := fs + [filter];
      pos := pos + img.len + 1;
    }
    assert filt[..pos] == filt[..];
  }

  /** The filtering half of stbi_write_png_to_mem. */
  method WriteFiltered(px: seq<Byte>, strideBytes: nat, x: nat, y: nat, n: nat, forceFilter: int, flip: bool, ghost rows: seq<seq<Byte>>)
    returns (filt: array<Byte>, ghost fs: seq<Byte>)
    requires Image(px, if strideBytes == 0 then x * n else strideBytes, y, n, flip, x * n).Shows(rows)
    requires 128 * (x * n) <= 0x7fff_ffff
    ensures |fs| == y && Written(rows, x * n, n, forceFilter, filt[..], fs)
    ensures Decode(filt[..], x * n, n, Zeros(x * n)) == rows
  {
    var len := x * n;
    var img := Image(px, if strideBytes == 0 then len else strideBytes, y, n, flip, len);
    var force := if forceFilter >= 5 then -1 else forceFilter;
    filt := new Byte[(len + 1) * y];
    SizeIsProduct(len + 1, y);
    fs := WriteRows(img, force, filt, rows);
    forall j | 0 <= j < |fs|
      ensures fs[j] < 5 && ChosenAt(rows, len, n, forceFilter, fs, j)
    {
      assert ChosenAt(rows, len, n, force, fs, j);
    }
    RoundTrip(rows, len, n, fs);
  }
}
