/** Weight files over an abstract stream of numbers: the per-unit savers and loaders of parser.c. */
module WeightFile {
  import opened Arith

  /** One number of the file: a header int, the size_t counter, or a float. */
  datatype Cell = Int(i: int) | Size(z: nat) | Float(x: real)

  function Floats(a: seq<real>): (r: seq<Cell>)
    ensures |r| == |a| && forall i :: 0 <= i < |a| ==> r[i] == Float(a[i])
  {
    seq(|a|, i requires 0 <= i < |a| => Float(a[i]))
  }

  /** The stream goes on with s at pos. */
  predicate At(cells: seq<Cell>, pos: nat, s: seq<Cell>) { pos + |s| <= |cells| && cells[pos..pos + |s|] == s }

  lemma AtSplit(cells: seq<Cell>, pos: nat, s: seq<Cell>, t: seq<Cell>)
    requires At(cells, pos, s + t)
    ensures At(cells, pos, s) && At(cells, pos + |s|, t)
  {
    var all := cells[pos..pos + |s + t|];
    assert all[..|s|] == s && all[|s|..] == t;
    assert cells[pos..pos + |s|] == all[..|s|];
    assert cells[pos + |s|..pos + |s| + |t|] == all[|s|..];
  }

  /** The i-th of the floats, if there is one, is at pos. */
  predicate NextFloat(cells: seq<Cell>, pos: nat, src: seq<real>, i: nat) {
    i < |src| ==> pos < |cells| && cells[pos] == Float(src[i])
  }

  lemma FloatAt(cells: seq<Cell>, pos: nat, src: seq<real>, i: nat)
    requires At(cells, pos, Floats(src)) && i <= |src|
    ensures NextFloat(cells, pos + i, src, i)
  {
    if i < |src| {
      assert cells[pos + i] == cells[pos..pos + |src|][i];
    }
  }

  class File {
    var cells: seq<Cell>
    var pos: nat

    constructor ()
      ensures cells == [] && pos == 0
    {
      cells, pos := [], 0;
    }

    /** fwrite of n floats. */
    method WriteFloats(a: seq<real>, n: nat)
      requires n <= |a|
      modifies this`cells
      ensures cells == old(cells) + Floats(a[..n])
    {
      var i := 0;
      while i < n
        invariant 0 <= i <= n && cells == old(cells) + Floats(a[..i])
      {
        assert Floats(a[..i + 1]) == Floats(a[..i]) + [Float(a[i])];
        cells := cells + [Float(a[i])];
        i := i + 1;
      }
    }

    /** fread of n floats into the buffer a; a short or foreign stream leaves the rest of it alone. */
    method ReadFloats(n: nat, a: seq<real>, ghost src: seq<real>) returns (b: seq<real>)
      requires n <= |a|
      modifies this`pos
      ensures |b| == |a|
      ensures |src| == n && At(cells, old(pos), Floats(src)) ==>
                b == src + a[n..] && (|a| == n ==> b == src) && pos == old(pos) + n
    {
      b := a;
      var i := 0;
      ghost var known := |src| == n && At(cells, pos, Floats(src));
      ghost var start := pos;
      if known {
        FloatAt(cells, start, src, 0);
      }
      while i < n && pos < |cells| && cells[pos].Float?
        invariant 0 <= i <= n && |b| == |a| && pos == start + i && b[n..] == a[n..]
        invariant known ==> b[..i] == src[..i] && NextFloat(cells, pos, src, i)
      {
        ghost var b0 := b;
        b := b[i := cells[pos].x];
        assert b[..i + 1] == b0[..i] + [cells[pos].x];
        assert b[n..] == b0[n..];
        i, pos := i + 1, pos + 1;
        if known {
          FloatAt(cells, start, src, i);
        }
      }
      assert b == b[..n] + b[n..];
    }
  }

  // ---------------------------------------------------------------- units

  /** One weight-bearing part of a layer: its sizes and flags, and its arrays. */
  datatype Unit = Unit(n: nat, c: nat, groups: nat, size: nat, nweights: nat, inputs: nat, outputs: nat, outW: nat, outH: nat,
                       batchNormalize: bool, dontloadscales: bool, flipped: bool, numload: nat,
                       biases: seq<real>, scales: seq<real>, rollingMean: seq<real>, rollingVariance: seq<real>, weights: seq<real>)

  datatype Kind = Convolutional | Connected | Batchnorm | Local

  /** The weights of a convolution with n filters. */
  function ConvWeights(c: nat, groups: nat, n: nat, size: nat): nat
    requires groups >= 1
  {
    c / groups * n * size * size
  }

  function LocalWeights(u: Unit): nat { u.size * u.size * u.c * u.n * (u.outW * u.outH) }

  function FullWeights(u: Unit): nat { u.outputs * u.inputs }

  /** The arrays are as long as the constructors make them. */
  predicate Sized(k: Kind, u: Unit) {
    match k
    case Convolutional =>
      && u.groups >= 1 && u.nweights == ConvWeights(u.c, u.groups, u.n, u.size)
      && |u.biases| == u.n && |u.weights| == u.nweights && Normal(u, u.n)
    case Connected => |u.biases| == u.outputs && |u.weights| == FullWeights(u) && Normal(u, u.outputs)
    case Batchnorm => |u.scales| == |u.rollingMean| == |u.rollingVariance| == u.c
    case Local => |u.biases| == u.outputs && |u.weights| == LocalWeights(u)
  }

  predicate Normal(u: Unit, n: nat) { u.batchNormalize ==> |u.scales| == |u.rollingMean| == |u.rollingVariance| == n }

  function Norms(u: Unit): seq<Cell> { Floats(u.scales) + (Floats(u.rollingMean) + Floats(u.rollingVariance)) }

  function MaybeNorms(u: Unit): seq<Cell> { if u.batchNormalize then Norms(u) else [] }

  /** What the file holds for a unit. */
  function Saved(k: Kind, u: Unit): seq<Cell> {
    match k
    case Convolutional => Floats(u.biases) + (MaybeNorms(u) + Floats(u.weights))
    case Connected => Floats(u.biases) + (Floats(u.weights) + MaybeNorms(u))
    case Batchnorm => Norms(u)
    case Local => Floats(u.biases) + Floats(u.weights)
  }

  function WithNorms(u: Unit, src: Unit): Unit {
    u.(scales := src.scales, rollingMean := src.rollingMean, rollingVariance := src.rollingVariance)
  }

  /** The unit with the saved arrays of another. */
  function Restored(k: Kind, u: Unit, src: Unit): Unit {
    match k
    case Convolutional | Connected =>
      var v := u.(biases := src.biases, weights := src.weights);
      if src.batchNormalize then WithNorms(v, src) else v
    case Batchnorm => WithNorms(u, src)
    case Local => u.(biases := src.biases, weights := src.weights)
  }

  /** Sizes and flags without the arrays. */
  function Shape(u: Unit): Unit { u.(biases := [], scales := [], rollingMean := [], rollingVariance := [], weights := []) }

  /** No flag changes what the loader reads. */
  predicate Plain(u: Unit) { u.numload == 0 && !u.flipped && !u.dontloadscales }

  /** The unit can take what was saved from `src`. */
  predicate Matches(k: Kind, u: Unit, src: Unit) { Shape(u) == Shape(src) && Plain(u) && Sized(k, u) && Sized(k, src) }

  /** Biases and weights are those of src, and with batch normalisation so are its three arrays. */
  predicate WeightsArrived(v: Unit, src: Unit) {
    && v.biases == src.biases && v.weights == src.weights
    && (src.batchNormalize ==> v.scales == src.scales && v.rollingMean == src.rollingMean && v.rollingVariance == src.rollingVariance)
  }

  predicate NormsArrived(v: Unit, src: Unit) {
    v.scales == src.scales && v.rollingMean == src.rollingMean && v.rollingVariance == src.rollingVariance
  }

  // ---------------------------------------------------------------- savers

  method SaveNorms(f: File, u: Unit, n: nat)
    requires |u.scales| == |u.rollingMean| == |u.rollingVariance| == n
    modifies f`cells
    ensures f.cells == old(f.cells) + Norms(u)
  {
    f.WriteFloats(u.scales, n);
    f.WriteFloats(u.rollingMean, n);
    f.WriteFloats(u.rollingVariance, n);
    assert u.scales[..n] == u.scales && u.rollingMean[..n] == u.rollingMean && u.rollingVariance[..n] == u.rollingVariance;
  }

  method SaveMaybeNorms(f: File, u: Unit, n: nat)
    requires Normal(u, n)
    modifies f`cells
    ensures f.cells == old(f.cells) + MaybeNorms(u)
  {
    if u.batchNormalize {
      SaveNorms(f, u, n);
    }
  }

  /** save_convolutional_weights. */
  method SaveConvolutional(f: File, u: Unit)
    requires Sized(Convolutional, u)
    modifies f`cells
    ensures f.cells == old(f.cells) + Saved(Convolutional, u)
  {
    f.WriteFloats(u.biases, u.n);
    SaveMaybeNorms(f, u, u.n);
    f.WriteFloats(u.weights, u.nweights);
    assert u.biases[..u.n] == u.biases && u.weights[..u.nweights] == u.weights;
  }

  /** save_connected_weights. */
  method SaveConnected(f: File, u: Unit)
    requires Sized(Connected, u)
    modifies f`cells
    ensures f.cells == old(f.cells) + Saved(Connected, u)
  {
    f.WriteFloats(u.biases, u.outputs);
    f.WriteFloats(u.weights, u.outputs * u.inputs);
    SaveMaybeNorms(f, u, u.outputs);
    assert u.biases[..u.outputs] == u.biases && u.weights[..FullWeights(u)] == u.weights;
  }

  method SaveUnit(f: File, k: Kind, u: Unit)
    requires Sized(k, u)
    modifies f`cells
    ensures f.cells == old(f.cells) + Saved(k, u)
  {
    match k
    case Convolutional => SaveConvolutional(f, u);
    case Connected => SaveConnected(f, u);
    case Batchnorm => SaveNorms(f, u, u.c);
    case Local =>
      f.WriteFloats(u.biases, u.outputs);
      f.WriteFloats(u.weights, LocalWeights(u));
      assert u.biases[..u.outputs] == u.biases && u.weights[..LocalWeights(u)] == u.weights;
  }

  // ---------------------------------------------------------------- loaders

  /** Entry (x, y) of a matrix with `cols` columns. */
  function Entry(x: nat, y: nat, cols: nat): nat { x * cols + y }

  /** All entries before (x, y), row by row, are in place. */
  ghost predicate Turned(a: seq<real>, t: seq<real>, rows: nat, cols: nat, x: nat, y: nat) {
    && |t| == |a| && rows * cols <= |a|
    && (forall i, j {:trigger Entry(j, i, rows)} :: 0 <= i < rows && 0 <= j < cols && (i < x || (i == x && j < y)) ==>
          Entry(j, i, rows) < |t| && Entry(i, j, cols) < |a| && t[Entry(j, i, rows)] == a[Entry(i, j, cols)])
    && t[rows * cols..] == a[rows * cols..]
  }

  lemma EntryBound(x: nat, y: nat, rows: nat, cols: nat)
    requires x < rows && y < cols
    ensures Entry(x, y, cols) < rows * cols && Entry(y, x, rows) < rows * cols
  {
    DigitBound(x, rows, y, cols);
    DigitBound(y, cols, x, rows);
    assert rows * cols == cols * rows;
  }

  lemma TurnStep(a: seq<real>, t: seq<real>, rows: nat, cols: nat, x: nat, y: nat, e: nat)
    requires Turned(a, t, rows, cols, x, y) && x < rows && y < cols && e == Entry(y, x, rows) < rows * cols && Entry(x, y, cols) < rows * cols
    ensures Turned(a, t[e := a[Entry(x, y, cols)]], rows, cols, x, y + 1)
  {
    var t' := t[e := a[Entry(x, y, cols)]];
    forall i, j {:trigger Entry(j, i, rows)} | 0 <= i < rows && 0 <= j < cols && (i < x || (i == x && j < y + 1))
      ensures Entry(j, i, rows) < |t'| && Entry(i, j, cols) < |a| && t'[Entry(j, i, rows)] == a[Entry(i, j, cols)]
    {
      if Entry(j, i, rows) == e {
        EqualDigits(rows, j, i, y, x);
      }
    }
    assert t'[rows * cols..] == t[rows * cols..];
  }

  /** transpose_matrix: rows and columns change places; what follows the matrix stays. */
  method TransposeMatrix(a: seq<real>, rows: nat, cols: nat) returns (t: seq<real>)
    requires rows * cols <= |a|
    ensures Turned(a, t, rows, cols, rows, 0)
  {
    t := a;
    for x := 0 to rows
      invariant Turned(a, t, rows, cols, x, 0)
    {
      for y := 0 to cols
        invariant Turned(a, t, rows, cols, x, y)
      {
        EntryBound(x, y, rows, cols);
        TurnStep(a, t, rows, cols, x, y, Entry(y, x, rows));
        t := t[Entry(y, x, rows) := a[Entry(x, y, cols)]];
      }
    }
  }

  predicate NormsFit(u: Unit, src: Unit, n: nat) {
    && |u.scales| == |u.rollingMean| == |u.rollingVariance| == n
    && |src.scales| == |src.rollingMean| == |src.rollingVariance| == n
  }

  /** Three pieces in a row: where each starts. */
  lemma ThreeParts(cells: seq<Cell>, pos: nat, s: seq<Cell>, t: seq<Cell>, u: seq<Cell>)
    requires At(cells, pos, s + (t + u))
    ensures At(cells, pos, s) && At(cells, pos + |s|, t) && At(cells, pos + |s| + |t|, u)
    ensures |s + (t + u)| == |s| + |t| + |u|
  {
    AtSplit(cells, pos, s, t + u);
    AtSplit(cells, pos + |s|, t, u);
  }

  lemma NormParts(cells: seq<Cell>, pos: nat, src: Unit, n: nat)
    requires |src.scales| == |src.rollingMean| == |src.rollingVariance| == n && At(cells, pos, Norms(src))
    ensures var scales := At(cells, pos, Floats(src.scales)); scales
    ensures var mean := At(cells, pos + n, Floats(src.rollingMean)); mean
    ensures var variance := At(cells, pos + n + n, Floats(src.rollingVariance)); variance
    ensures |Norms(src)| == n + n + n
  {
    ThreeParts(cells, pos, Floats(src.scales), Floats(src.rollingMean), Floats(src.rollingVariance));
  }

  method LoadNorms(f: File, u: Unit, n: nat, ghost src: Unit) returns (v: Unit)
    requires n <= |u.scales| && n <= |u.rollingMean| && n <= |u.rollingVariance|
    modifies f`pos
    ensures v == WithNorms(u, v)
    ensures NormsFit(u, src, n) && At(f.cells, old(f.pos), Norms(src)) ==> v == WithNorms(u, src) && NormsArrived(v, src) && f.pos == old(f.pos) + |Norms(src)|
  {
    ghost var (cells, p) := (f.cells, f.pos);
    ghost var known := NormsFit(u, src, n) && At(cells, p, Norms(src));
    if known {
      NormParts(cells, p, src, n);
    }
    var scales := f.ReadFloats(n, u.scales, src.scales);
    var mean := f.ReadFloats(n, u.rollingMean, src.rollingMean);
    var variance := f.ReadFloats(n, u.rollingVariance, src.rollingVariance);
    v := u.(scales := scales, rollingMean := mean, rollingVariance := variance);
  }

  /** The batch normalisation arrays, unless the unit has none or does not want them. */
  method LoadMaybeNorms(f: File, u: Unit, n: nat, ghost src: Unit) returns (v: Unit)
    requires u.batchNormalize && !u.dontloadscales ==> n <= |u.scales| && n <= |u.rollingMean| && n <= |u.rollingVariance|
    modifies f`pos
    ensures v == WithNorms(u, v)
    ensures u.batchNormalize == src.batchNormalize && !u.dontloadscales && (u.batchNormalize ==> NormsFit(u, src, n))
              && At(f.cells, old(f.pos), MaybeNorms(src)) ==>
              v == (if src.batchNormalize then WithNorms(u, src) else u) && f.pos == old(f.pos) + |MaybeNorms(src)|
  {
    v := u;
    if u.batchNormalize && !u.dontloadscales {
      v := LoadNorms(f, u, n, src);
    }
  }

  lemma FewerFilters(c: nat, groups: nat, m: nat, n: nat, size: nat)
    requires groups >= 1 && m <= n
    ensures ConvWeights(c, groups, m, size) <= ConvWeights(c, groups, n, size)
  {
    MulMonotone(m, n, c / groups);
    MulMonotone(c / groups * m, c / groups * n, size);
    MulMonotone(c / groups * m * size, c / groups * n * size, size);
  }

  /** What the loader needs not to run out of its arrays. */
  predicate Loadable(k: Kind, u: Unit) {
    && Sized(k, u)
    && (k.Convolutional? ==> u.numload <= u.n && (u.flipped ==> FlipSize(u) <= |u.weights|))
  }

  /** The matrix that a flipped convolution turns. */
  function FlipRows(u: Unit): nat { u.c * u.size * u.size }

  function FlipSize(u: Unit): nat { FlipRows(u) * (if u.numload != 0 then u.numload else u.n) }

  lemma ConvParts(cells: seq<Cell>, pos: nat, src: Unit)
    requires At(cells, pos, Saved(Convolutional, src))
    ensures var biases := At(cells, pos, Floats(src.biases)); biases
    ensures var norms := At(cells, pos + |src.biases|, MaybeNorms(src)); norms
    ensures var weights := At(cells, pos + |src.biases| + |MaybeNorms(src)|, Floats(src.weights)); weights
    ensures |Saved(Convolutional, src)| == |src.biases| + |MaybeNorms(src)| + |src.weights|
  {
    ThreeParts(cells, pos, Floats(src.biases), MaybeNorms(src), Floats(src.weights));
  }

  /** Read the arrays of a convolution with n filters and num weights. */
  method LoadFilters(f: File, u: Unit, n: nat, num: nat, ghost src: Unit) returns (v: Unit)
    requires n <= |u.biases| && num <= |u.weights|
    requires u.batchNormalize ==> n <= |u.scales| && n <= |u.rollingMean| && n <= |u.rollingVariance|
    modifies f`pos
    ensures |v.weights| == |u.weights|
    ensures |src.biases| == |u.biases| == n && |src.weights| == |u.weights| == num && !u.dontloadscales
              && u.batchNormalize == src.batchNormalize && (u.batchNormalize ==> NormsFit(u, src, n))
              && At(f.cells, old(f.pos), Saved(Convolutional, src)) ==>
              v == Restored(Convolutional, u, src) && f.pos == old(f.pos) + |Saved(Convolutional, src)|
  {
    if At(f.cells, f.pos, Saved(Convolutional, src)) {
      ConvParts(f.cells, f.pos, src);
    }
    var biases := f.ReadFloats(n, u.biases, src.biases);
    v := LoadMaybeNorms(f, u.(biases := biases), n, src);
    var weights := f.ReadFloats(num, u.weights, src.weights);
    v := v.(weights := weights);
  }

  /** load_convolutional_weights. */
  method LoadConvolutional(f: File, u: Unit, ghost src: Unit) returns (v: Unit)
    requires Loadable(Convolutional, u)
    modifies f`pos
    ensures Matches(Convolutional, u, src) && At(f.cells, old(f.pos), Saved(Convolutional, src)) ==>
              v == Restored(Convolutional, u, src) && WeightsArrived(v, src) && f.pos == old(f.pos) + |Saved(Convolutional, src)|
  {
    var n := if u.numload != 0 then u.numload else u.n;
    var num := ConvWeights(u.c, u.groups, n, u.size);
    FewerFilters(u.c, u.groups, n, u.n, u.size);
    v := LoadFilters(f, u, n, num, src);
    if u.flipped {
      var weights := TransposeMatrix(v.weights, FlipRows(u), n);
      v := v.(weights := weights);
    }
  }

  lemma FullParts(cells: seq<Cell>, pos: nat, src: Unit)
    requires Sized(Connected, src) && At(cells, pos, Saved(Connected, src))
    ensures var biases := At(cells, pos, Floats(src.biases)); biases
    ensures var weights := At(cells, pos + src.outputs, Floats(src.weights)); weights
    ensures var norms := At(cells, pos + src.outputs + FullWeights(src), MaybeNorms(src)); norms
    ensures |Saved(Connected, src)| == src.outputs + FullWeights(src) + |MaybeNorms(src)|
  {
    ThreeParts(cells, pos, Floats(src.biases), Floats(src.weights), MaybeNorms(src));
  }

  /** load_connected_weights. */
  method LoadConnected(f: File, u: Unit, transpose: bool, ghost src: Unit) returns (v: Unit)
    requires Loadable(Connected, u)
    modifies f`pos
    ensures !transpose && Matches(Connected, u, src) && At(f.cells, old(f.pos), Saved(Connected, src)) ==>
              v == Restored(Connected, u, src) && WeightsArrived(v, src) && f.pos == old(f.pos) + |Saved(Connected, src)|
  {
    if Matches(Connected, u, src) && At(f.cells, f.pos, Saved(Connected, src)) {
      FullParts(f.cells, f.pos, src);
    }
    var biases := f.ReadFloats(u.outputs, u.biases, src.biases);
    var weights := f.ReadFloats(FullWeights(u), u.weights, src.weights);
    if transpose {
      assert u.inputs * u.outputs == u.outputs * u.inputs;
      weights := TransposeMatrix(weights, u.inputs, u.outputs);
    }
    v := LoadMaybeNorms(f, u.(biases := biases, weights := weights), u.outputs, src);
  }

  /** The inline code for LOCAL layers. */
  method LoadLocal(f: File, u: Unit, ghost src: Unit) returns (v: Unit)
    requires Loadable(Local, u)
    modifies f`pos
    ensures Matches(Local, u, src) && At(f.cells, old(f.pos), Saved(Local, src)) ==>
              v == Restored(Local, u, src) && v.biases == src.biases && v.weights == src.weights && f.pos == old(f.pos) + |Saved(Local, src)|
  {
    if At(f.cells, f.pos, Saved(Local, src)) {
      AtSplit(f.cells, f.pos, Floats(src.biases), Floats(src.weights));
    }
    var biases := f.ReadFloats(u.outputs, u.biases, src.biases);
    var weights := f.ReadFloats(LocalWeights(u), u.weights, src.weights);
    v := u.(biases := biases, weights := weights);
  }

  method LoadUnit(f: File, k: Kind, u: Unit, transpose: bool, ghost src: Unit) returns (v: Unit)
    requires Loadable(k, u)
    modifies f`pos
    ensures !transpose && Matches(k, u, src) && At(f.cells, old(f.pos), Saved(k, src)) ==>
              v == Restored(k, u, src) && f.pos == old(f.pos) + |Saved(k, src)|
  {
    match k
    case Convolutional => v := LoadConvolutional(f, u, src);
    case Connected => v := LoadConnected(f, u, transpose, src);
    case Batchnorm => v := LoadNorms(f, u, u.c, src);
    case Local => v := LoadLocal(f, u, src);
  }
}
