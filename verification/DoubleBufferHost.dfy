/** The host side of mm-large: the reference loop and the choice of the stripe height. */
module DoubleBufferHost {
  import opened Arith
  import opened DoubleBuffer
  import opened DoubleBufferProof

  /** Entries up to (row, col), in row order, hold the product. */
  ghost predicate Filled(p: Problem, d: seq<Word>, row: nat, col: nat) {
    forall i: nat, j: nat :: i < p.w && j < p.w && (i < row || (i == row && j < col)) ==>
      At(d, p.w, i, j) == Dot(p, i, j, p.w)
  }

  lemma FillNext(p: Problem, d: seq<Word>, i: nat, j: nat)
    requires |d| == p.w * p.w && i < p.w && j < p.w && Filled(p, d, i, j)
    ensures i * p.w + j < |d| && Filled(p, d[i * p.w + j := Dot(p, i, j, p.w)], i, j + 1)
  {
    DigitBound(i, p.w, j, p.w);
    var v := Dot(p, i, j, p.w);
    forall i': nat, j': nat | i' < p.w && j' < p.w
      ensures At(Set(d, i * p.w + j, v), p.w, i', j') == if i == i' && j == j' then v else At(d, p.w, i', j')
    {
      SetAt(p.w, p.w, d, i, j, v, i', j');
    }
  }

  /** The innermost loop. */
  method HostSum(p: Problem, i: nat, j: nat) returns (sum: Word)
    requires p.Valid() && i < p.w && j < p.w
    ensures sum == Dot(p, i, j, p.w)
  {
    sum := 0;
    for k := 0 to p.w
      invariant sum == Dot(p, i, j, k)
    {
      DigitBound(i, p.w, k, p.w);
      DigitBound(j, p.w, k, p.w);
      var (x: int, y: int) := (p.a[i * p.w + k], p.b[j * p.w + k]);
      assert x == At(p.a, p.w, i, k) && y == At(p.b, p.w, j, k);
      sum := (sum + x * y) % 0x1_0000_0000;
    }
  }

  /** The loop nest that main runs on the host. */
  method HostProduct(p: Problem) returns (d: array<Word>)
    requires p.Valid()
    ensures d.Length == p.w * p.w
    ensures forall i: nat, j: nat :: i < p.w && j < p.w ==> At(d[..], p.w, i, j) == Dot(p, i, j, p.w)
  {
    d := new Word[p.w * p.w];
    for i := 0 to p.w
      invariant var filled := Filled(p, d[..], i, 0); filled
    {
      for j := 0 to p.w
        invariant var filled := Filled(p, d[..], i, j); filled
      {
        var sum := HostSum(p, i, j);
        FillNext(p, d[..], i, j);
        ghost var after := d[..][i * p.w + j := sum];
        d[i * p.w + j] := sum;
        assert d[..] == after;
      }
    }
  }

  /** Two square matrices with the same entries are the same. */
  lemma SameEntries(c: seq<Word>, d: seq<Word>, w: nat)
    requires |c| == w * w && |d| == w * w
    requires forall i: nat, j: nat :: i < w && j < w ==> At(c, w, i, j) == At(d, w, i, j)
    ensures c == d
  {
    forall x | 0 <= x < |c|
      ensures c[x] == d[x]
    {
      var (i, j) := (x / w, x % w);
      assert x == i * w + j;
      if i >= w {
        MulMonotone(w, i, w);
      }
      assert At(c, w, i, j) == At(d, w, i, j);
    }
  }

  /** What compare_matrices checks: a finished run on the device leaves the host's result. */
  lemma DeviceMatchesHost(p: Problem, events: seq<Event>, run: seq<State>, d: seq<Word>)
    requires p.Valid() && IsRun(p, events, run) && run[|events|].phase.Done?
    requires |d| == p.w * p.w
    requires forall i: nat, j: nat :: i < p.w && j < p.w ==> At(d, p.w, i, j) == Dot(p, i, j, p.w)
    ensures run[|events|].c == d
  {
    var c := run[|events|].c;
    assert |c| == p.w * p.w && HostRows(p, c, p.n) by { RunKeepsInv(p, events, run, |events|); }
    forall i: nat, j: nat | i < p.w && j < p.w
      ensures At(c, p.w, i, j) == At(d, p.w, i, j)
    {
      HostEntry(p, c, i, j);
    }
    SameEntries(c, d, p.w);
  }

  function Halved(h: nat, k: nat): nat { if k == 0 then h else Halved(h, k - 1) / 2 }

  function Clamped(requested: nat): nat { if requested > 512 then 512 else if requested < 32 then 32 else requested }

  /** The loop of main that halves the stripe height until a stripe fits. */
  method HalveUntilFits(height: nat) returns (stripeHeight: nat, ghost halvings: nat)
    requires 32 <= height <= 512
    ensures 8 <= stripeHeight <= height / 2 && stripeHeight * height * 4 < 32 * 1024
    ensures halvings >= 1 && stripeHeight == Halved(height, halvings)
    ensures halvings > 1 ==> Halved(height, halvings - 1) * height * 4 >= 32 * 1024
  {
    stripeHeight := height / 2;
    halvings := 1;
    assert Halved(height, 1) == Halved(height, 0) / 2;
    while stripeHeight * height * 4 >= 32 * 1024
      invariant 8 <= stripeHeight <= height / 2 && halvings >= 1 && stripeHeight == Halved(height, halvings)
      invariant halvings > 1 ==> Halved(height, halvings - 1) * height * 4 >= 32 * 1024
      decreases stripeHeight
    {
      StillTall(stripeHeight, height);
      stripeHeight := stripeHeight / 2;
      halvings := halvings + 1;
    }
  }

  /**
   main's sizing: clamp the height, then halve the stripe height until a stripe fits. The
   result meets the preconditions of double_buf_mm with at least two stripes, and no more
   halvings were made than needed.
   */
  method StripeSizing(requested: nat) returns (height: nat, stripeHeight: nat, nStripes: nat, ghost halvings: nat)
    ensures stripeHeight >= 1 && nStripes >= 2 && height == nStripes * stripeHeight
    ensures stripeHeight * height * 4 < 32 * 1024
    ensures height <= 512
    ensures Clamped(requested) - stripeHeight < height <= Clamped(requested)
    ensures halvings >= 1 && stripeHeight == Halved(Clamped(requested), halvings)
    ensures halvings > 1 ==> Halved(Clamped(requested), halvings - 1) * Clamped(requested) * 4 >= 32 * 1024
  {
    height := requested;
    if height > 512 {
      height := 512;
    }
    if height < 32 {
      height := 32;
    }
    stripeHeight, halvings := HalveUntilFits(height);
    nStripes := height / stripeHeight;
    WholeStripes(height, stripeHeight, nStripes);
    height := nStripes * stripeHeight;
  }

  /** Cutting a height down to whole stripes. */
  lemma WholeStripes(h: nat, d: nat, n: nat)
    requires 1 <= d && 2 * d <= h && n == h / d
    ensures n >= 2 && h - d < n * d <= h && d * (n * d) <= d * h
  {
    assert h == n * d + h % d;
    AtLeastTwo(h, d);
    MulMonotone(n * d, h, d);
  }

  lemma StillTall(d: nat, h: nat)
    requires h <= 512 && d * h * 4 >= 32 * 1024
    ensures d >= 16
  {
    MulMonotone(h, 512, d);
  }

  lemma AtLeastTwo(h: nat, d: nat)
    requires 1 <= d && 2 * d <= h
    ensures h / d >= 2
  {
    var (q, r) := (h / d, h % d);
    assert h == q * d + r;
    if q <= 1 {
      MulMonotone(q, 1, d);
    }
  }
}
