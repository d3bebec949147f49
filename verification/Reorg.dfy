/**
 reorg_cpu, flatten and the reorg layer: both kernels permute an array, and the backward pass
 of the layer undoes its forward pass in all four modes.
 */
module Reorg {
  import opened Arith

  // ---------------------------------------------------------------- mixed-radix indices

  /** a + A * (b + B * c): two bounded digits and a leading one. */
  function Enc3(A: nat, B: nat, a: int, b: int, c: int): int { a + A * (b + B * c) }

  lemma Digits3(A: nat, B: nat, a: int, b: int, c: int)
    requires 0 <= a < A && 0 <= b < B && 0 <= c
    ensures Enc3(A, B, a, b, c) >= 0
    ensures Enc3(A, B, a, b, c) % A == a && Enc3(A, B, a, b, c) / A % B == b && Enc3(A, B, a, b, c) / A / B == c
  {
    MulNonNegative(B, c);
    MulNonNegative(A, b + B * c);
    DivModUnique(b + B * c, A, a);
    DivModUnique(c, B, b);
  }

  lemma Encodes3(A: nat, B: nat, t: nat)
    requires A >= 1 && B >= 1
    ensures t == Enc3(A, B, t % A, t / A % B, t / A / B)
    ensures 0 <= t % A < A && 0 <= t / A % B < B && 0 <= t / A / B
  {
    assert t == A * (t / A) + t % A;
    assert t / A == B * (t / A / B) + t / A % B;
  }

  /** The leading digit is bounded by the size of the range. */
  lemma Bound3(A: nat, B: nat, C: nat, a: int, b: int, c: int)
    requires 0 <= a < A && 0 <= b < B && 0 <= c
    ensures Enc3(A, B, a, b, c) < A * (B * C) <==> c < C
  {
    if c < C {
      DigitBound(c, C, b, B);
      DigitBound(c * B + b, C * B, a, A);
      assert A * (B * C) == C * B * A;
    } else {
      MulMonotone(C, c, B);
      MulMonotone(B * C, b + B * c, A);
    }
  }

  // ---------------------------------------------------------------- permutations

  /** `p` and `q` are inverse permutations of [0, n). */
  ghost predicate Inverse(n: nat, p: int -> int, q: int -> int) {
    forall t: nat :: t < n ==> 0 <= p(t) < n && 0 <= q(t) < n && q(p(t)) == t && p(q(t)) == t
  }

  /** Element t of the result is element p(t) of x. */
  function Gather(p: int -> int, x: seq<real>): (y: seq<real>)
    ensures |y| == |x|
    ensures forall t: nat :: t < |x| && 0 <= p(t) < |x| ==> y[t] == x[p(t)]
  {
    seq(|x|, t requires t >= 0 => if 0 <= p(t) < |x| then x[p(t)] else 0.0)
  }

  lemma GatherBack(n: nat, p: int -> int, q: int -> int, x: seq<real>)
    requires Inverse(n, p, q) && |x| == n
    ensures Gather(p, Gather(q, x)) == x
  {
    var (y, z) := (Gather(q, x), Gather(p, Gather(q, x)));
    forall t: nat | t < n
      ensures z[t] == x[t]
    {
      assert z[t] == y[p(t)];
    }
  }

  // ---------------------------------------------------------------- flatten

  /** i1 -> i2 of `flatten` for rows of length `inner`, `outer` rows each. */
  function Transpose(inner: nat, outer: nat): int -> int
    requires inner >= 1 && outer >= 1
  {
    t => if t < 0 then t else Enc3(outer, inner, t / inner % outer, t % inner, t / inner / outer)
  }

  lemma TransposeAt(inner: nat, outer: nat, a: nat, b: nat, c: nat)
    requires a < inner && b < outer
    ensures Transpose(inner, outer)(Enc3(inner, outer, a, b, c)) == Enc3(outer, inner, b, a, c)
  {
    Digits3(inner, outer, a, b, c);
  }

  lemma SwapSizes(a: int, b: int, c: int)
    ensures a * (b * c) == b * (a * c)
  {
    assert a * (b * c) == (a * b) * c;
    assert b * (a * c) == (b * a) * c;
  }

  lemma TransposeBackAt(inner: nat, outer: nat, batch: nat, a: nat, b: nat, c: nat)
    requires a < inner && b < outer && c < batch
    ensures var u := Transpose(inner, outer)(Enc3(inner, outer, a, b, c));
            0 <= u < inner * (outer * batch) && Transpose(outer, inner)(u) == Enc3(inner, outer, a, b, c)
  {
    TransposeAt(inner, outer, a, b, c);
    TransposeAt(outer, inner, b, a, c);
    Digits3(outer, inner, b, a, c);
    Bound3(outer, inner, batch, b, a, c);
    SwapSizes(inner, outer, batch);
  }

  lemma TransposeBack(inner: nat, outer: nat, batch: nat, t: nat)
    requires inner >= 1 && outer >= 1 && t < inner * (outer * batch)
    ensures 0 <= Transpose(inner, outer)(t) < inner * (outer * batch)
    ensures Transpose(outer, inner)(Transpose(inner, outer)(t)) == t
  {
    Encodes3(inner, outer, t);
    Bound3(inner, outer, batch, t % inner, t / inner % outer, t / inner / outer);
    TransposeBackAt(inner, outer, batch, t % inner, t / inner % outer, t / inner / outer);
  }

  /** The index map of `flatten` is a bijection, and swapping the sizes inverts it. */
  lemma TransposeInverse(inner: nat, outer: nat, batch: nat)
    requires inner >= 1 && outer >= 1
    ensures Inverse(inner * (outer * batch), Transpose(inner, outer), Transpose(outer, inner))
  {
    SwapSizes(inner, outer, batch);
    forall t: nat | t < inner * (outer * batch)
      ensures 0 <= Transpose(inner, outer)(t) < inner * (outer * batch) && 0 <= Transpose(outer, inner)(t) < inner * (outer * batch)
      ensures Transpose(outer, inner)(Transpose(inner, outer)(t)) == t && Transpose(inner, outer)(Transpose(outer, inner)(t)) == t
    {
      TransposeBack(inner, outer, batch, t);
      TransposeBack(outer, inner, batch, t);
    }
  }

  /** Entries below n of the swap buffer are written. */
  ghost predicate Placed(forward: bool, p: int -> int, x: seq<real>, y: seq<real>, n: int) {
    && |y| == |x|
    && forall t: nat :: t < n && t < |x| && 0 <= p(t) < |x| ==> if forward then y[p(t)] == x[t] else y[t] == x[p(t)]
  }

  /** One assignment of the kernel loops; distinct targets do not disturb each other. */
  method PlaceOne(forward: bool, ghost p: int -> int, ghost q: int -> int, x: seq<real>, y: array<real>, i1: nat, i2: nat)
    requires Inverse(|x|, p, q) && i1 < |x| && i2 == p(i1) && y.Length == |x| && Placed(forward, p, x, y[..], i1)
    modifies y
    ensures Placed(forward, p, x, y[..], i1 + 1)
  {
    if forward {
      forall t: nat | t < i1
        ensures p(t) != i2
      {
        assert q(p(t)) == t && q(p(i1)) == i1;
      }
      y[i2] := x[i1];
    } else {
      y[i1] := x[i2];
    }
  }

  /** All entries placed: the array is the input gathered by the map or by its inverse. */
  lemma PlacedAll(forward: bool, p: int -> int, q: int -> int, x: seq<real>, y: seq<real>)
    requires Inverse(|x|, p, q) && Placed(forward, p, x, y, |x|)
    ensures y == Gather(if forward then q else p, x)
  {
    forall t: nat | t < |x|
      ensures y[t] == Gather(if forward then q else p, x)[t]
    {
      if forward {
        assert y[p(q(t))] == x[q(t)];
      }
    }
  }

  /** flatten: transpose in place, through a swap buffer. */
  method Flatten(x: array<real>, size: nat, layers: nat, batch: nat, forward: bool)
    requires size >= 1 && layers >= 1 && x.Length == size * (layers * batch)
    modifies x
    ensures x[..] == Gather(if forward then Transpose(layers, size) else Transpose(size, layers), old(x[..]))
  {
    var x0 := x[..];
    var swap := new real[x.Length](_ => 0.0);
    ghost var p, q := Transpose(size, layers), Transpose(layers, size);
    TransposeInverse(size, layers, batch);
    assert size * (layers * 0) == 0;
    for b := 0 to batch
      invariant fresh(swap) && Placed(forward, p, x0, swap[..], Enc3(size, layers, 0, 0, b))
    {
      FlattenImage(x0, size, layers, batch, forward, swap, b);
    }
    PlacedAll(forward, p, q, x0, swap[..]);
    forall i | 0 <= i < x.Length {
      x[i] := swap[i];
    }
    assert x[..] == swap[..];
  }

  method FlattenImage(x: seq<real>, size: nat, layers: nat, batch: nat, forward: bool, swap: array<real>, b: nat)
    requires size >= 1 && layers >= 1 && |x| == swap.Length == size * (layers * batch) && b < batch
    requires Placed(forward, Transpose(size, layers), x, swap[..], Enc3(size, layers, 0, 0, b))
    modifies swap
    ensures Placed(forward, Transpose(size, layers), x, swap[..], Enc3(size, layers, 0, 0, b + 1))
  {
    for c := 0 to layers
      invariant Placed(forward, Transpose(size, layers), x, swap[..], Enc3(size, layers, 0, c, b))
    {
      FlattenRow(x, size, layers, batch, forward, swap, b, c, Enc3(size, layers, 0, c, b));
      assert size * (c + 1 + layers * b) == size * (c + layers * b) + size;
    }
    assert layers + layers * b == layers * (b + 1);
  }

  /** i1 and i2 of the loop body of flatten. */
  method FlattenIndex(size: nat, layers: nat, batch: nat, b: nat, c: nat, i: nat) returns (i1: nat, i2: nat)
    requires i < size && c < layers && b < batch
    ensures i1 == Enc3(size, layers, 0, c, b) + i && i1 < size * (layers * batch) && i2 == Transpose(size, layers)(i1)
  {
    FlattenEntry(size, layers, batch, b, c, i);
    i1 := b * layers * size + c * size + i;
    i2 := b * layers * size + i * layers + c;
  }

  method FlattenRow(x: seq<real>, size: nat, layers: nat, batch: nat, forward: bool, swap: array<real>, b: nat, c: nat, ghost base: int)
    requires size >= 1 && layers >= 1 && |x| == swap.Length == size * (layers * batch) && b < batch && c < layers
    requires base == Enc3(size, layers, 0, c, b) && Placed(forward, Transpose(size, layers), x, swap[..], base)
    modifies swap
    ensures Placed(forward, Transpose(size, layers), x, swap[..], base + size)
  {
    TransposeInverse(size, layers, batch);
    for i := 0 to size
      invariant Placed(forward, Transpose(size, layers), x, swap[..], base + i)
    {
      var i1, i2 := FlattenIndex(size, layers, batch, b, c, i);
      PlaceOne(forward, Transpose(size, layers), Transpose(layers, size), x, swap, i1, i2);
    }
  }

  lemma FlattenEntry(size: nat, layers: nat, batch: nat, b: nat, c: nat, i: nat)
    requires i < size && c < layers && b < batch
    ensures var (i1, i2) := (b * layers * size + c * size + i, b * layers * size + i * layers + c);
            && i1 == Enc3(size, layers, 0, c, b) + i && 0 <= i1 < size * (layers * batch)
            && i2 >= 0 && Transpose(size, layers)(i1) == i2
  {
    FlattenIndices(size, layers, b, c, i);
    Digits3(size, layers, i, c, b);
    Bound3(size, layers, batch, i, c, b);
    TransposeAt(size, layers, i, c, b);
    TransposeBackAt(size, layers, batch, i, c, b);
  }

  lemma FlattenIndices(size: nat, layers: nat, b: nat, c: nat, i: nat)
    ensures b * layers * size + c * size + i == Enc3(size, layers, i, c, b)
    ensures b * layers * size + i * layers + c == Enc3(layers, size, c, i, b)
  {
    assert size * (c + layers * b) == c * size + b * layers * size;
    assert layers * (i + size * b) == i * layers + b * layers * size;
  }

  // ---------------------------------------------------------------- reorg

  /** A width x height image with c == oc * s * s channels, and the derived sizes. */
  datatype Shape = Shape(w: nat, h: nat, oc: nat, s: nat, batch: nat, c: nat, W: nat, H: nat) {
    predicate Valid() {
      w >= 1 && h >= 1 && oc >= 1 && s >= 1 && c == oc * (s * s) && W == w * s && H == h * s
    }
    function Size(): int { w * (h * (c * batch)) }
  }

  /** One element: column, row, channel modulo oc, position in the s x s cell, image. */
  datatype Element = Element(i: int, j: int, c2: int, ox: int, oy: int, b: int)

  predicate InRange(g: Shape, e: Element) {
    0 <= e.i < g.w && 0 <= e.j < g.h && 0 <= e.c2 < g.oc && 0 <= e.ox < g.s && 0 <= e.oy < g.s && 0 <= e.b
  }

  /** Its index in the w x h x c array, and in the (w*s) x (h*s) x oc array. */
  function Deep(g: Shape, e: Element): int { Enc3(g.w, g.h, e.i, e.j, Enc3(g.oc, g.s, e.c2, e.ox, e.oy + g.s * e.b)) }

  function Wide(g: Shape, e: Element): int { Enc3(g.W, g.H, e.ox + g.s * e.i, e.oy + g.s * e.j, e.c2 + g.oc * e.b) }

  function FromDeep(g: Shape, t: nat): Element
    requires g.Valid()
  {
    var k := t / g.w / g.h;
    var y := k / g.oc / g.s;
    Element(t % g.w, t / g.w % g.h, k % g.oc, k / g.oc % g.s, y % g.s, y / g.s)
  }

  function FromWide(g: Shape, u: nat): Element
    requires g.Valid() && g.W >= 1 && g.H >= 1
  {
    var (x, y, c) := (u % g.W, u / g.W % g.H, u / g.W / g.H);
    Element(x / g.s, y / g.s, c % g.oc, x % g.s, y % g.s, c / g.oc)
  }

  lemma SizesPositive(g: Shape)
    requires g.Valid()
    ensures g.W >= 1 && g.H >= 1 && g.c >= 1
  {
    MulMonotone(1, g.w, g.s);
    MulMonotone(1, g.h, g.s);
    MulMonotone(1, g.s, g.s);
    MulMonotone(1, g.oc, g.s * g.s);
  }

  lemma DeepRoundTrip(g: Shape, e: Element)
    requires g.Valid() && InRange(g, e)
    ensures Deep(g, e) >= 0 && FromDeep(g, Deep(g, e)) == e
  {
    var y := e.oy + g.s * e.b;
    MulNonNegative(g.s, e.b);
    DivModUnique(e.b, g.s, e.oy);
    Digits3(g.oc, g.s, e.c2, e.ox, y);
    Digits3(g.w, g.h, e.i, e.j, Enc3(g.oc, g.s, e.c2, e.ox, y));
  }

  lemma DeepOf(g: Shape, t: nat)
    requires g.Valid()
    ensures InRange(g, FromDeep(g, t)) && Deep(g, FromDeep(g, t)) == t
  {
    Encodes3(g.w, g.h, t);
    var k := t / g.w / g.h;
    Encodes3(g.oc, g.s, k);
    var y := k / g.oc / g.s;
    assert y == g.s * (y / g.s) + y % g.s;
  }

  lemma ScaledDigit(s: nat, a: int, o: int, n: nat)
    requires 0 <= o < s && 0 <= a < n
    ensures 0 <= o + s * a < n * s && (o + s * a) / s == a && (o + s * a) % s == o
  {
    DivModUnique(a, s, o);
    DigitBound(a, n, o, s);
  }

  lemma WideRoundTrip(g: Shape, e: Element)
    requires g.Valid() && InRange(g, e) && g.W >= 1 && g.H >= 1
    ensures Wide(g, e) >= 0 && FromWide(g, Wide(g, e)) == e
  {
    ScaledDigit(g.s, e.i, e.ox, g.w);
    ScaledDigit(g.s, e.j, e.oy, g.h);
    MulNonNegative(g.oc, e.b);
    DivModUnique(e.b, g.oc, e.c2);
    Digits3(g.W, g.H, e.ox + g.s * e.i, e.oy + g.s * e.j, e.c2 + g.oc * e.b);
  }

  lemma ScaledQuotient(x: nat, s: nat, n: nat)
    requires s >= 1 && x < n * s
    ensures 0 <= x / s < n && 0 <= x % s < s && x == x % s + s * (x / s)
  {
    if x / s >= n {
      MulMonotone(n, x / s, s);
    }
  }

  lemma WideOf(g: Shape, u: nat)
    requires g.Valid() && g.W >= 1 && g.H >= 1
    ensures InRange(g, FromWide(g, u)) && Wide(g, FromWide(g, u)) == u
  {
    Encodes3(g.W, g.H, u);
    WideDigits(g, u % g.W, u / g.W % g.H, u / g.W / g.H);
  }

  lemma WideDigits(g: Shape, x: nat, y: nat, c: nat)
    requires g.Valid() && x < g.W && y < g.H
    ensures 0 <= x / g.s < g.w && 0 <= x % g.s < g.s && x == x % g.s + g.s * (x / g.s)
    ensures 0 <= y / g.s < g.h && 0 <= y % g.s < g.s && y == y % g.s + g.s * (y / g.s)
    ensures 0 <= c % g.oc < g.oc && 0 <= c / g.oc && c == c % g.oc + g.oc * (c / g.oc)
  {
    ScaledQuotient(x, g.s, g.w);
    ScaledQuotient(y, g.s, g.h);
    Quotient(c, g.oc);
  }

  lemma Quotient(c: nat, d: nat)
    requires d >= 1
    ensures 0 <= c % d < d && 0 <= c / d && c == c % d + d * (c / d)
  {
  }

  /** Both layouts hold the same number of elements. */
  lemma Bounds(g: Shape, e: Element)
    requires g.Valid() && InRange(g, e) && g.W >= 1 && g.H >= 1
    ensures Deep(g, e) < g.Size() <==> e.b < g.batch
    ensures Wide(g, e) < g.Size() <==> e.b < g.batch
  {
    DeepBound(g, e);
    WideBound(g, e);
    SameSize(g);
  }

  lemma Associative(a: int, b: int, c: int)
    ensures a * (b * c) == (a * b) * c
  {
  }

  lemma ChannelTotal(oc: nat, s: nat, batch: nat, c: nat)
    requires c == oc * (s * s)
    ensures oc * (s * (s * batch)) == c * batch
  {
    Associative(s, s, batch);
    Associative(oc, s * s, batch);
  }

  /** Channel and image together stay below their product exactly if the image does. */
  lemma ChannelBound(oc: nat, s: nat, batch: nat, c: nat, c2: int, ox: int, oy: int, b: int)
    requires c == oc * (s * s) && 0 <= c2 < oc && 0 <= ox < s && 0 <= oy < s && 0 <= b
    ensures Enc3(oc, s, c2, ox, oy + s * b) >= 0
    ensures Enc3(oc, s, c2, ox, oy + s * b) < c * batch <==> b < batch
  {
    MulNonNegative(s, b);
    Digits3(oc, s, c2, ox, oy + s * b);
    Bound3(oc, s, s * batch, c2, ox, oy + s * b);
    ChannelTotal(oc, s, batch, c);
    LeadingBound(s, oy, b, batch);
  }

  lemma DeepBound(g: Shape, e: Element)
    requires g.Valid() && InRange(g, e)
    ensures Deep(g, e) < g.Size() <==> e.b < g.batch
  {
    ChannelBound(g.oc, g.s, g.batch, g.c, e.c2, e.ox, e.oy, e.b);
    Bound3(g.w, g.h, g.c * g.batch, e.i, e.j, Enc3(g.oc, g.s, e.c2, e.ox, e.oy + g.s * e.b));
  }

  lemma LeadingBound(s: nat, o: int, b: int, n: nat)
    requires 0 <= o < s && 0 <= b
    ensures o + s * b < s * n <==> b < n
  {
    if b < n {
      MulMonotone(b + 1, n, s);
      assert s * (b + 1) == s * b + s;
    } else {
      MulMonotone(n, b, s);
    }
  }

  lemma WideBound(g: Shape, e: Element)
    requires g.Valid() && InRange(g, e) && g.W >= 1 && g.H >= 1
    ensures Wide(g, e) < g.W * (g.H * (g.oc * g.batch)) <==> e.b < g.batch
  {
    ScaledDigit(g.s, e.i, e.ox, g.w);
    ScaledDigit(g.s, e.j, e.oy, g.h);
    MulNonNegative(g.oc, e.b);
    Bound3(g.W, g.H, g.oc * g.batch, e.ox + g.s * e.i, e.oy + g.s * e.j, e.c2 + g.oc * e.b);
    LeadingBound(g.oc, e.c2, e.b, g.batch);
  }

  lemma SameSize(g: Shape)
    requires g.Valid()
    ensures g.W * (g.H * (g.oc * g.batch)) == g.Size()
  {
    var (s, r) := (g.s, g.oc * g.batch);
    assert g.H * r == g.h * (s * r) by { assert g.h * s * r == g.h * (s * r); }
    assert g.W * (g.h * (s * r)) == g.w * (s * (g.h * (s * r))) by { assert g.w * s * (g.h * (s * r)) == g.w * (s * (g.h * (s * r))); }
    SwapSizes(s, g.h, s * r);
    assert s * (s * r) == g.c * g.batch by {
      assert s * (s * r) == s * s * r;
      assert s * s * (g.oc * g.batch) == g.oc * (s * s) * g.batch;
    }
  }

  /** in_index -> out_index of reorg_cpu, and back. */
  function Permute(g: Shape): int -> int
    requires g.Valid()
  {
    t => if t < 0 then t else Wide(g, FromDeep(g, t))
  }

  function Restore(g: Shape): int -> int
    requires g.Valid() && g.W >= 1 && g.H >= 1
  {
    u => if u < 0 then u else Deep(g, FromWide(g, u))
  }

  lemma PermuteBack(g: Shape, t: nat)
    requires g.Valid() && g.W >= 1 && g.H >= 1 && t < g.Size()
    ensures 0 <= Permute(g)(t) < g.Size() && Restore(g)(Permute(g)(t)) == t
  {
    DeepOf(g, t);
    var e := FromDeep(g, t);
    WideRoundTrip(g, e);
    Bounds(g, e);
  }

  lemma RestoreBack(g: Shape, u: nat)
    requires g.Valid() && g.W >= 1 && g.H >= 1 && u < g.Size()
    ensures 0 <= Restore(g)(u) < g.Size() && Permute(g)(Restore(g)(u)) == u
  {
    WideOf(g, u);
    var e := FromWide(g, u);
    DeepRoundTrip(g, e);
    Bounds(g, e);
  }

  /** The index map of reorg_cpu is a bijection whenever s * s divides the channels. */
  lemma PermuteInverse(g: Shape)
    requires g.Valid() && g.W >= 1 && g.H >= 1 && g.Size() >= 0
    ensures Inverse(g.Size(), Permute(g), Restore(g))
  {
    forall t: nat | t < g.Size()
      ensures 0 <= Permute(g)(t) < g.Size() && 0 <= Restore(g)(t) < g.Size()
      ensures Restore(g)(Permute(g)(t)) == t && Permute(g)(Restore(g)(t)) == t
    {
      PermuteBack(g, t);
      RestoreBack(g, t);
    }
  }

  lemma ChannelDigits(g: Shape, b: nat, k: nat)
    requires g.Valid() && k < g.c
    ensures 0 <= k % g.oc < g.oc && 0 <= k / g.oc % g.s < g.s && 0 <= k / g.oc / g.s < g.s
    ensures k + g.c * b == Enc3(g.oc, g.s, k % g.oc, k / g.oc % g.s, k / g.oc / g.s + g.s * b)
  {
    var (c2, off) := (k % g.oc, k / g.oc);
    assert k == g.oc * off + c2;
    if off >= g.s * g.s {
      MulMonotone(g.s * g.s, off, g.oc);
    }
    ScaledQuotient(off, g.s, g.s);
    var (ox, oy) := (off % g.s, off / g.s);
    Regroup(g.oc, g.s, b, ox, oy);
  }

  lemma Regroup(oc: int, s: int, b: int, ox: int, oy: int)
    ensures oc * (ox + s * oy) + oc * (s * s) * b == oc * (ox + s * (oy + s * b))
  {
    assert s * (oy + s * b) == s * oy + s * s * b;
    assert oc * (ox + s * oy + s * s * b) == oc * (ox + s * oy) + oc * (s * s * b);
    assert oc * (s * s * b) == oc * (s * s) * b;
  }

  /** The indices that the loop body computes are the two indices of one element. */
  lemma ReorgEntry(g: Shape, b: nat, k: nat, j: nat, i: nat)
    requires g.Valid() && g.W >= 1 && g.H >= 1 && b < g.batch && k < g.c && j < g.h && i < g.w
    ensures var t := i + g.w * (j + g.h * (k + g.c * b));
            var u := (i * g.s + k / g.oc % g.s) + g.w * g.s * ((j * g.s + k / g.oc / g.s) + g.h * g.s * (k % g.oc + g.oc * b));
            0 <= t < g.Size() && 0 <= u && Permute(g)(t) == u
  {
    ChannelDigits(g, b, k);
    var e := Element(i, j, k % g.oc, k / g.oc % g.s, k / g.oc / g.s, b);
    DeepRoundTrip(g, e);
    WideRoundTrip(g, e);
    Bounds(g, e);
  }

  /** in_index and out_index of the loop body. */
  method Indices(g: Shape, b: nat, k: nat, j: nat, i: nat) returns (inIndex: nat, outIndex: nat)
    requires g.Valid() && g.W >= 1 && g.H >= 1 && b < g.batch && k < g.c && j < g.h && i < g.w
    ensures inIndex == i + g.w * (j + g.h * (k + g.c * b)) && inIndex < g.Size() && outIndex == Permute(g)(inIndex)
  {
    ReorgEntry(g, b, k, j, i);
    inIndex := i + g.w * (j + g.h * (k + g.c * b));
    var c2, offset := k % g.oc, k / g.oc;
    var w2, h2 := i * g.s + offset % g.s, j * g.s + offset / g.s;
    outIndex := w2 + g.w * g.s * (h2 + g.h * g.s * (c2 + g.oc * b));
  }

  method ReorgRow(g: Shape, x: seq<real>, forward: bool, out: array<real>, b: nat, k: nat, j: nat, ghost base: int)
    requires g.Valid() && g.W >= 1 && g.H >= 1 && b < g.batch && k < g.c && j < g.h && |x| == out.Length == g.Size()
    requires base == g.w * (j + g.h * (k + g.c * b)) && Placed(forward, Permute(g), x, out[..], base)
    modifies out
    ensures Placed(forward, Permute(g), x, out[..], base + g.w)
  {
    PermuteInverse(g);
    for i := 0 to g.w
      invariant Placed(forward, Permute(g), x, out[..], base + i)
    {
      var inIndex, outIndex := Indices(g, b, k, j, i);
      PlaceOne(forward, Permute(g), Restore(g), x, out, inIndex, outIndex);
    }
  }

  /** reorg_cpu. */
  method ReorgCpu(g: Shape, x: seq<real>, forward: bool, out: array<real>)
    requires g.Valid() && |x| == out.Length == g.Size()
    modifies out
    ensures g.W >= 1 && g.H >= 1
    ensures out[..] == Gather(if forward then Restore(g) else Permute(g), x)
  {
    SizesPositive(g);
    assert g.w * (0 + g.h * (0 + g.c * 0)) == 0;
    for b := 0 to g.batch
      invariant Placed(forward, Permute(g), x, out[..], g.w * (0 + g.h * (0 + g.c * b)))
    {
      for k := 0 to g.c
        invariant Placed(forward, Permute(g), x, out[..], g.w * (0 + g.h * (k + g.c * b)))
      {
        for j := 0 to g.h
          invariant Placed(forward, Permute(g), x, out[..], g.w * (j + g.h * (k + g.c * b)))
        {
          ReorgRow(g, x, forward, out, b, k, j, g.w * (j + g.h * (k + g.c * b)));
          assert g.w * (j + 1 + g.h * (k + g.c * b)) == g.w * (j + g.h * (k + g.c * b)) + g.w;
        }
        assert g.h + g.h * (k + g.c * b) == g.h * (k + 1 + g.c * b);
      }
      assert g.c + g.c * b == g.c * (b + 1);
    }
    PermuteInverse(g);
    PlacedAll(forward, Permute(g), Restore(g), x, out[..]);
  }

  // ---------------------------------------------------------------- the layer

  /** make_reorg_layer without `extra`: input size, stride, and the two mode flags. */
  datatype Layer = Layer(g: Shape, flatten: bool, reverse: bool) {
    /** l.outputs: reverse grows the image, otherwise it shrinks. */
    function Outputs(): int
      requires g.s >= 1
    {
      if reverse then (g.h * g.s) * (g.w * g.s) * (g.c / (g.s * g.s)) else (g.h / g.s) * (g.w / g.s) * (g.c * (g.s * g.s))
    }

    /** s * s divides c; without `reverse`, s divides w and h too. */
    predicate Valid() { g.Valid() && (reverse || (g.w % g.s == 0 && g.h % g.s == 0)) }
  }

  /** The layer has as many outputs as inputs, so its copies cover the whole array. */
  lemma OutputsAreInputs(l: Layer)
    requires l.Valid()
    ensures l.Outputs() == l.g.h * l.g.w * l.g.c
  {
    var g := l.g;
    SizesPositive(g);
    if l.reverse {
      MulMonotone(1, g.s, g.s);
      DivModUnique(g.oc, g.s * g.s, 0);
      GrowShrink(g.h, g.w, g.s, g.oc);
    } else {
      var (h, w) := (g.h / g.s, g.w / g.s);
      assert g.h == h * g.s && g.w == w * g.s;
      GrowShrink(h, w, g.s, g.c);
    }
  }

  lemma GrowShrink(h: int, w: int, s: int, c: int)
    ensures (h * s) * (w * s) * c == h * w * (c * (s * s))
  {
    assert (h * s) * (w * s) == h * w * (s * s);
    assert h * w * (s * s) * c == h * w * ((s * s) * c);
  }

  /** What the forward and the backward pass gather by. */
  function ForwardMap(l: Layer): int -> int
    requires l.Valid() && l.g.W >= 1 && l.g.H >= 1 && l.g.w * l.g.h >= 1 && l.g.c >= 1
  {
    if l.flatten then (if l.reverse then Transpose(l.g.w * l.g.h, l.g.c) else Transpose(l.g.c, l.g.w * l.g.h))
    else if l.reverse then Restore(l.g) else Permute(l.g)
  }

  function BackwardMap(l: Layer): int -> int
    requires l.Valid() && l.g.W >= 1 && l.g.H >= 1 && l.g.w * l.g.h >= 1 && l.g.c >= 1
  {
    if l.flatten then (if l.reverse then Transpose(l.g.c, l.g.w * l.g.h) else Transpose(l.g.w * l.g.h, l.g.c))
    else if l.reverse then Permute(l.g) else Restore(l.g)
  }

  predicate Sized(l: Layer) { l.Valid() && l.g.W >= 1 && l.g.H >= 1 && l.g.w * l.g.h >= 1 && l.g.c >= 1 }

  lemma ValidIsSized(l: Layer)
    requires l.Valid()
    ensures Sized(l) && l.g.w * l.g.h * (l.g.c * l.g.batch) == l.g.Size() >= 0
  {
    SizesPositive(l.g);
    MulMonotone(1, l.g.w, l.g.h);
    MulNonNegative(l.g.c, l.g.batch);
    MulNonNegative(l.g.w * l.g.h, l.g.c * l.g.batch);
    assert l.g.w * l.g.h * (l.g.c * l.g.batch) == l.g.w * (l.g.h * (l.g.c * l.g.batch));
  }

  /** memcpy of the whole array, then flatten in place. */
  method CopyFlatten(l: Layer, src: seq<real>, dst: array<real>, forward: bool)
    requires l.Valid() && |src| == dst.Length == l.g.Size()
    modifies dst
    ensures Sized(l)
    ensures dst[..] == Gather(if forward then Transpose(l.g.c, l.g.w * l.g.h) else Transpose(l.g.w * l.g.h, l.g.c), src)
  {
    ValidIsSized(l);
    forall i | 0 <= i < dst.Length {
      dst[i] := src[i];
    }
    assert dst[..] == src;
    Flatten(dst, l.g.w * l.g.h, l.g.c, l.g.batch, forward);
  }

  /** forward_reorg_layer. */
  method Forward(l: Layer, input: seq<real>, output: array<real>)
    requires l.Valid() && |input| == output.Length == l.g.Size()
    modifies output
    ensures Sized(l) && output[..] == Gather(ForwardMap(l), input)
  {
    ValidIsSized(l);
    if l.flatten {
      CopyFlatten(l, input, output, !l.reverse);
    } else {
      ReorgCpu(l.g, input, l.reverse, output);
    }
  }

  /** backward_reorg_layer. */
  method Backward(l: Layer, delta: seq<real>, netDelta: array<real>)
    requires l.Valid() && |delta| == netDelta.Length == l.g.Size()
    modifies netDelta
    ensures Sized(l) && netDelta[..] == Gather(BackwardMap(l), delta)
  {
    ValidIsSized(l);
    if l.flatten {
      CopyFlatten(l, delta, netDelta, l.reverse);
    } else {
      ReorgCpu(l.g, delta, !l.reverse, netDelta);
    }
  }

  /** In all four modes the backward pass returns what the forward pass was given, and conversely. */
  lemma BackwardUndoesForward(l: Layer, x: seq<real>)
    requires l.Valid() && |x| == l.g.Size()
    ensures Sized(l)
    ensures Gather(BackwardMap(l), Gather(ForwardMap(l), x)) == x
    ensures Gather(ForwardMap(l), Gather(BackwardMap(l), x)) == x
  {
    ValidIsSized(l);
    TransposeInverse(l.g.w * l.g.h, l.g.c, l.g.batch);
    PermuteInverse(l.g);
    assert Inverse(|x|, BackwardMap(l), ForwardMap(l));
    GatherBack(|x|, BackwardMap(l), ForwardMap(l), x);
    GatherBack(|x|, ForwardMap(l), BackwardMap(l), x);
  }

  // ---------------------------------------------------------------- element by element

  /** The channels of the wide image, as the source computes them. */
  lemma OutChannels(g: Shape)
    requires g.Valid()
    ensures g.s * g.s >= 1 && g.c / (g.s * g.s) == g.oc
  {
    MulMonotone(1, g.s, g.s);
    DivModUnique(g.oc, g.s * g.s, 0);
  }

  /** Entries t and u of x and of its image under the two maps. */
  lemma GatherPair(n: nat, p: int -> int, q: int -> int, x: seq<real>, t: nat, u: nat)
    requires Inverse(n, p, q) && |x| == n && t < n && p(t) == u
    ensures u < n && Gather(p, x)[t] == x[u] && Gather(q, x)[u] == x[t]
  {
  }

  /**
   Column i, row j, channel k of image b in the deep image and its place in the wide one, whose
   cells of s x s pixels take the channels k % oc, k % oc + oc and so on. `reverse` spreads
   channels over cells; without it the forward pass collects cells into channels, and the
   backward pass does the opposite of either.
   */
  lemma ReorgElement(l: Layer, x: seq<real>, b: nat, k: nat, j: nat, i: nat, t: int, u: int)
    requires l.Valid() && !l.flatten && |x| == l.g.Size() && b < l.g.batch && k < l.g.c && j < l.g.h && i < l.g.w
    requires t == i + l.g.w * (j + l.g.h * (k + l.g.c * b))
    requires u == (i * l.g.s + k / l.g.oc % l.g.s)
                  + l.g.w * l.g.s * ((j * l.g.s + k / l.g.oc / l.g.s) + l.g.h * l.g.s * (k % l.g.oc + l.g.oc * b))
    ensures Sized(l) && 0 <= t < |x| && 0 <= u < |x|
    ensures l.g.s * l.g.s >= 1 && l.g.oc == l.g.c / (l.g.s * l.g.s)
    ensures if l.reverse then Gather(ForwardMap(l), x)[u] == x[t] && Gather(BackwardMap(l), x)[t] == x[u]
            else Gather(ForwardMap(l), x)[t] == x[u] && Gather(BackwardMap(l), x)[u] == x[t]
  {
    ValidIsSized(l);
    OutChannels(l.g);
    ReorgEntry(l.g, b, k, j, i);
    PermuteInverse(l.g);
    GatherPair(|x|, Permute(l.g), Restore(l.g), x, t, u);
  }

  /**
   Channel c of pixel i of image b, with the pixels of a channel side by side and with the
   channels of a pixel side by side: flattening makes the second of the first, or with `reverse`
   the first of the second, and the backward pass does the opposite.
   */
  lemma FlattenElement(l: Layer, x: seq<real>, b: nat, c: nat, i: nat, planar: int, interleaved: int)
    requires l.Valid() && l.flatten && |x| == l.g.Size() && b < l.g.batch && c < l.g.c && i < l.g.w * l.g.h
    requires planar == (b * l.g.c + c) * (l.g.w * l.g.h) + i && interleaved == (b * (l.g.w * l.g.h) + i) * l.g.c + c
    ensures Sized(l) && 0 <= planar < |x| && 0 <= interleaved < |x|
    ensures if l.reverse then Gather(ForwardMap(l), x)[planar] == x[interleaved] && Gather(BackwardMap(l), x)[interleaved] == x[planar]
            else Gather(ForwardMap(l), x)[interleaved] == x[planar] && Gather(BackwardMap(l), x)[planar] == x[interleaved]
  {
    ValidIsSized(l);
    var size := l.g.w * l.g.h;
    PlanarIndex(size, l.g.c, b, c, i);
    FlattenEntry(size, l.g.c, l.g.batch, b, c, i);
    TransposeInverse(size, l.g.c, l.g.batch);
    GatherPair(|x|, Transpose(size, l.g.c), Transpose(l.g.c, size), x, planar, interleaved);
  }

  lemma PlanarIndex(size: int, layers: int, b: int, c: int, i: int)
    ensures (b * layers + c) * size + i == b * layers * size + c * size + i
    ensures (b * size + i) * layers + c == b * layers * size + i * layers + c
  {
    assert b * size * layers == b * layers * size;
  }
}
