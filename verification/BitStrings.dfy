/** Numbers as strings of bits, most significant bit first. */
module BitStrings {

  /** x << n. */
  function Shl(x: nat, n: nat): (r: nat)
    ensures r >= x
  {
    if n == 0 then x else 2 * Shl(x, n - 1)
  }

  /** x >> n. */
  function Shr(x: nat, n: nat): nat { if n == 0 then x else Shr(x, n - 1) / 2 }

  function Pow2(n: nat): nat { Shl(1, n) }

  /** The n low bits of v. */
  function Bits(v: nat, n: nat): (r: seq<bool>)
    ensures |r| == n
  {
    if n == 0 then [] else Bits(v / 2, n - 1) + [v % 2 == 1]
  }

  function Value(bs: seq<bool>): nat {
    if bs == [] then 0 else 2 * Value(bs[..|bs| - 1]) + (if bs[|bs| - 1] then 1 else 0)
  }

  lemma {:induction false} ShlZero(n: nat)
    ensures Shl(0, n) == 0
  {
    if n > 0 {
      ShlZero(n - 1);
    }
  }

  lemma {:induction false} ShlAdd(x: nat, y: nat, n: nat)
    ensures Shl(x + y, n) == Shl(x, n) + Shl(y, n)
  {
    if n > 0 {
      ShlAdd(x, y, n - 1);
    }
  }

  lemma {:induction false} ShlShl(x: nat, a: nat, b: nat)
    ensures Shl(Shl(x, a), b) == Shl(x, a + b)
  {
    if b > 0 {
      ShlShl(x, a, b - 1);
    }
  }

  lemma {:induction false} ShlMonotone(x: nat, y: nat, n: nat)
    requires x <= y
    ensures Shl(x, n) <= Shl(y, n)
  {
    if n > 0 {
      ShlMonotone(x, y, n - 1);
    }
  }

  /** A number of `a` bits, shifted by n, leaves room for another n bits. */
  lemma ShlRoom(x: nat, a: nat, n: nat)
    requires x < Pow2(a)
    ensures Shl(x, n) + Pow2(n) <= Pow2(a + n)
  {
    ShlAdd(x, 1, n);
    ShlMonotone(x + 1, Pow2(a), n);
    ShlShl(1, a, n);
  }

  lemma ShlValues(x: nat)
    ensures Shl(x, 8) == 256 * x && Shl(x, 16) == 65536 * x && Shl(x, 24) == 0x100_0000 * x
  {
    Shl4(x);
    Shl4(Shl(x, 4));
    ShlShl(x, 4, 4);
    Shl8(Shl(x, 8), x);
  }

  lemma Shl4(x: nat)
    ensures Shl(x, 4) == 16 * x
  {
    assert Shl(x, 1) == 2 * x;
    assert Shl(x, 2) == 4 * x;
    assert Shl(x, 3) == 8 * x;
  }

  lemma Shl8(y: nat, x: nat)
    requires y == Shl(x, 8) == 256 * x
    ensures Shl(x, 16) == 256 * y && Shl(x, 24) == 65536 * y
  {
    Shl4(y);
    Shl4(Shl(y, 4));
    ShlShl(y, 4, 4);
    ShlShl(x, 8, 8);
    var z := Shl(y, 8);
    Shl4(z);
    Shl4(Shl(z, 4));
    ShlShl(z, 4, 4);
    ShlShl(x, 16, 8);
  }

  /** Shifting right splits off the n low bits. */
  lemma {:induction false} ShrSplit(x: nat, n: nat)
    ensures Shl(Shr(x, n), n) <= x < Shl(Shr(x, n), n) + Pow2(n)
  {
    if n > 0 {
      var (h, q) := (Shr(x, n - 1), Shr(x, n));
      ShrSplit(x, n - 1);
      ShlShl(q, 1, n - 1);
      assert Shl(q, 1) == 2 * q;
      ShlAdd(2 * q, h - 2 * q, n - 1);
      ShlMonotone(h - 2 * q, 1, n - 1);
    }
  }

  lemma {:induction false} ValueOfBits(v: nat, n: nat)
    requires v < Pow2(n)
    ensures Value(Bits(v, n)) == v
  {
    if n > 0 {
      ValueOfBits(v / 2, n - 1);
      assert Bits(v, n)[..n - 1] == Bits(v / 2, n - 1);
    }
  }

  /** Appending bits is shifting and adding. */
  lemma {:induction false} BitsAppend(a: nat, n: nat, b: nat, m: nat)
    requires b < Pow2(m)
    ensures Bits(Shl(a, m) + b, n + m) == Bits(a, n) + Bits(b, m)
  {
    if m > 0 {
      BitsAppend(a, n, b / 2, m - 1);
      assert (Shl(a, m) + b) / 2 == Shl(a, m - 1) + b / 2;
      assert Bits(a, n) + Bits(b, m) == Bits(a, n) + Bits(b / 2, m - 1) + [b % 2 == 1];
    } else {
      assert Bits(a, n) + Bits(b, 0) == Bits(a, n);
    }
  }

  /** Bitwise or. */
  function BitOr(a: nat, b: nat): nat
    decreases a
  {
    if a == 0 then b else 2 * BitOr(a / 2, b / 2) + (if a % 2 == 1 || b % 2 == 1 then 1 else 0)
  }

  lemma {:induction false} OrZero(a: nat)
    ensures BitOr(a, 0) == a
  {
    if a > 0 {
      OrZero(a / 2);
    }
  }

  /** Where the second number fills zero bits of the first, or is plus. */
  lemma {:induction false} OrIsPlus(q: nat, k: nat, b: nat)
    requires b < Pow2(k)
    ensures BitOr(Shl(q, k), b) == Shl(q, k) + b
  {
    if k == 0 {
      OrZero(q);
    } else {
      OrIsPlus(q, k - 1, b / 2);
    }
  }
}
