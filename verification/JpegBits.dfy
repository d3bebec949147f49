/** The JPEG bit writer: codes collect in a 24-bit window, full bytes leave it with byte stuffing. */
module JpegBits {
  import opened BitStrings

  // ---------------------------------------------------------------- section F.1.2.3 of ITU-T T.81

  /** The first byte takes two places if it is 255 and a zero follows. */
  function Skip(s: seq<int>): (n: nat)
    requires s != []
    ensures 1 <= n <= |s|
  {
    if s[0] == 255 && |s| >= 2 && s[1] == 0 then 2 else 1
  }

  /** Remove the zero byte that follows every 255. */
  function Unstuff(s: seq<int>): seq<int>
    decreases |s|
  {
    if s == [] then [] else [s[0]] + Unstuff(s[Skip(s)..])
  }

  /** Every 255 is followed by a zero. */
  predicate Stuffed(s: seq<int>) { forall i :: 0 <= i < |s| && s[i] == 255 ==> ZeroAt(s, i + 1) }

  predicate ZeroAt(s: seq<int>, i: nat) { i < |s| && s[i] == 0 }

  lemma StuffedRest(s: seq<int>, n: nat)
    requires Stuffed(s) && n <= |s|
    ensures Stuffed(s[n..])
  {
    forall i | 0 <= i < |s[n..]| && s[n..][i] == 255
      ensures ZeroAt(s[n..], i + 1)
    {
      assert ZeroAt(s, n + i + 1);
    }
  }

  lemma StuffedAppend(s: seq<int>, t: seq<int>)
    requires Stuffed(s) && Stuffed(t)
    ensures Stuffed(s + t)
  {
    forall i | 0 <= i < |s + t| && (s + t)[i] == 255
      ensures ZeroAt(s + t, i + 1)
    {
      if i < |s| {
        assert ZeroAt(s, i + 1);
      } else {
        assert ZeroAt(t, i - |s| + 1);
      }
    }
  }

  lemma SkipAppend(s: seq<int>, t: seq<int>)
    requires s != [] && (s[0] == 255 ==> Skip(s) == 2)
    ensures Skip(s + t) == Skip(s) && (s + t)[0] == s[0] && (s + t)[Skip(s)..] == s[Skip(s)..] + t
  {
  }

  lemma {:induction false} UnstuffAppend(s: seq<int>, t: seq<int>)
    requires Stuffed(s) && Stuffed(t)
    ensures Unstuff(s + t) == Unstuff(s) + Unstuff(t)
    decreases |s|
  {
    if s == [] {
      assert s + t == t;
    } else {
      StuffedRest(s, Skip(s));
      UnstuffAppend(s[Skip(s)..], t);
      assert s[0] == 255 ==> ZeroAt(s, 1);
      SkipAppend(s, t);
    }
  }

  /** What the writer puts out for one byte. */
  function Stuff(c: int): (r: seq<int>)
    ensures Stuffed(r) && Unstuff(r) == [c]
  {
    if c == 255 then
      assert [255, 0][2..] == [];
      assert ZeroAt([255, 0], 1);
      [255, 0]
    else
      assert [c][1..] == [];
      [c]
  }

  function ByteBits(bytes: seq<int>): seq<bool> {
    if bytes == [] then [] else ByteBits(bytes[..|bytes| - 1]) + Bits(if bytes[|bytes| - 1] < 0 then 0 else bytes[|bytes| - 1], 8)
  }

  // ---------------------------------------------------------------- the window

  /** The low 24 bits hold `pending`, `cnt` bits wide, at the top; whatever is above is junk. */
  predicate Window(buf: nat, cnt: nat, junk: nat, pending: nat) {
    cnt <= 24 && junk < 256 && pending < Pow2(cnt) && buf == Shl(junk, 24) + Shl(pending, 24 - cnt)
  }

  /** Junk and pending bits are one number. */
  lemma OneNumber(junk: nat, cnt: nat, p: nat, high: nat)
    ensures Shl(junk, cnt + high) + Shl(p, high) == Shl(Shl(junk, cnt) + p, high)
  {
    ShlShl(junk, cnt, high);
    ShlAdd(Shl(junk, cnt), p, high);
  }

  /** Below the pending bits the window is empty, so the or adds. */
  lemma CodeAdds(q: nat, v: nat, len: nat, low: nat, buf: nat)
    requires buf == Shl(q, len + low) && v < Pow2(len)
    ensures BitOr(buf, Shl(v, low)) == buf + Shl(v, low)
  {
    ShlRoom(v, len, low);
    OrIsPlus(q, len + low, Shl(v, low));
  }

  lemma CodeJoins(p: nat, cnt: nat, v: nat, len: nat, low: nat)
    requires p < Pow2(cnt) && v < Pow2(len)
    ensures Shl(p, len + low) + Shl(v, low) == Shl(Shl(p, len) + v, low) && Shl(p, len) + v < Pow2(cnt + len)
  {
    ShlShl(p, len, low);
    ShlAdd(Shl(p, len), v, low);
    ShlRoom(p, cnt, len);
  }

  /** `bitBuf |= v << (24 - bitCnt)` puts the code behind the pending bits. */
  lemma AddCode(buf: nat, cnt: nat, junk: nat, p: nat, v: nat, len: nat)
    requires Window(buf, cnt, junk, p) && cnt + len <= 24 && v < Pow2(len)
    ensures Window(BitOr(buf, Shl(v, 24 - (cnt + len))), cnt + len, junk, Shl(p, len) + v)
  {
    var low := 24 - (cnt + len);
    OneNumber(junk, cnt, p, len + low);
    CodeAdds(Shl(junk, cnt) + p, v, len, low, buf);
    CodeJoins(p, cnt, v, len, low);
  }

  lemma ShiftParts(junk: nat, c: nat, x: nat, buf: nat)
    requires junk < 256 && c < 256 && x < 65536 && buf == junk * 0x100_0000 + c * 65536 + x
    ensures (buf / 65536) % 256 == c && (buf * 256) % 0x1_0000_0000 == c * 0x100_0000 + x * 256
  {
    assert buf / 65536 == junk * 256 + c;
    assert buf * 256 == junk * 0x1_0000_0000 + (c * 0x100_0000 + x * 256);
  }

  /** The top byte of the pending bits is a byte. */
  lemma TopByte(p: nat, cnt: nat, c: nat)
    requires 8 <= cnt && Shl(c, cnt - 8) <= p < Pow2(cnt)
    ensures c < 256
  {
    ShlValues(1);
    ShlShl(1, 8, cnt - 8);
    if c >= 256 {
      ShlMonotone(256, c, cnt - 8);
      assert false;
    }
  }

  /** The rest below the top byte takes 16 bits. */
  lemma RestFits(cnt: nat, r: nat)
    requires 8 <= cnt <= 24 && r < Pow2(cnt - 8)
    ensures Shl(r, 24 - cnt) < 65536
  {
    var high := 24 - cnt;
    ShlRoom(r, cnt - 8, high);
    SixteenBits(cnt - 8 + high, 1);
  }

  /** The window as junk, the top byte and the rest. */
  lemma WindowParts(buf: nat, cnt: nat, junk: nat, p: nat, c: nat, r: nat, x: nat)
    requires Window(buf, cnt, junk, p) && cnt >= 8 && p == Shl(c, cnt - 8) + r && x == Shl(r, 24 - cnt)
    ensures buf == junk * 0x100_0000 + c * 65536 + x
  {
    var high := 24 - cnt;
    ShlAdd(Shl(c, cnt - 8), r, high);
    ShlShl(c, cnt - 8, high);
    ShlValues(c);
    ShlValues(junk);
  }

  lemma SixteenBits(n: nat, one: nat)
    requires n == 16 && one == 1
    ensures Pow2(n) == 65536
  {
    ShlValues(one);
  }

  lemma NextWindow(cnt: nat, c: nat, r: nat, x: nat)
    requires 8 <= cnt <= 24 && c < 256 && r < Pow2(cnt - 8) && x == Shl(r, 24 - cnt)
    ensures var window := Window(c * 0x100_0000 + x * 256, cnt - 8, c, r); window
  {
    ShlValues(c);
    ShlValues(x);
    ShlShl(r, 24 - cnt, 8);
  }

  /** The byte at the top of the window leaves it and the window moves up. */
  lemma ShiftOut(buf: nat, cnt: nat, junk: nat, p: nat, c: nat, r: nat)
    requires Window(buf, cnt, junk, p) && cnt >= 8 && p == Shl(c, cnt - 8) + r && r < Pow2(cnt - 8)
    ensures (buf / 65536) % 256 == c
    ensures var window := Window((buf * 256) % 0x1_0000_0000, cnt - 8, c, r); window
  {
    var x := Shl(r, 24 - cnt);
    TopByte(p, cnt, c);
    WindowParts(buf, cnt, junk, p, c, r, x);
    RestFits(cnt, r);
    ShiftParts(junk, c, x, buf);
    NextWindow(cnt, c, r, x);
  }

  /** The pending bits as a byte and a rest. */
  lemma TopAndRest(p: nat, low: nat) returns (c: nat, r: nat)
    ensures p == Shl(c, low) + r && r < Pow2(low) && Bits(p, 8 + low) == Bits(c, 8) + Bits(r, low)
  {
    c := Shr(p, low);
    ShrSplit(p, low);
    r := p - Shl(c, low);
    BitsAppend(c, 8, r, low);
  }

  // ---------------------------------------------------------------- stbiw__jpg_writeBits

  /** A code: a number and how many bits it has; no bits means no code. */
  datatype Code = Code(value: nat, len: nat) {
    predicate Fits() { len <= 16 && value < Pow2(len) }
    function AsBits(): seq<bool> { Bits(value, len) }
  }

  /** All bits that went in: the bytes already out, without stuffing, then the pending bits. */
  function Written(out: seq<int>, pending: nat, cnt: nat): seq<bool> { ByteBits(Unstuff(out)) + Bits(pending, cnt) }

  lemma ByteBitsAppend(bytes: seq<int>, c: nat)
    ensures ByteBits(bytes + [c]) == ByteBits(bytes) + Bits(c, 8)
  {
    assert (bytes + [c])[..|bytes|] == bytes;
  }

  lemma ByteOut(out: seq<int>, p: nat, cnt: nat, c: nat, r: nat, cnt': nat)
    requires Stuffed(out) && Bits(p, cnt) == Bits(c, 8) + Bits(r, cnt')
    ensures Stuffed(out + Stuff(c)) && Written(out + Stuff(c), r, cnt') == Written(out, p, cnt)
  {
    UnstuffAppend(out, Stuff(c));
    StuffedAppend(out, Stuff(c));
    ByteBitsAppend(Unstuff(out), c);
    Associative(ByteBits(Unstuff(out)), Bits(c, 8), Bits(r, cnt'));
  }

  lemma Associative(a: seq<bool>, b: seq<bool>, c: seq<bool>)
    ensures (a + b) + c == a + (b + c)
  {
  }

  /** Window and output hold the bits `content`. */
  ghost predicate Holding(out: seq<int>, buf: nat, cnt: nat, junk: nat, pending: nat, content: seq<bool>) {
    Window(buf, cnt, junk, pending) && Stuffed(out) && content == Written(out, pending, cnt)
  }

  /** With one more code they hold one code more. */
  lemma Pushed(out: seq<int>, buf: nat, cnt: nat, junk: nat, p: nat, content: seq<bool>, code: Code)
    requires Holding(out, buf, cnt, junk, p, content) && cnt < 8 && code.Fits()
    ensures var buf' := BitOr(buf, Shl(code.value, 24 - (cnt + code.len)));
            var holding := Holding(out, buf', cnt + code.len, junk, Shl(p, code.len) + code.value, content + code.AsBits()); holding
  {
    Associative(ByteBits(Unstuff(out)), Bits(p, cnt), code.AsBits());
    AddCode(buf, cnt, junk, p, code.value, code.len);
    BitsAppend(p, cnt, code.value, code.len);
  }

  /** They still do when the top byte has gone out. */
  lemma Emitted(out: seq<int>, buf: nat, cnt: nat, junk: nat, p: nat, content: seq<bool>) returns (rest: nat)
    requires Holding(out, buf, cnt, junk, p, content) && cnt >= 8
    ensures var c := (buf / 65536) % 256;
            var holding := Holding(out + Stuff(c), (buf * 256) % 0x1_0000_0000, cnt - 8, c, rest, content); holding
  {
    var c;
    c, rest := TopAndRest(p, cnt - 8);
    ShiftOut(buf, cnt, junk, p, c, rest);
    ByteOut(out, p, cnt, c, rest, cnt - 8);
  }

  /** No bits at all: an empty window and nothing written. */
  lemma NothingWritten(out: seq<int>, z: nat)
    requires |out| == z < 1
    ensures Window(z, z, z, z) && Stuffed(out) && Written(out, z, z) == []
  {
    ShlZero(24 - z);
  }

  /** No bytes, and zero. */
  method Nothing() returns (out: seq<int>, z: nat)
    ensures |out| == z < 1
  {
    out, z := [], 0;
  }

  class BitWriter {
    var out: seq<int>
    var bitBuf: nat
    var bitCnt: nat
    ghost var junk: nat
    ghost var pending: nat
    ghost var content: seq<bool>

    ghost predicate Valid()
      reads this
    {
      bitCnt < 8 && Holds()
    }

    /** The window and the output hold all bits written, `content`; also while bytes still wait to go out. */
    ghost predicate Holds()
      reads this
    {
      Holding(out, bitBuf, bitCnt, junk, pending, content)
    }

    /** Go on from any window. */
    constructor From(out: seq<int>, bitBuf: nat, bitCnt: nat, ghost junk: nat, ghost pending: nat)
      requires bitCnt < 8 && Window(bitBuf, bitCnt, junk, pending) && Stuffed(out)
      ensures Valid() && content == Written(out, pending, bitCnt)
    {
      this.out, this.bitBuf, this.bitCnt, this.junk, this.pending := out, bitBuf, bitCnt, junk, pending;
      content := Written(out, pending, bitCnt);
    }

    /** The start of a scan: no bits. */
    static method Start() returns (w: BitWriter)
      ensures fresh(w) && w.Valid() && w.content == []
    {
      var none, z := Nothing();
      NothingWritten(none, z);
      w := new BitWriter.From(none, z, z, z, z);
    }

    method PutByte(c: nat)
      modifies this`out
      ensures out == old(out) + Stuff(c)
    {
      out := out + [c];
      if c == 255 {
        out := out + [0];
      }
    }

    /** One iteration: the top byte goes out. */
    method EmitTop()
      requires 8 <= bitCnt && Holds()
      modifies this
      ensures bitCnt == old(bitCnt) - 8 && Holds() && content == old(content)
    {
      ghost var rest := Emitted(out, bitBuf, bitCnt, junk, pending, content);
      var c := (bitBuf / 65536) % 256;
      PutByte(c);
      junk, pending := c, rest;
      bitBuf := (bitBuf * 256) % 0x1_0000_0000;
      bitCnt := bitCnt - 8;
    }

    /** `bitCnt += len; bitBuf |= value << (24 - bitCnt)`. */
    method Push(code: Code)
      requires Valid() && code.Fits()
      modifies this`bitBuf, this`bitCnt, this`pending, this`content
      ensures Holds() && content == old(content) + code.AsBits()
    {
      Pushed(out, bitBuf, bitCnt, junk, pending, content, code);
      bitBuf := BitOr(bitBuf, Shl(code.value, 24 - (bitCnt + code.len)));
      bitCnt := bitCnt + code.len;
      pending := Shl(pending, code.len) + code.value;
      content := content + code.AsBits();
    }

    /** Append one code. */
    method WriteBits(code: Code)
      requires (var valid := Valid(); valid) && code.Fits()
      modifies this
      ensures (var valid := Valid(); valid) && content == old(content) + code.AsBits()
    {
      Push(code);
      while bitCnt >= 8
        invariant Holds() && content == old(content) + code.AsBits()
        decreases bitCnt
      {
        EmitTop();
      }
    }
  }
}
