/**
 Run-length packets of the TGA writer, down to the bytes of the file. A pixel is its `comp`
 bytes, one to four; the writer compares and writes whole pixels.
 */
module TgaRle {
  import opened Common

  type Pixel = seq<int>

  /** One pixel repeated, or pixels one by one. */
  datatype Packet = Run(n: nat, p: Pixel) | Raw(ps: seq<Pixel>)

  function Copies(p: Pixel, n: nat): (r: seq<Pixel>)
    ensures |r| == n && forall i :: 0 <= i < n ==> r[i] == p
  {
    seq(n, _ => p)
  }

  function Length(k: Packet): nat { if k.Run? then k.n else |k.ps| }

  function Expand(k: Packet): (r: seq<Pixel>)
    ensures |r| == Length(k)
  {
    if k.Run? then Copies(k.p, k.n) else k.ps
  }

  // ---------------------------------------------------------------- the format

  /** The order of a pixel's bytes in the file: colours from last to first, then alpha. */
  function FileOrder(p: Pixel): (r: seq<int>)
    ensures |r| == |p|
  {
    if |p| == 3 then [p[2], p[1], p[0]] else if |p| == 4 then [p[2], p[1], p[0], p[3]] else p
  }

  lemma FileOrderTwice(p: Pixel)
    ensures FileOrder(FileOrder(p)) == p
  {
  }

  /** Pixels and the bytes after them. */
  datatype Taken = Taken(ps: seq<Pixel>, rest: seq<int>)

  /** The next k pixels of `comp` bytes each. */
  function TakePixels(s: seq<int>, comp: nat, k: nat): Option<Taken> {
    if k == 0 then Some(Taken([], s))
    else if |s| < comp then None
    else match TakePixels(s[comp..], comp, k - 1)
      case None => None
      case Some(t) => Some(Taken([FileOrder(s[..comp])] + t.ps, t.rest))
  }

  /** The pixels of the packet at the front: a header from 128 on repeats one pixel, another copies pixels. */
  function ReadPacket(s: seq<int>, comp: nat): Option<Taken> {
    if s == [] || !(0 <= s[0] < 256) then None
    else if s[0] >= 128 then
      match TakePixels(s[1..], comp, 1)
      case Some(t) => if |t.ps| == 1 then Some(Taken(Copies(t.ps[0], s[0] - 127), t.rest)) else None
      case None => None
    else TakePixels(s[1..], comp, s[0] + 1)
  }

  function Prepend(ps: seq<Pixel>, rest: Option<seq<Pixel>>): Option<seq<Pixel>> {
    match rest
    case None => None
    case Some(qs) => Some(ps + qs)
  }

  /** Read packets to the end of the bytes. */
  function Decode(s: seq<int>, comp: nat): Option<seq<Pixel>>
    decreases |s|
  {
    if s == [] then Some([]) else
      match ReadPacket(s, comp)
      case None => None
      case Some(t) => if |t.rest| < |s| then Prepend(t.ps, Decode(t.rest, comp)) else None
  }

  // ---------------------------------------------------------------- packets

  /** Lengths from 1 to 128, as the header can hold, and pixels of `comp` bytes. */
  predicate PacketOk(k: Packet, comp: nat) {
    1 <= Length(k) <= 128 && (if k.Run? then |k.p| == comp else Uniform(k.ps, comp))
  }

  predicate Uniform(ps: seq<Pixel>, comp: nat) { forall i :: 0 <= i < |ps| ==> |ps[i]| == comp }

  function PixelBytes(ps: seq<Pixel>): seq<int> { if ps == [] then [] else FileOrder(ps[0]) + PixelBytes(ps[1..]) }

  /** len - 129 as an unsigned char. */
  function RunHeader(len: int): int { (len - 129) % 256 }

  function Bytes(k: Packet): seq<int> {
    if k.Run? then [RunHeader(k.n)] + PixelBytes([k.p]) else [|k.ps| - 1] + PixelBytes(k.ps)
  }

  lemma {:induction false} TakeAll(ps: seq<Pixel>, comp: nat, rest: seq<int>)
    requires Uniform(ps, comp)
    ensures TakePixels(PixelBytes(ps) + rest, comp, |ps|) == Some(Taken(ps, rest))
    decreases |ps|
  {
    if ps == [] {
      assert PixelBytes(ps) + rest == rest;
    } else {
      TakeAll(ps[1..], comp, rest);
      TakeFirst(ps[0], PixelBytes(ps[1..]) + rest, comp, ps[1..], rest);
      assert PixelBytes(ps) + rest == FileOrder(ps[0]) + (PixelBytes(ps[1..]) + rest);
      assert [ps[0]] + ps[1..] == ps;
    }
  }

  lemma TakeFirst(p: Pixel, more: seq<int>, comp: nat, ps: seq<Pixel>, rest: seq<int>)
    requires |p| == comp && TakePixels(more, comp, |ps|) == Some(Taken(ps, rest))
    ensures TakePixels(FileOrder(p) + more, comp, |ps| + 1) == Some(Taken([p] + ps, rest))
  {
    var s := FileOrder(p) + more;
    assert s[..comp] == FileOrder(p) && s[comp..] == more;
    FileOrderTwice(p);
  }

  lemma HeadTail(h: int, body: seq<int>, rest: seq<int>)
    ensures var s := [h] + body + rest; s != [] && s[0] == h && s[1..] == body + rest
  {
  }

  lemma ReadRun(s: seq<int>, comp: nat, n: nat, p: Pixel, rest: seq<int>)
    requires 1 <= n <= 128 && s != [] && s[0] == RunHeader(n) && TakePixels(s[1..], comp, 1) == Some(Taken([p], rest))
    ensures ReadPacket(s, comp) == Some(Taken(Copies(p, n), rest))
  {
  }

  lemma ReadRaw(s: seq<int>, comp: nat, ps: seq<Pixel>, rest: seq<int>)
    requires 1 <= |ps| <= 128 && s != [] && s[0] == |ps| - 1 && TakePixels(s[1..], comp, |ps|) == Some(Taken(ps, rest))
    ensures ReadPacket(s, comp) == Some(Taken(ps, rest))
  {
  }

  lemma ReadBytes(k: Packet, comp: nat, rest: seq<int>)
    requires PacketOk(k, comp)
    ensures ReadPacket(Bytes(k) + rest, comp) == Some(Taken(Expand(k), rest))
  {
    var ps := if k.Run? then [k.p] else k.ps;
    var h := if k.Run? then RunHeader(k.n) else |k.ps| - 1;
    TakeAll(ps, comp, rest);
    HeadTail(h, PixelBytes(ps), rest);
    if k.Run? {
      ReadRun(Bytes(k) + rest, comp, k.n, k.p, rest);
    } else {
      ReadRaw(Bytes(k) + rest, comp, k.ps, rest);
    }
  }

  lemma DecodePacket(k: Packet, comp: nat, rest: seq<int>)
    requires PacketOk(k, comp)
    ensures Decode(Bytes(k) + rest, comp) == Prepend(Expand(k), Decode(rest, comp))
  {
    ReadBytes(k, comp, rest);
    assert |Bytes(k) + rest| > |rest|;
  }

  // ---------------------------------------------------------------- streams

  lemma PrependTwice(ps: seq<Pixel>, qs: seq<Pixel>, rest: Option<seq<Pixel>>)
    ensures Prepend(ps, Prepend(qs, rest)) == Prepend(ps + qs, rest)
    ensures Prepend([], rest) == rest
  {
    if rest.Some? {
      assert ps + (qs + rest.value) == (ps + qs) + rest.value;
      assert [] + rest.value == rest.value;
    }
  }

  predicate Before(out: seq<int>, comp: nat, ps: seq<Pixel>, rest: seq<int>) {
    Decode(out + rest, comp) == Prepend(ps, Decode(rest, comp))
  }

  /** In front of any other packets, the bytes decode to exactly the pixels. */
  ghost predicate Means(out: seq<int>, comp: nat, ps: seq<Pixel>) {
    forall rest {:trigger Before(out, comp, ps, rest)} :: Before(out, comp, ps, rest)
  }

  lemma NothingMeans(comp: nat)
    ensures Means([], comp, [])
  {
    forall rest: seq<int> {:trigger Before([], comp, [], rest)}
      ensures Before([], comp, [], rest)
    {
      assert [] + rest == rest;
      PrependTwice([], [], Decode(rest, comp));
    }
  }

  lemma MeansJoin(comp: nat, a: seq<int>, p: seq<Pixel>, b: seq<int>, q: seq<Pixel>)
    requires Means(a, comp, p) && Means(b, comp, q)
    ensures Means(a + b, comp, p + q)
  {
    forall rest: seq<int> {:trigger Before(a + b, comp, p + q, rest)}
      ensures Before(a + b, comp, p + q, rest)
    {
      assert Before(b, comp, q, rest) && Before(a, comp, p, b + rest);
      assert a + b + rest == a + (b + rest);
      PrependTwice(p, q, Decode(rest, comp));
    }
  }

  lemma PacketMeans(k: Packet, comp: nat)
    requires PacketOk(k, comp)
    ensures Means(Bytes(k), comp, Expand(k))
  {
    forall rest: seq<int> {:trigger Before(Bytes(k), comp, Expand(k), rest)}
      ensures Before(Bytes(k), comp, Expand(k), rest)
    {
      DecodePacket(k, comp, rest);
    }
  }

  /** A row of packets. */
  datatype Packets = NoPackets | Snoc(init: Packets, last: Packet)

  predicate AllOk(ks: Packets, comp: nat) { ks.Snoc? ==> AllOk(ks.init, comp) && PacketOk(ks.last, comp) }

  function Stream(ks: Packets): seq<int> { if ks.NoPackets? then [] else Stream(ks.init) + Bytes(ks.last) }

  function ExpandAll(ks: Packets): seq<Pixel> { if ks.NoPackets? then [] else ExpandAll(ks.init) + Expand(ks.last) }

  /** A stream that the writer builds: packets of length 1 to 128 that stand for `ps`. */
  predicate Encodes(out: seq<int>, ks: Packets, comp: nat, ps: seq<Pixel>) {
    AllOk(ks, comp) && out == Stream(ks) && ps == ExpandAll(ks)
  }

  /** Whatever is built from such packets decodes to what they stand for, whatever follows. */
  lemma {:induction false} StreamDecodes(ks: Packets, comp: nat)
    requires AllOk(ks, comp)
    ensures Means(Stream(ks), comp, ExpandAll(ks))
  {
    if ks.NoPackets? {
      NothingMeans(comp);
    } else {
      StreamDecodes(ks.init, comp);
      PacketMeans(ks.last, comp);
      MeansJoin(comp, Stream(ks.init), ExpandAll(ks.init), Bytes(ks.last), Expand(ks.last));
    }
  }

  /** On its own, too. */
  lemma RoundTrip(out: seq<int>, comp: nat, ps: seq<Pixel>)
    requires Means(out, comp, ps)
    ensures Decode(out, comp) == Some(ps)
  {
    assert Before(out, comp, ps, []);
    assert out + [] == out;
    assert ps + [] == ps;
  }

  // ---------------------------------------------------------------- the row loop

  /** stbiw__write_pixel for rgb_dir -1, without expanding mono, and with alpha if there is one. */
  method WritePixel(out: seq<int>, d: Pixel) returns (out': seq<int>)
    requires 1 <= |d| <= 4
    ensures |out'| == |out| + |d| && out <= out' && FileOrder(out'[|out|..]) == d
    ensures |d| >= 3 ==> out'[|out|..][..3] == [d[2], d[1], d[0]]
    ensures |d| <= 2 ==> out'[|out|..] == d
    ensures |d| == 4 ==> out'[|out| + 3] == d[3]
  {
    var comp, hasAlpha := |d|, |d| == 2 || |d| == 4;
    if comp <= 2 {
      out' := out + [d[0]];
    } else {
      out' := out + [d[2], d[1], d[0]];
    }
    if hasAlpha {
      out' := out' + [d[comp - 1]];
    }
    assert out'[|out|..] == FileOrder(d);
    FileOrderTwice(d);
  }

  /**
   The packet that starts at pixel i. A literal stretch ends where a pixel equals the one two
   places before it; a run lasts as long as the pixels equal the first.
   */
  method NextPacket(row: seq<Pixel>, i: nat) returns (len: nat, diff: bool)
    requires i < |row|
    ensures 1 <= len <= 128 && i + len <= |row|
    ensures diff <==> i + 1 == |row| || row[i] != row[i + 1]
    ensures diff ==> forall k :: i + 2 <= k < i + len ==> row[k] != row[k - 2]
    ensures diff && len < 128 && i + len < |row| ==> i + len + 1 < |row| && row[i + len + 1] == row[i + len - 1]
    ensures !diff ==> len >= 2 && row[i..i + len] == Copies(row[i], len)
    ensures !diff && len < 128 && i + len < |row| ==> row[i + len] != row[i]
  {
    diff, len := true, 1;
    if i < |row| - 1 {
      len := 2;
      diff := row[i] != row[i + 1];
      if diff {
        var prev, k := i, i + 2;
        while k < |row| && len < 128
          invariant 2 <= len <= 128 && k == i + len <= |row| && prev == k - 2
          invariant forall j :: i + 2 <= j < k ==> row[j] != row[j - 2]
        {
          if row[prev] != row[k] {
            prev := prev + 1;
            len := len + 1;
          } else {
            len := len - 1;
            break;
          }
          k := k + 1;
        }
      } else {
        var k := i + 2;
        while k < |row| && len < 128
          invariant 2 <= len <= 128 && k == i + len <= |row|
          invariant forall j :: i <= j < k ==> row[j] == row[i]
        {
          if row[i] == row[k] {
            len := len + 1;
          } else {
            break;
          }
          k := k + 1;
        }
      }
    }
  }

  lemma {:induction false} PixelBytesAppend(ps: seq<Pixel>, p: Pixel)
    ensures PixelBytes(ps + [p]) == PixelBytes(ps) + FileOrder(p)
    decreases |ps|
  {
    if ps == [] {
      assert ps + [p] == [p] && [p][1..] == [];
    } else {
      PixelBytesAppend(ps[1..], p);
      assert (ps + [p])[1..] == ps[1..] + [p];
    }
  }

  lemma PixelWritten(out: seq<int>, ps: seq<Pixel>, k: nat, now: seq<int>, next: seq<int>)
    requires k < |ps| && now == out + PixelBytes(ps[..k]) && now <= next && FileOrder(next[|now|..]) == ps[k]
    ensures next == out + PixelBytes(ps[..k + 1])
  {
    FileOrderTwice(next[|now|..]);
    PixelBytesAppend(ps[..k], ps[k]);
    assert ps[..k + 1] == ps[..k] + [ps[k]];
    assert next == now + next[|now|..];
  }

  /** The pixels of a packet, one after the other. */
  method WritePixels(out: seq<int>, ps: seq<Pixel>, ghost comp: nat) returns (out': seq<int>)
    requires Uniform(ps, comp) && 1 <= comp <= 4
    ensures out' == out + PixelBytes(ps)
  {
    out' := out;
    for k := 0 to |ps|
      invariant out' == out + PixelBytes(ps[..k])
    {
      var next := WritePixel(out', ps[k]);
      PixelWritten(out, ps, k, out', next);
      out' := next;
    }
    assert ps[..|ps|] == ps;
  }

  /** Write the packet that starts at pixel i. */
  method WritePacket(row: seq<Pixel>, i: nat, out: seq<int>, ghost comp: nat) returns (out': seq<int>, len: nat, ghost k: Packet)
    requires i < |row| && Uniform(row, comp) && 1 <= comp <= 4
    ensures PacketOk(k, comp) && out' == out + Bytes(k) && len == Length(k) && i + len <= |row| && Expand(k) == row[i..i + len]
  {
    var diff;
    len, diff := NextPacket(row, i);
    if diff {
      k := Raw(row[i..i + len]);
      out' := WritePixels(out + [len - 1], row[i..i + len], comp);
    } else {
      k := Run(len, row[i]);
      out' := WritePixels(out + [RunHeader(len)], [row[i]], comp);
    }
  }

  /** One row: packets until the row is used up. */
  method EncodeRow(row: seq<Pixel>, ghost comp: nat) returns (out: seq<int>, ghost ks: Packets)
    requires Uniform(row, comp) && 1 <= comp <= 4
    ensures Encodes(out, ks, comp, row) && Means(out, comp, row) && Decode(out, comp) == Some(row)
  {
    out, ks := [], NoPackets;
    var i := 0;
    while i < |row|
      invariant 0 <= i <= |row| && Encodes(out, ks, comp, row[..i])
    {
      var next, len, k := WritePacket(row, i, out, comp);
      assert row[..i + len] == row[..i] + row[i..i + len];
      out, ks, i := next, Snoc(ks, k), i + len;
    }
    assert row[..i] == row;
    StreamDecodes(ks, comp);
    RoundTrip(out, comp, row);
  }

  /** The rows in the order of the file: bottom up, or top down when flipped. */
  function InOrder(rows: seq<seq<Pixel>>, flip: bool, count: nat): seq<Pixel>
    requires count <= |rows|
  {
    if count == 0 then []
    else InOrder(rows, flip, count - 1) + rows[if flip then count - 1 else |rows| - count]
  }

  /** Line r of the file is row r from the bottom, or with flip from the top. */
  lemma {:induction false} LinesInOrder(rows: seq<seq<Pixel>>, flip: bool, width: nat, count: nat, r: nat, x: nat)
    requires r < count <= |rows| && x < width && forall j :: 0 <= j < |rows| ==> |rows[j]| == width
    ensures |InOrder(rows, flip, count)| == count * width && 0 <= r * width + x < count * width
    ensures InOrder(rows, flip, count)[r * width + x] == rows[if flip then r else |rows| - 1 - r][x]
  {
    LinesLength(rows, flip, width, count - 1);
    assert count * width == (count - 1) * width + width;
    if r < count - 1 {
      LinesInOrder(rows, flip, width, count - 1, r, x);
    }
  }

  lemma {:induction false} LinesLength(rows: seq<seq<Pixel>>, flip: bool, width: nat, count: nat)
    requires count <= |rows| && forall j :: 0 <= j < |rows| ==> |rows[j]| == width
    ensures |InOrder(rows, flip, count)| == count * width >= 0
  {
    if count > 0 {
      LinesLength(rows, flip, width, count - 1);
      assert count * width == (count - 1) * width + width;
    }
  }

  /** The bytes of packets: from 128 on a run of one pixel, otherwise one pixel more than the header says. */
  lemma PacketBytes(k: Packet, comp: nat)
    requires PacketOk(k, comp) && 1 <= comp <= 4
    ensures match k
            case Run(n, p) => |Bytes(k)| == 1 + comp && Bytes(k)[0] == 127 + n && FileOrder(Bytes(k)[1..]) == p
            case Raw(ps) => Bytes(k) == [|ps| - 1] + PixelBytes(ps)
  {
    if k.Run? {
      assert [k.p][1..] == [] && PixelBytes([k.p]) == FileOrder(k.p) + [];
      assert Bytes(k)[1..] == FileOrder(k.p);
      FileOrderTwice(k.p);
    }
  }

  /** The row loop of stbi_write_tga_core: the bytes of the file decode to the rows in file order. */
  method EncodeImage(rows: seq<seq<Pixel>>, flip: bool, ghost comp: nat) returns (out: seq<int>)
    requires 1 <= comp <= 4 && forall j :: 0 <= j < |rows| ==> Uniform(rows[j], comp)
    ensures Decode(out, comp) == Some(InOrder(rows, flip, |rows|))
  {
    out := [];
    var j, jend, jdir := if flip then 0 else |rows| - 1, if flip then |rows| else -1, if flip then 1 else -1;
    ghost var count: nat := 0;
    NothingMeans(comp);
    while j != jend
      invariant count <= |rows| && j == (if flip then count else |rows| - 1 - count)
      invariant var means := Means(out, comp, InOrder(rows, flip, count)); means
      decreases |rows| - count
    {
      var bytes, packets := EncodeRow(rows[j], comp);
      MeansJoin(comp, out, InOrder(rows, flip, count), bytes, rows[j]);
      out, count := out + bytes, count + 1;
      j := j + jdir;
    }
    RoundTrip(out, comp, InOrder(rows, flip, |rows|));
  }
}
