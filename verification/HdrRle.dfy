/** Run-length coded scanlines of the Radiance HDR writer: four byte components after a header. */
module HdrRle {
  import opened Common

  /** Data bytes are passed through unread; length codes are between 1 and 255. */
  type Byte = int

  /** A repeated byte, or bytes one by one. */
  datatype Packet = Run(n: nat, b: Byte) | Dump(bs: seq<Byte>)

  function Expand(k: Packet): seq<Byte> { if k.Run? then Repeat(k.b, k.n) else k.bs }

  // ---------------------------------------------------------------- the format

  /** The packet at the front: a code above 128 repeats one byte, another copies that many. */
  function ReadPacket(s: seq<Byte>): Option<Packet> {
    if |s| < 2 || !(0 < s[0] < 256) then None
    else if s[0] > 128 then Some(Run(s[0] - 128, s[1]))
    else if |s| < 1 + s[0] then None
    else Some(Dump(s[1..1 + s[0]]))
  }

  function Used(k: Packet): nat { if k.Run? then 2 else 1 + |k.bs| }

  /** Decoded bytes and what follows them. */
  datatype Part = Part(bytes: seq<Byte>, rest: seq<Byte>)

  function Prepend(bs: seq<Byte>, p: Option<Part>): Option<Part> {
    match p
    case None => None
    case Some(q) => Some(Part(bs + q.bytes, q.rest))
  }

  /** Read packets until there are `width` bytes; a packet may not go beyond. */
  function Decode(s: seq<Byte>, width: nat): Option<Part>
    decreases width
  {
    if width == 0 then Some(Part([], s)) else
      match ReadPacket(s)
      case None => None
      case Some(k) =>
        if |Expand(k)| == 0 || |Expand(k)| > width || Used(k) > |s| then None
        else Prepend(Expand(k), Decode(s[Used(k)..], width - |Expand(k)|))
  }

  // ---------------------------------------------------------------- packets

  /** Runs of at most 127 bytes, dumps of at most 128. */
  predicate LengthOk(k: Packet) { if k.Run? then 1 <= k.n <= 127 else 1 <= |k.bs| <= 128 }

  function Bytes(k: Packet): (r: seq<Byte>)
    requires LengthOk(k)
    ensures |r| == Used(k)
  {
    if k.Run? then [RunCode(k.n), k.b] else [DumpCode(|k.bs|)] + k.bs
  }

  function RunCode(length: int): Byte { (length + 128) % 256 }
  function DumpCode(length: int): Byte { length % 256 }

  lemma ReadBytes(k: Packet, rest: seq<Byte>)
    requires LengthOk(k)
    ensures ReadPacket(Bytes(k) + rest) == Some(k)
  {
    var s := Bytes(k) + rest;
    if k.Dump? {
      assert s[0] == |k.bs|;
      assert s[1..1 + |k.bs|] == k.bs;
    }
  }

  lemma DecodePacket(k: Packet, rest: seq<Byte>, more: nat)
    requires LengthOk(k)
    ensures Decode(Bytes(k) + rest, |Expand(k)| + more) == Prepend(Expand(k), Decode(rest, more))
  {
    ReadBytes(k, rest);
    assert (Bytes(k) + rest)[Used(k)..] == rest;
  }

  lemma PrependTwice(a: seq<Byte>, b: seq<Byte>, p: Option<Part>)
    ensures Prepend(a, Prepend(b, p)) == Prepend(a + b, p)
    ensures Prepend([], p) == p
  {
    if p.Some? {
      assert a + (b + p.value.bytes) == (a + b) + p.value.bytes;
      assert [] + p.value.bytes == p.value.bytes;
    }
  }

  /** A decoder as a value, so that the laws of joining streams hold for any. */
  type Decoder = (seq<Byte>, nat) -> Option<Part>

  function TheDecoder(): Decoder { (s: seq<Byte>, width: nat) => Decode(s, width) }

  /** In front of any stream of which any number of bytes is still wanted, `out` decodes to `bs`. */
  ghost predicate Means(dec: Decoder, out: seq<Byte>, bs: seq<Byte>) {
    forall rest, more: nat {:trigger Before(dec, out, bs, rest, more)} :: Before(dec, out, bs, rest, more)
  }

  predicate Before(dec: Decoder, out: seq<Byte>, bs: seq<Byte>, rest: seq<Byte>, more: nat) {
    dec(out + rest, |bs| + more) == Prepend(bs, dec(rest, more))
  }

  lemma NothingMeans(dec: Decoder)
    ensures Means(dec, [], [])
  {
    forall rest: seq<Byte>, more: nat {:trigger Before(dec, [], [], rest, more)}
      ensures Before(dec, [], [], rest, more)
    {
      assert [] + rest == rest;
      PrependTwice([], [], dec(rest, more));
    }
  }

  lemma MeansJoin(dec: Decoder, a: seq<Byte>, p: seq<Byte>, b: seq<Byte>, q: seq<Byte>)
    requires Means(dec, a, p) && Means(dec, b, q)
    ensures Means(dec, a + b, p + q)
  {
    forall rest: seq<Byte>, more: nat {:trigger Before(dec, a + b, p + q, rest, more)}
      ensures Before(dec, a + b, p + q, rest, more)
    {
      assert Before(dec, b, q, rest, more) && Before(dec, a, p, b + rest, |q| + more);
      assert a + b + rest == a + (b + rest);
      PrependTwice(p, q, dec(rest, more));
    }
  }

  lemma PacketBefore(k: Packet, rest: seq<Byte>, more: nat)
    requires LengthOk(k)
    ensures Before(TheDecoder(), Bytes(k), Expand(k), rest, more)
  {
    DecodePacket(k, rest, more);
  }

  lemma PacketMeans(k: Packet)
    requires LengthOk(k)
    ensures Means(TheDecoder(), Bytes(k), Expand(k))
  {
    forall rest: seq<Byte>, more: nat {:trigger Before(TheDecoder(), Bytes(k), Expand(k), rest, more)}
      ensures Before(TheDecoder(), Bytes(k), Expand(k), rest, more)
    {
      PacketBefore(k, rest, more);
    }
  }

  /** A row of packets. */
  datatype Packets = NoPackets | Snoc(init: Packets, last: Packet)

  predicate AllOk(ks: Packets) { ks.Snoc? ==> AllOk(ks.init) && LengthOk(ks.last) }

  function Stream(ks: Packets): seq<Byte>
    requires AllOk(ks)
  {
    if ks.NoPackets? then [] else Stream(ks.init) + Bytes(ks.last)
  }

  function ExpandAll(ks: Packets): seq<Byte> { if ks.NoPackets? then [] else ExpandAll(ks.init) + Expand(ks.last) }

  /** A stream that the writer builds: runs of at most 127 and dumps of at most 128 bytes that stand for `bs`. */
  predicate Encodes(out: seq<Byte>, ks: Packets, bs: seq<Byte>) { AllOk(ks) && out == Stream(ks) && bs == ExpandAll(ks) }

  /** Whatever is built from such packets decodes to what they stand for. */
  lemma {:induction false} EncodesMeans(ks: Packets)
    requires AllOk(ks)
    ensures Means(TheDecoder(), Stream(ks), ExpandAll(ks))
  {
    if ks.NoPackets? {
      NothingMeans(TheDecoder());
    } else {
      EncodesMeans(ks.init);
      PacketMeans(ks.last);
      MeansJoin(TheDecoder(), Stream(ks.init), ExpandAll(ks.init), Bytes(ks.last), Expand(ks.last));
    }
  }

  /** The stream of a component decodes to it, whatever follows. */
  lemma RoundTrip(out: seq<Byte>, bs: seq<Byte>, rest: seq<Byte>)
    requires Means(TheDecoder(), out, bs)
    ensures Decode(out + rest, |bs|) == Some(Part(bs, rest))
  {
    assert Before(TheDecoder(), out, bs, rest, 0);
    assert Decode(rest, 0) == Some(Part([], rest));
    assert bs + [] == bs;
  }

  // ---------------------------------------------------------------- the component loop

  predicate ReadsBefore(s: seq<Byte>, k: Packet, rest: seq<Byte>) { ReadPacket(s + rest) == Some(k) }

  /** A reader gets the packet from exactly these bytes, whatever follows. */
  ghost predicate Reads(s: seq<Byte>, k: Packet) {
    |s| == Used(k) && forall rest {:trigger ReadsBefore(s, k, rest)} :: ReadsBefore(s, k, rest)
  }

  lemma BytesRead(k: Packet)
    requires LengthOk(k)
    ensures Reads(Bytes(k), k)
  {
    forall rest {:trigger ReadsBefore(Bytes(k), k, rest)}
      ensures ReadsBefore(Bytes(k), k, rest)
    {
      ReadBytes(k, rest);
    }
  }

  /** Only one byte string reads as a packet. */
  lemma ReadsBytes(s: seq<Byte>, k: Packet)
    requires LengthOk(k) && Reads(s, k)
    ensures s == Bytes(k)
  {
    assert ReadsBefore(s, k, []);
    assert s + [] == s;
    if k.Dump? {
      assert s == [s[0]] + s[1..1 + |k.bs|];
    }
  }

  /** stbiw__write_run_data; the length fits the length byte, as the source asserts. */
  method WriteRunData(out: seq<Byte>, length: nat, b: Byte) returns (out': seq<Byte>)
    requires 1 <= length && length + 128 <= 255
    ensures out <= out' && Reads(out'[|out|..], Run(length, b))
  {
    out' := out + [RunCode(length), b];
    BytesRead(Run(length, b));
    assert out'[|out|..] == Bytes(Run(length, b));
  }

  /** stbiw__write_dump_data. */
  method WriteDumpData(out: seq<Byte>, data: seq<Byte>) returns (out': seq<Byte>)
    requires 1 <= |data| <= 128
    ensures out <= out' && Reads(out'[|out|..], Dump(data))
  {
    out' := out + ([DumpCode(|data|)] + data);
    BytesRead(Dump(data));
    assert out'[|out|..] == Bytes(Dump(data));
  }

  /** Three equal bytes start at r. */
  predicate RunAt(comp: seq<Byte>, r: nat) { r + 2 < |comp| && comp[r] == comp[r + 1] == comp[r + 2] }

  /** The first place from x on where three equal bytes start, or the end. */
  method FindRun(comp: seq<Byte>, x: nat) returns (r: nat)
    requires x < |comp|
    ensures x <= r <= |comp| && (r < |comp| <==> RunAt(comp, r)) && (r < |comp| ==> r + 2 < |comp|)
    ensures forall j :: x <= j < r ==> !RunAt(comp, j)
  {
    r := x;
    while r + 2 < |comp|
      invariant x <= r && (r < |comp|) && forall j :: x <= j < r ==> !RunAt(comp, j)
    {
      if comp[r] == comp[r + 1] && comp[r] == comp[r + 2] {
        break;
      }
      r := r + 1;
    }
    if r + 2 >= |comp| {
      r := |comp|;
    }
  }

  /** One more packet, written behind `out`. */
  lemma EncodesMore(out: seq<Byte>, ks: Packets, bs: seq<Byte>, k: Packet, out': seq<Byte>)
    requires Encodes(out, ks, bs) && LengthOk(k) && out <= out' && Reads(out'[|out|..], k)
    ensures Encodes(out', Snoc(ks, k), bs + Expand(k))
  {
    ReadsBytes(out'[|out|..], k);
    assert out' == out + out'[|out|..];
  }

  /** One dump of bytes from i on, at most 128 of them. */
  method DumpOne(comp: seq<Byte>, i: nat, r: nat, out: seq<Byte>, ghost ks: Packets) returns (i': nat, out': seq<Byte>, ghost ks': Packets)
    requires i < r <= |comp| && Encodes(out, ks, comp[..i])
    ensures i < i' <= r && Encodes(out', ks', comp[..i'])
  {
    var len := if r - i > 128 then 128 else r - i;
    var data := comp[i..i + len];
    out' := WriteDumpData(out, data);
    EncodesMore(out, ks, comp[..i], Dump(data), out');
    i', ks' := i + len, Snoc(ks, Dump(data));
    assert comp[..i + len] == comp[..i] + data;
  }

  /** Dump bytes from x up to r. */
  method DumpTo(comp: seq<Byte>, x: nat, r: nat, out: seq<Byte>, ghost ks: Packets) returns (out': seq<Byte>, ghost ks': Packets)
    requires x <= r <= |comp| && Encodes(out, ks, comp[..x])
    ensures Encodes(out', ks', comp[..r])
  {
    out', ks' := out, ks;
    var i := x;
    while i < r
      invariant x <= i <= r && Encodes(out', ks', comp[..i])
    {
      i, out', ks' := DumpOne(comp, i, r, out', ks');
    }
  }

  predicate AllSame(comp: seq<Byte>, x: nat, r: nat) {
    x < r <= |comp| && forall j :: x <= j < r ==> comp[j] == comp[x]
  }

  /** One run from i on, of at most 127 bytes. */
  method RunOne(comp: seq<Byte>, ghost x: nat, i: nat, r: nat, out: seq<Byte>, ghost ks: Packets)
    returns (i': nat, out': seq<Byte>, ghost ks': Packets)
    requires AllSame(comp, x, r) && x <= i < r && Encodes(out, ks, comp[..i])
    ensures i < i' <= r && Encodes(out', ks', comp[..i'])
  {
    var len := if r - i > 127 then 127 else r - i;
    var b := comp[i];
    out' := WriteRunData(out, len, b);
    EncodesMore(out, ks, comp[..i], Run(len, b), out');
    i', ks' := i + len, Snoc(ks, Run(len, b));
    assert comp[..i + len] == comp[..i] + Repeat(b, len);
  }

  /** Write bytes x up to r, all equal, as runs. */
  method RunTo(comp: seq<Byte>, x: nat, r: nat, out: seq<Byte>, ghost ks: Packets) returns (out': seq<Byte>, ghost ks': Packets)
    requires AllSame(comp, x, r) && Encodes(out, ks, comp[..x])
    ensures Encodes(out', ks', comp[..r])
  {
    out', ks' := out, ks;
    var i := x;
    while i < r
      invariant x <= i <= r && Encodes(out', ks', comp[..i])
    {
      i, out', ks' := RunOne(comp, x, i, r, out', ks');
    }
  }

  /** The byte after the run that starts at x. */
  method RunEnd(comp: seq<Byte>, x: nat) returns (r: nat)
    requires x < |comp|
    ensures AllSame(comp, x, r)
    ensures r < |comp| ==> comp[r] != comp[x]
  {
    r := x;
    while r < |comp| && comp[r] == comp[x]
      invariant x <= r <= |comp| && forall j :: x <= j < r ==> comp[j] == comp[x]
      decreases |comp| - r
    {
      r := r + 1;
    }
  }

  /** Code one component: runs of at most 127 and dumps of at most 128 bytes that decode to it. */
  method EncodeComponent(comp: seq<Byte>) returns (out: seq<Byte>, ghost ks: Packets)
    ensures Encodes(out, ks, comp) && Means(TheDecoder(), out, comp)
  {
    out, ks := [], NoPackets;
    var x := 0;
    while x < |comp|
      invariant 0 <= x <= |comp| && Encodes(out, ks, comp[..x])
    {
      var r := FindRun(comp, x);
      out, ks := DumpTo(comp, x, r, out, ks);
      x := r;
      if r + 2 < |comp| {
        r := RunEnd(comp, x);
        out, ks := RunTo(comp, x, r, out, ks);
        x := r;
      }
    }
    assert comp[..x] == comp;
    EncodesMeans(ks);
  }

  // ---------------------------------------------------------------- the scanline

  /** Decode `count` components of the given width. */
  function DecodeComponents(s: seq<Byte>, width: nat, count: nat): Option<seq<seq<Byte>>>
    decreases count
  {
    if count == 0 then if s == [] then Some([]) else None else
      match Decode(s, width)
      case None => None
      case Some(p) =>
        match DecodeComponents(p.rest, width, count - 1)
        case None => None
        case Some(cs) => Some([p.bytes] + cs)
  }

  function Width(high: nat, low: nat): nat { high * 256 + low }

  /** A run-length coded scanline: 2, 2, the width in two bytes below 128 and 256, four components. */
  function DecodeScanline(s: seq<Byte>): Option<seq<seq<Byte>>> {
    if |s| < 4 || s[0] != 2 || s[1] != 2 || !(0 <= s[2] < 128) || !(0 <= s[3] < 256) then None
    else DecodeComponents(s[4..], Width(s[2], s[3]), 4)
  }

  /** The streams of components from c on, one after the other. */
  function Joined(parts: seq<seq<Byte>>): seq<Byte> { if parts == [] then [] else parts[0] + Joined(parts[1..]) }

  ghost predicate AllDecode(parts: seq<seq<Byte>>, comps: seq<seq<Byte>>, width: nat) {
    && |parts| == |comps|
    && (forall c :: 0 <= c < |comps| ==> |comps[c]| == width && Means(TheDecoder(), parts[c], comps[c]))
  }

  lemma DecodeFirst(part: seq<Byte>, comp: seq<Byte>, rest: seq<Byte>, count: nat)
    requires Means(TheDecoder(), part, comp) && DecodeComponents(rest, |comp|, count).Some?
    ensures DecodeComponents(part + rest, |comp|, count + 1) == Some([comp] + DecodeComponents(rest, |comp|, count).value)
  {
    RoundTrip(part, comp, rest);
  }

  lemma {:induction false} DecodeJoined(parts: seq<seq<Byte>>, comps: seq<seq<Byte>>, width: nat)
    requires AllDecode(parts, comps, width)
    ensures DecodeComponents(Joined(parts), width, |comps|) == Some(comps)
    decreases |parts|
  {
    if parts != [] {
      DecodeJoined(parts[1..], comps[1..], width);
      DecodeFirst(parts[0], comps[0], Joined(parts[1..]), |comps| - 1);
      assert [comps[0]] + comps[1..] == comps;
    }
  }

  lemma {:induction false} JoinedAppend(parts: seq<seq<Byte>>, part: seq<Byte>)
    ensures Joined(parts + [part]) == Joined(parts) + part
    decreases |parts|
  {
    if parts == [] {
      assert Joined([part]) == part + Joined([part][1..]);
    } else {
      JoinedAppend(parts[1..], part);
      assert (parts + [part])[1..] == parts[1..] + [part];
    }
  }

  lemma OneMore(parts: seq<seq<Byte>>, comps: seq<seq<Byte>>, width: nat, part: seq<Byte>, c: nat)
    requires c < |comps| && AllDecode(parts, comps[..c], width) && |comps[c]| == width && Means(TheDecoder(), part, comps[c])
    ensures AllDecode(parts + [part], comps[..c + 1], width)
  {
  }

  /** Code the components one after the other. */
  method WriteComponents(width: nat, scratch: seq<seq<Byte>>) returns (out: seq<Byte>, ghost parts: seq<seq<Byte>>)
    requires |scratch| == 4 && forall c :: 0 <= c < 4 ==> |scratch[c]| == width
    ensures AllDecode(parts, scratch, width) && out == Joined(parts)
  {
    out, parts := [], [];
    for c := 0 to 4
      invariant AllDecode(parts, scratch[..c], width) && out == Joined(parts)
    {
      var part, ks := EncodeComponent(scratch[c]);
      OneMore(parts, scratch, width, part, c);
      JoinedAppend(parts, part);
      out, parts := out + part, parts + [part];
    }
    assert scratch[..4] == scratch;
  }

  /** The bytes of packets: above 128 a run and its byte, otherwise a count and that many bytes. */
  lemma PacketBytes(k: Packet)
    requires LengthOk(k)
    ensures match k
            case Run(n, b) => Bytes(k) == [128 + n, b]
            case Dump(bs) => Bytes(k) == [|bs|] + bs && |bs| <= 128
  {
  }

  lemma SplitWidth(width: nat)
    requires width < 32768
    ensures width / 256 < 128 && Width(width / 256, width % 256) == width
  {
  }

  /** The run-length branch of stbiw__write_hdr_scanline, from the four components on. */
  method WriteScanline(width: nat, scratch: seq<seq<Byte>>) returns (out: seq<Byte>)
    requires 8 <= width < 32768 && |scratch| == 4 && forall c :: 0 <= c < 4 ==> |scratch[c]| == width
    ensures DecodeScanline(out) == Some(scratch)
    ensures |out| >= 4 && out[..4] == [2, 2, width / 256, width % 256]
  {
    SplitWidth(width);
    var header: seq<Byte> := [2, 2, width / 256, width % 256];
    var body, parts := WriteComponents(width, scratch);
    out := header + body;
    DecodeJoined(parts, scratch, width);
    assert out[4..] == body;
  }
}
