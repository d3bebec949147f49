/**
 Huffman codes as a JPEG file describes them: how many codes there are of each length, and the
 symbols in code order. Annex C of ITU-T T.81 derives the codes, section F.2.2.3 decodes them.
 */
module JpegHuffman {
  import opened BitStrings
  import opened Common
  import opened JpegBits
  import opened JpegBlock

  /** The contents of a DHT segment: nrcodes by length, values by position. */
  datatype Dht = Dht(nr: nat -> nat, value: nat -> nat)

  /** The first code of a length, and its position among all codes. */
  function First(d: Dht, len: nat): nat { if len <= 1 then 0 else 2 * (First(d, len - 1) + d.nr(len - 1)) }

  function Index(d: Dht, len: nat): nat { if len <= 1 then 0 else Index(d, len - 1) + d.nr(len - 1) }

  /** The number is one of the codes of that length. */
  predicate IsCode(d: Dht, len: nat, v: nat) { First(d, len) <= v < First(d, len) + d.nr(len) }

  /** DECODE: take one bit after the other until they are a code. */
  function DecodeSymbol(d: Dht, bits: seq<bool>, len: nat): Option<Symbol>
    requires len >= 1
    decreases 17 - len
  {
    if len > 16 || len > |bits| then None
    else
      var v := Value(bits[..len]);
      if IsCode(d, len, v) then Some(Symbol(d.value(Index(d, len) + (v - First(d, len))), bits[len..]))
      else DecodeSymbol(d, bits, len + 1)
  }

  function HeaderDecoder(d: Dht): SymbolDecoder { (bits: seq<bool>) => DecodeSymbol(d, bits, 1) }

  /** The code that Annex C assigns to the symbol. */
  predicate Canonical(d: Dht, c: Code, s: nat) {
    1 <= c.len <= 16 && IsCode(d, c.len, c.value) && d.value(Index(d, c.len) + (c.value - First(d, c.len))) == s
  }

  /** The first code of a length and its position. */
  datatype Group = Group(first: nat, index: nat)

  predicate GroupIs(d: Dht, group: nat -> Group, len: nat) { First(d, len) == group(len).first && Index(d, len) == group(len).index }

  /** A list of where the codes of each length start. */
  ghost predicate GroupsAre(d: Dht, group: nat -> Group) {
    forall len: nat {:trigger GroupIs(d, group, len)} :: 1 <= len <= 16 ==> GroupIs(d, group, len)
  }

  /** The next length starts behind this one. */
  predicate Follows(d: Dht, group: nat -> Group, len: nat) {
    group(len + 1).first == 2 * (group(len).first + d.nr(len)) && group(len + 1).index == group(len).index + d.nr(len)
  }

  lemma {:induction false} GroupsFollow(d: Dht, group: nat -> Group, len: nat)
    requires 1 <= len <= 16 && group(1) == Group(0, 0)
    requires forall n: nat {:trigger Follows(d, group, n)} :: 1 <= n < 16 ==> Follows(d, group, n)
    ensures GroupIs(d, group, len)
  {
    if len > 1 {
      GroupsFollow(d, group, len - 1);
      assert Follows(d, group, len - 1);
    }
  }

  lemma AllGroups(d: Dht, group: nat -> Group)
    requires group(1) == Group(0, 0)
    requires forall n: nat {:trigger Follows(d, group, n)} :: 1 <= n < 16 ==> Follows(d, group, n)
    ensures var groups := GroupsAre(d, group); groups
  {
    forall len: nat {:trigger GroupIs(d, group, len)} | 1 <= len <= 16
      ensures GroupIs(d, group, len)
    {
      GroupsFollow(d, group, len);
    }
  }

  /** Canonical, by such a list. */
  predicate Good(d: Dht, group: nat -> Group, c: Code, s: nat) {
    var g := group(c.len);
    1 <= c.len <= 16 && g.first <= c.value < g.first + d.nr(c.len) && d.value(g.index + (c.value - g.first)) == s
  }

  lemma GoodIsCanonical(d: Dht, group: nat -> Group, c: Code, s: nat)
    requires var given := GroupsAre(d, group) && Good(d, group, c, s); given
    ensures var canonical := Canonical(d, c, s); canonical
  {
    assert GroupIs(d, group, c.len);
  }

  /** There is room for all codes of up to 16 bits. */
  predicate Room(d: Dht, top: nat) { First(d, top) + d.nr(top) <= Pow2(top) }

  lemma RoomByGroup(d: Dht, group: nat -> Group, top: nat, one: nat)
    requires GroupsAre(d, group) && top == 16 && one == 1 && group(top).first + d.nr(top) <= 65536
    ensures var room := Room(d, top); room
  {
    assert GroupIs(d, group, top);
    ShlValues(one);
  }

  lemma {:induction false} RoomBelow(d: Dht, len: nat, top: nat)
    requires 1 <= len <= top && Room(d, top)
    ensures Room(d, len)
    decreases top
  {
    if len < top {
      RoomBelow(d, len, top - 1);
    }
  }

  /** Longer codes start behind all shorter ones. */
  lemma {:induction false} LongerAbove(d: Dht, j: nat, len: nat)
    requires 1 <= j < len
    ensures Shl(First(d, j) + d.nr(j), len - j) <= First(d, len)
    decreases len
  {
    if j < len - 1 {
      LongerAbove(d, j, len - 1);
    } else {
      ShlOne(First(d, j) + d.nr(j), len - j);
    }
  }

  lemma ShlOne(x: nat, n: nat)
    requires n == 1
    ensures Shl(x, n) == 2 * x
  {
  }

  lemma {:induction false} ShrHalf(v: nat, n: nat)
    requires n >= 1
    ensures Shr(v, n) == Shr(v / 2, n - 1)
  {
    if n > 1 {
      ShrHalf(v, n - 1);
    }
  }

  /** The leading bits of a number. */
  lemma {:induction false} LeadingBits(v: nat, len: nat, j: nat)
    requires j <= len
    ensures Bits(v, len)[..j] == Bits(Shr(v, len - j), j)
    decreases len - j
  {
    if j == len {
      assert Bits(v, len)[..j] == Bits(v, len);
    } else {
      LeadingBits(v / 2, len - 1, j);
      ShrHalf(v, len - j);
      assert Bits(v, len)[..len - 1] == Bits(v / 2, len - 1);
      assert Bits(v, len)[..j] == Bits(v, len)[..len - 1][..j];
    }
  }

  /** Shifting out what was shifted in, and order is kept. */
  lemma ShrAbove(v: nat, x: nat, n: nat)
    requires Shl(x, n) <= v
    ensures x <= Shr(v, n)
  {
    ShrSplit(v, n);
    if x > Shr(v, n) {
      ShlMonotone(Shr(v, n) + 1, x, n);
      ShlAdd(Shr(v, n), 1, n);
      assert false;
    }
  }

  lemma {:induction false} ShrFits(v: nat, len: nat, n: nat)
    requires n <= len && v < Pow2(len)
    ensures Shr(v, n) < Pow2(len - n)
  {
    if n > 0 {
      ShrFits(v, len, n - 1);
    }
  }

  /** The first j bits of a code are the number of its leading bits. */
  lemma PrefixValue(c: Code, rest: seq<bool>, j: nat)
    requires j <= c.len && c.value < Pow2(c.len)
    ensures Value((c.AsBits() + rest)[..j]) == Shr(c.value, c.len - j)
  {
    assert (c.AsBits() + rest)[..j] == c.AsBits()[..j];
    LeadingBits(c.value, c.len, j);
    ShrFits(c.value, c.len, c.len - j);
    ValueOfBits(Shr(c.value, c.len - j), j);
  }

  /** They are no code themselves. */
  lemma PrefixIsNoCode(d: Dht, c: Code, rest: seq<bool>, j: nat)
    requires 1 <= j < c.len && IsCode(d, c.len, c.value) && c.value < Pow2(c.len)
    ensures !IsCode(d, j, Value((c.AsBits() + rest)[..j]))
  {
    PrefixValue(c, rest, j);
    LongerAbove(d, j, c.len);
    ShrAbove(c.value, First(d, j) + d.nr(j), c.len - j);
  }

  /** DECODE gets the symbol back from its code, and stops right behind it. */
  lemma {:induction false} CodeDecodes(d: Dht, c: Code, s: nat, rest: seq<bool>, j: nat)
    requires Canonical(d, c, s) && c.value < Pow2(c.len) && 1 <= j <= c.len
    ensures DecodeSymbol(d, c.AsBits() + rest, j) == Some(Symbol(s, rest))
    decreases c.len - j
  {
    var bits := c.AsBits() + rest;
    if j < c.len {
      PrefixIsNoCode(d, c, rest, j);
      CodeDecodes(d, c, s, rest, j + 1);
    } else {
      assert bits[..j] == c.AsBits() && bits[j..] == rest;
      ValueOfBits(c.value, c.len);
    }
  }

  // ---------------------------------------------------------------- tables

  type Table = seq<Code>

  function CodeOf(ht: Table): SymbolCode { (s: nat) => if s < |ht| then ht[s].AsBits() else [] }

  /** The encoder's table has the code that the header assigns to s. */
  predicate Coded(d: Dht, ht: Table, s: nat) { s < |ht| && Canonical(d, ht[s], s) }

  /** A table for DC coefficients, and the header that goes with it: codes for the sizes 0 to 11. */
  ghost predicate DcTable(ht: Table, d: Dht) {
    Room(d, 16) && forall s: nat {:trigger Coded(d, ht, s)} :: s <= 11 ==> Coded(d, ht, s)
  }

  /** A table for AC coefficients: end of block, sixteen zeros, and every run with sizes 1 to 10. */
  ghost predicate AcTable(ht: Table, d: Dht) {
    && Room(d, 16) && Coded(d, ht, 0) && Coded(d, ht, 0xf0)
    && forall r: nat, s: nat {:trigger RunSize(r, s)} :: r < 16 && 1 <= s <= 10 ==> Coded(d, ht, RunSize(r, s))
  }

  lemma CodeFits(d: Dht, ht: Table, s: nat)
    requires Room(d, 16) && Coded(d, ht, s)
    ensures ht[s].Fits()
  {
    RoomBelow(d, ht[s].len, 16);
  }

  /** What the header describes reads the codes of the table, whatever follows. */
  lemma HeaderReads(d: Dht, ht: Table, s: nat)
    requires Room(d, 16) && Coded(d, ht, s)
    ensures Reads(HeaderDecoder(d), CodeOf(ht), s)
  {
    CodeFits(d, ht, s);
    forall rest {:trigger ReadsAt(HeaderDecoder(d), CodeOf(ht), s, rest)}
      ensures ReadsAt(HeaderDecoder(d), CodeOf(ht), s, rest)
    {
      CodeDecodes(d, ht[s], s, rest, 1);
    }
  }

  lemma GoodIsCoded(d: Dht, group: nat -> Group, ht: Table, s: nat)
    requires var given := GroupsAre(d, group) && s < |ht| && Good(d, group, ht[s], s); given
    ensures var coded := Coded(d, ht, s); coded
  {
    GoodIsCanonical(d, group, ht[s], s);
  }

  lemma TablesRead(htdc: Table, dc: Dht, htac: Table, ac: Dht)
    requires DcTable(htdc, dc) && AcTable(htac, ac)
    ensures ReadsDc(HeaderDecoder(dc), CodeOf(htdc)) && ReadsAc(HeaderDecoder(ac), CodeOf(htac))
  {
    forall s | 0 <= s <= 11
      ensures Reads(HeaderDecoder(dc), CodeOf(htdc), s)
    {
      assert Coded(dc, htdc, s);
      HeaderReads(dc, htdc, s);
    }
    HeaderReads(ac, htac, 0);
    HeaderReads(ac, htac, 0xf0);
    forall r, s {:trigger RunSize(r, s)} | 0 <= r < 16 && 1 <= s <= 10
      ensures Reads(HeaderDecoder(ac), CodeOf(htac), RunSize(r, s))
    {
      HeaderReads(ac, htac, RunSize(r, s));
    }
  }

  /**
   For every block and all tables that agree with their header, decoding the emitted bits with
   the header's tables returns the block and leaves what follows.
   */
  lemma RoundTrip(htdc: Table, dc: Dht, htac: Table, ac: Dht, du: seq<int>, pred: int, end: nat, tail: seq<bool>)
    requires DcTable(htdc, dc) && AcTable(htac, ac) && Codable(du, end)
    requires du[0] != pred ==> SizeOf(Abs(du[0] - pred)) <= 11
    ensures DecodeBlock(HeaderDecoder(dc), HeaderDecoder(ac), EncodeBlock(CodeOf(htdc), CodeOf(htac), du, pred, end) + tail, pred)
            == Some(Coeffs(du, tail))
  {
    TablesRead(htdc, dc, htac, ac);
    BlockDecodes(HeaderDecoder(dc), CodeOf(htdc), HeaderDecoder(ac), CodeOf(htac), du, pred, end, tail);
  }
}
