/**
 The Huffman tables of stb_image_write: the lists that it writes into the file's header, and the
 codes that its encoder uses. Of the 162 AC symbols those with codes of 16 bits come last in
 both: row by row, with consecutive sizes and consecutive codes.
 */
module JpegTables {
  import opened JpegBits
  import opened JpegBlock
  import opened JpegHuffman

  datatype Book = LumaDc | ChromaDc | LumaAc | ChromaAc

  /** In the header's list, the symbols of row r with codes of 16 bits: from `pos` on, sizes `size` to 10. */
  datatype Run = Run(pos: nat, size: nat)

  /** In the encoder's table, row r: shorter codes for the first sizes, then `next` and so on in 16 bits. */
  datatype Row = Row(short: seq<Code>, next: nat)

  // ---------------------------------------------------------------- the lists and tables

  /** std_dc_luminance_nrcodes. */
  function LumaDcNr(len: nat): nat {
    match len
    case 2 => 1
    case 3 => 5
    case 4 => 1
    case 5 => 1
    case 6 => 1
    case 7 => 1
    case 8 => 1
    case 9 => 1
    case _ => 0
  }

  /** std_dc_chrominance_nrcodes. */
  function ChromaDcNr(len: nat): nat {
    match len
    case 2 => 3
    case 3 => 1
    case 4 => 1
    case 5 => 1
    case 6 => 1
    case 7 => 1
    case 8 => 1
    case 9 => 1
    case 10 => 1
    case 11 => 1
    case _ => 0
  }

  /** std_ac_luminance_nrcodes. */
  function LumaAcNr(len: nat): nat {
    match len
    case 2 => 2
    case 3 => 1
    case 4 => 3
    case 5 => 3
    case 6 => 2
    case 7 => 4
    case 8 => 3
    case 9 => 5
    case 10 => 5
    case 11 => 4
    case 12 => 4
    case 15 => 1
    case 16 => 125
    case _ => 0
  }

  /** std_ac_chrominance_nrcodes. */
  function ChromaAcNr(len: nat): nat {
    match len
    case 2 => 2
    case 3 => 1
    case 4 => 2
    case 5 => 4
    case 6 => 4
    case 7 => 3
    case 8 => 4
    case 9 => 7
    case 10 => 5
    case 11 => 4
    case 12 => 4
    case 14 => 1
    case 15 => 2
    case 16 => 119
    case _ => 0
  }

  /** std_ac_luminance_values, ten at a time, as far as the codes are shorter than 16 bits. */
  function LumaAcLine(i: nat): seq<nat> {
    match i
    case 0 => [0x01, 0x02, 0x03, 0x00, 0x04, 0x11, 0x05, 0x12, 0x21, 0x31]
    case 1 => [0x41, 0x06, 0x13, 0x51, 0x61, 0x07, 0x22, 0x71, 0x14, 0x32]
    case 2 => [0x81, 0x91, 0xa1, 0x08, 0x23, 0x42, 0xb1, 0xc1, 0x15, 0x52]
    case 3 => [0xd1, 0xf0, 0x24, 0x33, 0x62, 0x72, 0x82]
    case _ => []
  }

  /** The rest of std_ac_luminance_values. */
  function LumaAcRun(r: nat): Run {
    match r
    case 0 => Run(37, 9)
    case 1 => Run(39, 6)
    case 2 => Run(44, 5)
    case 3 => Run(50, 4)
    case 4 => Run(57, 3)
    case 5 => Run(65, 3)
    case 6 => Run(73, 3)
    case 7 => Run(81, 3)
    case 8 => Run(89, 3)
    case 9 => Run(97, 2)
    case 10 => Run(106, 2)
    case 11 => Run(115, 2)
    case 12 => Run(124, 2)
    case 13 => Run(133, 2)
    case 14 => Run(142, 1)
    case 15 => Run(152, 1)
    case _ => Run(0, 0)
  }

  /** std_ac_chrominance_values, likewise. */
  function ChromaAcLine(i: nat): seq<nat> {
    match i
    case 0 => [0x00, 0x01, 0x02, 0x03, 0x11, 0x04, 0x05, 0x21, 0x31, 0x06]
    case 1 => [0x12, 0x41, 0x51, 0x07, 0x61, 0x71, 0x13, 0x22, 0x32, 0x81]
    case 2 => [0x08, 0x14, 0x42, 0x91, 0xa1, 0xb1, 0xc1, 0x09, 0x23, 0x33]
    case 3 => [0x52, 0xf0, 0x15, 0x62, 0x72, 0xd1, 0x0a, 0x16, 0x24, 0x34]
    case 4 => [0xe1, 0x25, 0xf1]
    case _ => []
  }

  /** The rest of std_ac_chrominance_values. */
  function ChromaAcRun(r: nat): Run {
    match r
    case 0 => Run(43, 11)
    case 1 => Run(43, 7)
    case 2 => Run(47, 6)
    case 3 => Run(52, 5)
    case 4 => Run(58, 3)
    case 5 => Run(66, 3)
    case 6 => Run(74, 3)
    case 7 => Run(82, 3)
    case 8 => Run(90, 2)
    case 9 => Run(99, 2)
    case 10 => Run(108, 2)
    case 11 => Run(117, 2)
    case 12 => Run(126, 2)
    case 13 => Run(135, 2)
    case 14 => Run(144, 2)
    case 15 => Run(153, 2)
    case _ => Run(0, 0)
  }

  /** YDC_HT. */
  function LumaDcCode(s: nat): Code {
    match s
    case 0 => Code(0, 2)
    case 1 => Code(2, 3)
    case 2 => Code(3, 3)
    case 3 => Code(4, 3)
    case 4 => Code(5, 3)
    case 5 => Code(6, 3)
    case 6 => Code(14, 4)
    case 7 => Code(30, 5)
    case 8 => Code(62, 6)
    case 9 => Code(126, 7)
    case 10 => Code(254, 8)
    case 11 => Code(510, 9)
    case _ => Code(0, 0)
  }

  /** UVDC_HT. */
  function ChromaDcCode(s: nat): Code {
    match s
    case 0 => Code(0, 2)
    case 1 => Code(1, 2)
    case 2 => Code(2, 2)
    case 3 => Code(6, 3)
    case 4 => Code(14, 4)
    case 5 => Code(30, 5)
    case 6 => Code(62, 6)
    case 7 => Code(126, 7)
    case 8 => Code(254, 8)
    case 9 => Code(510, 9)
    case 10 => Code(1022, 10)
    case 11 => Code(2046, 11)
    case _ => Code(0, 0)
  }

  /** YAC_HT, without the symbols of size 0. */
  function LumaAcRow(r: nat): Row {
    match r
    case 0 => Row([Code(0, 2), Code(1, 2), Code(4, 3), Code(11, 4), Code(26, 5), Code(120, 7), Code(248, 8), Code(1014, 10)], 65410)
    case 1 => Row([Code(12, 4), Code(27, 5), Code(121, 7), Code(502, 9), Code(2038, 11)], 65412)
    case 2 => Row([Code(28, 5), Code(249, 8), Code(1015, 10), Code(4084, 12)], 65417)
    case 3 => Row([Code(58, 6), Code(503, 9), Code(4085, 12)], 65423)
    case 4 => Row([Code(59, 6), Code(1016, 10)], 65430)
    case 5 => Row([Code(122, 7), Code(2039, 11)], 65438)
    case 6 => Row([Code(123, 7), Code(4086, 12)], 65446)
    case 7 => Row([Code(250, 8), Code(4087, 12)], 65454)
    case 8 => Row([Code(504, 9), Code(32704, 15)], 65462)
    case 9 => Row([Code(505, 9)], 65470)
    case 10 => Row([Code(506, 9)], 65479)
    case 11 => Row([Code(1017, 10)], 65488)
    case 12 => Row([Code(1018, 10)], 65497)
    case 13 => Row([Code(2040, 11)], 65506)
    case 14 => Row([], 65515)
    case 15 => Row([], 65525)
    case _ => Row([], 0)
  }

  /** UVAC_HT, without the symbols of size 0. */
  function ChromaAcRow(r: nat): Row {
    match r
    case 0 => Row([Code(1, 2), Code(4, 3), Code(10, 4), Code(24, 5), Code(25, 5), Code(56, 6), Code(120, 7), Code(500, 9), Code(1014, 10), Code(4084, 12)], 65416)
    case 1 => Row([Code(11, 4), Code(57, 6), Code(246, 8), Code(501, 9), Code(2038, 11), Code(4085, 12)], 65416)
    case 2 => Row([Code(26, 5), Code(247, 8), Code(1015, 10), Code(4086, 12), Code(32706, 15)], 65420)
    case 3 => Row([Code(27, 5), Code(248, 8), Code(1016, 10), Code(4087, 12)], 65425)
    case 4 => Row([Code(58, 6), Code(502, 9)], 65431)
    case 5 => Row([Code(59, 6), Code(1017, 10)], 65439)
    case 6 => Row([Code(121, 7), Code(2039, 11)], 65447)
    case 7 => Row([Code(122, 7), Code(2040, 11)], 65455)
    case 8 => Row([Code(249, 8)], 65463)
    case 9 => Row([Code(503, 9)], 65472)
    case 10 => Row([Code(504, 9)], 65481)
    case 11 => Row([Code(505, 9)], 65490)
    case 12 => Row([Code(506, 9)], 65499)
    case 13 => Row([Code(2041, 11)], 65508)
    case 14 => Row([Code(16352, 14)], 65517)
    case 15 => Row([Code(32707, 15)], 65526)
    case _ => Row([], 0)
  }

  // ---------------------------------------------------------------- where the codes of each length start

  function LumaDcGroup(len: nat): Group {
    match len
    case 1 => Group(0, 0)
    case 2 => Group(0, 0)
    case 3 => Group(2, 1)
    case 4 => Group(14, 6)
    case 5 => Group(30, 7)
    case 6 => Group(62, 8)
    case 7 => Group(126, 9)
    case 8 => Group(254, 10)
    case 9 => Group(510, 11)
    case 10 => Group(1022, 12)
    case 11 => Group(2044, 12)
    case 12 => Group(4088, 12)
    case 13 => Group(8176, 12)
    case 14 => Group(16352, 12)
    case 15 => Group(32704, 12)
    case 16 => Group(65408, 12)
    case _ => Group(0, 0)
  }

  function ChromaDcGroup(len: nat): Group {
    match len
    case 1 => Group(0, 0)
    case 2 => Group(0, 0)
    case 3 => Group(6, 3)
    case 4 => Group(14, 4)
    case 5 => Group(30, 5)
    case 6 => Group(62, 6)
    case 7 => Group(126, 7)
    case 8 => Group(254, 8)
    case 9 => Group(510, 9)
    case 10 => Group(1022, 10)
    case 11 => Group(2046, 11)
    case 12 => Group(4094, 12)
    case 13 => Group(8188, 12)
    case 14 => Group(16376, 12)
    case 15 => Group(32752, 12)
    case 16 => Group(65504, 12)
    case _ => Group(0, 0)
  }

  function LumaAcGroup(len: nat): Group {
    match len
    case 1 => Group(0, 0)
    case 2 => Group(0, 0)
    case 3 => Group(4, 2)
    case 4 => Group(10, 3)
    case 5 => Group(26, 6)
    case 6 => Group(58, 9)
    case 7 => Group(120, 11)
    case 8 => Group(248, 15)
    case 9 => Group(502, 18)
    case 10 => Group(1014, 23)
    case 11 => Group(2038, 28)
    case 12 => Group(4084, 32)
    case 13 => Group(8176, 36)
    case 14 => Group(16352, 36)
    case 15 => Group(32704, 36)
    case 16 => Group(65410, 37)
    case _ => Group(0, 0)
  }

  function ChromaAcGroup(len: nat): Group {
    match len
    case 1 => Group(0, 0)
    case 2 => Group(0, 0)
    case 3 => Group(4, 2)
    case 4 => Group(10, 3)
    case 5 => Group(24, 5)
    case 6 => Group(56, 9)
    case 7 => Group(120, 13)
    case 8 => Group(246, 16)
    case 9 => Group(500, 20)
    case 10 => Group(1014, 27)
    case 11 => Group(2038, 32)
    case 12 => Group(4084, 36)
    case 13 => Group(8176, 40)
    case 14 => Group(16352, 40)
    case 15 => Group(32706, 41)
    case 16 => Group(65416, 43)
    case _ => Group(0, 0)
  }

  function GroupOf(b: Book, len: nat): Group {
    match b
    case LumaDc => LumaDcGroup(len)
    case ChromaDc => ChromaDcGroup(len)
    case LumaAc => LumaAcGroup(len)
    case ChromaAc => ChromaAcGroup(len)
  }

  function Groups(b: Book): nat -> Group { (len: nat) => GroupOf(b, len) }

  // ---------------------------------------------------------------- headers and tables

  function Nr(b: Book, len: nat): nat {
    match b
    case LumaDc => LumaDcNr(len)
    case ChromaDc => ChromaDcNr(len)
    case LumaAc => LumaAcNr(len)
    case ChromaAc => ChromaAcNr(len)
  }

  function RunOf(b: Book, r: nat): Run { if b.LumaAc? then LumaAcRun(r) else ChromaAcRun(r) }

  function RowOf(b: Book, r: nat): Row { if b.LumaAc? then LumaAcRow(r) else ChromaAcRow(r) }

  function Item(s: seq<nat>, k: nat): nat { if k < |s| then s[k] else 0 }

  /** The symbol at place k of the runs of rows 0 to r. */
  function RunValue(b: Book, k: nat, r: nat): nat {
    var run := RunOf(b, r);
    if k >= run.pos then 16 * r + run.size + (k - run.pos) else if r == 0 then 0 else RunValue(b, k, r - 1)
  }

  /** How many AC symbols have shorter codes. */
  function Shorts(b: Book): nat { if b.LumaAc? then 37 else 43 }

  /** The symbol at place k of the header's list; for DC these are 0 to 11. */
  function ValueOf(b: Book, k: nat): nat {
    if b.LumaDc? || b.ChromaDc? then k
    else if k < Shorts(b) then Item(if b.LumaAc? then LumaAcLine(k / 10) else ChromaAcLine(k / 10), k % 10)
    else RunValue(b, k, 15)
  }

  function Head(b: Book): Dht { Dht((len: nat) => Nr(b, len), (k: nat) => ValueOf(b, k)) }

  /** End of block and sixteen zeros. */
  function ZeroCode(b: Book, r: nat): Code {
    if b.LumaAc? then if r == 0 then Code(10, 4) else if r == 15 then Code(2041, 11) else Code(0, 0)
    else if r == 0 then Code(0, 2) else if r == 15 then Code(1018, 10) else Code(0, 0)
  }

  function AcCode(b: Book, r: nat, s: nat): Code {
    var row := RowOf(b, r);
    if s == 0 then ZeroCode(b, r)
    else if s <= |row.short| then row.short[s - 1]
    else if s <= 10 then Code(row.next + (s - 1 - |row.short|), 16)
    else Code(0, 0)
  }

  function CodeAt(b: Book, x: nat): Code {
    match b
    case LumaDc => LumaDcCode(x)
    case ChromaDc => ChromaDcCode(x)
    case _ => AcCode(b, x / 16, x % 16)
  }

  function TableOf(b: Book): Table { seq(256, x requires 0 <= x < 256 => CodeAt(b, x)) }

  // ---------------------------------------------------------------- the header's codes

  lemma LumaDcFollows(len: nat)
    requires 1 <= len < 16
    ensures Follows(Head(LumaDc), Groups(LumaDc), len)
  {
  }

  lemma ChromaDcFollows(len: nat)
    requires 1 <= len < 16
    ensures Follows(Head(ChromaDc), Groups(ChromaDc), len)
  {
  }

  lemma LumaAcFollows(len: nat)
    requires 1 <= len < 16
    ensures Follows(Head(LumaAc), Groups(LumaAc), len)
  {
  }

  lemma ChromaAcFollows(len: nat)
    requires 1 <= len < 16
    ensures Follows(Head(ChromaAc), Groups(ChromaAc), len)
  {
  }

  lemma GroupFollows(b: Book, len: nat)
    requires 1 <= len < 16
    ensures var follows := Follows(Head(b), Groups(b), len); follows
  {
    match b
    case LumaDc => LumaDcFollows(len);
    case ChromaDc => ChromaDcFollows(len);
    case LumaAc => LumaAcFollows(len);
    case ChromaAc => ChromaAcFollows(len);
  }

  lemma HeadGroups(b: Book)
    ensures var groups := GroupsAre(Head(b), Groups(b)); groups
  {
    forall len: nat {:trigger Follows(Head(b), Groups(b), len)} | 1 <= len < 16
      ensures Follows(Head(b), Groups(b), len)
    {
      GroupFollows(b, len);
    }
    AllGroups(Head(b), Groups(b));
  }

  // ---------------------------------------------------------------- codes of 16 bits

  /** The codes of row r stand in the table as its symbols stand in the list. */
  predicate RowAgrees(b: Book, r: nat) {
    var (run, row) := (RunOf(b, r), RowOf(b, r));
    && run.size == |row.short| + 1 <= 11 && row.next == run.pos + 65373
    && run.pos + (11 - run.size) == (if r < 15 then RunOf(b, r + 1).pos else 162)
  }

  lemma RowsAgree(b: Book, r: nat)
    requires (b.LumaAc? || b.ChromaAc?) && r < 16
    ensures RowAgrees(b, r)
  {
    if b.LumaAc? {
      LumaRowAgrees(r);
    } else {
      ChromaRowAgrees(r);
    }
  }

  lemma LumaRowAgrees(r: nat)
    requires r < 16
    ensures RowAgrees(LumaAc, r)
  {
  }

  lemma ChromaRowAgrees(r: nat)
    requires r < 16
    ensures RowAgrees(ChromaAc, r)
  {
  }

  lemma {:induction false} RunsAscend(b: Book, r: nat, q: nat)
    requires (b.LumaAc? || b.ChromaAc?) && r < q < 16
    ensures RunOf(b, r).pos + (11 - RunOf(b, r).size) <= RunOf(b, q).pos
    decreases q
  {
    RowsAgree(b, q - 1);
    if r < q - 1 {
      RunsAscend(b, r, q - 1);
    }
  }

  lemma {:induction false} RunFinds(b: Book, k: nat, r: nat, q: nat)
    requires (b.LumaAc? || b.ChromaAc?) && r <= q < 16 && RunOf(b, r).pos <= k < RunOf(b, r).pos + (11 - RunOf(b, r).size)
    ensures RunValue(b, k, q) == 16 * r + RunOf(b, r).size + (k - RunOf(b, r).pos)
    decreases q
  {
    if r < q {
      RunsAscend(b, r, q);
      RunFinds(b, k, r, q - 1);
    }
  }

  /** All runs lie behind the values of the shorter codes and before the end of the list. */
  lemma RunsInside(b: Book, r: nat)
    requires (b.LumaAc? || b.ChromaAc?) && r < 16
    ensures RunOf(b, 0).pos <= RunOf(b, r).pos && RunOf(b, r).pos + (11 - RunOf(b, r).size) <= 162
  {
    RowsAgree(b, 0);
    RowsAgree(b, r);
    RowsAgree(b, 15);
    if r > 0 {
      RunsAscend(b, 0, r);
    }
    if r < 15 {
      RunsAscend(b, r, 15);
    }
  }

  lemma SixteenBits(b: Book)
    requires b.LumaAc? || b.ChromaAc?
    ensures RunOf(b, 0).pos == Shorts(b) && GroupOf(b, 16) == Group(Shorts(b) + 65373, Shorts(b)) && Nr(b, 16) + Shorts(b) == 162
  {
  }

  lemma LongGood(b: Book, r: nat, s: nat)
    requires (b.LumaAc? || b.ChromaAc?) && r < 16 && |RowOf(b, r).short| < s <= 10
    ensures Good(Head(b), Groups(b), AcCode(b, r, s), RunSize(r, s))
  {
    RowsAgree(b, r);
    RunsInside(b, r);
    SixteenBits(b);
    RunFinds(b, RunOf(b, r).pos + (s - RunOf(b, r).size), r, 15);
  }

  // ---------------------------------------------------------------- shorter codes

  /** The same as Good, for the tables at hand. */
  predicate Fine(b: Book, c: Code, s: nat) {
    var g := GroupOf(b, c.len);
    1 <= c.len <= 16 && g.first <= c.value < g.first + Nr(b, c.len) && ValueOf(b, g.index + (c.value - g.first)) == s
  }

  lemma FineIsGood(b: Book, c: Code, s: nat)
    requires var fine := Fine(b, c, s); fine
    ensures Good(Head(b), Groups(b), c, s)
  {
  }

  lemma LumaShort0(s: nat)
    requires 1 <= s <= |LumaAcRow(0).short|
    ensures Fine(LumaAc, AcCode(LumaAc, 0, s), RunSize(0, s))
  {
  }

  lemma LumaShort1(r: nat, s: nat)
    requires 1 <= r <= 2 && 1 <= s <= |LumaAcRow(r).short|
    ensures Fine(LumaAc, AcCode(LumaAc, r, s), RunSize(r, s))
  {
  }

  lemma LumaShort2(r: nat, s: nat)
    requires 3 <= r <= 6 && 1 <= s <= |LumaAcRow(r).short|
    ensures Fine(LumaAc, AcCode(LumaAc, r, s), RunSize(r, s))
  {
  }

  lemma LumaShort3(r: nat, s: nat)
    requires 7 <= r <= 15 && 1 <= s <= |LumaAcRow(r).short|
    ensures Fine(LumaAc, AcCode(LumaAc, r, s), RunSize(r, s))
  {
  }

  lemma LumaShort(r: nat, s: nat)
    requires r < 16 && 1 <= s <= |LumaAcRow(r).short|
    ensures var fine := Fine(LumaAc, AcCode(LumaAc, r, s), RunSize(r, s)); fine
  {
    if r == 0 {
      LumaShort0(s);
    } else if r <= 2 {
      LumaShort1(r, s);
    } else if r <= 6 {
      LumaShort2(r, s);
    } else {
      LumaShort3(r, s);
    }
  }

  lemma ChromaShort0(s: nat)
    requires 1 <= s <= |ChromaAcRow(0).short|
    ensures Fine(ChromaAc, AcCode(ChromaAc, 0, s), RunSize(0, s))
  {
  }

  lemma ChromaShort1(r: nat, s: nat)
    requires 1 <= r <= 2 && 1 <= s <= |ChromaAcRow(r).short|
    ensures Fine(ChromaAc, AcCode(ChromaAc, r, s), RunSize(r, s))
  {
  }

  lemma ChromaShort2(r: nat, s: nat)
    requires 3 <= r <= 6 && 1 <= s <= |ChromaAcRow(r).short|
    ensures Fine(ChromaAc, AcCode(ChromaAc, r, s), RunSize(r, s))
  {
  }

  lemma ChromaShort3(r: nat, s: nat)
    requires 7 <= r <= 15 && 1 <= s <= |ChromaAcRow(r).short|
    ensures Fine(ChromaAc, AcCode(ChromaAc, r, s), RunSize(r, s))
  {
  }

  lemma ChromaShort(r: nat, s: nat)
    requires r < 16 && 1 <= s <= |ChromaAcRow(r).short|
    ensures var fine := Fine(ChromaAc, AcCode(ChromaAc, r, s), RunSize(r, s)); fine
  {
    if r == 0 {
      ChromaShort0(s);
    } else if r <= 2 {
      ChromaShort1(r, s);
    } else if r <= 6 {
      ChromaShort2(r, s);
    } else {
      ChromaShort3(r, s);
    }
  }

  lemma LumaZero(r: nat)
    requires r == 0 || r == 15
    ensures Fine(LumaAc, AcCode(LumaAc, r, 0), RunSize(r, 0))
  {
  }

  lemma ChromaZero(r: nat)
    requires r == 0 || r == 15
    ensures Fine(ChromaAc, AcCode(ChromaAc, r, 0), RunSize(r, 0))
  {
  }

  /** Every run/size symbol has its code. */
  lemma AcGood(b: Book, r: nat, s: nat)
    requires (b.LumaAc? || b.ChromaAc?) && r < 16 && s <= 10 && (s == 0 ==> r == 0 || r == 15)
    ensures var good := Good(Head(b), Groups(b), AcCode(b, r, s), RunSize(r, s)); good
  {
    if s > |RowOf(b, r).short| {
      LongGood(b, r, s);
    } else {
      if b.LumaAc? {
        if s == 0 {
          LumaZero(r);
        } else {
          LumaShort(r, s);
        }
      } else {
        if s == 0 {
          ChromaZero(r);
        } else {
          ChromaShort(r, s);
        }
      }
      FineIsGood(b, AcCode(b, r, s), RunSize(r, s));
    }
  }

  lemma DcGood(b: Book, s: nat)
    requires (b.LumaDc? || b.ChromaDc?) && s <= 11
    ensures Good(Head(b), Groups(b), CodeAt(b, s), s)
  {
  }

  // ---------------------------------------------------------------- the tables

  lemma HeadRoom(b: Book)
    ensures var room := Room(Head(b), 16); room
  {
    HeadGroups(b);
    RoomByGroup(Head(b), Groups(b), 16, 1);
  }

  lemma AcEntry(b: Book, r: nat, s: nat, x: nat)
    requires (b.LumaAc? || b.ChromaAc?) && r < 16 && s < 16 && x == RunSize(r, s)
    ensures x < |TableOf(b)| && TableOf(b)[x] == AcCode(b, r, s)
  {
    RunSizeParts(r, s);
    assert TableOf(b)[x] == CodeAt(b, x);
  }

  lemma AcCoded(b: Book, r: nat, s: nat)
    requires (b.LumaAc? || b.ChromaAc?) && r < 16 && s <= 10 && (s == 0 ==> r == 0 || r == 15)
    ensures var coded := Coded(Head(b), TableOf(b), RunSize(r, s)); coded
  {
    AcGood(b, r, s);
    AcEntry(b, r, s, RunSize(r, s));
    HeadGroups(b);
    GoodIsCoded(Head(b), Groups(b), TableOf(b), RunSize(r, s));
  }

  lemma DcCoded(b: Book, s: nat)
    requires (b.LumaDc? || b.ChromaDc?) && s <= 11
    ensures var coded := Coded(Head(b), TableOf(b), s); coded
  {
    DcGood(b, s);
    HeadGroups(b);
    GoodIsCoded(Head(b), Groups(b), TableOf(b), s);
  }

  /** The encoder's DC codes are those that a reader of the file derives from its header. */
  lemma DcAgrees(b: Book)
    requires b.LumaDc? || b.ChromaDc?
    ensures DcTable(TableOf(b), Head(b))
  {
    HeadRoom(b);
    forall s: nat {:trigger Coded(Head(b), TableOf(b), s)} | s <= 11
      ensures Coded(Head(b), TableOf(b), s)
    {
      DcCoded(b, s);
    }
  }

  /** So are the AC codes. */
  lemma AcAgrees(b: Book)
    requires b.LumaAc? || b.ChromaAc?
    ensures AcTable(TableOf(b), Head(b))
  {
    HeadRoom(b);
    AcCoded(b, 0, 0);
    AcCoded(b, 15, 0);
    forall r: nat, s: nat {:trigger RunSize(r, s)} | r < 16 && 1 <= s <= 10
      ensures Coded(Head(b), TableOf(b), RunSize(r, s))
    {
      AcCoded(b, r, s);
    }
  }
}
