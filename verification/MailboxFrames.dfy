/**
 The word stream that the accelerator sends to the host and its frame grammar:
 a header word carries a request type in its top bits and a word count in the
 rest; a TO_RUNTIME header is followed by that many payload words, any other
 header is a one-word request.
 */
module MailboxFrames {
  import opened Arith
  import opened Common
  import BitStrings

  type Word = w: int | 0 <= w < 0x1_0000_0000

  /**
   The ring's size, MBOX_FIFO_DEPTH, and the header format: `frame` maps a TO_RUNTIME header
   to the number of payload words that follow, and every other header to None.
   */
  datatype Config = Config(depth: nat, frame: Word -> Option<nat>) {
    predicate Valid() { depth > 0 }

    /** Number of ring slots. */
    function Cap(): nat { 2 * depth }
  }

  predicate IsData(cfg: Config, w: Word) { cfg.frame(w).Some? }

  function NWords(cfg: Config, w: Word): nat
    requires IsData(cfg, w)
  {
    cfg.frame(w).value
  }

  /** MBOX_GET_REQ_TYPE: the top `typeBits` bits, left in place. */
  function ReqType(typeBits: nat, w: Word): int
    requires typeBits <= 32
  {
    w / BitStrings.Pow2(32 - typeBits) * BitStrings.Pow2(32 - typeBits)
  }

  /** MBOX_GET_N_WORDS: the remaining low bits. */
  function LowBits(typeBits: nat, w: Word): nat
    requires typeBits <= 32
  {
    w % BitStrings.Pow2(32 - typeBits)
  }

  /** The driver's header format, for MBOX_N_BITS_REQ_TYPE and the TO_RUNTIME type code. */
  function Macros(depth: nat, typeBits: nat, toRuntime: Word): Config
    requires typeBits <= 32
  {
    Config(depth, (w: Word) => if ReqType(typeBits, w) == toRuntime then Some(LowBits(typeBits, w)) else None)
  }

  /** A header is its type field plus its count, and the macros take it apart again. */
  lemma MacrosSplitHeader(depth: nat, typeBits: nat, toRuntime: Word, field: nat, n: nat)
    requires typeBits <= 32 && n < BitStrings.Pow2(32 - typeBits)
    requires field * BitStrings.Pow2(32 - typeBits) + n < 0x1_0000_0000
    ensures var cfg := Macros(depth, typeBits, toRuntime);
            cfg.frame(field * BitStrings.Pow2(32 - typeBits) + n)
            == if field * BitStrings.Pow2(32 - typeBits) == toRuntime then Some(n) else None
  {
    var span := BitStrings.Pow2(32 - typeBits);
    var w := field * span + n;
    DivModUnique(field, span, n);
  }

  /** The TO_RUNTIME payload words of a stream, read frame by frame. */
  function Payload(cfg: Config, ws: seq<Word>): seq<Word>
    decreases |ws|
  {
    if ws == [] then []
    else if !IsData(cfg, ws[0]) then Payload(cfg, ws[1..])
    else
      var n := NWords(cfg, ws[0]);
      if n >= |ws| - 1 then ws[1..] else ws[1..n + 1] + Payload(cfg, ws[n + 1..])
  }

  /** The payload words that the last, incomplete frame still lacks. */
  function Owed(cfg: Config, ws: seq<Word>): nat
    decreases |ws|
  {
    if ws == [] then 0
    else if !IsData(cfg, ws[0]) then Owed(cfg, ws[1..])
    else
      var n := NWords(cfg, ws[0]);
      if n >= |ws| - 1 then n - (|ws| - 1) else Owed(cfg, ws[n + 1..])
  }

  /** The one-word requests of a stream. */
  function Requests(cfg: Config, ws: seq<Word>): seq<Word>
    decreases |ws|
  {
    if ws == [] then []
    else if !IsData(cfg, ws[0]) then [ws[0]] + Requests(cfg, ws[1..])
    else
      var n := NWords(cfg, ws[0]);
      if n >= |ws| - 1 then [] else Requests(cfg, ws[n + 1..])
  }

  /** One more word at the end extends the open frame, opens a frame or is a request. */
  predicate Appends(cfg: Config, ws: seq<Word>, w: Word) {
    var (xs, owed, data) := (ws + [w], Owed(cfg, ws), IsData(cfg, w));
    && Payload(cfg, xs) == (if owed > 0 then Payload(cfg, ws) + [w] else Payload(cfg, ws))
    && Owed(cfg, xs) == (if owed > 0 then owed - 1 else if data then NWords(cfg, w) else 0)
    && Requests(cfg, xs) == (if owed == 0 && !data then Requests(cfg, ws) + [w] else Requests(cfg, ws))
  }

  lemma AppendFirst(cfg: Config, w: Word)
    ensures Appends(cfg, [], w)
  {
    assert [] + [w] == [w] && [w][1..] == [];
  }

  lemma AppendBehindRequest(cfg: Config, ws: seq<Word>, w: Word)
    requires |ws| > 0 && !IsData(cfg, ws[0]) && Appends(cfg, ws[1..], w)
    ensures Appends(cfg, ws, w)
  {
    assert (ws + [w])[1..] == ws[1..] + [w];
    assert [ws[0]] + (Requests(cfg, ws[1..]) + [w]) == [ws[0]] + Requests(cfg, ws[1..]) + [w];
  }

  lemma AppendToFrame(cfg: Config, ws: seq<Word>, w: Word)
    requires |ws| > 0 && IsData(cfg, ws[0]) && NWords(cfg, ws[0]) >= |ws|
    ensures Appends(cfg, ws, w)
  {
    assert (ws + [w])[1..] == ws[1..] + [w];
  }

  lemma AppendBehindFrame(cfg: Config, ws: seq<Word>, w: Word, n: nat)
    requires |ws| > 0 && IsData(cfg, ws[0]) && n == NWords(cfg, ws[0]) < |ws| && Appends(cfg, ws[n + 1..], w)
    ensures Appends(cfg, ws, w)
  {
    var (xs, frame, rest) := (ws + [w], ws[1..n + 1], ws[n + 1..]);
    assert xs[n + 1..] == rest + [w] && xs[1..n + 1] == frame;
    if n == |ws| - 1 {
      assert rest == [] && frame == ws[1..];
    } else {
      assert frame + (Payload(cfg, rest) + [w]) == frame + Payload(cfg, rest) + [w];
    }
  }

  /** What one more word at the end of a stream changes. */
  lemma {:induction false} AppendWord(cfg: Config, ws: seq<Word>, w: Word)
    ensures var appends := Appends(cfg, ws, w); appends
    decreases |ws|
  {
    if ws == [] {
      AppendFirst(cfg, w);
    } else if !IsData(cfg, ws[0]) {
      AppendWord(cfg, ws[1..], w);
      AppendBehindRequest(cfg, ws, w);
    } else if NWords(cfg, ws[0]) >= |ws| {
      AppendToFrame(cfg, ws, w);
    } else {
      var n := NWords(cfg, ws[0]);
      AppendWord(cfg, ws[n + 1..], w);
      AppendBehindFrame(cfg, ws, w, n);
    }
  }

  /** Later words never change the payload already parsed. */
  lemma {:induction false} PayloadPrefix(cfg: Config, ws: seq<Word>, more: seq<Word>)
    ensures Payload(cfg, ws) <= Payload(cfg, ws + more)
    decreases |more|
  {
    if more == [] {
      assert ws + more == ws;
    } else {
      AppendWord(cfg, ws, more[0]);
      PayloadPrefix(cfg, ws + [more[0]], more[1..]);
      assert ws + more == ws + [more[0]] + more[1..];
    }
  }
}
