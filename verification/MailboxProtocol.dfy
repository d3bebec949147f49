/**
 The mailbox protocol as a transition system. Every event is either one lock-protected
 section of the interrupt handler or of the reader, one iteration of a drain loop with
 the lock held, one step taken without the lock (copying a word to user space, carrying
 out a request), or the accelerator pushing a word.
 */
module MailboxProtocol {
  import opened MailboxFrames

  /** The driver's static variables, with the history of the words that passed through. */
  datatype Core = Core(
    hw: seq<Word>,         // hardware queue, oldest word first
    fifo: seq<Word>,       // mbox_fifo
    rd: nat,               // mbox_fifo_rd - mbox_fifo
    wr: nat,               // mbox_fifo_wr - mbox_fifo
    full: bool,
    nWritten: nat,
    nToWrite: nat,
    consumed: seq<Word>,   // history: words taken out of the hardware queue
    delivered: seq<Word>)  // history: words handed to user space

  function Stored(c: Core): int {
    if c.full then |c.fifo|
    else if c.wr >= c.rd then c.wr - c.rd
    else |c.fifo| - c.rd + c.wr
  }

  predicate InRange(cfg: Config, c: Core) {
    && |c.fifo| == cfg.Cap() && c.rd < |c.fifo| && c.wr < |c.fifo|
    && (c.full ==> c.rd == c.wr)
  }

  /** The words in the ring, oldest first. */
  function Contents(cfg: Config, c: Core): (s: seq<Word>)
    requires InRange(cfg, c)
    ensures |s| == Stored(c)
  {
    if c.full || c.wr < c.rd then c.fifo[c.rd..] + c.fifo[..c.wr] else c.fifo[c.rd..c.wr]
  }

  /** A write to slot `i`; the runs below never leave the array. */
  function Store(fifo: seq<Word>, i: nat, w: Word): seq<Word> {
    if i < |fifo| then fifo[i := w] else fifo
  }

  /** A read of slot `i`; the runs below never leave the array. */
  function Load(fifo: seq<Word>, i: nat): Word {
    if i < |fifo| then fifo[i] else 0
  }

  /** One loop iteration: take a word from the hardware and file it. */
  function ParseWord(cfg: Config, c: Core): Core
    requires |c.hw| > 0
  {
    var w := c.hw[0];
    var c1 := c.(hw := c.hw[1..], consumed := c.consumed + [w]);
    if c.nWritten == c.nToWrite then
      if IsData(cfg, w) then c1.(nToWrite := NWords(cfg, w), nWritten := 0) else c1
    else
      var wr1 := if c.wr + 1 >= |c.fifo| then 0 else c.wr + 1;
      c1.(fifo := Store(c.fifo, c.wr, w), wr := wr1,
      full := if wr1 == c.rd then true else c.full,
      nWritten := c.nWritten + 1)
  }

  /** The iteration takes the branch that drops the lock for a request. */
  predicate TakesRequest(cfg: Config, c: Core)
  {
    |c.hw| > 0 && c.nWritten == c.nToWrite && !IsData(cfg, c.hw[0])
  }

  predicate LoopContinues(c: Core) { |c.hw| > 0 && !c.full }

  predicate RingEmpty(c: Core) { c.wr == c.rd && !c.full }

  function Min(a: int, b: int): int { if a < b then a else b }

  /** The words that a single read may hand over: up to `wr`, or up to the end of the array. */
  function Available(c: Core): int {
    if c.wr > c.rd then c.wr - c.rd else |c.fifo| - c.rd
  }

  /** A read is offered every word stored, as far as the words lie side by side in the array. */
  lemma AvailableIsContiguous(cfg: Config, c: Core)
    requires InRange(cfg, c) && !RingEmpty(c)
    ensures Available(c) == Min(Stored(c), |c.fifo| - c.rd) >= 1
    ensures c.fifo[c.rd..c.rd + Available(c)] == Contents(cfg, c)[..Available(c)]
  {
  }

  /** The byte count that pulp_mbox_read settles on. */
  function ReadBytes(c: Core, count: nat): nat {
    if Available(c) < 0 then 0 else Min(count, 4 * Available(c))
  }

  /** After copy_to_user: advance `rd` over the copied words. */
  function Advance(c: Core, copied: seq<Word>): Core {
    var rd1 := c.rd + |copied|;
    c.(rd := if rd1 >= |c.fifo| then 0 else rd1,
    full := if |copied| > 0 then false else c.full,
    delivered := c.delivered + copied)
  }

  /** Byte `at` of a word in memory. */
  datatype WordByte = WordByte(word: Word, at: nat)

  function WordBytes(w: Word): (b: seq<WordByte>)
    ensures |b| == 4
  {
    [WordByte(w, 0), WordByte(w, 1), WordByte(w, 2), WordByte(w, 3)]
  }

  function Bytes(ws: seq<Word>): (b: seq<WordByte>)
    ensures |b| == 4 * |ws|
  {
    if ws == [] then [] else Bytes(ws[..|ws| - 1]) + WordBytes(ws[|ws| - 1])
  }

  /** What copy_to_user moves when `bytes` bytes succeed: whole words, then a part of the next slot. */
  function CopiedBytes(c: Core, copied: seq<Word>, bytes: nat): seq<WordByte> {
    Bytes(copied) + WordBytes(Load(c.fifo, c.rd + |copied|))[..bytes % 4]
  }

  function Cleared(c: Core): Core {
    c.(hw := [], rd := 0, wr := 0, full := false, nWritten := 0, nToWrite := 0, consumed := [], delivered := [])
  }

  datatype Handler = HIdle | HLocked | HRequest(w: Word) | HRelock

  datatype Reader = RIdle | RCopy(bytes: nat, copied: seq<Word>) | RDrain | RRequest(w: Word) | RRelock

  datatype State = State(
    core: Core,
    handler: Handler,
    reader: Reader,
    user: seq<WordByte>,    // history: bytes handed to user space since the last clear
    pushed: seq<Word>,      // history: words pushed since the last clear
    earlier: seq<Word>,     // history: requests taken before the last clear
    dispatched: seq<Word>)  // history: requests carried out

  datatype Event =
    | Push(w: Word)
    | HEnter | HParse | HLeave | HDispatch
    | RBegin(count: nat) | RCopyWord | RCommit(notCopied: nat)
    | RParse | RLeave | RDispatch | REnter
    | Clear

  predicate LockFree(s: State) { !s.handler.HLocked? && !s.reader.RDrain? }

  predicate Enabled(cfg: Config, s: State, e: Event)
  {
    match e
    case Push(_) => true
    case HEnter => LockFree(s) && (s.handler.HIdle? || s.handler.HRelock?)
    case HParse => s.handler.HLocked? && LoopContinues(s.core)
    case HLeave => s.handler.HLocked? && !LoopContinues(s.core)
    case HDispatch => s.handler.HRequest?
    case RBegin(_) => LockFree(s) && s.reader.RIdle? && !RingEmpty(s.core)
    case RCopyWord => s.reader.RCopy? && 4 * |s.reader.copied| + 4 <= s.reader.bytes
    case RCommit(notCopied) =>
      && LockFree(s) && s.reader.RCopy? && notCopied <= s.reader.bytes
      && (s.reader.bytes - notCopied) / 4 == |s.reader.copied|
    case RParse => s.reader.RDrain? && LoopContinues(s.core)
    case RLeave => s.reader.RDrain? && !LoopContinues(s.core)
    case RDispatch => s.reader.RRequest?
    case REnter => LockFree(s) && s.reader.RRelock?
    // pulp_mbox_clear does not overlap a read in flight
    case Clear => LockFree(s) && s.reader.RIdle?
  }

  function Apply(cfg: Config, s: State, e: Event): State
    requires Enabled(cfg, s, e)
  {
    var c := s.core;
    match e
    case Push(w) => s.(core := c.(hw := c.hw + [w]), pushed := s.pushed + [w])
    case HEnter => s.(handler := HLocked)
    case HParse => s.(core := ParseWord(cfg, c),
      handler := if TakesRequest(cfg, c) then HRequest(c.hw[0]) else HLocked)
    case HLeave => s.(handler := HIdle)
    case HDispatch => s.(handler := HRelock, dispatched := s.dispatched + [s.handler.w])
    case RBegin(count) => s.(reader := RCopy(ReadBytes(c, count), []))
    case RCopyWord =>
      s.(reader := s.reader.(copied := s.reader.copied + [Load(c.fifo, c.rd + |s.reader.copied|)]))
    case RCommit(notCopied) => s.(core := Advance(c, s.reader.copied),
      user := s.user + CopiedBytes(c, s.reader.copied, s.reader.bytes - notCopied),
      reader := if c.full && |s.reader.copied| > 0 then RDrain else RIdle)
    case RParse => s.(core := ParseWord(cfg, c),
      reader := if TakesRequest(cfg, c) then RRequest(c.hw[0]) else RDrain)
    case RLeave => s.(reader := RIdle)
    case RDispatch => s.(reader := RRelock, dispatched := s.dispatched + [s.reader.w])
    case REnter => s.(reader := RDrain)
    case Clear => s.(core := Cleared(c), user := [], pushed := [], earlier := s.earlier + Requests(cfg, c.consumed))
  }

  function Init(cfg: Config): State {
    State(Core([], seq(cfg.Cap(), _ => 0), 0, 0, false, 0, 0, [], []), HIdle, RIdle, [], [], [], [])
  }

  // ---------------------------------------------------------------- invariant

  function InHand(h: Handler, r: Reader): multiset<Word> {
    (if h.HRequest? then multiset{h.w} else multiset{}) + (if r.RRequest? then multiset{r.w} else multiset{})
  }

  ghost predicate CoreInv(cfg: Config, c: Core)
  {
    && InRange(cfg, c)
    && FrameInv(cfg, c)
    && c.delivered + Contents(cfg, c) == Payload(cfg, c.consumed)
  }

  /** The slots that `bytes` bytes lie in. */
  function Words(bytes: nat): nat { (bytes + 3) / 4 }

  predicate CopyInv(c: Core, r: Reader) {
    r.RCopy? ==>
      && Words(r.bytes) <= Stored(c) && c.rd + Words(r.bytes) <= |c.fifo|
      && 4 * |r.copied| <= r.bytes
      && r.copied == c.fifo[c.rd..c.rd + |r.copied|]
  }

  ghost predicate Inv(cfg: Config, s: State)
  {
    && CoreInv(cfg, s.core)
    && CopyInv(s.core, s.reader)
    && !(s.handler.HLocked? && s.reader.RDrain?)
    && s.core.consumed + s.core.hw == s.pushed
    && RequestInv(cfg, s)
  }

  /** Every request word taken so far was carried out once or is in the hands of one actor. */
  ghost predicate RequestInv(cfg: Config, s: State)
  {
    multiset(s.dispatched) + InHand(s.handler, s.reader)
    == multiset(s.earlier) + multiset(Requests(cfg, s.core.consumed))
  }

  lemma ParseWordKeepsCore(cfg: Config, c: Core)
    requires cfg.Valid() && CoreInv(cfg, c) && LoopContinues(c)
    ensures CoreInv(cfg, ParseWord(cfg, c))
  {
    var d := ParseWord(cfg, c);
    AppendWord(cfg, c.consumed, c.hw[0]);
    if c.nWritten != c.nToWrite {
      assert Contents(cfg, d) == Contents(cfg, c) + [c.hw[0]];
    }
  }

  /** A parse leaves the words already in the ring, and their slots, alone. */
  lemma ParseWordKeepsSlots(cfg: Config, c: Core, n: nat)
    requires cfg.Valid() && InRange(cfg, c) && LoopContinues(c)
    requires n <= Stored(c) && c.rd + n <= |c.fifo|
    ensures ParseWord(cfg, c).rd == c.rd && n <= Stored(ParseWord(cfg, c))
    ensures ParseWord(cfg, c).fifo[c.rd..c.rd + n] == c.fifo[c.rd..c.rd + n]
  {
  }

  lemma ContentsAdvance(cfg: Config, c: Core, copied: seq<Word>)
    requires InRange(cfg, c) && |copied| <= Stored(c) && c.rd + |copied| <= |c.fifo|
    requires copied == c.fifo[c.rd..c.rd + |copied|]
    ensures InRange(cfg, Advance(c, copied))
    ensures Contents(cfg, c) == copied + Contents(cfg, Advance(c, copied))
  {
    if |copied| > 0 && c.rd + |copied| == |c.fifo| {
      assert Contents(cfg, Advance(c, copied)) == c.fifo[..c.wr] || !(c.full || c.wr < c.rd);
    }
  }

  lemma Regroup(delivered: seq<Word>, copied: seq<Word>, rest: seq<Word>, p: seq<Word>)
    requires delivered + (copied + rest) == p
    ensures (delivered + copied) + rest == p
    ensures copied == p[|delivered|..|delivered| + |copied|]
  {
  }

  lemma AdvanceKeepsCore(cfg: Config, c: Core, copied: seq<Word>)
    requires cfg.Valid() && CoreInv(cfg, c)
    requires |copied| <= Stored(c) && c.rd + |copied| <= |c.fifo|
    requires copied == c.fifo[c.rd..c.rd + |copied|]
    ensures CoreInv(cfg, Advance(c, copied))
    ensures |c.delivered| + |copied| <= |Payload(cfg, c.consumed)|
    ensures copied == Payload(cfg, c.consumed)[|c.delivered|..|c.delivered| + |copied|]
  {
    ContentsAdvance(cfg, c, copied);
    Regroup(c.delivered, copied, Contents(cfg, Advance(c, copied)), Payload(cfg, c.consumed));
  }

  lemma CoreStep(cfg: Config, s: State, e: Event)
    requires cfg.Valid() && CoreInv(cfg, s.core) && CopyInv(s.core, s.reader) && Enabled(cfg, s, e)
    ensures CoreInv(cfg, Apply(cfg, s, e).core)
  {
    match e
    case HParse => ParseWordKeepsCore(cfg, s.core);
    case RParse => ParseWordKeepsCore(cfg, s.core);
    case RCommit(_) => AdvanceKeepsCore(cfg, s.core, s.reader.copied);
    case Clear => assert Contents(cfg, Cleared(s.core)) == [];
    case _ =>
  }

  lemma CopyStep(cfg: Config, s: State, e: Event)
    requires cfg.Valid() && InRange(cfg, s.core) && CopyInv(s.core, s.reader) && Enabled(cfg, s, e)
    ensures CopyInv(Apply(cfg, s, e).core, Apply(cfg, s, e).reader)
  {
    if e.HParse? {
      CopyParseStep(cfg, s.core, s.reader);
    } else if e.RCopyWord? {
      CopyWordStep(s.core, s.reader);
    } else if e.RBegin? {
      CopyBeginStep(cfg, s.core, e.count);
    } else {
      assert !Apply(cfg, s, e).reader.RCopy? || Apply(cfg, s, e).reader == s.reader;
    }
  }

  lemma CopyParseStep(cfg: Config, c: Core, r: Reader)
    requires cfg.Valid() && InRange(cfg, c) && LoopContinues(c) && CopyInv(c, r)
    ensures CopyInv(ParseWord(cfg, c), r)
  {
    if r.RCopy? {
      ParseWordKeepsSlots(cfg, c, Words(r.bytes));
      ParseWordKeepsSlots(cfg, c, |r.copied|);
    }
  }

  lemma CopyBeginStep(cfg: Config, c: Core, count: nat)
    requires InRange(cfg, c) && !RingEmpty(c)
    ensures CopyInv(c, RCopy(ReadBytes(c, count), []))
  {
    assert Words(ReadBytes(c, count)) <= Available(c);
  }

  lemma CopyWordStep(c: Core, r: Reader)
    requires CopyInv(c, r) && r.RCopy? && 4 * |r.copied| + 4 <= r.bytes
    ensures CopyInv(c, r.(copied := r.copied + [Load(c.fifo, c.rd + |r.copied|)]))
  {
  }

  lemma AddOnBothSides(a: multiset<Word>, b: multiset<Word>, c: multiset<Word>, d: multiset<Word>, t: multiset<Word>)
    requires a + b == c + d
    ensures a + (b + t) == c + (d + t)
  {
    assert a + (b + t) == (a + b) + t;
    assert c + (d + t) == (c + d) + t;
  }

  /** The request word, if any, that the next parse takes into hand. */
  function Taken(cfg: Config, c: Core): multiset<Word>
  {
    if TakesRequest(cfg, c) then multiset{c.hw[0]} else multiset{}
  }

  predicate FrameInv(cfg: Config, c: Core)
  {
    c.nWritten <= c.nToWrite && c.nToWrite - c.nWritten == Owed(cfg, c.consumed)
  }

  lemma RequestParse(cfg: Config, s: State, h: Handler, r: Reader)
    requires cfg.Valid() && FrameInv(cfg, s.core) && RequestInv(cfg, s) && |s.core.hw| > 0
    requires InHand(h, r) == InHand(s.handler, s.reader) + Taken(cfg, s.core)
    ensures RequestInv(cfg, s.(core := ParseWord(cfg, s.core), handler := h, reader := r))
  {
    AppendWord(cfg, s.core.consumed, s.core.hw[0]);
    var q := Requests(cfg, s.core.consumed);
    assert multiset(Requests(cfg, s.core.consumed + [s.core.hw[0]])) == multiset(q) + Taken(cfg, s.core);
    AddOnBothSides(multiset(s.dispatched), InHand(s.handler, s.reader), multiset(s.earlier), multiset(q), Taken(cfg, s.core));
  }

  lemma RequestDispatch(cfg: Config, s: State, t: State, w: Word)
    requires cfg.Valid() && RequestInv(cfg, s)
    requires t.dispatched == s.dispatched + [w] && t.earlier == s.earlier && t.core == s.core
    requires InHand(s.handler, s.reader) == InHand(t.handler, t.reader) + multiset{w}
    ensures RequestInv(cfg, t)
  {
    assert multiset(t.dispatched) == multiset(s.dispatched) + multiset{w};
  }

  lemma RequestClear(cfg: Config, s: State)
    requires cfg.Valid() && RequestInv(cfg, s) && Enabled(cfg, s, Clear)
    ensures RequestInv(cfg, Apply(cfg, s, Clear))
  {
    assert Requests(cfg, []) == [];
  }

  lemma RequestParsed(cfg: Config, s: State, e: Event)
    requires cfg.Valid() && FrameInv(cfg, s.core) && RequestInv(cfg, s) && Enabled(cfg, s, e)
    requires e.HParse? || e.RParse?
    ensures RequestInv(cfg, Apply(cfg, s, e))
  {
    if e.HParse? {
      var h := if TakesRequest(cfg, s.core) then HRequest(s.core.hw[0]) else HLocked;
      assert InHand(h, s.reader) == InHand(s.handler, s.reader) + Taken(cfg, s.core);
      RequestParse(cfg, s, h, s.reader);
    } else {
      var r := if TakesRequest(cfg, s.core) then RRequest(s.core.hw[0]) else RDrain;
      assert InHand(s.handler, r) == InHand(s.handler, s.reader) + Taken(cfg, s.core);
      RequestParse(cfg, s, s.handler, r);
    }
  }

  lemma RequestDispatched(cfg: Config, s: State, e: Event)
    requires cfg.Valid() && RequestInv(cfg, s) && Enabled(cfg, s, e)
    requires e.HDispatch? || e.RDispatch?
    ensures RequestInv(cfg, Apply(cfg, s, e))
  {
    if e.HDispatch? {
      assert InHand(s.handler, s.reader) == InHand(HRelock, s.reader) + multiset{s.handler.w};
      RequestDispatch(cfg, s, Apply(cfg, s, e), s.handler.w);
    } else {
      assert InHand(s.handler, s.reader) == InHand(s.handler, RRelock) + multiset{s.reader.w};
      RequestDispatch(cfg, s, Apply(cfg, s, e), s.reader.w);
    }
  }

  lemma RequestStep(cfg: Config, s: State, e: Event)
    requires cfg.Valid() && FrameInv(cfg, s.core) && RequestInv(cfg, s) && Enabled(cfg, s, e)
    ensures RequestInv(cfg, Apply(cfg, s, e))
  {
    if e.HParse? || e.RParse? {
      RequestParsed(cfg, s, e);
    } else if e.HDispatch? || e.RDispatch? {
      RequestDispatched(cfg, s, e);
    } else if e.Clear? {
      RequestClear(cfg, s);
    } else {
      var t := Apply(cfg, s, e);
      assert t.core.consumed == s.core.consumed;
      assert InHand(t.handler, t.reader) == InHand(s.handler, s.reader);
    }
  }

  lemma HistoryStep(cfg: Config, s: State, e: Event)
    requires cfg.Valid() && s.core.consumed + s.core.hw == s.pushed && Enabled(cfg, s, e)
    ensures var t := Apply(cfg, s, e); t.core.consumed + t.core.hw == t.pushed
  {
    match e
    case HParse => ParseHistory(cfg, s.core);
    case RParse => ParseHistory(cfg, s.core);
    case Push(w) => assert s.core.consumed + s.core.hw + [w] == s.core.consumed + (s.core.hw + [w]);
    case Clear =>
    case _ => assert Apply(cfg, s, e).pushed == s.pushed;
  }

  lemma ParseHistory(cfg: Config, c: Core)
    requires |c.hw| > 0
    ensures ParseWord(cfg, c).consumed + ParseWord(cfg, c).hw == c.consumed + c.hw
  {
    assert c.hw == [c.hw[0]] + c.hw[1..];
    assert c.consumed + [c.hw[0]] + c.hw[1..] == c.consumed + ([c.hw[0]] + c.hw[1..]);
  }

  /** Every event of either actor, of the accelerator and of pulp_mbox_clear keeps the invariant. */
  lemma StepKeepsInv(cfg: Config, s: State, e: Event)
    requires cfg.Valid() && Inv(cfg, s) && Enabled(cfg, s, e)
    ensures Inv(cfg, Apply(cfg, s, e))
  {
    CoreStep(cfg, s, e);
    CopyStep(cfg, s, e);
    RequestStep(cfg, s, e);
    HistoryStep(cfg, s, e);
  }

  // ---------------------------------------------------------------- runs

  /** `run` is a sequence of states from Init, each an enabled event after the one before. */
  ghost predicate IsRun(cfg: Config, events: seq<Event>, run: seq<State>)
  {
    && |run| == |events| + 1
    && run[0] == Init(cfg)
    && forall i :: 0 <= i < |events| ==>
         Enabled(cfg, run[i], events[i]) && run[i + 1] == Apply(cfg, run[i], events[i])
  }

  lemma {:induction false} RunKeepsInv(cfg: Config, events: seq<Event>, run: seq<State>, i: nat)
    requires cfg.Valid() && IsRun(cfg, events, run) && i < |run|
    ensures Inv(cfg, run[i])
  {
    if i > 0 {
      RunKeepsInv(cfg, events, run, i - 1);
      StepKeepsInv(cfg, run[i - 1], events[i - 1]);
    } else {
      assert Contents(cfg, Init(cfg).core) == [];
    }
  }

  /**
   The law of the mailbox, in every state of every interleaving. The words handed to user
   space followed by the ring are exactly the TO_RUNTIME payload of the words taken from the
   hardware, which are exactly the oldest words pushed; `full` means that all slots hold
   undelivered words; and every request word was carried out exactly once or is held by
   exactly one actor.
   */
  lemma RunsDeliverPayload(cfg: Config, events: seq<Event>, run: seq<State>, i: nat)
    requires cfg.Valid() && IsRun(cfg, events, run) && i < |run|
    ensures InRange(cfg, run[i].core)
    ensures run[i].core.delivered + Contents(cfg, run[i].core) == Payload(cfg, run[i].core.consumed)
    ensures run[i].core.consumed + run[i].core.hw == run[i].pushed
    ensures run[i].core.full <==>
            |Payload(cfg, run[i].core.consumed)| - |run[i].core.delivered| == cfg.Cap()
    ensures |Payload(cfg, run[i].core.consumed)| - |run[i].core.delivered| <= cfg.Cap()
    ensures run[i].core.nWritten <= run[i].core.nToWrite
    ensures run[i].core.nWritten < run[i].core.nToWrite <==> Owed(cfg, run[i].core.consumed) > 0
    ensures run[i].core.delivered <= Payload(cfg, run[i].pushed)
    ensures multiset(run[i].dispatched) + InHand(run[i].handler, run[i].reader)
            == multiset(run[i].earlier) + multiset(Requests(cfg, run[i].core.consumed))
    ensures !(run[i].handler.HLocked? && run[i].reader.RDrain?)
  {
    RunKeepsInv(cfg, events, run, i);
    PayloadPrefix(cfg, run[i].core.consumed, run[i].core.hw);
  }

  /**
   While a read copies without the lock, no event of anyone else moves `rd` or touches the
   slots being copied; and what a commit hands over is the next stretch of the payload.
   */
  lemma CopyIsUndisturbed(cfg: Config, events: seq<Event>, run: seq<State>, i: nat)
    requires cfg.Valid() && IsRun(cfg, events, run) && i < |events| && run[i].reader.RCopy?
    ensures SlotsKept(run[i].core, run[i + 1].core, Words(run[i].reader.bytes))
    ensures !events[i].RCommit? ==>
              && run[i + 1].core.rd == run[i].core.rd
              && run[i + 1].reader.RCopy? && run[i + 1].reader.bytes == run[i].reader.bytes
    ensures events[i].RCommit? ==>
              && run[i + 1].core.delivered == run[i].core.delivered + run[i].reader.copied
              && run[i + 1].core.delivered <= Payload(cfg, run[i].core.consumed)
  {
    RunKeepsInv(cfg, events, run, i);
    SlotsStep(cfg, run[i], events[i]);
    if events[i].RCommit? {
      CommitDelivers(cfg, run[i].core, run[i].reader.copied);
    }
  }

  lemma CommitDelivers(cfg: Config, c: Core, copied: seq<Word>)
    requires cfg.Valid() && CoreInv(cfg, c) && |copied| <= Stored(c) && c.rd + |copied| <= |c.fifo|
    requires copied == c.fifo[c.rd..c.rd + |copied|]
    ensures c.delivered + copied <= Payload(cfg, c.consumed)
  {
    AdvanceKeepsCore(cfg, c, copied);
    var p := Payload(cfg, c.consumed);
    assert p[..|c.delivered| + |copied|] == p[..|c.delivered|] + copied;
  }

  /** `n` slots from `rd` on hold in `d` what they hold in `c`. */
  predicate SlotsKept(c: Core, d: Core, n: nat) {
    && c.rd + n <= |c.fifo| == |d.fifo|
    && d.fifo[c.rd..c.rd + n] == c.fifo[c.rd..c.rd + n]
  }

  lemma SlotsStep(cfg: Config, s: State, e: Event)
    requires cfg.Valid() && InRange(cfg, s.core) && CopyInv(s.core, s.reader)
    requires Enabled(cfg, s, e) && s.reader.RCopy?
    ensures SlotsKept(s.core, Apply(cfg, s, e).core, Words(s.reader.bytes))
    ensures !e.RCommit? ==> Apply(cfg, s, e).core.rd == s.core.rd
  {
    if e.HParse? {
      ParseWordKeepsSlots(cfg, s.core, Words(s.reader.bytes));
    }
  }

  /** The events, each enabled in turn, lead from `s` to `t`. */
  predicate Leads(cfg: Config, s: State, events: seq<Event>, t: State)
    decreases |events|
  {
    if events == [] then s == t
    else Enabled(cfg, s, events[0]) && Leads(cfg, Apply(cfg, s, events[0]), events[1..], t)
  }
}
