/**
 Schedules of the mailbox protocol, built from Init: filling the ring, reads that do not ask
 for whole words, and a clear in the middle of a read.
 */
module MailboxRuns {
  import opened MailboxFrames
  import opened MailboxProtocol

  // ---------------------------------------------------------------- schedules

  lemma {:induction false} LeadsStep(cfg: Config, s: State, events: seq<Event>, t: State, e: Event)
    requires Leads(cfg, s, events, t) && Enabled(cfg, t, e)
    ensures Leads(cfg, s, events + [e], Apply(cfg, t, e))
    decreases |events|
  {
    if events == [] {
      assert events + [e] == [e] && [e][1..] == [];
    } else {
      LeadsStep(cfg, Apply(cfg, s, events[0]), events[1..], t, e);
      assert (events + [e])[1..] == events[1..] + [e];
    }
  }

  lemma {:induction false} LeadsJoin(cfg: Config, s: State, es: seq<Event>, t: State, fs: seq<Event>, u: State)
    requires Leads(cfg, s, es, t) && Leads(cfg, t, fs, u)
    ensures Leads(cfg, s, es + fs, u)
    decreases |es|
  {
    if es == [] {
      assert es + fs == fs;
    } else {
      LeadsJoin(cfg, Apply(cfg, s, es[0]), es[1..], t, fs, u);
      assert (es + fs)[1..] == es[1..] + fs;
    }
  }

  lemma {:induction false} LeadsKeepsInv(cfg: Config, s: State, events: seq<Event>, t: State)
    requires cfg.Valid() && Inv(cfg, s) && Leads(cfg, s, events, t)
    ensures Inv(cfg, t)
    decreases |events|
  {
    if events != [] {
      StepKeepsInv(cfg, s, events[0]);
      LeadsKeepsInv(cfg, Apply(cfg, s, events[0]), events[1..], t);
    }
  }

  /** The states of a schedule. */
  function States(cfg: Config, s: State, events: seq<Event>, t: State): (run: seq<State>)
    requires Leads(cfg, s, events, t)
    ensures |run| == |events| + 1 && run[0] == s && run[|events|] == t
    ensures forall i :: 0 <= i < |events| ==> Enabled(cfg, run[i], events[i]) && run[i + 1] == Apply(cfg, run[i], events[i])
    decreases |events|
  {
    if events == [] then [s] else [s] + States(cfg, Apply(cfg, s, events[0]), events[1..], t)
  }

  lemma InitInv(cfg: Config)
    requires cfg.Valid()
    ensures Inv(cfg, Init(cfg))
  {
    assert Contents(cfg, Init(cfg).core) == [];
  }

  // ---------------------------------------------------------------- feeding words

  /** Nobody is at work and the hardware queue is empty. */
  predicate Quiet(s: State) { s.handler.HIdle? && s.reader.RIdle? && s.core.hw == [] }

  /** At a frame boundary. */
  predicate Between(s: State) { s.core.nWritten == s.core.nToWrite }

  predicate SameRequests(s: State, t: State) { t.dispatched == s.dispatched && t.earlier == s.earlier }

  /** The handler takes one word into a ring that has room. */
  lemma FeedHandler(cfg: Config, s: State, w: Word) returns (events: seq<Event>, t: State)
    requires cfg.Valid() && Inv(cfg, s) && Quiet(s) && !s.core.full && (Between(s) ==> IsData(cfg, w))
    ensures Leads(cfg, s, events, t) && Quiet(t) && SameRequests(s, t) && t.user == s.user
    ensures t.core == ParseWord(cfg, s.core.(hw := [w]))
  {
    events, t := [Push(w)], Apply(cfg, s, Push(w));
    LeadsStep(cfg, s, [], s, Push(w));
    LeadsStep(cfg, s, events, t, HEnter);
    events, t := events + [HEnter], Apply(cfg, t, HEnter);
    LeadsStep(cfg, s, events, t, HParse);
    events, t := events + [HParse], Apply(cfg, t, HParse);
    LeadsStep(cfg, s, events, t, HLeave);
    events, t := events + [HLeave], Apply(cfg, t, HLeave);
  }

  /** A read of at most four bytes can start. */
  lemma Begins(cfg: Config, s: State, count: nat)
    requires cfg.Valid() && Inv(cfg, s) && LockFree(s) && s.reader.RIdle? && !RingEmpty(s.core) && count <= 4
    ensures Enabled(cfg, s, RBegin(count)) && Apply(cfg, s, RBegin(count)) == s.(reader := RCopy(count, []))
  {
    assert Available(s.core) >= 1;
  }

  lemma CopiesOne(cfg: Config, s: State)
    requires s.reader == RCopy(4, [])
    ensures Enabled(cfg, s, RCopyWord)
    ensures Apply(cfg, s, RCopyWord) == s.(reader := RCopy(4, [Load(s.core.fifo, s.core.rd)]))
  {
    assert [] + [Load(s.core.fifo, s.core.rd)] == [Load(s.core.fifo, s.core.rd)];
  }

  lemma CommitsOne(cfg: Config, s: State, w: Word)
    requires LockFree(s) && s.reader == RCopy(4, [w])
    ensures Enabled(cfg, s, RCommit(0))
    ensures Apply(cfg, s, RCommit(0))
            == s.(core := Advance(s.core, [w]), user := s.user + WordBytes(w), reader := if s.core.full then RDrain else RIdle)
  {
    OneWord(s.core, w);
  }

  lemma OneWord(c: Core, w: Word)
    ensures CopiedBytes(c, [w], 4) == WordBytes(w)
  {
    assert [w][..0] == [];
    assert Bytes([w]) == Bytes([]) + WordBytes(w) == WordBytes(w);
  }

  /** Read one whole word; from a full ring the reader goes on to drain. */
  lemma ReadWord(cfg: Config, s: State) returns (events: seq<Event>, t: State)
    requires cfg.Valid() && Inv(cfg, s) && LockFree(s) && s.reader.RIdle? && !RingEmpty(s.core)
    ensures Leads(cfg, s, events, t)
    ensures var w := Load(s.core.fifo, s.core.rd);
            t == s.(core := Advance(s.core, [w]), user := s.user + WordBytes(w), reader := if s.core.full then RDrain else RIdle)
  {
    var w := Load(s.core.fifo, s.core.rd);
    var (s1, s2) := (s.(reader := RCopy(4, [])), s.(reader := RCopy(4, [w])));
    Begins(cfg, s, 4);
    LeadsStep(cfg, s, [], s, RBegin(4));
    CopiesOne(cfg, s1);
    LeadsStep(cfg, s, [RBegin(4)], s1, RCopyWord);
    CommitsOne(cfg, s2, w);
    LeadsStep(cfg, s, [RBegin(4)] + [RCopyWord], s2, RCommit(0));
    events, t := [RBegin(4)] + [RCopyWord] + [RCommit(0)], Apply(cfg, s2, RCommit(0));
  }

  /** A read makes room in a full ring, and the reader's own drain loop takes the word. */
  lemma FeedReader(cfg: Config, s: State, w: Word) returns (events: seq<Event>, t: State)
    requires cfg.Valid() && Inv(cfg, s) && Quiet(s) && s.core.full && (Between(s) ==> IsData(cfg, w))
    ensures Leads(cfg, s, events, t) && Quiet(t) && SameRequests(s, t)
    ensures t.core.consumed == s.core.consumed + [w]
    ensures Stored(t.core) == if Between(s) then cfg.Cap() - 1 else cfg.Cap()
  {
    var s1 := Apply(cfg, s, Push(w));
    LeadsStep(cfg, s, [], s, Push(w));
    LeadsKeepsInv(cfg, s, [Push(w)], s1);
    var es, s2 := ReadWord(cfg, s1);
    LeadsJoin(cfg, s, [Push(w)], s1, es, s2);
    events, t := [Push(w)] + es, s2;
    assert LoopContinues(t.core);
    LeadsStep(cfg, s, events, t, RParse);
    events, t := events + [RParse], Apply(cfg, t, RParse);
    LeadsStep(cfg, s, events, t, RLeave);
    events, t := events + [RLeave], Apply(cfg, t, RLeave);
  }

  /** Any header or payload word can be fed to a quiet mailbox; payload fills the ring. */
  lemma Feed(cfg: Config, s: State, w: Word) returns (events: seq<Event>, t: State)
    requires cfg.Valid() && Inv(cfg, s) && Quiet(s) && (Between(s) ==> IsData(cfg, w))
    ensures Leads(cfg, s, events, t) && Quiet(t) && Inv(cfg, t) && SameRequests(s, t)
    ensures t.core.consumed == s.core.consumed + [w]
    ensures Between(s) ==> Stored(t.core) >= Min(Stored(s.core), cfg.Cap() - 1)
    ensures !Between(s) ==> Stored(t.core) == Min(Stored(s.core) + 1, cfg.Cap())
  {
    if s.core.full {
      events, t := FeedReader(cfg, s, w);
    } else {
      events, t := FeedHandler(cfg, s, w);
    }
    LeadsKeepsInv(cfg, s, events, t);
  }

  /** Feed the n words that the open frame still lacks. */
  lemma {:induction false} FeedPayload(cfg: Config, s: State, w: Word, n: nat) returns (events: seq<Event>, t: State)
    requires cfg.Valid() && Inv(cfg, s) && Quiet(s) && s.core.nToWrite - s.core.nWritten == n
    ensures Leads(cfg, s, events, t) && Quiet(t) && Inv(cfg, t) && SameRequests(s, t) && Between(t)
    ensures Stored(t.core) == Min(Stored(s.core) + n, cfg.Cap())
    decreases n
  {
    if n == 0 {
      events, t := [], s;
    } else {
      var es, s1 := Feed(cfg, s, w);
      AppendWord(cfg, s.core.consumed, w);
      var fs;
      fs, t := FeedPayload(cfg, s1, w, n - 1);
      LeadsJoin(cfg, s, es, s1, fs, t);
      events := es + fs;
    }
  }

  /** Feed one frame with at least one word: the ring gets fuller, or stays full. */
  lemma FeedFrame(cfg: Config, s: State, h: Word, w: Word) returns (events: seq<Event>, t: State)
    requires cfg.Valid() && Inv(cfg, s) && Quiet(s) && Between(s) && IsData(cfg, h) && NWords(cfg, h) >= 1
    ensures Leads(cfg, s, events, t) && Quiet(t) && Inv(cfg, t) && SameRequests(s, t) && Between(t)
    ensures Stored(t.core) >= Min(Stored(s.core) + 1, cfg.Cap())
  {
    var es, s1 := Feed(cfg, s, h);
    AppendWord(cfg, s.core.consumed, h);
    var fs;
    fs, t := FeedPayload(cfg, s1, w, NWords(cfg, h));
    LeadsJoin(cfg, s, es, s1, fs, t);
    events := es + fs;
  }

  lemma {:induction false} FillRing(cfg: Config, s: State, h: Word, w: Word) returns (events: seq<Event>, t: State)
    requires cfg.Valid() && Inv(cfg, s) && Quiet(s) && Between(s) && IsData(cfg, h) && NWords(cfg, h) >= 1
    ensures Leads(cfg, s, events, t) && Quiet(t) && Inv(cfg, t) && SameRequests(s, t) && Between(t) && t.core.full
    decreases cfg.Cap() - Stored(s.core)
  {
    if s.core.full {
      events, t := [], s;
    } else {
      var es, s1 := FeedFrame(cfg, s, h, w);
      var fs;
      fs, t := FillRing(cfg, s1, h, w);
      LeadsJoin(cfg, s, es, s1, fs, t);
      events := es + fs;
    }
  }

  // ---------------------------------------------------------------- odd byte counts

  /** The bytes that this commit hands over are whole words. */
  predicate WholeCommit(s: State, e: Event) {
    e.RCommit? && s.reader.RCopy? && e.notCopied <= s.reader.bytes ==> (s.reader.bytes - e.notCopied) % 4 == 0
  }

  /** The bytes, if any, of the word at the head of the ring. */
  function HeadBytes(cfg: Config, c: Core, odd: nat): seq<WordByte>
    requires InRange(cfg, c) && odd < 4
  {
    if odd > 0 && |Contents(cfg, c)| > 0 then WordBytes(Contents(cfg, c)[0])[..odd] else []
  }

  lemma CommitBytes(cfg: Config, c: Core, r: Reader, bytes: nat)
    requires InRange(cfg, c) && CopyInv(c, r) && r.RCopy? && bytes <= r.bytes && bytes / 4 == |r.copied|
    ensures InRange(cfg, Advance(c, r.copied))
    ensures bytes % 4 > 0 ==> |Contents(cfg, Advance(c, r.copied))| > 0
    ensures CopiedBytes(c, r.copied, bytes) == Bytes(r.copied) + HeadBytes(cfg, Advance(c, r.copied), bytes % 4)
  {
    if bytes % 4 > 0 {
      HeadAfter(cfg, c, r.copied);
    } else {
      ContentsAdvance(cfg, c, r.copied);
      assert WordBytes(Load(c.fifo, c.rd + |r.copied|))[..0] == [];
    }
  }

  /**
   What a commit hands over: the words it moves `rd` over, and then the first bytes of the word
   that is now at the head of the ring, which the next read hands over again.
   */
  lemma OddBytesRepeat(cfg: Config, events: seq<Event>, run: seq<State>, i: nat)
    requires cfg.Valid() && IsRun(cfg, events, run) && i < |events| && events[i].RCommit?
    ensures var handed := HandsOver(cfg, run[i], events[i], run[i + 1]); handed
  {
    RunKeepsInv(cfg, events, run, i);
    CommitStep(cfg, run[i], events[i], run[i + 1]);
  }

  /** Whole words and the first bytes of the word now at the head of the ring. */
  predicate HandsOver(cfg: Config, s: State, e: Event, t: State) {
    e.RCommit? && s.reader.RCopy? && e.notCopied <= s.reader.bytes && InRange(cfg, t.core) &&
    var odd := (s.reader.bytes - e.notCopied) % 4;
    && (odd > 0 ==> |Contents(cfg, t.core)| > 0)
    && t.user == s.user + (Bytes(s.reader.copied) + HeadBytes(cfg, t.core, odd))
  }

  lemma CommitStep(cfg: Config, s: State, e: Event, t: State)
    requires InRange(cfg, s.core) && CopyInv(s.core, s.reader) && e.RCommit? && Enabled(cfg, s, e) && t == Apply(cfg, s, e)
    ensures HandsOver(cfg, s, e, t)
  {
    CommitBytes(cfg, s.core, s.reader, s.reader.bytes - e.notCopied);
  }

  /** The slot behind the copied words is the head of the ring after the commit. */
  lemma HeadAfter(cfg: Config, c: Core, copied: seq<Word>)
    requires InRange(cfg, c) && |copied| < Stored(c) && c.rd + |copied| < |c.fifo|
    ensures InRange(cfg, Advance(c, copied)) && |Contents(cfg, Advance(c, copied))| > 0
    ensures Contents(cfg, Advance(c, copied))[0] == Load(c.fifo, c.rd + |copied|)
  {
  }

  lemma {:induction false} BytesAppend(a: seq<Word>, b: seq<Word>)
    ensures Bytes(a + b) == Bytes(a) + Bytes(b)
    decreases |b|
  {
    if b == [] {
      assert a + b == a && Bytes(a) + Bytes(b) == Bytes(a);
    } else {
      BytesAppend(a, b[..|b| - 1]);
      assert (a + b)[..|a + b| - 1] == a + b[..|b| - 1];
    }
  }

  /** The bytes handed over are the words delivered, or more than those. */
  predicate Exact(s: State) { s.user == Bytes(s.core.delivered) }

  lemma ExactBytes(user: seq<WordByte>, delivered: seq<Word>, copied: seq<Word>, part: seq<WordByte>)
    requires user == Bytes(delivered) && part == []
    ensures user + (Bytes(copied) + part) == Bytes(delivered + copied)
  {
    BytesAppend(delivered, copied);
  }

  lemma ExactCommit(cfg: Config, s: State, e: Event)
    requires Enabled(cfg, s, e) && e.RCommit? && |s.user| >= 4 * |s.core.delivered|
    ensures var t := Apply(cfg, s, e);
            var odd := (s.reader.bytes - e.notCopied) % 4;
            |t.user| - 4 * |t.core.delivered| == |s.user| - 4 * |s.core.delivered| + odd && (Exact(s) && odd == 0 ==> Exact(t))
  {
    if Exact(s) && WholeCommit(s, e) {
      var part := WordBytes(Load(s.core.fifo, s.core.rd + |s.reader.copied|))[..0];
      ExactBytes(s.user, s.core.delivered, s.reader.copied, part);
    }
  }

  lemma ExactStep(cfg: Config, s: State, e: Event)
    requires Enabled(cfg, s, e) && !e.Clear? && |s.user| >= 4 * |s.core.delivered|
    ensures |Apply(cfg, s, e).user| >= 4 * |Apply(cfg, s, e).core.delivered|
    ensures Exact(s) && WholeCommit(s, e) ==> Exact(Apply(cfg, s, e))
    ensures |s.user| > 4 * |s.core.delivered| || !WholeCommit(s, e) ==>
              |Apply(cfg, s, e).user| > 4 * |Apply(cfg, s, e).core.delivered|
  {
    if e.RCommit? {
      ExactCommit(cfg, s, e);
    } else {
      assert Apply(cfg, s, e).user == s.user && Apply(cfg, s, e).core.delivered == s.core.delivered;
    }
  }

  /** Every commit among events k to i - 1 was of whole words. */
  predicate AllWhole(events: seq<Event>, run: seq<State>, k: nat, i: nat)
    requires |run| == |events| + 1 && i < |run|
  {
    i <= k || (WholeCommit(run[i - 1], events[i - 1]) && AllWhole(events, run, k, i - 1))
  }

  /**
   From Init or from a clear on, user space has been handed exactly the bytes of the words
   delivered if and only if every commit was of whole words.
   */
  lemma {:induction false} UserBytesIff(cfg: Config, events: seq<Event>, run: seq<State>, k: nat, i: nat)
    requires IsRun(cfg, events, run) && k <= i < |run|
    requires run[k].user == [] && run[k].core.delivered == [] && forall j :: k <= j < i ==> !events[j].Clear?
    ensures Exact(run[i]) <==> AllWhole(events, run, k, i)
    ensures |run[i].user| >= 4 * |run[i].core.delivered|
    ensures !Exact(run[i]) ==> |run[i].user| > 4 * |run[i].core.delivered|
  {
    if i > k {
      UserBytesIff(cfg, events, run, k, i - 1);
      ExactNext(cfg, run[i - 1], events[i - 1], run[i]);
    }
  }

  lemma ExactNext(cfg: Config, s: State, e: Event, t: State)
    requires Enabled(cfg, s, e) && !e.Clear? && t == Apply(cfg, s, e)
    requires |s.user| >= 4 * |s.core.delivered| && (!Exact(s) ==> |s.user| > 4 * |s.core.delivered|)
    ensures Exact(t) <==> Exact(s) && WholeCommit(s, e)
    ensures |t.user| >= 4 * |t.core.delivered| && (!Exact(t) ==> |t.user| > 4 * |t.core.delivered|)
  {
    ExactStep(cfg, s, e);
  }

  /**
   A read whose copy succeeds entirely is a whole commit exactly if the count is a multiple of
   four or asks for all that is available.
   */
  lemma ReadsWholeWordsIff(cfg: Config, events: seq<Event>, run: seq<State>, i: nat, count: nat)
    requires cfg.Valid() && IsRun(cfg, events, run) && i < |events| && events[i] == RBegin(count)
    ensures run[i + 1].reader.RCopy?
    ensures WholeCommit(run[i + 1], RCommit(0)) <==> count % 4 == 0 || count >= 4 * Available(run[i].core)
  {
    assert InRange(cfg, run[i].core) by { RunKeepsInv(cfg, events, run, i); }
    WholeWords(count, Available(run[i].core));
  }

  lemma WholeWords(count: nat, words: nat)
    ensures Min(count, 4 * words) % 4 == 0 <==> count % 4 == 0 || count >= 4 * words
  {
  }

  /** One frame fed to a fresh mailbox leaves its last word alone in the ring. */
  lemma OneWordStored(cfg: Config, h: Word, w: Word) returns (events: seq<Event>, t: State)
    requires cfg.Valid() && IsData(cfg, h) && NWords(cfg, h) >= 1
    ensures Leads(cfg, Init(cfg), events, t) && Inv(cfg, t) && Quiet(t) && t.user == [] && t.core.delivered == []
    ensures t.core.rd == 0 && t.core.wr == 1 && !t.core.full && t.core.fifo[0] == w && t.core.consumed == [h, w]
  {
    var s := Init(cfg);
    InitInv(cfg);
    var es, s1 := FeedHandler(cfg, s, h);
    LeadsKeepsInv(cfg, s, es, s1);
    var fs;
    fs, t := FeedHandler(cfg, s1, w);
    LeadsJoin(cfg, s, es, s1, fs, t);
    events := es + fs;
    LeadsKeepsInv(cfg, s, events, t);
  }

  /** A read of one to three bytes and then a whole word: user space gets those bytes twice. */
  lemma OddReadRun(cfg: Config, h: Word, w: Word, odd: nat) returns (events: seq<Event>, run: seq<State>)
    requires cfg.Valid() && IsData(cfg, h) && NWords(cfg, h) >= 1 && 1 <= odd <= 3
    ensures IsRun(cfg, events, run)
    ensures run[|events|].core.delivered == [w] && run[|events|].user == WordBytes(w)[..odd] + WordBytes(w)
  {
    var s := Init(cfg);
    var es, s1 := OneWordStored(cfg, h, w);
    Begins(cfg, s1, odd);
    LeadsStep(cfg, s, es, s1, RBegin(odd));
    var s2 := Apply(cfg, s1, RBegin(odd));
    OddCommit(cfg, s2, w, odd);
    LeadsStep(cfg, s, es + [RBegin(odd)], s2, RCommit(0));
    var s3 := Apply(cfg, s2, RCommit(0));
    var fs := es + [RBegin(odd)] + [RCommit(0)];
    InitInv(cfg);
    LeadsKeepsInv(cfg, s, fs, s3);
    var gs, t := ReadWord(cfg, s3);
    LeadsJoin(cfg, s, fs, s3, gs, t);
    events := fs + gs;
    run := States(cfg, s, events, t);
  }

  lemma OddCommit(cfg: Config, s: State, w: Word, odd: nat)
    requires LockFree(s) && s.reader == RCopy(odd, []) && 1 <= odd <= 3 && Load(s.core.fifo, s.core.rd) == w
    requires s.core.rd < |s.core.fifo| && s.user == []
    ensures Enabled(cfg, s, RCommit(0)) && Apply(cfg, s, RCommit(0)) == s.(user := WordBytes(w)[..odd], reader := RIdle)
  {
    assert Advance(s.core, []) == s.core;
    assert Bytes([]) + WordBytes(w)[..odd] == WordBytes(w)[..odd];
  }

  // ---------------------------------------------------------------- a clear in the middle of a read

  /**
   Were pulp_mbox_clear to run between a read's two locked sections, and the handler to go on
   filling the ring, then the read's commit would keep the law of the mailbox exactly if the
   words it had copied before the clear happen to be the first ones stored after it.
   */
  lemma ClearDuringCopyIff(cfg: Config, c: Core, copied: seq<Word>)
    requires cfg.Valid() && CoreInv(cfg, c) && c.rd == 0 && |copied| <= cfg.Cap()
    ensures CoreInv(cfg, Advance(c, copied)) <==> copied <= Contents(cfg, c)
  {
    var (d, k, m) := (Advance(c, copied), |copied|, Stored(c));
    if k > m {
      assert |d.delivered| + Stored(d) > |Payload(cfg, c.consumed)|;
    } else {
      DropFront(cfg, c, copied);
      LawAfter(c.delivered, copied, Contents(cfg, c), Contents(cfg, d));
    }
  }

  lemma DropFront(cfg: Config, c: Core, copied: seq<Word>)
    requires cfg.Valid() && InRange(cfg, c) && c.rd == 0 && |copied| <= Stored(c)
    ensures InRange(cfg, Advance(c, copied)) && Contents(cfg, Advance(c, copied)) == Contents(cfg, c)[|copied|..]
  {
  }

  lemma LawAfter(delivered: seq<Word>, copied: seq<Word>, contents: seq<Word>, rest: seq<Word>)
    requires |copied| <= |contents| && rest == contents[|copied|..]
    ensures delivered + copied + rest == delivered + contents <==> copied <= contents
  {
    var (l, r) := (delivered + copied + rest, delivered + contents);
    if l == r {
      assert copied == l[|delivered|..|delivered| + |copied|] == contents[..|copied|];
    }
    assert copied <= contents ==> contents == copied + rest;
    assert delivered + (copied + rest) == l;
  }

  /** A run that reaches it: one word is being read when the clear comes, and the commit claims it again. */
  lemma ClearBreaksLaw(cfg: Config, h: Word, w: Word) returns (events: seq<Event>, s: State, t: State)
    requires cfg.Valid() && IsData(cfg, h) && NWords(cfg, h) >= 1
    ensures Leads(cfg, Init(cfg), events, s) && s.reader == RCopy(4, [w]) && LockFree(s)
    ensures var s' := s.(core := Cleared(s.core));
            Enabled(cfg, s', RCommit(0)) && t == Apply(cfg, s', RCommit(0)) && t.core.delivered == [w] && t.core.consumed == []
    ensures !CoreInv(cfg, t.core)
  {
    var i := Init(cfg);
    var es, s1 := OneWordStored(cfg, h, w);
    Begins(cfg, s1, 4);
    LeadsStep(cfg, i, es, s1, RBegin(4));
    var s2 := s1.(reader := RCopy(4, []));
    CopiesOne(cfg, s2);
    LeadsStep(cfg, i, es + [RBegin(4)], s2, RCopyWord);
    events, s := es + [RBegin(4)] + [RCopyWord], s2.(reader := RCopy(4, [w]));
    t := CommitAfterClear(cfg, s, w);
  }

  lemma CommitAfterClear(cfg: Config, s: State, w: Word) returns (t: State)
    requires LockFree(s) && s.reader == RCopy(4, [w])
    ensures var s' := s.(core := Cleared(s.core));
            Enabled(cfg, s', RCommit(0)) && t == Apply(cfg, s', RCommit(0)) && t.core.delivered == [w] && t.core.consumed == []
    ensures !CoreInv(cfg, t.core)
  {
    var s' := s.(core := Cleared(s.core));
    CommitsOne(cfg, s', w);
    t := Apply(cfg, s', RCommit(0));
    assert t.core.delivered == [] + [w];
    assert |Payload(cfg, [])| == 0;
  }
}
