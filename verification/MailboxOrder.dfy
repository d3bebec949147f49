/**
 In which order mailbox requests are carried out. Both actors drop the lock around a request,
 so order is kept as long as only one of them holds one, and lost as soon as both do.
 */
module MailboxOrder {
  import opened MailboxFrames
  import opened MailboxProtocol
  import opened MailboxRuns

  /** All requests taken so far, in the order in which they were sent. */
  function Sent(cfg: Config, s: State): seq<Word> { s.earlier + Requests(cfg, s.core.consumed) }

  /** The requests carried out are the first ones sent. */
  predicate InOrder(cfg: Config, s: State) { s.dispatched <= Sent(cfg, s) }

  /** At most one actor holds a request. */
  predicate Alone(s: State) { !(s.handler.HRequest? && s.reader.RRequest?) }

  /** The request in hand. */
  function Hand(s: State): seq<Word> {
    if s.handler.HRequest? then [s.handler.w] else if s.reader.RRequest? then [s.reader.w] else []
  }

  /** Carried out, then in hand: exactly the requests taken, in order. */
  predicate Tidy(cfg: Config, s: State) { Sent(cfg, s) == s.dispatched + Hand(s) }

  // ---------------------------------------------------------------- while one actor at a time holds a request

  /** The request, if any, that the next parse takes. */
  function Took(cfg: Config, c: Core): seq<Word> { if TakesRequest(cfg, c) then [c.hw[0]] else [] }

  lemma ParseSends(cfg: Config, s: State, e: Event)
    requires cfg.Valid() && FrameInv(cfg, s.core) && Enabled(cfg, s, e) && (e.HParse? || e.RParse?)
    ensures Sent(cfg, Apply(cfg, s, e)) == Sent(cfg, s) + Took(cfg, s.core)
  {
    AppendWord(cfg, s.core.consumed, s.core.hw[0]);
    var (q, w) := (Requests(cfg, s.core.consumed), Took(cfg, s.core));
    assert Requests(cfg, ParseWord(cfg, s.core).consumed) == q + w;
    assert s.earlier + (q + w) == s.earlier + q + w;
  }

  lemma TidyParse(cfg: Config, s: State, e: Event)
    requires cfg.Valid() && FrameInv(cfg, s.core) && Enabled(cfg, s, e) && (e.HParse? || e.RParse?)
    requires Alone(s) && Alone(Apply(cfg, s, e)) && Tidy(cfg, s)
    ensures Tidy(cfg, Apply(cfg, s, e))
  {
    ParseSends(cfg, s, e);
    var t := Apply(cfg, s, e);
    assert t.dispatched == s.dispatched && Hand(t) == Hand(s) + Took(cfg, s.core);
    assert s.dispatched + Hand(s) + Took(cfg, s.core) == s.dispatched + (Hand(s) + Took(cfg, s.core));
  }

  lemma TidyDispatch(cfg: Config, s: State, e: Event)
    requires Enabled(cfg, s, e) && (e.HDispatch? || e.RDispatch?) && Alone(s) && Tidy(cfg, s)
    ensures Tidy(cfg, Apply(cfg, s, e))
  {
    var t := Apply(cfg, s, e);
    assert Sent(cfg, t) == Sent(cfg, s) && Hand(t) == [] && t.dispatched == s.dispatched + Hand(s);
  }

  lemma TidyStep(cfg: Config, s: State, e: Event)
    requires cfg.Valid() && Inv(cfg, s) && Enabled(cfg, s, e) && Alone(s) && Alone(Apply(cfg, s, e)) && Tidy(cfg, s)
    ensures Tidy(cfg, Apply(cfg, s, e))
  {
    if e.HParse? || e.RParse? {
      TidyParse(cfg, s, e);
    } else if e.HDispatch? || e.RDispatch? {
      TidyDispatch(cfg, s, e);
    } else {
      var t := Apply(cfg, s, e);
      assert Sent(cfg, t) == Sent(cfg, s) by {
        assert Requests(cfg, []) == [];
        assert s.earlier + Requests(cfg, s.core.consumed) + [] == Sent(cfg, s);
      }
      assert Hand(t) == Hand(s) && t.dispatched == s.dispatched;
    }
  }

  /** In every run in which never both actors hold a request, requests are carried out in order. */
  lemma {:induction false} OrderWhileAlone(cfg: Config, events: seq<Event>, run: seq<State>, i: nat)
    requires cfg.Valid() && IsRun(cfg, events, run) && i < |run|
    requires forall j :: 0 <= j <= i ==> Alone(run[j])
    ensures Tidy(cfg, run[i]) && InOrder(cfg, run[i])
  {
    if i > 0 {
      OrderWhileAlone(cfg, events, run, i - 1);
      RunKeepsInv(cfg, events, run, i - 1);
      assert Alone(run[i - 1]) && Alone(run[i]) && run[i] == Apply(cfg, run[i - 1], events[i - 1]);
      TidyStep(cfg, run[i - 1], events[i - 1]);
    }
  }

  // ---------------------------------------------------------------- once both hold one

  /** The dispatch step of the actor that held its request first, and of the one that came second. */
  function FirstOut(s: State): Event { if s.handler.HRequest? then HDispatch else RDispatch }

  function SecondOut(s: State): Event { if s.handler.HRequest? then RDispatch else HDispatch }

  /**
   The moment at which an actor takes a request while the other holds one. Carried out in the
   order taken, the two leave everything in order; carried out the other way round, they leave
   it in order exactly if they are the same word.
   */
  lemma OvertakeIff(cfg: Config, s: State, e: Event) returns (t: State, u: State)
    requires cfg.Valid() && Inv(cfg, s) && Enabled(cfg, s, e) && Alone(s) && Tidy(cfg, s) && !Alone(Apply(cfg, s, e))
    ensures Hand(s) != [] && |s.core.hw| > 0
    ensures Leads(cfg, Apply(cfg, s, e), [FirstOut(s), SecondOut(s)], t) && Tidy(cfg, t)
    ensures t.dispatched == s.dispatched + [Hand(s)[0], s.core.hw[0]]
    ensures Leads(cfg, Apply(cfg, s, e), [SecondOut(s), FirstOut(s)], u)
    ensures u.dispatched == s.dispatched + [s.core.hw[0], Hand(s)[0]]
    ensures InOrder(cfg, u) <==> s.core.hw[0] == Hand(s)[0]
  {
    var w, v := BothHold(cfg, s, e);
    var (s1, d) := (Apply(cfg, s, e), s.dispatched);
    assert d + [w] + [v] == d + [w, v] && d + [v] + [w] == d + [v, w];
    t := TwoSteps(cfg, s1, FirstOut(s), SecondOut(s));
    u := TwoSteps(cfg, s1, SecondOut(s), FirstOut(s));
    BothOut(cfg, s, s1, w, v, t);
    BothOut(cfg, s, s1, v, w, u);
    PairPrefix(d, v, w, w, v);
  }

  /** After the step both actors hold a request: first w, which was in hand before, and then v. */
  lemma BothHold(cfg: Config, s: State, e: Event) returns (w: Word, v: Word)
    requires cfg.Valid() && Inv(cfg, s) && Enabled(cfg, s, e) && Alone(s) && Tidy(cfg, s) && !Alone(Apply(cfg, s, e))
    ensures Hand(s) == [w] && |s.core.hw| > 0 && v == s.core.hw[0]
    ensures var s1 := Apply(cfg, s, e);
            && Sent(cfg, s1) == s.dispatched + [w, v] && s1.dispatched == s.dispatched
            && s1.handler == HRequest(if s.handler.HRequest? then w else v) && s1.reader == RRequest(if s.handler.HRequest? then v else w)
  {
    ParseSends(cfg, s, e);
    w, v := Hand(s)[0], s.core.hw[0];
    assert s.dispatched + [w] + [v] == s.dispatched + [w, v];
  }

  /** What both have carried out. */
  lemma BothOut(cfg: Config, s: State, s1: State, x: Word, y: Word, t: State)
    requires s1.handler.HRequest? && s1.reader.RRequest? && s1.dispatched == s.dispatched
    requires t == s1.(handler := HRelock, reader := RRelock, dispatched := s.dispatched + [x] + [y])
    ensures t.dispatched == s.dispatched + [x, y] && Hand(t) == [] && Sent(cfg, t) == Sent(cfg, s1)
    ensures Tidy(cfg, t) <==> Sent(cfg, s1) == s.dispatched + [x, y]
  {
    assert t.dispatched + [] == t.dispatched;
  }

  lemma TwoSteps(cfg: Config, s: State, a: Event, b: Event) returns (t: State)
    requires Enabled(cfg, s, a) && Enabled(cfg, Apply(cfg, s, a), b)
    ensures t == Apply(cfg, Apply(cfg, s, a), b) && Leads(cfg, s, [a, b], t)
  {
    t := Apply(cfg, Apply(cfg, s, a), b);
    assert [a, b][1..] == [b] && [b][1..] == [];
    assert Leads(cfg, Apply(cfg, s, a), [b], t);
  }

  lemma PairPrefix(d: seq<Word>, a: Word, b: Word, x: Word, y: Word)
    ensures d + [a, b] <= d + [x, y] <==> a == x && b == y
  {
    var (l, r) := (d + [a, b], d + [x, y]);
    assert l[|d|] == a && l[|d| + 1] == b && r[|d|] == x && r[|d| + 1] == y;
  }

  // ---------------------------------------------------------------- a run that loses the order

  /** Two requests wait behind a full ring: one read, and the second is carried out first. */
  lemma OvertakeFull(cfg: Config, s: State, q1: Word, q2: Word) returns (events: seq<Event>, t: State)
    requires cfg.Valid() && Inv(cfg, s) && Quiet(s) && Between(s) && s.core.full && Tidy(cfg, s)
    requires !IsData(cfg, q1) && !IsData(cfg, q2)
    ensures Leads(cfg, s, events, t)
    ensures Sent(cfg, t) == Sent(cfg, s) + [q1, q2] && t.dispatched == s.dispatched + [q2, q1]
  {
    var s1 := Apply(cfg, s, Push(q1));
    var s2 := Apply(cfg, s1, Push(q2));
    LeadsStep(cfg, s, [], s, Push(q1));
    LeadsStep(cfg, s, [Push(q1)], s1, Push(q2));
    LeadsKeepsInv(cfg, s, [Push(q1)] + [Push(q2)], s2);
    var es, s3 := ReadWord(cfg, s2);
    LeadsJoin(cfg, s, [Push(q1)] + [Push(q2)], s2, es, s3);
    var before := [Push(q1)] + [Push(q2)] + es;
    LeadsKeepsInv(cfg, s, before, s3);
    assert s3.core.hw == [q1, q2] && !s3.core.full;
    var fs;
    fs, t := OvertakeDraining(cfg, s3);
    LeadsJoin(cfg, s, before, s3, fs, t);
    events := before + fs;
  }

  /** The reader's drain loop faces two requests: the handler takes the second and is done with it first. */
  lemma OvertakeDraining(cfg: Config, s: State) returns (events: seq<Event>, t: State)
    requires cfg.Valid() && Inv(cfg, s) && Tidy(cfg, s) && s.reader.RDrain? && s.handler.HIdle? && !s.core.full
    requires Between(s) && |s.core.hw| >= 2 && !IsData(cfg, s.core.hw[0]) && !IsData(cfg, s.core.hw[1])
    ensures Leads(cfg, s, events, t)
    ensures Sent(cfg, t) == Sent(cfg, s) + [s.core.hw[0], s.core.hw[1]]
    ensures t.dispatched == s.dispatched + [s.core.hw[1], s.core.hw[0]]
  {
    var s1 := Apply(cfg, s, RParse);
    LeadsStep(cfg, s, [], s, RParse);
    ParseSends(cfg, s, RParse);
    LeadsStep(cfg, s, [RParse], s1, HEnter);
    var s2 := Apply(cfg, s1, HEnter);
    LeadsKeepsInv(cfg, s, [RParse] + [HEnter], s2);
    var fs;
    fs, t := SecondFirst(cfg, s2);
    LeadsJoin(cfg, s, [RParse] + [HEnter], s2, fs, t);
    events := [RParse] + [HEnter] + fs;
    assert Sent(cfg, s) + [s.core.hw[0]] + [s.core.hw[1]] == Sent(cfg, s) + [s.core.hw[0], s.core.hw[1]];
  }

  /** The handler, in its drain loop, takes a request while the reader holds one, and is done first. */
  lemma SecondFirst(cfg: Config, s: State) returns (events: seq<Event>, t: State)
    requires cfg.Valid() && Inv(cfg, s) && s.handler.HLocked? && s.reader.RRequest? && !s.core.full
    requires Between(s) && |s.core.hw| >= 1 && !IsData(cfg, s.core.hw[0])
    ensures Leads(cfg, s, events, t)
    ensures Sent(cfg, t) == Sent(cfg, s) + [s.core.hw[0]] && t.dispatched == s.dispatched + [s.core.hw[0], s.reader.w]
  {
    ParseSends(cfg, s, HParse);
    LeadsStep(cfg, s, [], s, HParse);
    var s1 := Apply(cfg, s, HParse);
    t := TwoSteps(cfg, s1, HDispatch, RDispatch);
    LeadsJoin(cfg, s, [HParse], s1, [HDispatch, RDispatch], t);
    events := [HParse] + [HDispatch, RDispatch];
    assert s.dispatched + [s.core.hw[0]] + [s.reader.w] == s.dispatched + [s.core.hw[0], s.reader.w];
  }

  /** From Init, for any header with payload and any two requests: the second request is carried out first. */
  lemma OvertakingRun(cfg: Config, h: Word, q1: Word, q2: Word) returns (events: seq<Event>, run: seq<State>)
    requires cfg.Valid() && IsData(cfg, h) && NWords(cfg, h) >= 1 && !IsData(cfg, q1) && !IsData(cfg, q2)
    ensures IsRun(cfg, events, run)
    ensures Sent(cfg, run[|events|]) == [q1, q2] && run[|events|].dispatched == [q2, q1]
  {
    var s := Init(cfg);
    InitInv(cfg);
    var es, s1 := FillRing(cfg, s, h, 0);
    NoRequestsYet(cfg, s1);
    var fs, t := OvertakeFull(cfg, s1, q1, q2);
    LeadsJoin(cfg, s, es, s1, fs, t);
    events := es + fs;
    run := States(cfg, s, events, t);
  }

  lemma NoRequestsYet(cfg: Config, s: State)
    requires Inv(cfg, s) && Quiet(s) && s.dispatched == [] && s.earlier == []
    ensures Sent(cfg, s) == [] && Tidy(cfg, s)
  {
    var q := Requests(cfg, s.core.consumed);
    assert InHand(s.handler, s.reader) == multiset{} && multiset(s.dispatched) == multiset{} == multiset(s.earlier);
    assert multiset(q) == multiset{};
    assert |multiset(q)| == |q|;
  }

  // ---------------------------------------------------------------- the exact condition

  /** Some header brings payload, and there are two different request words. */
  ghost predicate CanOvertake(cfg: Config) {
    && (exists h :: IsData(cfg, h) && NWords(cfg, h) >= 1)
    && (exists q1, q2 :: !IsData(cfg, q1) && !IsData(cfg, q2) && q1 != q2)
  }

  /** Nothing was ever stored and the reader never started. */
  predicate Still(s: State) {
    RingEmpty(s.core) && s.core.nWritten == 0 && s.core.nToWrite == 0 && s.reader.RIdle?
  }

  lemma StillStep(cfg: Config, s: State, e: Event)
    requires Still(s) && Enabled(cfg, s, e) && forall h :: IsData(cfg, h) ==> NWords(cfg, h) == 0
    ensures Still(Apply(cfg, s, e))
  {
  }

  lemma {:induction false} StillRun(cfg: Config, events: seq<Event>, run: seq<State>, i: nat)
    requires IsRun(cfg, events, run) && i < |run| && forall h :: IsData(cfg, h) ==> NWords(cfg, h) == 0
    ensures Still(run[i])
  {
    if i > 0 {
      StillRun(cfg, events, run, i - 1);
      StillStep(cfg, run[i - 1], events[i - 1]);
    }
  }

  lemma {:induction false} RequestsAreRequests(cfg: Config, ws: seq<Word>)
    ensures forall w :: w in Requests(cfg, ws) ==> !IsData(cfg, w)
    decreases |ws|
  {
    if ws != [] {
      if !IsData(cfg, ws[0]) {
        RequestsAreRequests(cfg, ws[1..]);
      } else if NWords(cfg, ws[0]) < |ws| - 1 {
        RequestsAreRequests(cfg, ws[NWords(cfg, ws[0]) + 1..]);
      }
    }
  }

  lemma {:induction false} SentAreRequests(cfg: Config, events: seq<Event>, run: seq<State>, i: nat)
    requires IsRun(cfg, events, run) && i < |run|
    ensures forall w :: w in Sent(cfg, run[i]) ==> !IsData(cfg, w)
  {
    RequestsAreRequests(cfg, run[i].core.consumed);
    if i > 0 {
      SentAreRequests(cfg, events, run, i - 1);
    }
  }

  /** With a single request word there is only one order. */
  lemma SameWords(a: seq<Word>, b: seq<Word>, hand: multiset<Word>)
    requires multiset(a) + hand == multiset(b) && forall x, y :: x in b && y in b ==> x == y
    ensures a <= b
  {
    assert |a| <= |b| by {
      assert |multiset(b)| == |multiset(a)| + |hand|;
    }
    forall i | 0 <= i < |a|
      ensures a[i] == b[i]
    {
      var x := a[i];
      assert x in multiset(a);
      assert x in multiset(b);
      assert x in b && b[i] in b;
    }
  }

  /**
   Requests are carried out in the order sent in all runs exactly if no header brings payload
   or there are no two different request words.
   */
  lemma OrderIff(cfg: Config)
    requires cfg.Valid()
    ensures (forall events, run, i :: IsRun(cfg, events, run) && 0 <= i < |run| ==> InOrder(cfg, run[i])) <==> !CanOvertake(cfg)
  {
    if CanOvertake(cfg) {
      var h :| IsData(cfg, h) && NWords(cfg, h) >= 1;
      var q1, q2 :| !IsData(cfg, q1) && !IsData(cfg, q2) && q1 != q2;
      var events, run := OvertakingRun(cfg, h, q1, q2);
      PairPrefix([], q2, q1, q1, q2);
      assert [] + [q2, q1] == [q2, q1] && [] + [q1, q2] == [q1, q2];
      assert !InOrder(cfg, run[|events|]);
    } else {
      forall events, run, i | IsRun(cfg, events, run) && 0 <= i < |run|
        ensures InOrder(cfg, run[i])
      {
        OrderKept(cfg, events, run, i);
      }
    }
  }

  lemma OrderKept(cfg: Config, events: seq<Event>, run: seq<State>, i: nat)
    requires cfg.Valid() && !CanOvertake(cfg) && IsRun(cfg, events, run) && i < |run|
    ensures InOrder(cfg, run[i])
  {
    if forall h :: IsData(cfg, h) ==> NWords(cfg, h) == 0 {
      forall j | 0 <= j <= i
        ensures Alone(run[j])
      {
        StillRun(cfg, events, run, j);
      }
      OrderWhileAlone(cfg, events, run, i);
    } else {
      SentAreRequests(cfg, events, run, i);
      RunKeepsInv(cfg, events, run, i);
      SameWords(run[i].dispatched, Sent(cfg, run[i]), InHand(run[i].handler, run[i].reader));
    }
  }
}
