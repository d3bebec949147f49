/**
 The driver code itself: the static variables as fields, the ring as an array, and the
 lock-protected sections of pulp_mbox_intr, pulp_mbox_read and pulp_mbox_clear as methods,
 each proved to do what the events of MailboxProtocol do to the shared state.
 */
module MailboxDriver {
  import opened Common
  import opened MailboxFrames
  import opened MailboxProtocol

  /** The drain loop until it ends or until it has to drop the lock for a request. */
  function Drain(cfg: Config, c: Core): (r: (Core, Option<Word>))
    requires cfg.Valid()
    decreases |c.hw|
  {
    if !LoopContinues(c) then (c, None)
    else if TakesRequest(cfg, c) then (ParseWord(cfg, c), Some(c.hw[0]))
    else Drain(cfg, ParseWord(cfg, c))
  }

  /**
   The drain loop of either actor is a run of parse events, so what holds of every run of the
   protocol holds of it; it ends with the hardware empty, the ring full or a request in hand.
   */
  lemma {:induction false} DrainIsRun(cfg: Config, s: State, parse: Event) returns (events: seq<Event>, t: State)
    requires cfg.Valid() && ((parse.HParse? && s.handler.HLocked?) || (parse.RParse? && s.reader.RDrain?))
    ensures Leads(cfg, s, events, t) && (forall e :: e in events ==> e == parse)
    ensures t.core == Drain(cfg, s.core).0 && t == After(s, parse, t.core, Drain(cfg, s.core).1)
    ensures Drain(cfg, s.core).1.Some? || !LoopContinues(t.core)
    decreases |s.core.hw|
  {
    if !LoopContinues(s.core) {
      events, t := [], s;
    } else {
      var s1 := Apply(cfg, s, parse);
      if TakesRequest(cfg, s.core) {
        events, t := [parse], s1;
        assert Leads(cfg, s1, events[1..], t);
      } else {
        events, t := DrainIsRun(cfg, s1, parse);
        var all := [parse] + events;
        assert all[1..] == events && Leads(cfg, s1, all[1..], t);
        events := all;
      }
    }
  }

  /** The state in which an actor's drain loop stops, with or without a request in hand. */
  function After(s: State, parse: Event, c: Core, request: Option<Word>): State {
    if request.None? then s.(core := c)
    else if parse.HParse? then s.(core := c, handler := HRequest(request.value))
    else s.(core := c, reader := RRequest(request.value))
  }

  class Mailbox {
    const cfg: Config
    const fifo: array<Word>
    var rd: nat
    var wr: nat
    var full: bool
    var nWritten: nat
    var nToWrite: nat
    var hw: seq<Word>
    ghost var consumed: seq<Word>
    ghost var delivered: seq<Word>

    ghost function View(): Core
      reads this, fifo
    {
      Core(hw, fifo[..], rd, wr, full, nWritten, nToWrite, consumed, delivered)
    }

    ghost predicate Valid()
      reads this, fifo
    {
      cfg.Valid() && CoreInv(cfg, View())
    }

    /** The state at module load, before anything was pushed. */
    constructor (cfg: Config)
      requires cfg.Valid()
      ensures this.cfg == cfg && Valid() && View() == Init(cfg).core
    {
      this.cfg := cfg;
      fifo := new Word[cfg.Cap()](_ => 0);
      rd, wr, full, nWritten, nToWrite, hw := 0, 0, false, 0, 0, [];
      consumed, delivered := [], [];
      new;
      assert fifo[..] == Init(cfg).core.fifo;
      assert Contents(cfg, View()) == [];
    }

    /** pulp_mbox_clear. */
    method Clear()
      requires Valid()
      modifies this
      ensures Valid() && View() == Cleared(old(View()))
    {
      wr, rd, full, nWritten, nToWrite := 0, 0, false, 0, 0;
      hw := [];
      consumed, delivered := [], [];
      assert Contents(cfg, View()) == [];
    }

    /** One iteration of the drain loop; `request` is the word to dispatch without the lock. */
    method ParseOne() returns (request: Option<Word>)
      requires Valid() && LoopContinues(View())
      modifies this, fifo
      ensures (var valid := Valid(); valid) && View() == ParseWord(cfg, old(View()))
      ensures request == if TakesRequest(cfg, old(View())) then Some(old(hw)[0]) else None
    {
      ParseWordKeepsCore(cfg, View());
      ghost var before := View();
      var data := hw[0];
      hw := hw[1..];
      consumed := consumed + [data];
      request := None;
      if nWritten == nToWrite {
        if IsData(cfg, data) {
          nToWrite := NWords(cfg, data);
          nWritten := 0;
        } else {
          request := Some(data);
        }
      } else {
        StoreWord(data);
      }
      assert View() == ParseWord(cfg, before);
    }

    /** A payload word goes into the ring. */
    method StoreWord(data: Word)
      requires wr < fifo.Length
      modifies this`wr, this`full, this`nWritten, fifo
      ensures fifo[..] == old(fifo[..])[old(wr) := data] && nWritten == old(nWritten) + 1
      ensures wr == (if old(wr) + 1 >= fifo.Length then 0 else old(wr) + 1) && full == (old(full) || wr == rd)
    {
      fifo[wr] := data;
      wr := wr + 1;
      if wr >= fifo.Length {
        wr := 0;
      }
      if wr == rd {
        full := true;
      }
      nWritten := nWritten + 1;
    }

    /** The while loop shared by pulp_mbox_intr and pulp_mbox_read, up to the next unlock. */
    method DrainLocked() returns (request: Option<Word>)
      requires Valid()
      modifies this, fifo
      ensures Valid() && View() == Drain(cfg, old(View())).0
      ensures request == Drain(cfg, old(View())).1
      ensures request.None? ==> hw == [] || full
    {
      request := None;
      while hw != [] && !full
        invariant Valid()
        invariant request.None? && Drain(cfg, View()) == Drain(cfg, old(View()))
        decreases |hw|
      {
        request := ParseOne();
        if request.Some? {
          return;
        }
      }
    }

    /** The first locked section of pulp_mbox_read; None when there is nothing to read. */
    method ReadBegin(count: nat) returns (bytes: Option<nat>)
      requires Valid()
      ensures bytes.None? <==> RingEmpty(View())
      ensures bytes.Some? ==> bytes.value == ReadBytes(View(), count)
      ensures bytes.Some? ==> bytes.value == Min(count, 4 * Min(|Contents(cfg, View())|, fifo.Length - rd))
      ensures bytes.Some? && count >= 4 ==> bytes.value >= 4
      ensures bytes.Some? ==> bytes.value / 4 <= |Contents(cfg, View())|
    {
      if wr == rd && !full {
        return None;
      }
      CopyBeginStep(cfg, View(), count);
      AvailableIsContiguous(cfg, View());
      var words := if wr > rd then wr - rd else fifo.Length - rd;
      bytes := Some(Min(count, words * 4));
    }

    /**
     The second locked section of pulp_mbox_read: account for `bytes - notCopied` bytes of the
     slots from `rd` on, and say whether the drain loop has to run.
     */
    method ReadCommit(bytes: nat, notCopied: nat) returns (drain: bool)
      requires Valid() && notCopied <= bytes
      requires bytes / 4 <= Stored(View()) && rd + bytes / 4 <= fifo.Length
      modifies this
      ensures var valid := Valid(); valid
      ensures View() == Advance(old(View()), fifo[old(rd)..old(rd) + (bytes - notCopied) / 4])
      ensures drain <==> old(full) && (bytes - notCopied) / 4 > 0
    {
      var words := (bytes - notCopied) / 4;
      ghost var copied := fifo[rd..rd + words];
      assert words <= bytes / 4;
      ghost var after := Advance(View(), copied);
      assert CoreInv(cfg, after) by { AdvanceKeepsCore(cfg, View(), copied); }
      rd := rd + words;
      if rd >= fifo.Length {
        rd := 0;
      }
      drain := false;
      if full && words > 0 {
        full := false;
        drain := true;
      }
      delivered := delivered + copied;
      assert View() == after;
    }
  }
}
