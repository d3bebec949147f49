/** double_buf_mm comes to its end: no state is stuck, and useful steps cannot go on for ever. */
module DoubleBufferProgress {
  import opened DoubleBuffer
  import opened DoubleBufferProof

  // ---------------------------------------------------------------- no state is stuck

  /** The transfer of a word that its job still lacks. */
  predicate Moves(ch: Chan, slot: nat, i: nat, ok: bool) {
    ok && slot < |ch.jobs| && ch.jobs[slot].InFlight? && i !in ch.jobs[slot].done
  }

  /** A step that a thread takes, but not to store a cell again, or a transfer of a missing word. */
  predicate Useful(st: State, e: Event) {
    match e
    case XferA(slot, i, ok, _) => Moves(st.A, slot, i, ok)
    case XferB(slot, i, ok, _) => Moves(st.B, slot, i, ok)
    case XferC(slot, i, ok, _) => Moves(st.C, slot, i, ok)
    case StoreCell(i, j) => i < |st.cells| && j < |st.cells[i]| && !st.cells[i][j].stored
    case _ => true
  }

  ghost predicate UsefulStep(p: Problem, st: State, e: Event, st': State) {
    Enabled(p, st, e) && Useful(st, e) && st' == Apply(p, st, e)
  }

  /** A word that an incomplete job has yet to move. */
  ghost function Missing(p: Problem, j: Job): (i: nat)
    requires j.InFlight? && !Complete(p, j)
    ensures i < p.size && i !in j.done
  {
    var i: nat :| i < p.size && i !in j.done; i
  }

  lemma SteerEvent(p: Problem, st: State) returns (e: Event)
    requires Inv(p, st) && st.phase.Steer?
    ensures Enabled(p, st, e) && Useful(st, e)
  {
    if !st.p0.Arrived? {
      var wait := st.p0.Wait? && !Complete(p, st.A.jobs[1 - st.A.idx]);
      e := if wait then XferA(1 - st.A.idx, Missing(p, st.A.jobs[1 - st.A.idx]), true, 0) else Thread0;
    } else if !st.p1.Arrived? {
      var wait := st.p1.Wait? && !Complete(p, st.B.jobs[1 - st.B.idx]);
      e := if wait then XferB(1 - st.B.idx, Missing(p, st.B.jobs[1 - st.B.idx]), true, 0) else Thread1;
    } else if !st.p2.Arrived? {
      var wait := st.p2.Wait? && !Complete(p, st.C.jobs[st.C.idx]);
      e := if wait then XferC(st.C.idx, Missing(p, st.C.jobs[st.C.idx]), true, 0) else Thread2;
    } else {
      e := Barrier;
    }
  }

  lemma ComputeEvent(p: Problem, st: State) returns (e: Event)
    requires Inv(p, st) && st.phase.Compute?
    ensures Enabled(p, st, e) && Useful(st, e)
  {
    if AllStored(p, st.cells) {
      e := EndRound;
    } else {
      var i: nat, j: nat :| i < p.sh && j < p.sh && !st.cells[i][j].stored;
      e := if st.cells[i][j].k < p.w then MulAdd(i, j) else StoreCell(i, j);
    }
  }

  lemma UsefulEvent(p: Problem, st: State) returns (e: Event)
    requires p.n >= 2 && (var inv := Inv(p, st); inv) && !st.phase.Done?
    ensures Enabled(p, st, e) && Useful(st, e)
  {
    match st.phase
    case Steer => e := SteerEvent(p, st);
    case Compute => e := ComputeEvent(p, st);
    case FinalWait =>
      var job := st.C.jobs[1 - st.C.idx];
      e := if Complete(p, job) then Thread2 else XferC(1 - st.C.idx, Missing(p, job), true, 0);
    case FinalCopy => e := Thread2;
  }

  /** With at least two stripes no reachable state is stuck short of the end. */
  lemma NeverStuck(p: Problem, events: seq<Event>, run: seq<State>, i: nat) returns (e: Event)
    requires p.Valid() && p.n >= 2 && IsRun(p, events, run) && i < |run| && !run[i].phase.Done?
    ensures Enabled(p, run[i], e) && Useful(run[i], e)
  {
    RunKeepsInv(p, events, run, i);
    e := UsefulEvent(p, run[i]);
  }

  // ---------------------------------------------------------------- the work that is left

  /** The words below n that are not among those moved. */
  function Lacking(done: set<nat>, n: nat): nat {
    if n == 0 then 0 else Lacking(done, n - 1) + (if n - 1 in done then 0 else 1)
  }

  lemma {:induction false} LackingLess(done: set<nat>, i: nat, n: nat)
    requires i !in done
    ensures Lacking(done + {i}, n) == Lacking(done, n) - (if i < n then 1 else 0)
  {
    if n > 0 {
      LackingLess(done, i, n - 1);
    }
  }

  function JobLeft(p: Problem, j: Job): nat { if j.InFlight? then Lacking(j.done, p.size) else 0 }

  function ChanLeft(p: Problem, ch: Chan): nat {
    if |ch.jobs| == 2 then JobLeft(p, ch.jobs[0]) + JobLeft(p, ch.jobs[1]) else 0
  }

  function CellLeft(w: nat, x: Cell): nat { (if x.k < w then w - x.k else 0) + (if x.stored then 0 else 1) }

  function RowLeft(w: nat, row: seq<Cell>): nat {
    if row == [] then 0 else RowLeft(w, row[..|row| - 1]) + CellLeft(w, row[|row| - 1])
  }

  function CellsLeft(w: nat, cells: seq<seq<Cell>>): nat {
    if cells == [] then 0 else CellsLeft(w, cells[..|cells| - 1]) + RowLeft(w, cells[|cells| - 1])
  }

  lemma {:induction false} RowLess(w: nat, row: seq<Cell>, j: nat, x: Cell)
    requires j < |row| && CellLeft(w, x) < CellLeft(w, row[j])
    ensures RowLeft(w, row[j := x]) < RowLeft(w, row)
    decreases |row|
  {
    var (n, now) := (|row| - 1, row[j := x]);
    if j == n {
      assert now[..n] == row[..n];
    } else {
      RowLess(w, row[..n], j, x);
      assert now[..n] == row[..n][j := x];
    }
  }

  lemma {:induction false} CellsLess(w: nat, cells: seq<seq<Cell>>, i: nat, row: seq<Cell>)
    requires i < |cells| && RowLeft(w, row) < RowLeft(w, cells[i])
    ensures CellsLeft(w, cells[i := row]) < CellsLeft(w, cells)
    decreases |cells|
  {
    var (n, now) := (|cells| - 1, cells[i := row]);
    if i == n {
      assert now[..n] == cells[..n];
    } else {
      CellsLess(w, cells[..n], i, row);
      assert now[..n] == cells[..n][i := row];
    }
  }

  function PcLeft(pc: Pc): nat {
    match pc
    case First => 4
    case Swap => 3
    case Issue => 2
    case Wait => 1
    case Arrived => 0
  }

  function PhaseLeft(ph: Phase): nat {
    match ph
    case Steer => 4
    case Compute => 3
    case FinalWait => 2
    case FinalCopy => 1
    case Done => 0
  }

  /** Stripes, column blocks, phases, thread steps, cell steps and words to go. */
  datatype Work = Work(stripes: nat, blocks: nat, phases: nat, threads: nat, cells: nat, words: nat)

  function Left(p: Problem, st: State): Work {
    Work(if st.s < p.n then p.n - st.s else 0, if st.t < p.n then p.n - st.t else 0, PhaseLeft(st.phase),
         PcLeft(st.p0) + PcLeft(st.p1) + PcLeft(st.p2), CellsLeft(p.w, st.cells),
         ChanLeft(p, st.A) + ChanLeft(p, st.B) + ChanLeft(p, st.C))
  }

  /** Less work, in lexicographic order. */
  predicate Less(v: Work, w: Work) {
    v.stripes < w.stripes || (v.stripes == w.stripes &&
    (v.blocks < w.blocks || (v.blocks == w.blocks &&
    (v.phases < w.phases || (v.phases == w.phases &&
    (v.threads < w.threads || (v.threads == w.threads &&
    (v.cells < w.cells || (v.cells == w.cells && v.words < w.words)))))))))
  }

  // ---------------------------------------------------------------- every useful step leaves less

  /** Marking a missing word as moved leaves one word less. */
  lemma ChanLess(p: Problem, ch: Chan, ch': Chan, slot: nat, i: nat)
    requires ChanShape(p, ch) && slot < 2 && i < p.size && Moves(ch, slot, i, true)
    requires ch'.jobs == ch.jobs[slot := Mark(ch.jobs[slot], i, true)]
    ensures ChanLeft(p, ch') < ChanLeft(p, ch)
  {
    LackingLess(ch.jobs[slot].done, i, p.size);
  }

  lemma XferLess(p: Problem, st: State, e: Event)
    requires Enabled(p, st, e) && Useful(st, e) && (e.XferA? || e.XferB? || e.XferC?)
    ensures Less(Left(p, Apply(p, st, e)), Left(p, st))
  {
    match e
    case XferA(slot, i, _, _) => ChanLess(p, st.A, Apply(p, st, e).A, slot, i);
    case XferB(slot, i, _, _) => ChanLess(p, st.B, Apply(p, st, e).B, slot, i);
    case XferC(slot, i, _, _) => ChanLess(p, st.C, Apply(p, st, e).C, slot, i);
  }

  /** A cell with fewer steps to go. */
  lemma CellLess(p: Problem, cells: seq<seq<Cell>>, i: nat, j: nat, x: Cell)
    requires CellShape(p, cells) && i < p.sh && j < p.sh && CellLeft(p.w, x) < CellLeft(p.w, cells[i][j])
    ensures CellsLeft(p.w, SetCell(p, cells, i, j, x)) < CellsLeft(p.w, cells)
  {
    RowLess(p.w, cells[i], j, x);
    CellsLess(p.w, cells, i, cells[i][j := x]);
  }

  lemma ComputeLess(p: Problem, st: State, e: Event)
    requires Enabled(p, st, e) && Useful(st, e) && (e.MulAdd? || e.StoreCell?)
    ensures Less(Left(p, Apply(p, st, e)), Left(p, st))
  {
    match e
    case MulAdd(i, j) => CellLess(p, st.cells, i, j, Accumulate(p, st, i, j));
    case StoreCell(i, j) => CellLess(p, st.cells, i, j, st.cells[i][j].(stored := true));
  }

  lemma SteerLess(p: Problem, st: State, e: Event)
    requires Enabled(p, st, e) && (e.Thread0? || e.Thread1? || e.Thread2? || e.Barrier?)
    ensures Less(Left(p, Apply(p, st, e)), Left(p, st))
  {
  }

  lemma RoundLess(p: Problem, st: State)
    requires Enabled(p, st, EndRound) && st.s < p.n && st.t < p.n
    ensures Less(Left(p, Apply(p, st, EndRound)), Left(p, st))
  {
  }

  /** Every useful step of every thread and of the DMA engine leaves less work. */
  lemma UsefulLess(p: Problem, st: State, e: Event)
    requires (var inv := Inv(p, st); inv) && Enabled(p, st, e) && Useful(st, e)
    ensures Less(Left(p, Apply(p, st, e)), Left(p, st))
  {
    if e.XferA? || e.XferB? || e.XferC? {
      XferLess(p, st, e);
    } else if e.MulAdd? || e.StoreCell? {
      ComputeLess(p, st, e);
    } else if e.EndRound? {
      RoundLess(p, st);
    } else {
      SteerLess(p, st, e);
    }
  }

  // ---------------------------------------------------------------- runs end

  /** Event i of an endless schedule is a useful step, unless all is done. */
  ghost predicate GoesOn(p: Problem, run: nat -> State, event: nat -> Event, i: nat) {
    run(i).phase.Done? || UsefulStep(p, run(i), event(i), run(i + 1))
  }

  lemma {:induction false} Reaches(p: Problem, run: nat -> State, event: nat -> Event, i: nat) returns (k: nat)
    requires p.Valid() && (var inv := Inv(p, run(i)); inv)
    requires forall j: nat {:trigger GoesOn(p, run, event, j)} :: GoesOn(p, run, event, j)
    ensures k >= i && run(k).phase.Done? && HostRows(p, run(k).c, p.n)
    decreases var w := Left(p, run(i)); w.stripes, var w := Left(p, run(i)); w.blocks, var w := Left(p, run(i)); w.phases,
      var w := Left(p, run(i)); w.threads, var w := Left(p, run(i)); w.cells, var w := Left(p, run(i)); w.words
  {
    k := i;
    if !run(i).phase.Done? {
      assert GoesOn(p, run, event, i);
      StepKeepsInv(p, run(i), event(i));
      UsefulLess(p, run(i), event(i));
      k := Reaches(p, run, event, i + 1);
    }
  }

  /**
   Every schedule of useful steps, whatever their order, comes to its end, with the product in
   the host's matrix: none goes on for ever.
   */
  lemma UsefulRunsFinish(p: Problem, run: nat -> State, event: nat -> Event) returns (k: nat)
    requires p.Valid() && Init(p, run(0))
    requires forall j: nat {:trigger GoesOn(p, run, event, j)} :: GoesOn(p, run, event, j)
    ensures run(k).phase.Done?
    ensures forall row: nat, col: nat :: row < p.w && col < p.w ==>
              At(run(k).c, p.w, row, col) == Sum(p, row, col, p.w) % 0x1_0000_0000
  {
    InitInv(p, run(0));
    k := Reaches(p, run, event, 0);
    forall row: nat, col: nat | row < p.w && col < p.w
      ensures At(run(k).c, p.w, row, col) == Sum(p, row, col, p.w) % 0x1_0000_0000
    {
      HostEntry(p, run(k).c, row, col);
      DotIsSum(p, row, col, p.w);
    }
  }

  // ---------------------------------------------------------------- and some run does

  /** The events lead from one state to the other. */
  ghost predicate Leads(p: Problem, st: State, events: seq<Event>, end: State)
    decreases |events|
  {
    if events == [] then end == st else Enabled(p, st, events[0]) && Leads(p, Apply(p, st, events[0]), events[1..], end)
  }

  ghost predicate Finishes(p: Problem, st: State, events: seq<Event>, end: State) {
    Leads(p, st, events, end) && end.phase.Done?
  }

  lemma {:induction false} RunToEnd(p: Problem, st: State) returns (events: seq<Event>, end: State)
    requires p.Valid() && p.n >= 2 && (var inv := Inv(p, st); inv)
    ensures Finishes(p, st, events, end)
    decreases Left(p, st).stripes, Left(p, st).blocks, Left(p, st).phases, Left(p, st).threads, Left(p, st).cells, Left(p, st).words
  {
    if st.phase.Done? {
      events, end := [], st;
    } else {
      var e := UsefulEvent(p, st);
      StepKeepsInv(p, st, e);
      UsefulLess(p, st, e);
      var rest;
      rest, end := RunToEnd(p, Apply(p, st, e));
      events := [e] + rest;
      assert events[1..] == rest;
    }
  }

  /** With a single stripe the wait after the loops has no job to wait for. */
  lemma {:induction false} SingleStripeWaits(p: Problem, st: State, events: seq<Event>, end: State)
    requires p.Valid() && p.n == 1 && (var inv := Inv(p, st); inv) && PhaseLeft(st.phase) >= 2 && Leads(p, st, events, end)
    ensures PhaseLeft(end.phase) >= 2
    decreases |events|
  {
    if events != [] {
      WaitsOn(p, st, events[0]);
      StepKeepsInv(p, st, events[0]);
      SingleStripeWaits(p, Apply(p, st, events[0]), events[1..], end);
    }
  }

  lemma WaitsOn(p: Problem, st: State, e: Event)
    requires p.n == 1 && Inv(p, st) && Enabled(p, st, e) && PhaseLeft(st.phase) >= 2
    ensures PhaseLeft(Apply(p, st, e).phase) >= 2
  {
  }

  /** Some run finishes exactly with at least two stripes, which is what main arranges. */
  lemma FinishesIff(p: Problem, st: State)
    requires p.Valid() && Init(p, st)
    ensures (exists events, end :: Finishes(p, st, events, end)) <==> p.n >= 2
  {
    InitInv(p, st);
    if p.n >= 2 {
      var events, end := RunToEnd(p, st);
    } else {
      forall events, end
        ensures !Finishes(p, st, events, end)
      {
        if Leads(p, st, events, end) {
          SingleStripeWaits(p, st, events, end);
        }
      }
    }
  }
}
