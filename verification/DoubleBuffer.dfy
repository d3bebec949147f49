/**
 double_buf_mm: the transition system of the double-buffered matrix product. Threads 0, 1
 and 2 steer the DMA of a, b and c through two buffers each; barriers separate steering from
 the compute loop. A DMA job moves its words one by one, in any order, at any time between
 its issue and the wait for it, and may leave anything in its destination meanwhile.
 */
module DoubleBuffer {
  import opened Common

  type Word = w: int | 0 <= w < 0x1_0000_0000

  /** n_stripes, stripe_height, width, the words in a stripe, and the two host operands. */
  datatype Problem = Problem(n: nat, sh: nat, w: nat, size: nat, a: seq<Word>, b: seq<Word>) {
    /** As main arranges: width == height == n_stripes * stripe_height. */
    predicate Valid() { n >= 1 && sh >= 1 && w == n * sh && size == w * sh && |a| == w * w && |b| == w * w }
  }

  /** Entry (i, j) of a matrix stored row by row. */
  function At(m: seq<Word>, width: nat, i: nat, j: nat): Word {
    if i * width + j < |m| then m[i * width + j] else 0
  }

  /** The first `k` terms of the product entry, summed in 32-bit arithmetic. */
  function Dot(p: Problem, row: nat, col: nat, k: nat): Word {
    if k == 0 then 0
    else (Dot(p, row, col, k - 1) + At(p.a, p.w, row, k - 1) * At(p.b, p.w, col, k - 1)) % 0x1_0000_0000
  }

  datatype Job = Idle | InFlight(stripe: nat, done: set<nat>)

  /** Two buffers, the job handle of each, and the shared index that names one of them. */
  datatype Chan = Chan(idx: nat, bufs: seq<seq<Word>>, jobs: seq<Job>)

  datatype Pc = First | Swap | Issue | Wait | Arrived

  datatype Phase = Steer | Compute | FinalWait | FinalCopy | Done

  datatype Cell = Cell(k: nat, sum: Word, stored: bool)

  datatype State = State(
    s: nat, t: nat, phase: Phase,
    p0: Pc, p1: Pc, p2: Pc,               // where threads 0, 1, 2 are before the barrier
    A: Chan, B: Chan, C: Chan,
    c: seq<Word>,                         // the host's result matrix
    cells: seq<seq<Cell>>)                // progress of the compute loop

  datatype Event =
    | Thread0 | Thread1 | Thread2 | Barrier
    | MulAdd(i: nat, j: nat) | StoreCell(i: nat, j: nat) | EndRound
    | XferA(slot: nat, i: nat, ok: bool, v: Word)
    | XferB(slot: nat, i: nat, ok: bool, v: Word)
    | XferC(slot: nat, i: nat, ok: bool, v: Word)

  // ---------------------------------------------------------------- steps

  predicate Complete(p: Problem, j: Job) {
    j.InFlight? && forall i: nat :: i < p.size ==> i in j.done
  }

  predicate ChanShape(p: Problem, ch: Chan) {
    && ch.idx < 2 && |ch.bufs| == 2 && |ch.jobs| == 2
    && |ch.bufs[0]| == p.size && |ch.bufs[1]| == p.size
  }

  /** The stripe of a, or of b, to fetch while the current one is in use. */
  function NextA(p: Problem, s: nat): Option<nat> { if s + 1 < p.n then Some(s + 1) else None }

  function NextB(p: Problem, s: nat, t: nat): Option<nat> {
    if t + 1 < p.n then Some(t + 1) else if s + 1 < p.n then Some(0) else None
  }

  predicate LoaderEnabled(p: Problem, ch: Chan, pc: Pc)
    requires ChanShape(p, ch)
  {
    !pc.Arrived? && (pc.Wait? ==> Complete(p, ch.jobs[1 - ch.idx]))
  }

  /** One step of thread 0 or 1. */
  function Loader(p: Problem, ch: Chan, pc: Pc, next: Option<nat>): (Chan, Pc)
    requires ChanShape(p, ch)
  {
    match pc
    case First => (ch.(jobs := ch.jobs[ch.idx := InFlight(0, {})]), Swap)
    case Swap => (ch.(idx := 1 - ch.idx), Issue)
    case Issue => (if next.Some? then ch.(jobs := ch.jobs[ch.idx := InFlight(next.value, {})]) else ch, Wait)
    case Wait => (ch.(jobs := ch.jobs[1 - ch.idx := Idle]), Arrived)
    case Arrived => (ch, pc)
  }

  predicate StorerEnabled(p: Problem, st: State)
    requires ChanShape(p, st.C)
  {
    match st.phase
    case Steer => !st.p2.Arrived? && !st.p2.First? && (st.p2.Wait? ==> Complete(p, st.C.jobs[st.C.idx]))
    case Compute => false
    case FinalWait => Complete(p, st.C.jobs[1 - st.C.idx])
    case FinalCopy => true
    case Done => false
  }

  /** One step of thread 2. */
  function Storer(p: Problem, st: State): State
    requires ChanShape(p, st.C)
  {
    var ch := st.C;
    match st.phase
    case Steer => (
      match st.p2
      case Swap => st.(C := ch.(idx := 1 - ch.idx), p2 := Issue)
      case Issue =>
        var stripe := if st.s >= 1 then st.s - 1 else 0;
        st.(C := ch.(jobs := ch.jobs[1 - ch.idx := InFlight(stripe, {})]), p2 := if st.s > 1 then Wait else Arrived)
      case Wait => st.(C := ch.(jobs := ch.jobs[ch.idx := Idle]), p2 := Arrived)
      case _ => st)
    case FinalWait => st.(C := ch.(jobs := ch.jobs[1 - ch.idx := Idle]), phase := FinalCopy)
    case FinalCopy => st.(c := CopyStripe(p, st.c, ch.bufs[ch.idx], p.n - 1), phase := Done)
    case _ => st
  }

  /** hero_memcpy_dev2host of a whole stripe. */
  function CopyStripe(p: Problem, c: seq<Word>, buf: seq<Word>, stripe: int): (r: seq<Word>)
    ensures |r| == |c|
    ensures 0 <= stripe && |buf| == p.size && |c| >= (stripe + 1) * p.size ==>
              forall i :: 0 <= i < |c| ==>
                r[i] == if stripe * p.size <= i < (stripe + 1) * p.size then buf[i - stripe * p.size] else c[i]
  {
    seq(|c|, i requires 0 <= i < |c| =>
      if 0 <= i - stripe * p.size < |buf| then buf[i - stripe * p.size] else c[i])
  }

  function Set(m: seq<Word>, i: int, v: Word): seq<Word> { if 0 <= i < |m| then m[i := v] else m }

  function Get(m: seq<Word>, i: int): Word { if 0 <= i < |m| then m[i] else 0 }

  function Mark(j: Job, i: nat, ok: bool): Job {
    if !j.InFlight? then j else if ok then j.(done := j.done + {i}) else j.(done := j.done - {i})
  }

  predicate XferEnabled(p: Problem, ch: Chan, slot: nat, i: nat)
    requires ChanShape(p, ch)
  {
    slot < 2 && i < p.size && ch.jobs[slot].InFlight?
  }

  /** The engine writes word `i` of a transfer into a buffer: the host's word, or anything. */
  function XferIn(p: Problem, m: seq<Word>, ch: Chan, slot: nat, i: nat, ok: bool, v: Word): Chan
    requires ChanShape(p, ch) && XferEnabled(p, ch, slot, i)
  {
    var x: Word := if ok then Get(m, ch.jobs[slot].stripe * p.size + i) else v;
    ch.(bufs := ch.bufs[slot := Set(ch.bufs[slot], i, x)], jobs := ch.jobs[slot := Mark(ch.jobs[slot], i, ok)])
  }

  /** The engine writes word `i` of a transfer to the host. */
  function XferOut(p: Problem, c: seq<Word>, ch: Chan, slot: nat, i: nat, ok: bool, v: Word): (seq<Word>, Chan)
    requires ChanShape(p, ch) && XferEnabled(p, ch, slot, i)
  {
    var x: Word := if ok then ch.bufs[slot][i] else v;
    (Set(c, ch.jobs[slot].stripe * p.size + i, x), ch.(jobs := ch.jobs[slot := Mark(ch.jobs[slot], i, ok)]))
  }

  predicate CellShape(p: Problem, cells: seq<seq<Cell>>) {
    |cells| == p.sh && forall i :: 0 <= i < p.sh ==> |cells[i]| == p.sh
  }

  function FreshCells(p: Problem): (r: seq<seq<Cell>>)
    ensures CellShape(p, r)
    ensures forall i, j :: 0 <= i < p.sh && 0 <= j < p.sh ==> r[i][j] == Cell(0, 0, false)
  {
    seq(p.sh, _ => seq(p.sh, _ => Cell(0, 0, false)))
  }

  predicate CellEnabled(p: Problem, st: State, i: nat, j: nat) {
    st.phase.Compute? && i < p.sh && j < p.sh && CellShape(p, st.cells)
  }

  predicate AllStored(p: Problem, cells: seq<seq<Cell>>)
    requires CellShape(p, cells)
  {
    forall i, j :: 0 <= i < p.sh && 0 <= j < p.sh ==> cells[i][j].stored
  }

  function SetCell(p: Problem, cells: seq<seq<Cell>>, i: nat, j: nat, x: Cell): (r: seq<seq<Cell>>)
    requires CellShape(p, cells) && i < p.sh && j < p.sh
    ensures CellShape(p, r) && r[i][j] == x
    ensures forall i', j' :: 0 <= i' < p.sh && 0 <= j' < p.sh && (i' != i || j' != j) ==> r[i'][j'] == cells[i'][j']
  {
    cells[i := cells[i][j := x]]
  }

  /** Where the three threads stand at the start of round (s, t). */
  function StartRound(p: Problem, st: State, s: nat, t: nat): State {
    st.(s := s, t := t, phase := Steer,
    p0 := if t == 0 then Swap else Arrived,
    p1 := Swap,
    p2 := if t == 0 && s > 0 then Swap else Arrived)
  }

  ghost predicate Shape(p: Problem, st: State) {
    && ChanShape(p, st.A) && ChanShape(p, st.B) && ChanShape(p, st.C)
    && CellShape(p, st.cells) && |st.c| == p.w * p.w
  }

  ghost predicate Enabled(p: Problem, st: State, e: Event) {
    && Shape(p, st)
    && match e
       case Thread0 => st.phase.Steer? && LoaderEnabled(p, st.A, st.p0)
       case Thread1 => st.phase.Steer? && LoaderEnabled(p, st.B, st.p1)
       case Thread2 => StorerEnabled(p, st)
       case Barrier => st.phase.Steer? && st.p0.Arrived? && st.p1.Arrived? && st.p2.Arrived?
       case MulAdd(i, j) => CellEnabled(p, st, i, j) && st.cells[i][j].k < p.w
       case StoreCell(i, j) => CellEnabled(p, st, i, j) && st.cells[i][j].k == p.w
       case EndRound => st.phase.Compute? && AllStored(p, st.cells)
       case XferA(slot, i, _, _) => XferEnabled(p, st.A, slot, i)
       case XferB(slot, i, _, _) => XferEnabled(p, st.B, slot, i)
       case XferC(slot, i, _, _) => XferEnabled(p, st.C, slot, i)
  }

  /** One multiply-accumulate of the innermost loop, reading the current a and b buffers. */
  function Accumulate(p: Problem, st: State, i: nat, j: nat): Cell
    requires Shape(p, st) && i < p.sh && j < p.sh
  {
    var x := st.cells[i][j];
    var term := At(st.A.bufs[1 - st.A.idx], p.w, i, x.k) * At(st.B.bufs[1 - st.B.idx], p.w, j, x.k);
    x.(k := x.k + 1, sum := (x.sum + term) % 0x1_0000_0000)
  }

  ghost function Apply(p: Problem, st: State, e: Event): State
    requires Enabled(p, st, e)
  {
    match e
    case Thread0 => var (ch, pc) := Loader(p, st.A, st.p0, NextA(p, st.s)); st.(A := ch, p0 := pc)
    case Thread1 => var (ch, pc) := Loader(p, st.B, st.p1, NextB(p, st.s, st.t)); st.(B := ch, p1 := pc)
    case Thread2 => Storer(p, st)
    case Barrier => st.(phase := Compute, cells := FreshCells(p))
    case MulAdd(i, j) => st.(cells := SetCell(p, st.cells, i, j, Accumulate(p, st, i, j)))
    case StoreCell(i, j) =>
      var x := st.cells[i][j];
      var buf := Set(st.C.bufs[st.C.idx], i * p.w + (st.t * p.sh + j), x.sum);
      st.(C := st.C.(bufs := st.C.bufs[st.C.idx := buf]), cells := SetCell(p, st.cells, i, j, x.(stored := true)))
    case EndRound =>
      if st.t + 1 < p.n then StartRound(p, st, st.s, st.t + 1)
      else if st.s + 1 < p.n then StartRound(p, st, st.s + 1, 0)
      else st.(phase := FinalWait)
    case XferA(slot, i, ok, v) => st.(A := XferIn(p, p.a, st.A, slot, i, ok, v))
    case XferB(slot, i, ok, v) => st.(B := XferIn(p, p.b, st.B, slot, i, ok, v))
    case XferC(slot, i, ok, v) =>
      var (c, ch) := XferOut(p, st.c, st.C, slot, i, ok, v); st.(c := c, C := ch)
  }

  /** Any contents in the buffers and in c; no job; every thread at its first step. */
  ghost predicate Init(p: Problem, st: State) {
    && Shape(p, st)
    && st.s == 0 && st.t == 0 && st.phase.Steer? && st.p0.First? && st.p1.First? && st.p2.Arrived?
    && st.A.idx == 0 && st.B.idx == 0 && st.C.idx == 0
    && forall x :: 0 <= x < 2 ==> st.A.jobs[x].Idle? && st.B.jobs[x].Idle? && st.C.jobs[x].Idle?
  }
}
