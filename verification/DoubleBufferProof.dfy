/** The invariant of double_buf_mm and what follows from it in every interleaving. */
module DoubleBufferProof {
  import opened Arith
  import opened Common
  import opened DoubleBuffer

  // ---------------------------------------------------------------- fetching a and b

  /** What an unfinished fetch has moved so far is right. */
  predicate FetchOk(p: Problem, m: seq<Word>, buf: seq<Word>, job: Job) {
    job.InFlight? ==>
      && job.stripe < p.n
      && forall i :: i in job.done ==> i < p.size && Get(buf, i) == Get(m, job.stripe * p.size + i)
  }

  /** The buffer holds stripe `k` of the operand. */
  ghost predicate Holds(p: Problem, m: seq<Word>, buf: seq<Word>, k: nat) {
    forall i: nat :: i < p.size ==> Get(buf, i) == Get(m, k * p.size + i)
  }

  predicate Fetching(job: Job, k: Option<nat>) {
    if k.None? then job.Idle? else job.InFlight? && job.stripe == k.value
  }

  /** Thread 0 (or 1) at `pc`, with stripe `cur` wanted in this round and `next` in the next. */
  ghost predicate LoaderOk(p: Problem, m: seq<Word>, ch: Chan, pc: Pc, cur: nat, next: Option<nat>) {
    && ChanShape(p, ch)
    && FetchOk(p, m, ch.bufs[0], ch.jobs[0]) && FetchOk(p, m, ch.bufs[1], ch.jobs[1])
    && match pc
       case First => cur == 0 && ch.jobs[0].Idle? && ch.jobs[1].Idle?
       case Swap => Fetching(ch.jobs[ch.idx], Some(cur)) && ch.jobs[1 - ch.idx].Idle?
       case Issue => Fetching(ch.jobs[1 - ch.idx], Some(cur)) && ch.jobs[ch.idx].Idle?
       case Wait => Fetching(ch.jobs[1 - ch.idx], Some(cur)) && Fetching(ch.jobs[ch.idx], next)
       case Arrived => ch.jobs[1 - ch.idx].Idle? && Fetching(ch.jobs[ch.idx], next)
                       && Holds(p, m, ch.bufs[1 - ch.idx], cur)
  }

  lemma LoaderStep(p: Problem, m: seq<Word>, ch: Chan, pc: Pc, cur: nat, next: Option<nat>)
    requires p.Valid() && LoaderOk(p, m, ch, pc, cur, next) && LoaderEnabled(p, ch, pc)
    requires next.Some? ==> next.value < p.n
    ensures var (ch', pc') := Loader(p, ch, pc, next); LoaderOk(p, m, ch', pc', cur, next)
  {
  }

  lemma LoaderXfer(p: Problem, m: seq<Word>, ch: Chan, pc: Pc, cur: nat, next: Option<nat>,
                   slot: nat, i: nat, ok: bool, v: Word)
    requires LoaderOk(p, m, ch, pc, cur, next) && XferEnabled(p, ch, slot, i)
    ensures LoaderOk(p, m, XferIn(p, m, ch, slot, i, ok, v), pc, cur, next)
  {
  }

  lemma LoaderNextRound(p: Problem, m: seq<Word>, ch: Chan, cur: nat, next: nat, after: Option<nat>)
    requires LoaderOk(p, m, ch, Arrived, cur, Some(next))
    ensures LoaderOk(p, m, ch, Swap, next, after)
  {
  }

  // ---------------------------------------------------------------- indices

  lemma Associate(a: int, b: int, c: int)
    ensures a * (b * c) == a * b * c
  {
  }

  /** Row i of stripe k is row k * sh + i of the matrix. */
  lemma StripeRow(p: Problem, k: nat, i: nat, j: nat)
    requires p.Valid() && i < p.sh && j < p.w
    ensures i * p.w + j < p.size
    ensures k * p.size + (i * p.w + j) == (k * p.sh + i) * p.w + j
  {
    DigitBound(i, p.sh, j, p.w);
    Associate(k, p.sh, p.w);
    assert k * p.size == k * p.sh * p.w;
    assert (k * p.sh + i) * p.w == k * p.sh * p.w + i * p.w;
  }

  /** Column j of the block of columns t lies inside the row. */
  lemma BlockColumn(p: Problem, t: nat, j: nat)
    requires p.Valid() && t < p.n && j < p.sh
    ensures t * p.sh + j < p.w
  {
    DigitBound(t, p.n, j, p.sh);
  }

  lemma AtIsGet(m: seq<Word>, width: nat, i: nat, j: nat, x: nat)
    requires x == i * width + j
    ensures At(m, width, i, j) == Get(m, x)
  {
  }

  /** A buffer that holds stripe k has the operand's entries. */
  lemma HoldsAt(p: Problem, m: seq<Word>, buf: seq<Word>, k: nat, i: nat, j: nat)
    requires p.Valid() && Holds(p, m, buf, k) && k < p.n && i < p.sh && j < p.w
    ensures At(buf, p.w, i, j) == At(m, p.w, k * p.sh + i, j)
  {
    StripeRow(p, k, i, j);
    var x := i * p.w + j;
    AtIsGet(buf, p.w, i, j, x);
    AtIsGet(m, p.w, k * p.sh + i, j, k * p.size + x);
  }

  // ---------------------------------------------------------------- storing c

  /** The finished entry in row i of result stripe k, column j. */
  function Entry(p: Problem, k: nat, i: nat, j: nat): Word { Dot(p, k * p.sh + i, j, p.w) }

  /** The host's entry in row i of stripe k, column j. */
  function HostAt(p: Problem, c: seq<Word>, k: nat, i: nat, j: nat): Word { At(c, p.w, k * p.sh + i, j) }

  /** The buffer holds the first `cols` columns of result stripe k. */
  ghost predicate Columns(p: Problem, buf: seq<Word>, k: nat, cols: nat) {
    forall i: nat, j: nat :: i < p.sh && j < cols ==> At(buf, p.w, i, j) == Entry(p, k, i, j)
  }

  /** The host's matrix holds result rows below stripe m. */
  ghost predicate HostRows(p: Problem, c: seq<Word>, m: int) {
    forall k: nat, i: nat, j: nat :: k < m && i < p.sh && j < p.w ==>
      HostAt(p, c, k, i, j) == Entry(p, k, i, j)
  }

  /** Stripe k is on its way to the host, or was never sent (k < 0). */
  ghost predicate Sent(p: Problem, c: seq<Word>, buf: seq<Word>, job: Job, k: int) {
    if k < 0 then job.Idle?
    else
      && job.InFlight? && job.stripe == k && k < p.n && Columns(p, buf, k, p.w)
      && forall i :: i in job.done ==> i < p.size && Get(c, k * p.size + i) == Get(buf, i)
  }

  /** Thread 2 at `pc` in round s. */
  ghost predicate StorerOk(p: Problem, c: seq<Word>, ch: Chan, pc: Pc, s: nat) {
    && ChanShape(p, ch) && |c| == p.w * p.w && s < p.n
    && var (cur, old_) := (ch.idx, 1 - ch.idx);
       match pc
       case First => false
       case Swap => s > 0 && ch.jobs[cur].Idle? && Columns(p, ch.bufs[cur], s - 1, p.w)
                    && Sent(p, c, ch.bufs[old_], ch.jobs[old_], s - 2) && HostRows(p, c, s - 2)
       case Issue => s > 0 && ch.jobs[old_].Idle? && Columns(p, ch.bufs[old_], s - 1, p.w)
                     && Sent(p, c, ch.bufs[cur], ch.jobs[cur], s - 2) && HostRows(p, c, s - 2)
       case Wait => s > 1 && Sent(p, c, ch.bufs[old_], ch.jobs[old_], s - 1)
                    && Sent(p, c, ch.bufs[cur], ch.jobs[cur], s - 2) && HostRows(p, c, s - 2)
       case Arrived => ch.jobs[cur].Idle? && Sent(p, c, ch.bufs[old_], ch.jobs[old_], s - 1) && HostRows(p, c, s - 1)
  }

  /** A complete store has put its stripe into the host's matrix. */
  lemma SentComplete(p: Problem, c: seq<Word>, buf: seq<Word>, job: Job, k: nat)
    requires p.Valid() && |c| == p.w * p.w && |buf| == p.size
    requires Sent(p, c, buf, job, k) && Complete(p, job) && HostRows(p, c, k)
    ensures HostRows(p, c, k + 1)
  {
    forall i: nat, j: nat | i < p.sh && j < p.w
      ensures HostAt(p, c, k, i, j) == Entry(p, k, i, j)
    {
      HostIndex(p, c, k, i, j);
      var x := i * p.w + j;
      assert x in job.done;
      assert Get(c, k * p.size + x) == Get(buf, x) == At(buf, p.w, i, j);
    }
  }

  lemma HostIndex(p: Problem, c: seq<Word>, k: nat, i: nat, j: nat)
    requires p.Valid() && |c| == p.w * p.w && k < p.n && i < p.sh && j < p.w
    ensures 0 <= i * p.w + j < p.size
    ensures HostAt(p, c, k, i, j) == Get(c, k * p.size + (i * p.w + j))
  {
    StripeRow(p, k, i, j);
    AtIsGet(c, p.w, k * p.sh + i, j, k * p.size + (i * p.w + j));
  }

  lemma StorerStep(p: Problem, st: State)
    requires p.Valid() && st.phase.Steer? && StorerOk(p, st.c, st.C, st.p2, st.s) && StorerEnabled(p, st)
    ensures var st' := Storer(p, st); StorerOk(p, st'.c, st'.C, st'.p2, st.s)
  {
    if st.p2.Wait? {
      SentComplete(p, st.c, st.C.bufs[st.C.idx], st.C.jobs[st.C.idx], st.s - 2);
    }
  }

  /** A word sent for stripe k lands outside the rows already finished. */
  lemma XferKeepsRows(p: Problem, c: seq<Word>, m: int, k: nat, x: nat, v: Word)
    requires p.Valid() && |c| == p.w * p.w && HostRows(p, c, m) && m <= k < p.n && x < p.size
    ensures HostRows(p, Set(c, k * p.size + x, v), m)
  {
    var d := Set(c, k * p.size + x, v);
    forall k0: nat, i: nat, j: nat | k0 < m && i < p.sh && j < p.w
      ensures HostAt(p, d, k0, i, j) == HostAt(p, c, k0, i, j)
    {
      HostIndex(p, c, k0, i, j);
      HostIndex(p, d, k0, i, j);
      StripesApart(p, k0, i * p.w + j, k, x);
    }
  }

  lemma StripesApart(p: Problem, k0: nat, x0: nat, k1: nat, x1: nat)
    requires k0 < k1 && x0 < p.size
    ensures k0 * p.size + x0 < k1 * p.size + x1
  {
    MulMonotone(k0 + 1, k1, p.size);
    assert (k0 + 1) * p.size == k0 * p.size + p.size;
  }

  /** A word sent for one stripe leaves another stripe's store alone. */
  lemma XferKeepsSent(p: Problem, c: seq<Word>, buf: seq<Word>, job: Job, k: int, k1: nat, x: nat, v: Word)
    requires Sent(p, c, buf, job, k) && k != k1 && x < p.size
    ensures Sent(p, Set(c, k1 * p.size + x, v), buf, job, k)
  {
    if k >= 0 {
      forall i | i in job.done
        ensures Get(Set(c, k1 * p.size + x, v), k * p.size + i) == Get(buf, i)
      {
        if k < k1 {
          StripesApart(p, k, i, k1, x);
        } else {
          StripesApart(p, k1, x, k, i);
        }
      }
    }
  }

  lemma XferMovesSent(p: Problem, c: seq<Word>, buf: seq<Word>, job: Job, k: int, x: nat, ok: bool, v: Word)
    requires k * p.size + x < |c| && |buf| == p.size
    requires Sent(p, c, buf, job, k) && job.InFlight? && x < p.size
    ensures Sent(p, Set(c, k * p.size + x, if ok then buf[x] else v), buf, Mark(job, x, ok), k)
  {
  }

  lemma InHost(p: Problem, k: nat, x: nat)
    requires p.Valid() && k < p.n && x < p.size
    ensures k * p.size + x < p.w * p.w
  {
    DigitBound(k, p.n, x, p.size);
    Associate(p.n, p.sh, p.w);
    assert p.size == p.sh * p.w;
  }

  lemma StorerXfer(p: Problem, c: seq<Word>, ch: Chan, pc: Pc, s: nat, slot: nat, i: nat, ok: bool, v: Word)
    requires p.Valid() && StorerOk(p, c, ch, pc, s) && XferEnabled(p, ch, slot, i)
    ensures var (c', ch') := XferOut(p, c, ch, slot, i, ok, v); StorerOk(p, c', ch', pc, s)
  {
    var k := ch.jobs[slot].stripe;
    var x: Word := if ok then ch.bufs[slot][i] else v;
    InHost(p, k, i);
    XferMovesSent(p, c, ch.bufs[slot], ch.jobs[slot], k, i, ok, v);
    XferKeepsRows(p, c, if pc.Arrived? then s - 1 else s - 2, k, i, x);
    if pc.Wait? {
      XferKeepsSent(p, c, ch.bufs[1 - slot], ch.jobs[1 - slot], if k == s - 1 then s - 2 else s - 1, k, i, x);
    }
  }

  // ---------------------------------------------------------------- the compute loop

  /** A cell of row i has summed its first k terms and, once stored, is in the buffer. */
  predicate CellOk(p: Problem, s: nat, buf: seq<Word>, x: Cell, i: nat, col: nat) {
    && x.k <= p.w
    && x.sum == Dot(p, s * p.sh + i, col, x.k)
    && (x.stored ==> x.k == p.w && At(buf, p.w, i, col) == Entry(p, s, i, col))
  }

  /** The cells of a round, whose columns start at `base`. */
  ghost predicate CellsOk(p: Problem, s: nat, base: nat, buf: seq<Word>, cells: seq<seq<Cell>>)
    requires CellShape(p, cells)
  {
    forall i: nat, j: nat {:trigger cells[i][j]} :: i < p.sh && j < p.sh ==> CellOk(p, s, buf, cells[i][j], i, base + j)
  }

  /** The three channels between the barrier and the end of the round. */
  ghost predicate RoundOk(p: Problem, st: State) {
    && Shape(p, st) && st.s < p.n && st.t < p.n
    && LoaderOk(p, p.a, st.A, st.p0, st.s, NextA(p, st.s))
    && LoaderOk(p, p.b, st.B, st.p1, st.t, NextB(p, st.s, st.t))
    && StorerOk(p, st.c, st.C, st.p2, st.s)
    && (if st.p2.Arrived? then Columns(p, st.C.bufs[st.C.idx], st.s, st.t * p.sh) else st.t == 0)
  }

  predicate AllArrived(st: State) { st.p0.Arrived? && st.p1.Arrived? && st.p2.Arrived? }

  predicate AllIdle(ch: Chan) { |ch.jobs| == 2 && ch.jobs[0].Idle? && ch.jobs[1].Idle? }

  ghost predicate Inv(p: Problem, st: State) {
    && Shape(p, st)
    && match st.phase
       case Steer => RoundOk(p, st)
       case Compute => RoundOk(p, st) && AllArrived(st) && CellsOk(p, st.s, st.t * p.sh, st.C.bufs[st.C.idx], st.cells)
       case FinalWait =>
         && RoundOk(p, st) && AllArrived(st) && st.s == p.n - 1 && st.t == p.n - 1
         && Columns(p, st.C.bufs[st.C.idx], st.s, p.w)
       case FinalCopy =>
         && AllIdle(st.A) && AllIdle(st.B) && AllIdle(st.C) && p.n >= 1
         && HostRows(p, st.c, p.n - 1) && Columns(p, st.C.bufs[st.C.idx], p.n - 1, p.w)
       case Done => AllIdle(st.A) && AllIdle(st.B) && AllIdle(st.C) && HostRows(p, st.c, p.n)
  }

  lemma InitInv(p: Problem, st: State)
    requires p.Valid() && Init(p, st)
    ensures Inv(p, st)
  {
    assert 0 * p.sh == 0;
  }

  lemma AccumulateOk(p: Problem, st: State, i: nat, j: nat)
    requires p.Valid() && Shape(p, st) && i < p.sh && j < p.sh && st.s < p.n && st.t < p.n
    requires Holds(p, p.a, st.A.bufs[1 - st.A.idx], st.s) && Holds(p, p.b, st.B.bufs[1 - st.B.idx], st.t)
    requires st.cells[i][j].k < p.w && CellOk(p, st.s, st.C.bufs[st.C.idx], st.cells[i][j], i, st.t * p.sh + j)
    ensures CellOk(p, st.s, st.C.bufs[st.C.idx], Accumulate(p, st, i, j), i, st.t * p.sh + j)
  {
    var k := st.cells[i][j].k;
    HoldsAt(p, p.a, st.A.bufs[1 - st.A.idx], st.s, i, k);
    HoldsAt(p, p.b, st.B.bufs[1 - st.B.idx], st.t, j, k);
  }

  lemma MulAddStep(p: Problem, st: State, i: nat, j: nat)
    requires p.Valid() && (var inv := Inv(p, st); inv) && Enabled(p, st, MulAdd(i, j))
    ensures var inv := Inv(p, Apply(p, st, MulAdd(i, j))); inv
  {
    AccumulateOk(p, st, i, j);
    ReplaceCell(p, st, i, j, Accumulate(p, st, i, j));
  }

  lemma ReplaceCell(p: Problem, st: State, i: nat, j: nat, x: Cell)
    requires (var inv := Inv(p, st); inv) && CellEnabled(p, st, i, j)
    requires var ok := CellOk(p, st.s, st.C.bufs[st.C.idx], x, i, st.t * p.sh + j); ok
    ensures Inv(p, st.(cells := SetCell(p, st.cells, i, j, x)))
  {
  }

  lemma SetAt(rows: nat, width: nat, buf: seq<Word>, i: nat, j: nat, v: Word, i': nat, j': nat)
    requires |buf| == rows * width && i < rows && j < width && i' < rows && j' < width
    ensures At(Set(buf, i * width + j, v), width, i', j') == if i == i' && j == j' then v else At(buf, width, i', j')
  {
    DigitBound(i, rows, j, width);
    DigitBound(i', rows, j', width);
    if i * width + j == i' * width + j' {
      EqualDigits(width, i, j, i', j');
    }
  }

  lemma StoreKeepsColumns(p: Problem, buf: seq<Word>, k: nat, cols: nat, i: nat, j: nat, v: Word)
    requires |buf| == p.sh * p.w && Columns(p, buf, k, cols) && i < p.sh && cols <= j < p.w
    ensures Columns(p, Set(buf, i * p.w + j, v), k, cols)
  {
    forall i': nat, j': nat | i' < p.sh && j' < cols
      ensures At(Set(buf, i * p.w + j, v), p.w, i', j') == At(buf, p.w, i', j')
    {
      SetAt(p.sh, p.w, buf, i, j, v, i', j');
    }
  }

  /** Storing one cell keeps every cell as it was. */
  lemma StoreKeepsCell(p: Problem, s: nat, buf: seq<Word>, v: Word, i: nat, col: nat, x: Cell, i': nat, col': nat)
    requires |buf| == p.sh * p.w && i < p.sh && col < p.w && i' < p.sh && col' < p.w
    requires v == Entry(p, s, i, col) && CellOk(p, s, buf, x, i', col')
    ensures CellOk(p, s, Set(buf, i * p.w + col, v), x, i', col')
  {
    SetAt(p.sh, p.w, buf, i, col, v, i', col');
  }

  lemma StoreMakesStored(p: Problem, s: nat, buf: seq<Word>, i: nat, col: nat, x: Cell)
    requires |buf| == p.sh * p.w && i < p.sh && col < p.w && x.k == p.w && CellOk(p, s, buf, x, i, col)
    ensures CellOk(p, s, Set(buf, i * p.w + col, x.sum), x.(stored := true), i, col)
  {
    SetAt(p.sh, p.w, buf, i, col, x.sum, i, col);
  }

  lemma StoreKeepsCells(p: Problem, s: nat, base: nat, buf: seq<Word>, cells: seq<seq<Cell>>, i: nat, j: nat)
    requires base + p.sh <= p.w && |buf| == p.sh * p.w && CellShape(p, cells) && CellsOk(p, s, base, buf, cells)
    requires i < p.sh && j < p.sh && cells[i][j].k == p.w
    ensures var x := cells[i][j];
            CellsOk(p, s, base, Set(buf, i * p.w + (base + j), x.sum), SetCell(p, cells, i, j, x.(stored := true)))
  {
    var x := cells[i][j];
    StoreMakesStored(p, s, buf, i, base + j, x);
    forall i': nat, j': nat | i' < p.sh && j' < p.sh
      ensures CellOk(p, s, Set(buf, i * p.w + (base + j), x.sum), cells[i'][j'], i', base + j')
    {
      StoreKeepsCell(p, s, buf, x.sum, i, base + j, cells[i'][j'], i', base + j');
    }
  }

  /** `st'` differs in the current buffer and the cells, which are still right. */
  ghost predicate Replaced(p: Problem, st: State, st': State) {
    && st.C.idx < 2 && |st.C.bufs| == 2 && |st'.C.bufs| == 2 && CellShape(p, st'.cells)
    && |st'.C.bufs[st.C.idx]| == |st.C.bufs[st.C.idx]|
    && st' == st.(C := st.C.(bufs := st.C.bufs[st.C.idx := st'.C.bufs[st.C.idx]]), cells := st'.cells)
    && Columns(p, st'.C.bufs[st.C.idx], st.s, st.t * p.sh) && CellsOk(p, st.s, st.t * p.sh, st'.C.bufs[st.C.idx], st'.cells)
  }

  lemma ComputeInv(p: Problem, st: State, st': State)
    requires st.phase.Compute?
    requires var before := p.Valid() && Inv(p, st) && Replaced(p, st, st'); before
    ensures Inv(p, st')
  {
  }

  lemma StoreFacts(p: Problem, s: nat, base: nat, buf: seq<Word>, cells: seq<seq<Cell>>, i: nat, j: nat, buf': seq<Word>, cells': seq<seq<Cell>>)
    requires base + p.sh <= p.w && |buf| == p.size == p.sh * p.w && CellShape(p, cells)
    requires var given := CellsOk(p, s, base, buf, cells) && Columns(p, buf, s, base); given
    requires i < p.sh && j < p.sh && cells[i][j].k == p.w
    requires buf' == Set(buf, i * p.w + (base + j), cells[i][j].sum) && cells' == SetCell(p, cells, i, j, cells[i][j].(stored := true))
    ensures |buf'| == |buf| && CellShape(p, cells') && CellsOk(p, s, base, buf', cells') && Columns(p, buf', s, base)
  {
    StoreKeepsCells(p, s, base, buf, cells, i, j);
    StoreKeepsColumns(p, buf, s, base, i, base + j, cells[i][j].sum);
  }

  /** `st'` is `st` with cell (i, j) stored. */
  ghost predicate Stores(p: Problem, st: State, st': State, i: nat, j: nat) {
    Enabled(p, st, StoreCell(i, j)) && st' == Apply(p, st, StoreCell(i, j))
  }

  /** What storing a cell does to the state. */
  lemma StoreEffect(p: Problem, st: State, st': State, i: nat, j: nat, base: nat)
    requires Stores(p, st, st', i, j) && base == st.t * p.sh
    ensures |st'.C.bufs| == 2
    ensures st'.C.bufs[st.C.idx] == Set(st.C.bufs[st.C.idx], i * p.w + (base + j), st.cells[i][j].sum)
    ensures st'.cells == SetCell(p, st.cells, i, j, st.cells[i][j].(stored := true))
  {
  }

  lemma StoreFrame(p: Problem, st: State, st': State, i: nat, j: nat)
    requires var stores := Stores(p, st, st', i, j); stores
    ensures |st'.C.bufs| == 2
    ensures st' == st.(C := st.C.(bufs := st.C.bufs[st.C.idx := st'.C.bufs[st.C.idx]]), cells := st'.cells)
  {
  }

  lemma StoreKeeps(p: Problem, st: State, st': State, i: nat, j: nat, base: nat)
    requires var stores := Stores(p, st, st', i, j); stores
    requires base == st.t * p.sh && base + p.sh <= p.w && p.size == p.sh * p.w
    requires var given := Columns(p, st.C.bufs[st.C.idx], st.s, base) && CellsOk(p, st.s, base, st.C.bufs[st.C.idx], st.cells);
             given
    ensures |st'.C.bufs| == 2 && |st'.C.bufs[st.C.idx]| == |st.C.bufs[st.C.idx]| && CellShape(p, st'.cells)
    ensures var kept := Columns(p, st'.C.bufs[st.C.idx], st.s, base) && CellsOk(p, st.s, base, st'.C.bufs[st.C.idx], st'.cells);
            kept
  {
    StoreEffect(p, st, st', i, j, base);
    StoreFacts(p, st.s, base, st.C.bufs[st.C.idx], st.cells, i, j, st'.C.bufs[st.C.idx], st'.cells);
  }

  lemma RoundFits(p: Problem, t: nat)
    requires p.Valid() && t < p.n
    ensures t * p.sh + p.sh <= p.w && p.size == p.sh * p.w
  {
    BlockColumn(p, t, p.sh - 1);
  }

  lemma ComputeFacts(p: Problem, st: State, base: nat)
    requires Inv(p, st) && st.phase.Compute? && base == st.t * p.sh
    ensures st.t < p.n && Shape(p, st)
    ensures var given := Columns(p, st.C.bufs[st.C.idx], st.s, base) && CellsOk(p, st.s, base, st.C.bufs[st.C.idx], st.cells); given
  {
  }

  lemma StoreReplaces(p: Problem, st: State, st': State, i: nat, j: nat)
    requires p.Valid() && (var inv := Inv(p, st); inv) && (var stores := Stores(p, st, st', i, j); stores)
    ensures var replaced := Replaced(p, st, st'); replaced
  {
    var base := st.t * p.sh;
    ComputeFacts(p, st, base);
    StoreFrame(p, st, st', i, j);
    RoundFits(p, st.t);
    StoreKeeps(p, st, st', i, j, base);
  }

  lemma StoreStep(p: Problem, st: State, st': State, i: nat, j: nat)
    requires p.Valid() && (var inv := Inv(p, st); inv) && Stores(p, st, st', i, j)
    ensures Inv(p, st')
  {
    StoreReplaces(p, st, st', i, j);
    ComputeInv(p, st, st');
  }

  lemma StoreCellStep(p: Problem, st: State, i: nat, j: nat)
    requires p.Valid() && (var inv := Inv(p, st); inv) && Enabled(p, st, StoreCell(i, j))
    ensures Inv(p, Apply(p, st, StoreCell(i, j)))
  {
    StoreStep(p, st, Apply(p, st, StoreCell(i, j)), i, j);
  }

  /** When every cell of the round is stored, the next block of columns is complete. */
  lemma RoundColumns(p: Problem, st: State)
    requires p.Valid() && (var inv := Inv(p, st); inv) && st.phase.Compute? && AllStored(p, st.cells)
    ensures Columns(p, st.C.bufs[st.C.idx], st.s, (st.t + 1) * p.sh)
  {
    assert (st.t + 1) * p.sh == st.t * p.sh + p.sh;
    forall i: nat, j: nat | i < p.sh && j < (st.t + 1) * p.sh
      ensures At(st.C.bufs[st.C.idx], p.w, i, j) == Entry(p, st.s, i, j)
    {
      if j >= st.t * p.sh {
        assert st.cells[i][j - st.t * p.sh].stored;
      }
    }
  }

  lemma NextColumns(p: Problem, st: State)
    requires p.Valid() && (var inv := Inv(p, st); inv) && st.phase.Compute? && st.t + 1 < p.n
    requires var done := Columns(p, st.C.bufs[st.C.idx], st.s, (st.t + 1) * p.sh); done
    ensures Inv(p, StartRound(p, st, st.s, st.t + 1))
  {
    LoaderNextRound(p, p.b, st.B, st.t, st.t + 1, NextB(p, st.s, st.t + 1));
  }

  lemma NextStripe(p: Problem, st: State)
    requires p.Valid() && (var inv := Inv(p, st); inv) && st.phase.Compute? && st.t + 1 == p.n && st.s + 1 < p.n
    requires var done := Columns(p, st.C.bufs[st.C.idx], st.s, p.w); done
    ensures Inv(p, StartRound(p, st, st.s + 1, 0))
  {
    LoaderNextRound(p, p.a, st.A, st.s, st.s + 1, NextA(p, st.s + 1));
    LoaderNextRound(p, p.b, st.B, st.t, 0, NextB(p, st.s + 1, 0));
  }

  lemma LoopsEnd(p: Problem, st: State)
    requires p.Valid() && (var inv := Inv(p, st); inv) && st.phase.Compute? && st.t + 1 == p.n && st.s + 1 == p.n
    requires var done := Columns(p, st.C.bufs[st.C.idx], st.s, p.w); done
    ensures Inv(p, st.(phase := FinalWait))
  {
  }

  lemma EndRoundStep(p: Problem, st: State)
    requires p.Valid() && (var inv := Inv(p, st); inv) && Enabled(p, st, EndRound)
    ensures var inv := Inv(p, Apply(p, st, EndRound)); inv
  {
    RoundColumns(p, st);
    if st.t + 1 < p.n {
      NextColumns(p, st);
    } else {
      assert (st.t + 1) * p.sh == p.w;
      if st.s + 1 < p.n {
        NextStripe(p, st);
      } else {
        LoopsEnd(p, st);
      }
    }
  }

  // ---------------------------------------------------------------- every step

  lemma FinalWaitStep(p: Problem, st: State)
    requires p.Valid() && (var inv := Inv(p, st); inv) && st.phase.FinalWait? && Enabled(p, st, Thread2)
    ensures Inv(p, Apply(p, st, Thread2))
  {
    SentComplete(p, st.c, st.C.bufs[1 - st.C.idx], st.C.jobs[1 - st.C.idx], p.n - 2);
  }

  /** Entry of the host's matrix after a whole stripe was copied into it. */
  lemma CopiedEntry(p: Problem, c: seq<Word>, buf: seq<Word>, stripe: nat, k: nat, i: nat, j: nat)
    requires p.Valid() && |c| == p.w * p.w && |buf| == p.size && stripe < p.n && k < p.n && i < p.sh && j < p.w
    ensures HostAt(p, CopyStripe(p, c, buf, stripe), k, i, j)
            == if k == stripe then At(buf, p.w, i, j) else HostAt(p, c, k, i, j)
  {
    var d := CopyStripe(p, c, buf, stripe);
    HostIndex(p, c, k, i, j);
    HostIndex(p, d, k, i, j);
    var x := i * p.w + j;
    InHost(p, k, x);
    InHost(p, stripe, p.size - 1);
    assert (stripe + 1) * p.size == stripe * p.size + p.size;
    if k < stripe {
      StripesApart(p, k, x, stripe, 0);
    } else if k > stripe {
      StripesApart(p, stripe, p.size - 1, k, x);
    }
  }

  lemma FinalCopyStep(p: Problem, st: State)
    requires p.Valid() && (var inv := Inv(p, st); inv) && st.phase.FinalCopy?
    ensures Inv(p, Storer(p, st))
  {
    var buf := st.C.bufs[st.C.idx];
    var d := CopyStripe(p, st.c, buf, p.n - 1);
    forall k: nat, i: nat, j: nat | k < p.n && i < p.sh && j < p.w
      ensures HostAt(p, d, k, i, j) == Entry(p, k, i, j)
    {
      CopiedEntry(p, st.c, buf, p.n - 1, k, i, j);
    }
  }

  /** No job is in flight after the final wait. */
  lemma XferPhase(p: Problem, st: State, e: Event)
    requires (var inv := Inv(p, st); inv) && Enabled(p, st, e) && (e.XferA? || e.XferB? || e.XferC?)
    ensures RoundOk(p, st) && !st.phase.FinalCopy? && !st.phase.Done?
  {
  }

  lemma ReplaceA(p: Problem, st: State, ch: Chan)
    requires (var inv := Inv(p, st); inv) && !st.phase.FinalCopy? && !st.phase.Done?
    requires var ok := LoaderOk(p, p.a, ch, st.p0, st.s, NextA(p, st.s)); ok
    ensures Inv(p, st.(A := ch))
  {
  }

  lemma ReplaceB(p: Problem, st: State, ch: Chan)
    requires (var inv := Inv(p, st); inv) && !st.phase.FinalCopy? && !st.phase.Done?
    requires var ok := LoaderOk(p, p.b, ch, st.p1, st.t, NextB(p, st.s, st.t)); ok
    ensures Inv(p, st.(B := ch))
  {
  }

  lemma ReplaceC(p: Problem, st: State, c: seq<Word>, ch: Chan)
    requires (var inv := Inv(p, st); inv) && !st.phase.FinalCopy? && !st.phase.Done? && ch.bufs == st.C.bufs && ch.idx == st.C.idx
    requires var ok := StorerOk(p, c, ch, st.p2, st.s); ok
    ensures Inv(p, st.(c := c, C := ch))
  {
  }

  lemma XferStep(p: Problem, st: State, e: Event)
    requires p.Valid() && (var inv := Inv(p, st); inv) && Enabled(p, st, e) && (e.XferA? || e.XferB? || e.XferC?)
    ensures var inv := Inv(p, Apply(p, st, e)); inv
  {
    XferPhase(p, st, e);
    match e
    case XferA(slot, i, ok, v) =>
      LoaderXfer(p, p.a, st.A, st.p0, st.s, NextA(p, st.s), slot, i, ok, v);
      ReplaceA(p, st, XferIn(p, p.a, st.A, slot, i, ok, v));
    case XferB(slot, i, ok, v) =>
      LoaderXfer(p, p.b, st.B, st.p1, st.t, NextB(p, st.s, st.t), slot, i, ok, v);
      ReplaceB(p, st, XferIn(p, p.b, st.B, slot, i, ok, v));
    case XferC(slot, i, ok, v) =>
      StorerXfer(p, st.c, st.C, st.p2, st.s, slot, i, ok, v);
      var (c, ch) := XferOut(p, st.c, st.C, slot, i, ok, v);
      ReplaceC(p, st, c, ch);
  }

  lemma BarrierStep(p: Problem, st: State)
    requires p.Valid() && (var inv := Inv(p, st); inv) && Enabled(p, st, Barrier)
    ensures Inv(p, Apply(p, st, Barrier))
  {
  }

  lemma ThreadStep(p: Problem, st: State, e: Event)
    requires p.Valid() && (var inv := Inv(p, st); inv) && Enabled(p, st, e) && (e.Thread0? || e.Thread1? || e.Thread2?)
    ensures var inv := Inv(p, Apply(p, st, e)); inv
  {
    match e
    case Thread0 => LoaderStep(p, p.a, st.A, st.p0, st.s, NextA(p, st.s));
    case Thread1 => LoaderStep(p, p.b, st.B, st.p1, st.t, NextB(p, st.s, st.t));
    case Thread2 =>
      if st.phase.FinalWait? {
        FinalWaitStep(p, st);
      } else if st.phase.FinalCopy? {
        FinalCopyStep(p, st);
      } else {
        StorerStep(p, st);
      }
  }

  lemma ComputeStep(p: Problem, st: State, e: Event)
    requires p.Valid() && (var inv := Inv(p, st); inv) && Enabled(p, st, e) && (e.Barrier? || e.MulAdd? || e.StoreCell? || e.EndRound?)
    ensures var inv := Inv(p, Apply(p, st, e)); inv
  {
    match e
    case Barrier => BarrierStep(p, st);
    case MulAdd(i, j) => MulAddStep(p, st, i, j);
    case StoreCell(i, j) => StoreCellStep(p, st, i, j);
    case EndRound => EndRoundStep(p, st);
  }

  /** Every event of every thread and of the DMA engine keeps the invariant. */
  lemma StepKeepsInv(p: Problem, st: State, e: Event)
    requires p.Valid() && (var inv := Inv(p, st); inv) && Enabled(p, st, e)
    ensures var inv := Inv(p, Apply(p, st, e)); inv
  {
    if e.Thread0? || e.Thread1? || e.Thread2? {
      ThreadStep(p, st, e);
    } else if e.XferA? || e.XferB? || e.XferC? {
      XferStep(p, st, e);
    } else {
      ComputeStep(p, st, e);
    }
  }

  // ---------------------------------------------------------------- runs

  ghost predicate IsRun(p: Problem, events: seq<Event>, run: seq<State>) {
    && |run| == |events| + 1 && Init(p, run[0])
    && forall i :: 0 <= i < |events| ==> Enabled(p, run[i], events[i]) && run[i + 1] == Apply(p, run[i], events[i])
  }

  lemma {:induction false} RunKeepsInv(p: Problem, events: seq<Event>, run: seq<State>, i: nat)
    requires p.Valid() && IsRun(p, events, run) && i < |run|
    ensures Inv(p, run[i])
  {
    if i == 0 {
      InitInv(p, run[0]);
    } else {
      RunKeepsInv(p, events, run, i - 1);
      StepKeepsInv(p, run[i - 1], events[i - 1]);
    }
  }

  /** The buffers that compute reads and writes have no DMA in flight. */
  predicate NoConflict(st: State)
    requires |st.A.jobs| == 2 && |st.B.jobs| == 2 && |st.C.jobs| == 2 && st.A.idx < 2 && st.B.idx < 2 && st.C.idx < 2
  {
    st.phase.Compute? ==>
      st.A.jobs[1 - st.A.idx].Idle? && st.B.jobs[1 - st.B.idx].Idle? && st.C.jobs[st.C.idx].Idle?
  }

  /** A thread about to issue a job finds no unwaited job in that slot; one about to wait finds an issued job. */
  predicate HandlesOk(st: State)
    requires |st.A.jobs| == 2 && |st.B.jobs| == 2 && |st.C.jobs| == 2 && st.A.idx < 2 && st.B.idx < 2 && st.C.idx < 2
  {
    st.phase.Steer? ==>
      && (st.p0.First? || st.p0.Issue? ==> st.A.jobs[st.A.idx].Idle?)
      && (st.p1.First? || st.p1.Issue? ==> st.B.jobs[st.B.idx].Idle?)
      && (st.p2.Issue? ==> st.C.jobs[1 - st.C.idx].Idle?)
      && (st.p0.Wait? ==> st.A.jobs[1 - st.A.idx].InFlight?)
      && (st.p1.Wait? ==> st.B.jobs[1 - st.B.idx].InFlight?)
      && (st.p2.Wait? ==> st.C.jobs[st.C.idx].InFlight?)
  }

  /**
   DMA discipline in every reachable state. A slot goes from idle to in flight only by an
   issue and back only by a wait, so jobs are waited on exactly once, before their buffer is
   reused and before it is freed. The wait after the loops names an issued job exactly when
   there are at least two stripes.
   */
  lemma RunsKeepDmaDiscipline(p: Problem, events: seq<Event>, run: seq<State>, i: nat)
    requires p.Valid() && IsRun(p, events, run) && i < |run|
    ensures Shape(p, run[i]) && NoConflict(run[i]) && HandlesOk(run[i])
    ensures run[i].phase.FinalWait? ==> (run[i].C.jobs[1 - run[i].C.idx].InFlight? <==> p.n >= 2)
    ensures run[i].phase.FinalCopy? || run[i].phase.Done? ==>
              AllIdle(run[i].A) && AllIdle(run[i].B) && AllIdle(run[i].C)
  {
    RunKeepsInv(p, events, run, i);
  }

  /** The product entry over the integers. */
  function Sum(p: Problem, row: nat, col: nat, k: nat): int {
    if k == 0 then 0 else Sum(p, row, col, k - 1) + At(p.a, p.w, row, k - 1) * At(p.b, p.w, col, k - 1)
  }

  lemma {:induction false} DotIsSum(p: Problem, row: nat, col: nat, k: nat)
    ensures Dot(p, row, col, k) == Sum(p, row, col, k) % 0x1_0000_0000
  {
    if k > 0 {
      DotIsSum(p, row, col, k - 1);
      ModAdd(Sum(p, row, col, k - 1), At(p.a, p.w, row, k - 1) * At(p.b, p.w, col, k - 1));
    }
  }

  lemma ModAdd(x: int, y: int)
    ensures (x % 0x1_0000_0000 + y) % 0x1_0000_0000 == (x + y) % 0x1_0000_0000
  {
  }

  /**
   Whatever the interleaving of the threads and the timing of the transfers, a finished run
   has left the sum over k of a[row][k] * b[col][k], modulo 2^32, in every entry of c.
   */
  lemma RunsComputeProduct(p: Problem, events: seq<Event>, run: seq<State>, row: nat, col: nat)
    requires p.Valid() && IsRun(p, events, run) && run[|events|].phase.Done? && row < p.w && col < p.w
    ensures At(run[|events|].c, p.w, row, col) == Sum(p, row, col, p.w) % 0x1_0000_0000
  {
    var c := run[|events|].c;
    assert HostRows(p, c, p.n) by { RunKeepsInv(p, events, run, |events|); }
    HostEntry(p, c, row, col);
    DotIsSum(p, row, col, p.w);
  }

  lemma HostEntry(p: Problem, c: seq<Word>, row: nat, col: nat)
    requires p.Valid() && HostRows(p, c, p.n) && row < p.w && col < p.w
    ensures At(c, p.w, row, col) == Dot(p, row, col, p.w)
  {
    var (k, i) := (row / p.sh, row % p.sh);
    assert row == k * p.sh + i;
    if k >= p.n {
      MulMonotone(p.n, k, p.sh);
    }
    assert HostAt(p, c, k, i, col) == Entry(p, k, i, col);
  }
}
