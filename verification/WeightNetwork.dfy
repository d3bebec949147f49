/** save_weights_upto and load_weights_upto over the layers of a network. */
module WeightNetwork {
  import opened WeightFile

  /** What a layer has to save, by layer type. */
  datatype Body =
    | ConvLayer(u: Unit)
    | FullLayer(u: Unit)
    | NormLayer(u: Unit)
    | LocalLayer(u: Unit)
    | Rnn(input: Unit, self: Unit, output: Unit)
    | Lstm(wi: Unit, wf: Unit, wo: Unit, wg: Unit, ui: Unit, uf: Unit, uo: Unit, ug: Unit)
    | Gru(wz: Unit, wr: Unit, wh: Unit, uz: Unit, ur: Unit, uh: Unit)
    | Crnn(input: Unit, self: Unit, output: Unit)
    | Other

  datatype Layer = Layer(dontsave: bool, dontload: bool, body: Body)

  /** The kind of the parts of a layer in the file. */
  function UnitKind(b: Body): Kind {
    match b
    case ConvLayer(_) | Crnn(_, _, _) => Convolutional
    case NormLayer(_) => Batchnorm
    case LocalLayer(_) => Local
    case _ => Connected
  }

  /** The file format: the order of the parts of a layer in the file. */
  function Units(b: Body): seq<Unit> {
    match b
    case ConvLayer(u) => [u]
    case FullLayer(u) => [u]
    case NormLayer(u) => [u]
    case LocalLayer(u) => [u]
    case Rnn(i, s, o) => [i, s, o]
    case Lstm(wi, wf, wo, wg, ui, uf, uo, ug) => [wi, wf, wo, wg, ui, uf, uo, ug]
    case Gru(wz, wr, wh, uz, ur, uh) => [wz, wr, wh, uz, ur, uh]
    case Crnn(i, s, o) => [i, s, o]
    case Other => []
  }

  /** Layers of the same type. */
  predicate SameType(a: Body, b: Body) {
    && (a.ConvLayer? <==> b.ConvLayer?) && (a.FullLayer? <==> b.FullLayer?) && (a.NormLayer? <==> b.NormLayer?)
    && (a.LocalLayer? <==> b.LocalLayer?) && (a.Rnn? <==> b.Rnn?) && (a.Lstm? <==> b.Lstm?)
    && (a.Gru? <==> b.Gru?) && (a.Crnn? <==> b.Crnn?)
  }

  // ---------------------------------------------------------------- streams in parts

  /** The first k parts, one after the other. */
  function Join(parts: seq<seq<Cell>>, k: nat): seq<Cell>
    requires k <= |parts|
  {
    if k == 0 then [] else Join(parts, k - 1) + parts[k - 1]
  }

  lemma {:induction false} JoinPrefix(cells: seq<Cell>, pos: nat, parts: seq<seq<Cell>>, k: nat, i: nat)
    requires i <= k <= |parts| && At(cells, pos, Join(parts, k))
    ensures At(cells, pos, Join(parts, i))
    decreases k - i
  {
    if i < k {
      AtSplit(cells, pos, Join(parts, k - 1), parts[k - 1]);
      JoinPrefix(cells, pos, parts, k - 1, i);
    }
  }

  /** Part i follows after the parts before it. */
  lemma PartFollows(cells: seq<Cell>, pos: nat, parts: seq<seq<Cell>>, k: nat, i: nat)
    requires i < k <= |parts| && At(cells, pos, Join(parts, k))
    ensures At(cells, pos + |Join(parts, i)|, parts[i])
    ensures |Join(parts, i + 1)| == |Join(parts, i)| + |parts[i]|
  {
    JoinPrefix(cells, pos, parts, k, i + 1);
    AtSplit(cells, pos, Join(parts, i), parts[i]);
  }

  // ---------------------------------------------------------------- one layer

  predicate SizedAt(k: Kind, us: seq<Unit>, i: nat) { i < |us| && Sized(k, us[i]) }

  ghost predicate AllSized(k: Kind, us: seq<Unit>) { forall i {:trigger SizedAt(k, us, i)} :: 0 <= i < |us| ==> SizedAt(k, us, i) }

  predicate LoadableAt(k: Kind, us: seq<Unit>, i: nat) { i < |us| && Loadable(k, us[i]) }

  ghost predicate AllLoadable(k: Kind, us: seq<Unit>) {
    forall i {:trigger LoadableAt(k, us, i)} :: 0 <= i < |us| ==> LoadableAt(k, us, i)
  }

  function UnitParts(k: Kind, us: seq<Unit>): (r: seq<seq<Cell>>)
    ensures PartsOf(k, us, r)
  {
    var r := seq(|us|, i requires 0 <= i < |us| => Saved(k, us[i]));
    assert forall i {:trigger PartAt(k, us, r, i)} :: 0 <= i < |us| ==> PartAt(k, us, r, i);
    r
  }

  predicate PartAt(k: Kind, us: seq<Unit>, parts: seq<seq<Cell>>, i: nat) {
    i < |us| == |parts| && parts[i] == Saved(k, us[i])
  }

  ghost predicate PartsOf(k: Kind, us: seq<Unit>, parts: seq<seq<Cell>>) {
    |parts| == |us| && forall i {:trigger PartAt(k, us, parts, i)} :: 0 <= i < |us| ==> PartAt(k, us, parts, i)
  }

  /** What the file holds for the units of a layer. */
  function SavedUnits(k: Kind, us: seq<Unit>): seq<Cell> { Join(UnitParts(k, us), |us|) }

  lemma ExtendJoin(base: seq<Cell>, parts: seq<seq<Cell>>, i: nat)
    requires i < |parts|
    ensures base + Join(parts, i) + parts[i] == base + Join(parts, i + 1)
  {
  }

  /** Write the next unit, number i of the format; `base` is what the file held before the layer. */
  method SaveNext(f: File, k: Kind, u: Unit, ghost us: seq<Unit>, ghost parts: seq<seq<Cell>>, ghost i: nat, ghost base: seq<Cell>)
    requires i < |us| && u == us[i] && AllSized(k, us) && PartsOf(k, us, parts) && f.cells == base + Join(parts, i)
    modifies f`cells
    ensures f.cells == base + Join(parts, i + 1)
  {
    assert PartAt(k, us, parts, i) && SizedAt(k, us, i);
    ExtendJoin(base, parts, i);
    SaveUnit(f, k, u);
  }

  method SaveOne(f: File, k: Kind, u: Unit)
    requires AllSized(k, [u])
    modifies f`cells
    ensures f.cells == old(f.cells) + SavedUnits(k, [u])
  {
    ghost var parts := UnitParts(k, [u]);
    SaveNext(f, k, u, [u], parts, 0, f.cells);
  }

  /** The three parts of an RNN or a CRNN. */
  method SaveRecurrent(f: File, k: Kind, input: Unit, self: Unit, output: Unit)
    requires AllSized(k, [input, self, output])
    modifies f`cells
    ensures f.cells == old(f.cells) + SavedUnits(k, [input, self, output])
  {
    ghost var (base, us) := (f.cells, [input, self, output]);
    ghost var parts := UnitParts(k, us);
    SaveNext(f, k, input, us, parts, 0, base);
    SaveNext(f, k, self, us, parts, 1, base);
    SaveNext(f, k, output, us, parts, 2, base);
  }

  method SaveLstm(f: File, b: Body)
    requires b.Lstm? && AllSized(Connected, Units(b))
    modifies f`cells
    ensures f.cells == old(f.cells) + SavedUnits(Connected, Units(b))
  {
    ghost var (base, us) := (f.cells, Units(b));
    ghost var parts := UnitParts(Connected, us);
    SaveNext(f, Connected, b.wi, us, parts, 0, base);
    SaveNext(f, Connected, b.wf, us, parts, 1, base);
    SaveNext(f, Connected, b.wo, us, parts, 2, base);
    SaveNext(f, Connected, b.wg, us, parts, 3, base);
    SaveNext(f, Connected, b.ui, us, parts, 4, base);
    SaveNext(f, Connected, b.uf, us, parts, 5, base);
    SaveNext(f, Connected, b.uo, us, parts, 6, base);
    SaveNext(f, Connected, b.ug, us, parts, 7, base);
  }

  method SaveGru(f: File, b: Body)
    requires b.Gru? && AllSized(Connected, Units(b))
    modifies f`cells
    ensures f.cells == old(f.cells) + SavedUnits(Connected, Units(b))
  {
    ghost var (base, us) := (f.cells, Units(b));
    ghost var parts := UnitParts(Connected, us);
    SaveNext(f, Connected, b.wz, us, parts, 0, base);
    SaveNext(f, Connected, b.wr, us, parts, 1, base);
    SaveNext(f, Connected, b.wh, us, parts, 2, base);
    SaveNext(f, Connected, b.uz, us, parts, 3, base);
    SaveNext(f, Connected, b.ur, us, parts, 4, base);
    SaveNext(f, Connected, b.uh, us, parts, 5, base);
  }

  /** The type switch of save_weights_upto. */
  method SaveBody(f: File, b: Body)
    requires AllSized(UnitKind(b), Units(b))
    modifies f`cells
    ensures f.cells == old(f.cells) + SavedUnits(UnitKind(b), Units(b))
  {
    match b
    case ConvLayer(u) => SaveOne(f, Convolutional, u);
    case FullLayer(u) => SaveOne(f, Connected, u);
    case NormLayer(u) => SaveOne(f, Batchnorm, u);
    case Rnn(input, self, output) =>
      SaveRecurrent(f, Connected, input, self, output);
    case Lstm(_, _, _, _, _, _, _, _) => SaveLstm(f, b);
    case Gru(_, _, _, _, _, _) => SaveGru(f, b);
    case Crnn(input, self, output) =>
      SaveRecurrent(f, Convolutional, input, self, output);
    case LocalLayer(u) => SaveOne(f, Local, u);
    case Other =>
  }

  predicate UnitMatches(k: Kind, us: seq<Unit>, srcs: seq<Unit>, i: nat) { i < |us| == |srcs| && Matches(k, us[i], srcs[i]) }

  ghost predicate AllMatch(k: Kind, us: seq<Unit>, srcs: seq<Unit>) {
    |us| == |srcs| && forall i {:trigger UnitMatches(k, us, srcs, i)} :: 0 <= i < |us| ==> UnitMatches(k, us, srcs, i)
  }

  predicate RestoredAt(k: Kind, us: seq<Unit>, srcs: seq<Unit>, vs: seq<Unit>, i: nat) {
    i < |us| == |srcs| && i < |vs| && vs[i] == Restored(k, us[i], srcs[i])
  }

  /** The first n units have what was saved. */
  ghost predicate RestoredTo(k: Kind, us: seq<Unit>, srcs: seq<Unit>, vs: seq<Unit>, n: nat) {
    forall i {:trigger RestoredAt(k, us, srcs, vs, i)} :: 0 <= i < n ==> RestoredAt(k, us, srcs, vs, i)
  }

  /** What a loader expects, if anything: the units of the layer, those that were saved, and where each starts. */
  datatype Plan = Plan(k: Kind, us: seq<Unit>, srcs: seq<Unit>, places: seq<nat>, found: bool)

  function PlanFor(k: Kind, us: seq<Unit>, srcs: seq<Unit>, start: nat, found: bool): (plan: Plan)
    ensures plan.k == k && plan.us == us && plan.srcs == srcs && plan.found == found && PlacesOk(plan) && plan.places[0] == start
  {
    var places := seq(|srcs| + 1, i requires 0 <= i <= |srcs| => start + |Join(UnitParts(k, srcs), i)|);
    var plan := Plan(k, us, srcs, places, found);
    assert forall i {:trigger PlaceAt(plan, i)} :: 0 <= i <= |srcs| ==> PlaceAt(plan, i);
    plan
  }

  predicate PlaceAt(plan: Plan, i: nat) {
    && i <= |plan.srcs| && |plan.places| == |plan.srcs| + 1
    && plan.places[i] == plan.places[0] + |Join(UnitParts(plan.k, plan.srcs), i)|
  }

  ghost predicate PlacesOk(plan: Plan) {
    |plan.places| == |plan.srcs| + 1 && forall i {:trigger PlaceAt(plan, i)} :: 0 <= i <= |plan.srcs| ==> PlaceAt(plan, i)
  }

  /** If something is to be found, it matches and its file follows. */
  ghost predicate Expected(cells: seq<Cell>, transpose: bool, plan: Plan) {
    && PlacesOk(plan)
    && (plan.found ==>
          && !transpose && AllMatch(plan.k, plan.us, plan.srcs)
          && At(cells, plan.places[0], SavedUnits(plan.k, plan.srcs)))
  }

  /** The value that unit i should get. */
  predicate Gets(plan: Plan, i: nat, v: Unit) {
    i < |plan.us| == |plan.srcs| && v == Restored(plan.k, plan.us[i], plan.srcs[i])
  }

  /** Units 0 to i - 1 are loaded and unit i is next in the file. */
  ghost predicate Ready(cells: seq<Cell>, transpose: bool, plan: Plan, pos: nat, i: nat) {
    && AllLoadable(plan.k, plan.us) && Expected(cells, transpose, plan)
    && (plan.found ==> i <= |plan.srcs| && pos == plan.places[i])
  }

  /** Unit i stands where its place says, and the next place is right behind it. */
  lemma UnitFollows(cells: seq<Cell>, plan: Plan, parts: seq<seq<Cell>>, i: nat)
    requires PlacesOk(plan) && i < |plan.srcs| && parts == UnitParts(plan.k, plan.srcs)
    requires At(cells, plan.places[0], Join(parts, |parts|))
    ensures var here := At(cells, plan.places[i], parts[i]); here
    ensures plan.places[i + 1] == plan.places[i] + |parts[i]|
  {
    PartFollows(cells, plan.places[0], parts, |parts|, i);
    assert PlaceAt(plan, i) && PlaceAt(plan, i + 1);
  }

  lemma NextUnit(cells: seq<Cell>, transpose: bool, plan: Plan, pos: nat, i: nat)
    requires Ready(cells, transpose, plan, pos, i) && plan.found && i < |plan.us|
    ensures !transpose && i < |plan.srcs| && (var matches := Matches(plan.k, plan.us[i], plan.srcs[i]); matches)
    ensures var here := At(cells, pos, Saved(plan.k, plan.srcs[i])); here
    ensures var ready := Ready(cells, transpose, plan, pos + |Saved(plan.k, plan.srcs[i])|, i + 1); ready
  {
    var parts := UnitParts(plan.k, plan.srcs);
    UnitFollows(cells, plan, parts, i);
    assert PartAt(plan.k, plan.srcs, parts, i) && UnitMatches(plan.k, plan.us, plan.srcs, i);
  }

  /** Load the next unit, number i of the format. */
  method LoadNext(f: File, k: Kind, u: Unit, transpose: bool, ghost plan: Plan, ghost i: nat) returns (v: Unit)
    requires k == plan.k && i < |plan.us| && u == plan.us[i]
    requires var ready := Ready(f.cells, transpose, plan, f.pos, i); ready
    modifies f`pos
    ensures var ready := Ready(f.cells, transpose, plan, f.pos, i + 1); ready
    ensures plan.found ==> Gets(plan, i, v)
  {
    assert LoadableAt(k, plan.us, i);
    ghost var src := if plan.found then plan.srcs[i] else u;
    if plan.found {
      NextUnit(f.cells, transpose, plan, f.pos, i);
    }
    v := LoadUnit(f, k, u, transpose, src);
  }

  /** All units of the layer have what was saved, and its part of the file is used up. */
  ghost predicate Found(plan: Plan, vs: seq<Unit>, pos: nat) {
    plan.found ==>
      && RestoredTo(plan.k, plan.us, plan.srcs, vs, |plan.us|)
      && |plan.places| > 0 && pos == plan.places[0] + |SavedUnits(plan.k, plan.srcs)|
  }

  lemma Collect(cells: seq<Cell>, transpose: bool, plan: Plan, pos: nat, vs: seq<Unit>)
    requires |vs| == |plan.us| && (var ready := Ready(cells, transpose, plan, pos, |vs|); ready)
    requires plan.found ==> forall i :: 0 <= i < |vs| ==> Gets(plan, i, vs[i])
    ensures var found := Found(plan, vs, pos); found
  {
    if plan.found {
      assert PlaceAt(plan, |vs|);
      forall i {:trigger RestoredAt(plan.k, plan.us, plan.srcs, vs, i)} | 0 <= i < |vs|
        ensures RestoredAt(plan.k, plan.us, plan.srcs, vs, i)
      {
        assert Gets(plan, i, vs[i]);
      }
    }
  }

  method LoadOne(f: File, k: Kind, u: Unit, transpose: bool, ghost plan: Plan) returns (v: Unit)
    requires k == plan.k && plan.us == [u]
    requires var ready := Ready(f.cells, transpose, plan, f.pos, 0); ready
    modifies f`pos
    ensures var found := Found(plan, [v], f.pos); found
  {
    v := LoadNext(f, k, u, transpose, plan, 0);
    Collect(f.cells, transpose, plan, f.pos, [v]);
  }

  method LoadThree(f: File, k: Kind, a: Unit, b: Unit, c: Unit, transpose: bool, ghost plan: Plan, ghost i: nat)
    returns (a': Unit, b': Unit, c': Unit)
    requires plan.k == k && i + 3 <= |plan.us| && plan.us[i..i + 3] == [a, b, c]
    requires var ready := Ready(f.cells, transpose, plan, f.pos, i); ready
    modifies f`pos
    ensures var ready := Ready(f.cells, transpose, plan, f.pos, i + 3); ready
    ensures plan.found ==> Gets(plan, i, a') && Gets(plan, i + 1, b') && Gets(plan, i + 2, c')
  {
    assert plan.us[i..i + 3][0] == a && plan.us[i..i + 3][1] == b && plan.us[i..i + 3][2] == c;
    a' := LoadNext(f, k, a, transpose, plan, i);
    b' := LoadNext(f, k, b, transpose, plan, i + 1);
    c' := LoadNext(f, k, c, transpose, plan, i + 2);
  }

  method LoadRecurrent(f: File, k: Kind, input: Unit, self: Unit, output: Unit, transpose: bool, ghost plan: Plan)
    returns (i: Unit, s: Unit, o: Unit)
    requires k == plan.k && plan.us == [input, self, output]
    requires var ready := Ready(f.cells, transpose, plan, f.pos, 0); ready
    modifies f`pos
    ensures var found := Found(plan, [i, s, o], f.pos); found
  {
    i, s, o := LoadThree(f, k, input, self, output, transpose, plan, 0);
    Collect(f.cells, transpose, plan, f.pos, [i, s, o]);
  }

  method LoadFour(f: File, a: Unit, b: Unit, c: Unit, d: Unit, transpose: bool, ghost plan: Plan, ghost i: nat)
    returns (a': Unit, b': Unit, c': Unit, d': Unit)
    requires plan.k == Connected && i + 4 <= |plan.us| && plan.us[i..i + 4] == [a, b, c, d]
    requires var ready := Ready(f.cells, transpose, plan, f.pos, i); ready
    modifies f`pos
    ensures var ready := Ready(f.cells, transpose, plan, f.pos, i + 4); ready
    ensures plan.found ==> Gets(plan, i, a') && Gets(plan, i + 1, b') && Gets(plan, i + 2, c') && Gets(plan, i + 3, d')
  {
    assert plan.us[i..i + 4][0] == a && plan.us[i..i + 4][1] == b && plan.us[i..i + 4][2] == c && plan.us[i..i + 4][3] == d;
    a' := LoadNext(f, Connected, a, transpose, plan, i);
    b' := LoadNext(f, Connected, b, transpose, plan, i + 1);
    c' := LoadNext(f, Connected, c, transpose, plan, i + 2);
    d' := LoadNext(f, Connected, d, transpose, plan, i + 3);
  }

  method LoadLstm(f: File, b: Body, transpose: bool, ghost plan: Plan) returns (r: Body)
    requires b.Lstm? && plan.k == Connected && plan.us == Units(b)
    requires var ready := Ready(f.cells, transpose, plan, f.pos, 0); ready
    modifies f`pos
    ensures r.Lstm?
    ensures var found := Found(plan, Units(r), f.pos); found
  {
    var wi, wf, wo, wg := LoadFour(f, b.wi, b.wf, b.wo, b.wg, transpose, plan, 0);
    var ui, uf, uo, ug := LoadFour(f, b.ui, b.uf, b.uo, b.ug, transpose, plan, 4);
    r := Lstm(wi, wf, wo, wg, ui, uf, uo, ug);
    Collect(f.cells, transpose, plan, f.pos, Units(r));
  }

  method LoadGru(f: File, b: Body, transpose: bool, ghost plan: Plan) returns (r: Body)
    requires b.Gru? && plan.k == Connected && plan.us == Units(b)
    requires var ready := Ready(f.cells, transpose, plan, f.pos, 0); ready
    modifies f`pos
    ensures r.Gru?
    ensures var found := Found(plan, Units(r), f.pos); found
  {
    var wz, wr, wh := LoadThree(f, Connected, b.wz, b.wr, b.wh, transpose, plan, 0);
    var uz, ur, uh := LoadThree(f, Connected, b.uz, b.ur, b.uh, transpose, plan, 3);
    r := Gru(wz, wr, wh, uz, ur, uh);
    Collect(f.cells, transpose, plan, f.pos, Units(r));
  }

  /** The type switch of load_weights_upto. */
  method LoadBody(f: File, b: Body, transpose: bool, ghost plan: Plan) returns (r: Body)
    requires plan.k == UnitKind(b) && plan.us == Units(b)
    requires var ready := Ready(f.cells, transpose, plan, f.pos, 0); ready
    modifies f`pos
    ensures SameType(b, r)
    ensures var found := Found(plan, Units(r), f.pos); found
  {
    match b
    case ConvLayer(u) =>
      var v := LoadOne(f, Convolutional, u, transpose, plan);
      r := ConvLayer(v);
    case FullLayer(u) =>
      var v := LoadOne(f, Connected, u, transpose, plan);
      r := FullLayer(v);
    case NormLayer(u) =>
      var v := LoadOne(f, Batchnorm, u, transpose, plan);
      r := NormLayer(v);
    case Crnn(input, self, output) =>
      var i, s, o := LoadRecurrent(f, Convolutional, input, self, output, transpose, plan);
      r := Crnn(i, s, o);
    case Rnn(input, self, output) =>
      var i, s, o := LoadRecurrent(f, Connected, input, self, output, transpose, plan);
      r := Rnn(i, s, o);
    case Lstm(_, _, _, _, _, _, _, _) => r := LoadLstm(f, b, transpose, plan);
    case Gru(_, _, _, _, _, _) => r := LoadGru(f, b, transpose, plan);
    case LocalLayer(u) =>
      var v := LoadOne(f, Local, u, transpose, plan);
      r := LocalLayer(v);
    case Other =>
      r := Other;
      Collect(f.cells, transpose, plan, f.pos, []);
  }

  // ---------------------------------------------------------------- the network

  function SavedLayer(l: Layer): seq<Cell> { if l.dontsave then [] else SavedUnits(UnitKind(l.body), Units(l.body)) }

  function LayerParts(ls: seq<Layer>): (r: seq<seq<Cell>>)
    ensures LayerPartsOf(ls, r)
  {
    var r := seq(|ls|, i requires 0 <= i < |ls| => SavedLayer(ls[i]));
    assert forall i {:trigger LayerPartAt(ls, r, i)} :: 0 <= i < |ls| ==> LayerPartAt(ls, r, i);
    r
  }

  predicate LayerPartAt(ls: seq<Layer>, parts: seq<seq<Cell>>, i: nat) { i < |ls| == |parts| && parts[i] == SavedLayer(ls[i]) }

  ghost predicate LayerPartsOf(ls: seq<Layer>, parts: seq<seq<Cell>>) {
    |parts| == |ls| && forall i {:trigger LayerPartAt(ls, parts, i)} :: 0 <= i < |ls| ==> LayerPartAt(ls, parts, i)
  }

  function Upto(n: nat, cutoff: int): nat { if cutoff < 0 then 0 else if cutoff < n then cutoff else n }

  function Header(seen: nat): seq<Cell> { [Int(0), Int(2), Int(0), Size(seen)] }

  /** The whole file. */
  function SavedFile(ls: seq<Layer>, seen: nat, cutoff: int): seq<Cell> { Header(seen) + Join(LayerParts(ls), Upto(|ls|, cutoff)) }

  ghost predicate LayerSized(l: Layer) { AllSized(UnitKind(l.body), Units(l.body)) }

  ghost predicate CanSaveAt(ls: seq<Layer>, i: nat) { i < |ls| && LayerSized(ls[i]) }

  ghost predicate CanSave(ls: seq<Layer>) { forall i {:trigger CanSaveAt(ls, i)} :: 0 <= i < |ls| ==> CanSaveAt(ls, i) }

  method SaveLayer(f: File, ls: seq<Layer>, i: nat, ghost parts: seq<seq<Cell>>)
    requires i < |ls| && CanSave(ls) && LayerPartsOf(ls, parts)
    modifies f`cells
    ensures f.cells == old(f.cells) + parts[i]
  {
    var l := ls[i];
    assert LayerPartAt(ls, parts, i) && CanSaveAt(ls, i);
    if !l.dontsave {
      SaveBody(f, l.body);
    }
  }

  method SaveLayers(f: File, ls: seq<Layer>, cutoff: int, ghost parts: seq<seq<Cell>>)
    requires CanSave(ls) && LayerPartsOf(ls, parts)
    modifies f`cells
    ensures f.cells == old(f.cells) + Join(parts, Upto(|ls|, cutoff))
  {
    var i := 0;
    while i < |ls| && i < cutoff
      invariant 0 <= i <= |ls| && (i <= cutoff || i == 0)
      invariant f.cells == old(f.cells) + Join(parts, i)
    {
      SaveLayer(f, ls, i, parts);
      i := i + 1;
    }
  }

  /** save_weights_upto. */
  method SaveWeightsUpto(f: File, ls: seq<Layer>, seen: nat, cutoff: int)
    requires f.cells == [] && CanSave(ls)
    modifies f`cells
    ensures f.cells == SavedFile(ls, seen, cutoff)
  {
    f.cells := f.cells + [Int(0)];
    f.cells := f.cells + [Int(2)];
    f.cells := f.cells + [Int(0)];
    f.cells := f.cells + [Size(seen)];
    assert f.cells == Header(seen);
    SaveLayers(f, ls, cutoff, LayerParts(ls));
  }

  /** The layer can take what was saved from `src`, and is skipped exactly if `src` was. */
  ghost predicate LayerMatches(l: Layer, src: Layer) {
    && l.dontload == src.dontsave
    && (!l.dontload ==> SameType(l.body, src.body) && AllMatch(UnitKind(l.body), Units(l.body), Units(src.body)))
  }

  ghost predicate LayerLoadable(l: Layer) { AllLoadable(UnitKind(l.body), Units(l.body)) }

  /** The same layer as before with the saved arrays of `src`; unchanged if it is skipped. */
  ghost predicate LayerRestored(l: Layer, r: Layer, src: Layer) {
    if l.dontload then r == l else
      && r == l.(body := r.body) && SameType(l.body, r.body)
      && RestoredTo(UnitKind(l.body), Units(l.body), Units(src.body), Units(r.body), |Units(l.body)|)
  }

  /** One layer, whose file follows if it is `found`. */
  method LoadLayer(f: File, l: Layer, transpose: bool, ghost src: Layer, ghost part: seq<Cell>, ghost found: bool) returns (r: Layer)
    requires LayerLoadable(l)
    requires found ==> !transpose && LayerMatches(l, src) && part == SavedLayer(src) && At(f.cells, f.pos, part)
    modifies f`pos
    ensures found ==> LayerRestored(l, r, src) && f.pos == old(f.pos) + |part|
  {
    r := l;
    if !l.dontload {
      ghost var plan := PlanFor(UnitKind(l.body), Units(l.body), Units(src.body), f.pos, found);
      var body := LoadBody(f, l.body, transpose, plan);
      r := l.(body := body);
    }
  }

  ghost predicate MatchAt(ls: seq<Layer>, srcs: seq<Layer>, i: nat) { i < |ls| == |srcs| && LayerMatches(ls[i], srcs[i]) }

  /** The first k layers match and their file follows at pos. */
  ghost predicate NetExpected(cells: seq<Cell>, pos: nat, ls: seq<Layer>, srcs: seq<Layer>, parts: seq<seq<Cell>>, k: nat) {
    && |ls| == |srcs| && k <= |ls| && LayerPartsOf(srcs, parts)
    && (forall i {:trigger MatchAt(ls, srcs, i)} :: 0 <= i < k ==> MatchAt(ls, srcs, i))
    && At(cells, pos, Join(parts, k))
  }

  ghost predicate LayerDone(was: seq<Layer>, now: seq<Layer>, srcs: seq<Layer>, i: nat) {
    i < |was| == |now| == |srcs| && LayerRestored(was[i], now[i], srcs[i])
  }

  /** The first k layers have what was saved, the others are as they were. */
  ghost predicate NetRestored(was: seq<Layer>, now: seq<Layer>, srcs: seq<Layer>, k: nat) {
    && |was| == |now| == |srcs| && k <= |was|
    && (forall i {:trigger LayerDone(was, now, srcs, i)} :: 0 <= i < k ==> LayerDone(was, now, srcs, i))
    && now[k..] == was[k..]
  }

  lemma NetMore(was: seq<Layer>, now: seq<Layer>, srcs: seq<Layer>, k: nat, l: Layer)
    requires NetRestored(was, now, srcs, k) && k < |was| && LayerRestored(was[k], l, srcs[k])
    ensures NetRestored(was, now[k := l], srcs, k + 1)
  {
    var now' := now[k := l];
    forall i {:trigger LayerDone(was, now', srcs, i)} | 0 <= i < k + 1
      ensures LayerDone(was, now', srcs, i)
    {
      assert i < k ==> LayerDone(was, now, srcs, i);
    }
    assert now'[k + 1..] == now[k..][1..] && was[k + 1..] == was[k..][1..];
  }

  lemma LayerFollows(cells: seq<Cell>, pos: nat, ls: seq<Layer>, srcs: seq<Layer>, parts: seq<seq<Cell>>, k: nat, i: nat)
    requires NetExpected(cells, pos, ls, srcs, parts, k) && i < k
    ensures LayerMatches(ls[i], srcs[i]) && parts[i] == SavedLayer(srcs[i]) && At(cells, pos + |Join(parts, i)|, parts[i])
    ensures |Join(parts, i + 1)| == |Join(parts, i)| + |parts[i]|
  {
    PartFollows(cells, pos, parts, k, i);
    assert LayerPartAt(srcs, parts, i) && MatchAt(ls, srcs, i);
  }

  /** Read layer i from where its part follows. */
  method ReadLayer(f: File, l: Layer, transpose: bool, ghost i: nat, ghost was: seq<Layer>, ghost srcs: seq<Layer>,
                   ghost parts: seq<seq<Cell>>, ghost k: nat, ghost found: bool, ghost p: nat) returns (r: Layer)
    requires LayerLoadable(l) && i < |was| && l == was[i]
    requires found ==> !transpose && i < k && NetExpected(f.cells, p, was, srcs, parts, k) && f.pos == p + |Join(parts, i)|
    modifies f`pos
    ensures found ==> LayerRestored(was[i], r, srcs[i]) && f.pos == p + |Join(parts, i + 1)|
  {
    if found {
      LayerFollows(f.cells, p, was, srcs, parts, k, i);
    }
    ghost var src := if found then srcs[i] else l;
    ghost var part := if found then parts[i] else [];
    r := LoadLayer(f, l, transpose, src, part, found);
  }

  ghost predicate CanLoadAt(ls: seq<Layer>, i: nat) { i < |ls| && LayerLoadable(ls[i]) }

  ghost predicate CanLoad(ls: seq<Layer>) { forall i {:trigger CanLoadAt(ls, i)} :: 0 <= i < |ls| ==> CanLoadAt(ls, i) }

  /** Load layer i. */
  method LoadLayerAt(f: File, ls: array<Layer>, transpose: bool, i: nat, ghost was: seq<Layer>, ghost srcs: seq<Layer>,
                  ghost parts: seq<seq<Cell>>, ghost k: nat, ghost found: bool, ghost p: nat)
    requires i < ls.Length == |was| && ls[i..] == was[i..] && CanLoad(was)
    requires found ==> !transpose && i < k && NetExpected(f.cells, p, was, srcs, parts, k) && NetRestored(was, ls[..], srcs, i) && f.pos == p + |Join(parts, i)|
    modifies f`pos, ls
    ensures ls[i + 1..] == was[i + 1..]
    ensures found ==> NetRestored(was, ls[..], srcs, i + 1) && f.pos == p + |Join(parts, i + 1)|
  {
    assert ls[i] == ls[i..][0] == was[i..][0];
    assert CanLoadAt(was, i);
    var r := ReadLayer(f, ls[i], transpose, i, was, srcs, parts, k, found, p);
    if found {
      NetMore(was, ls[..], srcs, i, r);
    }
    ghost var before := ls[..];
    ls[i] := r;
    assert ls[i + 1..] == before[i..][1..] && was[i + 1..] == was[i..][1..];
    assert ls[..] == before[i := r];
  }

  /** The layer loop. */
  method LoadLayers(f: File, ls: array<Layer>, transpose: bool, start: nat, cutoff: int, ghost srcs: seq<Layer>, ghost parts: seq<seq<Cell>>)
    requires CanLoad(ls[..])
    modifies f`pos, ls
    ensures !transpose && start == 0 && NetExpected(f.cells, old(f.pos), old(ls[..]), srcs, parts, Upto(ls.Length, cutoff)) ==>
              && NetRestored(old(ls[..]), ls[..], srcs, Upto(ls.Length, cutoff))
              && f.pos == old(f.pos) + |Join(parts, Upto(ls.Length, cutoff))|
  {
    ghost var (was, k, p) := (ls[..], Upto(ls.Length, cutoff), f.pos);
    ghost var found := !transpose && start == 0 && NetExpected(f.cells, p, was, srcs, parts, k);
    var i := start;
    while i < ls.Length && i < cutoff
      invariant start <= i && (found ==> i <= k) && (i <= ls.Length ==> ls[i..] == was[i..])
      invariant found ==> NetRestored(was, ls[..], srcs, i) && f.pos == p + |Join(parts, i)|
    {
      LoadLayerAt(f, ls, transpose, i, was, srcs, parts, k, found, p);
      i := i + 1;
    }
  }

  /** Some int of the header; indeterminate if there is none. */
  method ReadInt(f: File) returns (i: int)
    modifies f`pos
    ensures old(f.pos) < |f.cells| && f.cells[old(f.pos)].Int? ==> i == f.cells[old(f.pos)].i && f.pos == old(f.pos) + 1
  {
    if f.pos < |f.cells| && f.cells[f.pos].Int? {
      i, f.pos := f.cells[f.pos].i, f.pos + 1;
    } else {
      i := *;
    }
  }

  method ReadSize(f: File, was: nat) returns (z: nat)
    modifies f`pos
    ensures old(f.pos) < |f.cells| && f.cells[old(f.pos)].Size? ==> z == f.cells[old(f.pos)].z && f.pos == old(f.pos) + 1
  {
    z := was;
    if f.pos < |f.cells| && f.cells[f.pos].Size? {
      z, f.pos := f.cells[f.pos].z, f.pos + 1;
    }
  }

  /** The header: the seen counter and whether connected weights have to be transposed. */
  method ReadHeader(f: File, was: nat, ghost seen0: nat) returns (seen: int, transpose: bool)
    modifies f`pos
    ensures At(f.cells, old(f.pos), Header(seen0)) ==> seen == seen0 && !transpose && f.pos == old(f.pos) + 4
  {
    ghost var p := f.pos;
    ghost var known := At(f.cells, p, Header(seen0));
    if known {
      HeaderCells(f.cells, p, seen0);
    }
    var major := ReadInt(f);
    var minor := ReadInt(f);
    var revision := ReadInt(f);
    if major * 10 + minor >= 2 && major < 1000 && minor < 1000 {
      seen := ReadSize(f, was);
    } else {
      seen := ReadInt(f);
    }
    transpose := major > 1000 || minor > 1000;
  }

  lemma HeaderCells(cells: seq<Cell>, p: nat, seen: nat)
    requires At(cells, p, Header(seen))
    ensures p + 4 <= |cells| && cells[p] == Int(0) && cells[p + 1] == Int(2) && cells[p + 2] == Int(0) && cells[p + 3] == Size(seen)
  {
    var h := cells[p..p + 4];
    assert cells[p] == h[0] && cells[p + 1] == h[1] && cells[p + 2] == h[2] && cells[p + 3] == h[3];
  }

  lemma FileFollows(cells: seq<Cell>, ls: seq<Layer>, srcs: seq<Layer>, parts: seq<seq<Cell>>, seen: nat, k: nat)
    requires NetMatches(ls, srcs, k) && LayerPartsOf(srcs, parts) && cells == Header(seen) + Join(parts, k)
    ensures At(cells, 0, Header(seen)) && |cells| == 4 + |Join(parts, k)|
    ensures var expected := NetExpected(cells, 4, ls, srcs, parts, k); expected
  {
    AtSplit(cells, 0, Header(seen), Join(parts, k));
  }

  /** load_weights_upto. */
  method LoadWeightsUpto(f: File, ls: array<Layer>, was: nat, start: nat, cutoff: int, ghost srcs: seq<Layer>, ghost seen0: nat) returns (seen: int)
    requires f.pos == 0 && CanLoad(ls[..])
    modifies f`pos, ls
    ensures start == 0 && f.cells == SavedFile(srcs, seen0, cutoff) && NetMatches(old(ls[..]), srcs, Upto(ls.Length, cutoff)) ==>
              && NetRestored(old(ls[..]), ls[..], srcs, Upto(ls.Length, cutoff))
              && f.pos == |f.cells| && seen == seen0
  {
    ghost var k := Upto(ls.Length, cutoff);
    if f.cells == SavedFile(srcs, seen0, cutoff) && NetMatches(ls[..], srcs, k) {
      FileFollows(f.cells, ls[..], srcs, LayerParts(srcs), seen0, k);
    }
    var transpose;
    seen, transpose := ReadHeader(f, was, seen0);
    LoadLayers(f, ls, transpose, start, cutoff, srcs, LayerParts(srcs));
  }

  /** Same shapes, layer by layer, below k. */
  ghost predicate NetMatches(ls: seq<Layer>, srcs: seq<Layer>, k: nat) {
    && |ls| == |srcs| && k <= |ls|
    && forall i {:trigger MatchAt(ls, srcs, i)} :: 0 <= i < k ==> MatchAt(ls, srcs, i)
  }

  // ---------------------------------------------------------------- what arrives, array by array

  /** Every part of the layer has the saved arrays of the same part of src. */
  predicate BodyArrived(b: Body, src: Body) {
    match b
    case ConvLayer(u) => src.ConvLayer? && WeightsArrived(u, src.u)
    case FullLayer(u) => src.FullLayer? && WeightsArrived(u, src.u)
    case NormLayer(u) => src.NormLayer? && NormsArrived(u, src.u)
    case LocalLayer(u) => src.LocalLayer? && u.biases == src.u.biases && u.weights == src.u.weights
    case Rnn(i, s, o) => src.Rnn? && WeightsArrived(i, src.input) && WeightsArrived(s, src.self) && WeightsArrived(o, src.output)
    case Crnn(i, s, o) => src.Crnn? && WeightsArrived(i, src.input) && WeightsArrived(s, src.self) && WeightsArrived(o, src.output)
    case Lstm(wi, wf, wo, wg, ui, uf, uo, ug) =>
      && src.Lstm? && WeightsArrived(wi, src.wi) && WeightsArrived(wf, src.wf) && WeightsArrived(wo, src.wo) && WeightsArrived(wg, src.wg)
      && WeightsArrived(ui, src.ui) && WeightsArrived(uf, src.uf) && WeightsArrived(uo, src.uo) && WeightsArrived(ug, src.ug)
    case Gru(wz, wr, wh, uz, ur, uh) =>
      && src.Gru? && WeightsArrived(wz, src.wz) && WeightsArrived(wr, src.wr) && WeightsArrived(wh, src.wh)
      && WeightsArrived(uz, src.uz) && WeightsArrived(ur, src.ur) && WeightsArrived(uh, src.uh)
    case Other => true
  }

  predicate UnitArrived(k: Kind, v: Unit, src: Unit) {
    match k
    case Convolutional => WeightsArrived(v, src)
    case Connected => WeightsArrived(v, src)
    case Batchnorm => NormsArrived(v, src)
    case Local => v.biases == src.biases && v.weights == src.weights
  }

  predicate ArrivedAt(k: Kind, vs: seq<Unit>, srcs: seq<Unit>, i: nat) { i < |vs| == |srcs| && UnitArrived(k, vs[i], srcs[i]) }

  lemma UnitsArrive(k: Kind, us: seq<Unit>, srcs: seq<Unit>, vs: seq<Unit>, i: nat)
    requires |vs| == |us| && i < |us| && RestoredTo(k, us, srcs, vs, |us|)
    ensures ArrivedAt(k, vs, srcs, i)
  {
    assert RestoredAt(k, us, srcs, vs, i);
  }

  lemma FirstArrive(k: Kind, us: seq<Unit>, srcs: seq<Unit>, vs: seq<Unit>)
    requires |vs| == |us| && RestoredTo(k, us, srcs, vs, |us|)
    ensures forall i: nat {:trigger ArrivedAt(k, vs, srcs, i)} :: i < |us| ==> ArrivedAt(k, vs, srcs, i)
  {
    forall i: nat {:trigger ArrivedAt(k, vs, srcs, i)} | i < |us|
      ensures ArrivedAt(k, vs, srcs, i)
    {
      UnitsArrive(k, us, srcs, vs, i);
    }
  }

  /** For each layer type, part by part. */
  lemma BodyArrives(b: Body, src: Body)
    requires SameType(b, src) && |Units(b)| == |Units(src)|
    requires var (k, us, srcs) := (UnitKind(b), Units(b), Units(src));
             forall i: nat {:trigger ArrivedAt(k, us, srcs, i)} :: i < |us| ==> ArrivedAt(k, us, srcs, i)
    ensures BodyArrived(b, src)
  {
    var (k, us, srcs) := (UnitKind(b), Units(b), Units(src));
    if |us| >= 1 {
      assert ArrivedAt(k, us, srcs, 0);
    }
    if |us| >= 3 {
      assert ArrivedAt(k, us, srcs, 1) && ArrivedAt(k, us, srcs, 2);
    }
    if |us| >= 6 {
      assert ArrivedAt(k, us, srcs, 3) && ArrivedAt(k, us, srcs, 4) && ArrivedAt(k, us, srcs, 5);
    }
    if |us| >= 8 {
      assert ArrivedAt(k, us, srcs, 6) && ArrivedAt(k, us, srcs, 7);
    }
  }

  /** A loaded layer, and one that is skipped. */
  predicate LayerArrived(was: Layer, now: Layer, src: Layer) {
    && now.dontload == was.dontload && now.dontsave == was.dontsave
    && if was.dontload then now.body == was.body else BodyArrived(now.body, src.body)
  }

  lemma LayerArrives(was: Layer, now: Layer, src: Layer)
    requires LayerMatches(was, src) && LayerRestored(was, now, src)
    ensures LayerArrived(was, now, src)
  {
    if !was.dontload {
      SameUnits(was.body, now.body);
      SameUnits(was.body, src.body);
      FirstArrive(UnitKind(was.body), Units(was.body), Units(src.body), Units(now.body));
      BodyArrives(now.body, src.body);
    }
  }

  lemma SameUnits(a: Body, b: Body)
    requires SameType(a, b)
    ensures UnitKind(a) == UnitKind(b) && |Units(a)| == |Units(b)| && SameType(b, a)
  {
  }

  predicate LayerArrivedAt(was: seq<Layer>, now: seq<Layer>, srcs: seq<Layer>, cutoff: int, i: nat) {
    && i < |was| == |now| == |srcs|
    && if i < cutoff then LayerArrived(was[i], now[i], srcs[i]) else now[i] == was[i]
  }

  lemma NetArrives(was: seq<Layer>, now: seq<Layer>, srcs: seq<Layer>, cutoff: int, i: nat)
    requires NetMatches(was, srcs, Upto(|was|, cutoff)) && NetRestored(was, now, srcs, Upto(|was|, cutoff)) && i < |was|
    ensures LayerArrivedAt(was, now, srcs, cutoff, i)
  {
    var k := Upto(|was|, cutoff);
    if i < cutoff {
      assert MatchAt(was, srcs, i) && LayerDone(was, now, srcs, i);
      LayerArrives(was[i], now[i], srcs[i]);
    } else {
      assert now[i] == now[k..][i - k] == was[k..][i - k];
    }
  }

  // ---------------------------------------------------------------- the round trip

  /**
   Save one network and load the file into another of the same shape: in every layer below the
   cutoff that is not skipped every saved array and the seen counter arrive, all other layers and
   everything that is not saved stay, and the file is used up.
   */
  method SaveThenLoad(srcs: seq<Layer>, seen: nat, ls: array<Layer>, was: nat, cutoff: int) returns (now: int)
    requires CanSave(srcs)
    requires CanLoad(ls[..])
    requires NetMatches(ls[..], srcs, Upto(ls.Length, cutoff))
    modifies ls
    ensures NetRestored(old(ls[..]), ls[..], srcs, Upto(ls.Length, cutoff)) && now == seen
    ensures forall i: nat {:trigger LayerArrivedAt(old(ls[..]), ls[..], srcs, cutoff, i)} :: i < ls.Length ==>
              LayerArrivedAt(old(ls[..]), ls[..], srcs, cutoff, i)
  {
    var f := new File();
    SaveWeightsUpto(f, srcs, seen, cutoff);
    now := LoadWeightsUpto(f, ls, was, 0, cutoff, srcs, seen);
    forall i: nat {:trigger LayerArrivedAt(old(ls[..]), ls[..], srcs, cutoff, i)} | i < ls.Length
      ensures LayerArrivedAt(old(ls[..]), ls[..], srcs, cutoff, i)
    {
      NetArrives(old(ls[..]), ls[..], srcs, cutoff, i);
    }
  }

  // ---------------------------------------------------------------- the file, cell by cell

  /** The layers in a file are those below the cutoff. */
  lemma UptoIff(n: nat, cutoff: int, i: nat)
    ensures i < Upto(n, cutoff) <==> i < n && i < cutoff
  {
  }

  /** The version 0.2.0, the images seen, then the saved layers below the cutoff, one after the other. */
  lemma FileLayout(ls: seq<Layer>, seen: nat, cutoff: int, i: nat, parts: seq<seq<Cell>>)
    requires i < |ls| && i < cutoff && parts == LayerParts(ls)
    ensures SavedFile(ls, seen, cutoff)[..4] == [Int(0), Int(2), Int(0), Size(seen)]
    ensures var here := At(SavedFile(ls, seen, cutoff), 4 + |Join(parts, i)|, SavedLayer(ls[i])); here
    ensures |Join(parts, i + 1)| == |Join(parts, i)| + |SavedLayer(ls[i])|
  {
    UptoIff(|ls|, cutoff, i);
    LayerPlace(SavedFile(ls, seen, cutoff), seen, parts, Upto(|ls|, cutoff), i);
    assert LayerPartAt(ls, parts, i);
  }

  lemma LayerPlace(cells: seq<Cell>, seen: nat, parts: seq<seq<Cell>>, k: nat, i: nat)
    requires i < k <= |parts| && cells == Header(seen) + Join(parts, k)
    ensures var here := At(cells, 4 + |Join(parts, i)|, parts[i]); here
    ensures |Join(parts, i + 1)| == |Join(parts, i)| + |parts[i]|
  {
    assert cells[4..4 + |Join(parts, k)|] == Join(parts, k);
    PartFollows(cells, 4, parts, k, i);
  }

  /** What each of these units has in the file, one after the other. */
  function InOrder(saved: Unit -> seq<Cell>, us: seq<Unit>): seq<Cell> { if us == [] then [] else saved(us[0]) + InOrder(saved, us[1..]) }

  function SavedAs(k: Kind): Unit -> seq<Cell> { u => Saved(k, u) }

  lemma {:induction false} OneMoreInOrder(saved: Unit -> seq<Cell>, us: seq<Unit>, u: Unit)
    ensures InOrder(saved, us + [u]) == InOrder(saved, us) + saved(u)
    decreases |us|
  {
    if us == [] {
      assert us + [u] == [u] && [u][1..] == [];
    } else {
      OneMoreInOrder(saved, us[1..], u);
      assert (us + [u])[1..] == us[1..] + [u];
    }
  }

  predicate IsPart(saved: Unit -> seq<Cell>, us: seq<Unit>, parts: seq<seq<Cell>>, i: nat) { i < |us| == |parts| && parts[i] == saved(us[i]) }

  lemma {:induction false} PartsInOrder(saved: Unit -> seq<Cell>, us: seq<Unit>, parts: seq<seq<Cell>>, n: nat)
    requires n <= |us| == |parts| && forall i: nat {:trigger IsPart(saved, us, parts, i)} :: i < |us| ==> IsPart(saved, us, parts, i)
    ensures Join(parts, n) == InOrder(saved, us[..n])
  {
    if n > 0 {
      PartsInOrder(saved, us, parts, n - 1);
      assert IsPart(saved, us, parts, n - 1);
      OneMoreInOrder(saved, us[..n - 1], us[n - 1]);
      assert us[..n] == us[..n - 1] + [us[n - 1]];
    }
  }

  lemma UnitsInOrder(k: Kind, us: seq<Unit>)
    ensures SavedUnits(k, us) == InOrder(SavedAs(k), us)
  {
    var parts := UnitParts(k, us);
    forall i: nat {:trigger IsPart(SavedAs(k), us, parts, i)} | i < |us|
      ensures IsPart(SavedAs(k), us, parts, i)
    {
      assert PartAt(k, us, parts, i);
    }
    PartsInOrder(SavedAs(k), us, parts, |us|);
    assert us[..|us|] == us;
  }

  /** The order of the parts in the file, for each layer type. */
  lemma LayerLayout(l: Layer)
    requires !l.dontsave
    ensures match l.body
            case ConvLayer(u) => SavedLayer(l) == InOrder(SavedAs(Convolutional), [u])
            case FullLayer(u) => SavedLayer(l) == InOrder(SavedAs(Connected), [u])
            case NormLayer(u) => SavedLayer(l) == InOrder(SavedAs(Batchnorm), [u])
            case LocalLayer(u) => SavedLayer(l) == InOrder(SavedAs(Local), [u])
            case Rnn(input, self, output) => SavedLayer(l) == InOrder(SavedAs(Connected), [input, self, output])
            case Lstm(wi, wf, wo, wg, ui, uf, uo, ug) => SavedLayer(l) == InOrder(SavedAs(Connected), [wi, wf, wo, wg, ui, uf, uo, ug])
            case Gru(wz, wr, wh, uz, ur, uh) => SavedLayer(l) == InOrder(SavedAs(Connected), [wz, wr, wh, uz, ur, uh])
            case Crnn(input, self, output) => SavedLayer(l) == InOrder(SavedAs(Convolutional), [input, self, output])
            case Other => SavedLayer(l) == []
  {
    UnitsInOrder(UnitKind(l.body), Units(l.body));
  }

  /** The arrays of a part in the file. */
  lemma UnitLayout(u: Unit)
    ensures var norms := if u.batchNormalize then Floats(u.scales) + Floats(u.rollingMean) + Floats(u.rollingVariance) else [];
            && Saved(Convolutional, u) == Floats(u.biases) + norms + Floats(u.weights)
            && Saved(Connected, u) == Floats(u.biases) + Floats(u.weights) + norms
    ensures Saved(Batchnorm, u) == Floats(u.scales) + Floats(u.rollingMean) + Floats(u.rollingVariance)
    ensures Saved(Local, u) == Floats(u.biases) + Floats(u.weights)
  {
    AppendAssociates(Floats(u.scales), Floats(u.rollingMean), Floats(u.rollingVariance));
    AppendAssociates(Floats(u.biases), MaybeNorms(u), Floats(u.weights));
    AppendAssociates(Floats(u.biases), Floats(u.weights), MaybeNorms(u));
  }

  lemma AppendAssociates(a: seq<Cell>, b: seq<Cell>, c: seq<Cell>)
    ensures a + (b + c) == a + b + c
  {
  }
}
