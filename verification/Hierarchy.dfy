/** Probabilities over the class hierarchy: node, whole-tree and top prediction. */
module Hierarchy {
  import opened TreeTables

  /** Where a node's value lies. */
  type Place = nat -> nat

  /** Every stride-th entry. */
  function Strided(stride: nat): Place { (c: nat) => c * stride }

  /** Different nodes lie in different places. */
  ghost predicate Apart(slot: Place) { forall c, d :: slot(c) == slot(d) ==> c == d }

  lemma StridedApart(stride: nat)
    requires stride >= 1
    ensures Apart(Strided(stride))
  {
    forall c: nat, d: nat | Strided(stride)(c) == Strided(stride)(d)
      ensures c == d
    {
      assert (c - d) * stride == c * stride - d * stride;
    }
  }

  /** Every node's value is inside x. */
  predicate Fits(n: nat, x: seq<real>, slot: Place) { forall c :: 0 <= c < n ==> slot(c) < |x| }

  /** The values of the n nodes. */
  function Values(n: nat, x: seq<real>, slot: Place): (v: seq<real>)
    requires Fits(n, x, slot)
    ensures |v| == n && forall c :: 0 <= c < n ==> v[c] == x[slot(c)]
  {
    seq(n, c requires 0 <= c < n => x[slot(c)])
  }

  /** How two scores combine: multiplication, kept abstract in the proofs. */
  type Times = (real, real) -> real

  function Product(): Times { (a: real, b: real) => a * b }

  /** What the proofs need of it. */
  ghost predicate Laws(mul: Times) {
    && (forall p :: mul(p, 0.0) == 0.0)
    && (forall p, a, b :: p > 0.0 && a <= b ==> mul(p, a) <= mul(p, b))
    && (forall a :: mul(1.0, a) == a == mul(a, 1.0))
  }

  predicate CommutesAt(mul: Times, a: real, b: real, c: real) {
    mul(a, b) == mul(b, a) && mul(mul(a, b), c) == mul(a, mul(b, c))
  }

  ghost predicate Commutes(mul: Times) {
    forall a, b, c {:trigger CommutesAt(mul, a, b, c)} :: CommutesAt(mul, a, b, c)
  }

  lemma ProductLaws()
    ensures Laws(Product())
  {
    forall p: real, a: real, b: real | p > 0.0 && a <= b
      ensures Product()(p, a) <= Product()(p, b)
    {
      Scales(p, a, b);
    }
  }

  lemma Scales(p: real, a: real, b: real)
    requires p > 0.0 && a <= b
    ensures p * a <= p * b
  {
  }

  lemma Associates(a: real, b: real, c: real)
    ensures (a * b) * c == a * (b * c)
  {
  }

  lemma ProductCommutes()
    ensures Commutes(Product())
  {
    forall a: real, b: real, c: real {:trigger CommutesAt(Product(), a, b, c)}
      ensures CommutesAt(Product(), a, b, c)
    {
      Associates(a, b, c);
    }
  }

  /** The product of the values from the root down to node c. */
  function Prob(mul: Times, ps: seq<int>, v: seq<real>, c: int): real
    requires ParentsFirst(ps) && |v| == |ps| && c < |ps|
    decreases if c < 0 then 0 else c + 1
  {
    if c < 0 then 1.0 else mul(Prob(mul, ps, v, ps[c]), v[c])
  }

  /** One more factor from below: p stands for what lies under node c. */
  lemma GoUp(mul: Times, ps: seq<int>, v: seq<real>, c: nat, p: real)
    requires Commutes(mul) && ParentsFirst(ps) && |v| == |ps| && c < |ps|
    ensures mul(mul(p, v[c]), Prob(mul, ps, v, ps[c])) == mul(p, Prob(mul, ps, v, c))
  {
    Shuffle(mul, p, v[c], Prob(mul, ps, v, ps[c]));
  }

  lemma Shuffle(mul: Times, a: real, b: real, c: real)
    requires Commutes(mul)
    ensures mul(mul(a, b), c) == mul(a, mul(c, b))
  {
    assert CommutesAt(mul, a, b, c) && CommutesAt(mul, b, c, a);
  }

  method ProbabilityLoop(mul: Times, x: seq<real>, ps: seq<int>, node: int, slot: Place) returns (p: real)
    requires Laws(mul) && Commutes(mul) && ParentsFirst(ps) && Fits(|ps|, x, slot) && node < |ps|
    ensures p == Prob(mul, ps, Values(|ps|, x, slot), node)
  {
    p := 1.0;
    var c := node;
    ghost var v := Values(|ps|, x, slot);
    while c >= 0
      invariant c < |ps| && mul(p, Prob(mul, ps, v, c)) == Prob(mul, ps, v, node)
      decreases c
    {
      GoUp(mul, ps, v, c, p);
      p := mul(p, x[slot(c)]);
      c := ps[c];
    }
  }

  /** get_hierarchy_probability. */
  method GetHierarchyProbability(x: seq<real>, ps: seq<int>, node: int, stride: nat) returns (p: real)
    requires ParentsFirst(ps) && Fits(|ps|, x, Strided(stride)) && node < |ps|
    ensures p == Prob(Product(), ps, Values(|ps|, x, Strided(stride)), node)
  {
    ProductLaws();
    ProductCommutes();
    p := ProbabilityLoop(Product(), x, ps, node, Strided(stride));
  }

  // ---------------------------------------------------------------- hierarchy_predictions

  /** Values of nodes below j are whole products, everything else is as before. */
  ghost predicate PredNow(mul: Times, ps: seq<int>, x0: seq<real>, x: seq<real>, slot: Place, j: nat) {
    && ParentsFirst(ps) && Apart(slot) && Fits(|ps|, x0, slot) && |x| == |x0| && j <= |ps|
    && (forall c :: 0 <= c < j ==> x[slot(c)] == Prob(mul, ps, Values(|ps|, x0, slot), c))
    && Outside(x0, x, slot, j)
  }

  /** Only the slots of nodes below j may differ. */
  ghost predicate Outside(x0: seq<real>, x: seq<real>, slot: Place, j: nat) {
    |x| == |x0| && forall q :: 0 <= q < |x| && (forall c :: 0 <= c < j ==> q != slot(c)) ==> x[q] == x0[q]
  }

  lemma SlotUntouched(mul: Times, ps: seq<int>, x0: seq<real>, x: seq<real>, slot: Place, j: nat)
    requires PredNow(mul, ps, x0, x, slot, j) && j < |ps|
    ensures x[slot(j)] == x0[slot(j)]
  {
    assert forall c :: 0 <= c < j ==> slot(j) != slot(c);
  }

  lemma OutsideStep(x0: seq<real>, x: seq<real>, slot: Place, j: nat, v: real)
    requires Outside(x0, x, slot, j) && slot(j) < |x|
    ensures Outside(x0, x[slot(j) := v], slot, j + 1)
  {
    var y := x[slot(j) := v];
    forall q | 0 <= q < |y| && (forall c :: 0 <= c < j + 1 ==> q != slot(c))
      ensures y[q] == x0[q]
    {
      assert q != slot(j);
    }
  }

  lemma PredStep(mul: Times, ps: seq<int>, x0: seq<real>, x: seq<real>, slot: Place, j: nat, v: real)
    requires PredNow(mul, ps, x0, x, slot, j) && j < |ps|
    requires v == Prob(mul, ps, Values(|ps|, x0, slot), j)
    ensures PredNow(mul, ps, x0, x[slot(j) := v], slot, j + 1)
  {
    var y := x[slot(j) := v];
    OutsideStep(x0, x, slot, j, v);
    forall c | 0 <= c < j + 1
      ensures y[slot(c)] == Prob(mul, ps, Values(|ps|, x0, slot), c)
    {
    }
  }

  /** The value that node j gets. */
  function Multiplied(mul: Times, ps: seq<int>, y: seq<real>, slot: Place, j: nat): real
    requires j < |ps| && slot(j) < |y| && (ps[j] >= 0 ==> slot(ps[j]) < |y|)
  {
    if ps[j] >= 0 then mul(y[slot(j)], y[slot(ps[j])]) else y[slot(j)]
  }

  /** The parent is done before its children, so its value is already the whole product. */
  lemma MultiplyStep(mul: Times, ps: seq<int>, x0: seq<real>, y: seq<real>, slot: Place, j: nat)
    requires Laws(mul) && Commutes(mul) && PredNow(mul, ps, x0, y, slot, j) && j < |ps|
    ensures slot(j) < |y| && (ps[j] >= 0 ==> slot(ps[j]) < |y|)
    ensures PredNow(mul, ps, x0, y[slot(j) := Multiplied(mul, ps, y, slot, j)], slot, j + 1)
  {
    SlotUntouched(mul, ps, x0, y, slot, j);
    var v := Values(|ps|, x0, slot);
    Swap(mul, v[j], Prob(mul, ps, v, ps[j]));
    PredStep(mul, ps, x0, y, slot, j, Multiplied(mul, ps, y, slot, j));
  }

  lemma Swap(mul: Times, a: real, b: real)
    requires Laws(mul) && Commutes(mul)
    ensures mul(a, b) == mul(b, a) && mul(1.0, a) == a
  {
    assert CommutesAt(mul, a, b, a);
  }

  /** The first loop of hierarchy_predictions. */
  method MultiplyDown(mul: Times, x: array<real>, t: Tree, slot: Place)
    requires Laws(mul) && Commutes(mul) && ParentsFirst(t.parent) && Apart(slot) && Fits(|t.parent|, x[..], slot)
    modifies x
    ensures PredNow(mul, t.parent, old(x[..]), x[..], slot, |t.parent|)
  {
    ghost var x0 := x[..];
    for j := 0 to |t.parent|
      invariant PredNow(mul, t.parent, x0, x[..], slot, j)
    {
      MultiplyStep(mul, t.parent, x0, x[..], slot, j);
      var parent := t.parent[j];
      if parent >= 0 {
        x[slot(j)] := mul(x[slot(j)], x[slot(parent)]);
      } else {
        assert x[..][slot(j) := x[slot(j)]] == x[..];
      }
    }
  }

  /** What hierarchy_predictions leaves: products everywhere, or only at the leaves. */
  ghost predicate Predicted(mul: Times, t: Tree, x0: seq<real>, x: seq<real>, slot: Place, onlyLeaves: bool) {
    && ParentsFirst(t.parent) && |t.leaf| == |t.parent| && Fits(|t.parent|, x0, slot) && Outside(x0, x, slot, |t.parent|)
    && forall c :: 0 <= c < |t.parent| ==>
         x[slot(c)] == if onlyLeaves && !t.leaf[c] then 0.0 else Prob(mul, t.parent, Values(|t.parent|, x0, slot), c)
  }

  /** The second loop, at node j. */
  ghost predicate LeavesNow(mul: Times, t: Tree, x0: seq<real>, x: seq<real>, slot: Place, j: nat) {
    && ParentsFirst(t.parent) && Apart(slot) && |t.leaf| == |t.parent| && Fits(|t.parent|, x0, slot) && Outside(x0, x, slot, |t.parent|)
    && forall c :: 0 <= c < |t.parent| ==>
         x[slot(c)] == if c < j && !t.leaf[c] then 0.0 else Prob(mul, t.parent, Values(|t.parent|, x0, slot), c)
  }

  lemma LeavesStep(mul: Times, t: Tree, x0: seq<real>, x: seq<real>, slot: Place, j: nat)
    requires LeavesNow(mul, t, x0, x, slot, j) && j < |t.parent|
    ensures LeavesNow(mul, t, x0, if t.leaf[j] then x else x[slot(j) := 0.0], slot, j + 1)
  {
    if !t.leaf[j] {
      var y := x[slot(j) := 0.0];
      forall c | 0 <= c < |t.parent|
        ensures y[slot(c)] == if c < j + 1 && !t.leaf[c] then 0.0 else Prob(mul, t.parent, Values(|t.parent|, x0, slot), c)
      {
      }
    }
  }

  method KeepLeaves(ghost mul: Times, x: array<real>, t: Tree, slot: Place, ghost x0: seq<real>)
    requires LeavesNow(mul, t, x0, x[..], slot, 0)
    modifies x
    ensures LeavesNow(mul, t, x0, x[..], slot, |t.parent|)
  {
    ghost var y := x[..];
    for j := 0 to |t.parent|
      invariant x[..] == y && LeavesNow(mul, t, x0, y, slot, j)
    {
      LeavesStep(mul, t, x0, y, slot, j);
      if !t.leaf[j] {
        assert slot(j) < x.Length;
        x[slot(j)] := 0.0;
        y := y[slot(j) := 0.0];
      }
    }
  }

  /** The first n nodes, whose parents are all among them. */
  function First(t: Tree, n: nat): Tree
    requires n <= |t.parent| == |t.leaf|
  {
    t.(parent := t.parent[..n], leaf := t.leaf[..n])
  }

  /** hierarchy_predictions over the first n nodes. */
  method HierarchyPredictions(x: array<real>, n: nat, t: Tree, onlyLeaves: bool, stride: nat)
    requires ParentsFirst(t.parent) && n <= |t.parent| == |t.leaf| && stride >= 1 && Fits(n, x[..], Strided(stride))
    modifies x
    ensures Predicted(Product(), First(t, n), old(x[..]), x[..], Strided(stride), onlyLeaves)
  {
    StridedApart(stride);
    ProductLaws();
    ProductCommutes();
    MultiplyDown(Product(), x, First(t, n), Strided(stride));
    if onlyLeaves {
      KeepLeaves(Product(), x, First(t, n), Strided(stride), old(x[..]));
    }
  }

  // ---------------------------------------------------------------- hierarchy_top_prediction

  datatype Best = Best(max: real, node: nat)

  /** The argmax loop after i nodes from `first` on; only positive values count. */
  function BestOf(v: seq<real>, first: nat, i: nat): (r: Best)
    requires first + i <= |v|
    ensures r.max >= 0.0 && (r.max == 0.0 ==> r.node == 0)
    ensures r.max > 0.0 ==> first <= r.node < first + i && v[r.node] == r.max
    ensures forall c :: first <= c < first + i ==> v[c] <= r.max
  {
    if i == 0 then Best(0.0, 0) else
      var b := BestOf(v, first, i - 1);
      var index := i - 1 + first;
      if v[index] > b.max then Best(v[index], index) else b
  }

  /** Of equal values the first counts. */
  lemma {:induction false} BestIsFirst(v: seq<real>, first: nat, i: nat, c: nat)
    requires first + i <= |v| && BestOf(v, first, i).max > 0.0 && first <= c < BestOf(v, first, i).node
    ensures v[c] < BestOf(v, first, i).max
  {
    if BestOf(v, first, i) == BestOf(v, first, i - 1) {
      BestIsFirst(v, first, i - 1, c);
    }
  }

  function GroupBest(t: Tree, v: seq<real>, g: nat): Best
    requires TreeOk(t) && |v| == |t.parent| && g < |t.groupOffset|
  {
    BestOf(v, t.groupOffset[g], t.groupSize[g])
  }

  datatype Walk = At(p: real, group: nat) | Stopped(node: int)

  /** The walk is at the root group or at a group with nodes. */
  predicate WalkOk(t: Tree, w: Walk) {
    w.At? ==> w.group < |t.groupOffset| == |t.groupSize| && (w.group > 0 ==> t.groupSize[w.group] > 0)
  }

  /** One iteration of the outer loop. */
  function Step(mul: Times, t: Tree, v: seq<real>, thresh: real, w: Walk): (r: Walk)
    requires Laws(mul) && TreeOk(t) && |v| == |t.parent| && (thresh >= 0.0 || t.parent != []) && WalkOk(t, w)
    ensures WalkOk(t, r)
  {
    if w.Stopped? then w else
      var b := GroupBest(t, v, w.group);
      if mul(w.p, b.max) > thresh then
        TakenIsNode(mul, t, b, w.p, thresh);
        if t.child[b.node] < 0 then Stopped(b.node) else
          ChildGroup(t, b.node);
          At(mul(w.p, b.max), t.child[b.node])
      else if w.group == 0 then Stopped(b.node)
      else Stopped(t.parent[t.groupOffset[w.group]])
  }

  lemma TakenIsNode(mul: Times, t: Tree, b: Best, p: real, thresh: real)
    requires Laws(mul) && (thresh >= 0.0 || t.parent != []) && mul(p, b.max) > thresh
    requires b.max > 0.0 ==> b.node < |t.parent|
    requires b.max >= 0.0 && (b.max == 0.0 ==> b.node == 0)
    ensures b.node < |t.parent|
  {
  }

  /** The walk after k iterations. */
  function Run(mul: Times, t: Tree, v: seq<real>, thresh: real, k: nat): (r: Walk)
    requires Laws(mul) && TreeOk(t) && |v| == |t.parent| && (thresh >= 0.0 || t.parent != [])
    ensures WalkOk(t, r)
  {
    if k == 0 then At(1.0, 0) else Step(mul, t, v, thresh, Run(mul, t, v, thresh, k - 1))
  }

  /** The walk cannot stay at a group: the threshold is not negative, or node 0 has no children. */
  predicate Safe(t: Tree, thresh: real) { thresh >= 0.0 || (|t.child| == |t.parent| > 0 && t.child[0] < 0) }

  lemma StepClimbs(mul: Times, t: Tree, v: seq<real>, thresh: real, w: Walk)
    requires Laws(mul) && TreeOk(t) && |v| == |t.parent| && Safe(t, thresh) && WalkOk(t, w) && w.At?
    ensures var r := Step(mul, t, v, thresh, w); r.At? ==> r.group > w.group
  {
    var b := GroupBest(t, v, w.group);
    if mul(w.p, b.max) > thresh {
      TakenIsNode(mul, t, b, w.p, thresh);
      BestIsGreatest(t, v, w.group, b);
      if t.child[b.node] >= 0 && b.max > 0.0 {
        GroupsIncrease(t, b.node);
      }
    }
  }

  /** After k iterations the walk has stopped or is at group k or later. */
  lemma {:induction false} RunClimbs(mul: Times, t: Tree, v: seq<real>, thresh: real, k: nat)
    requires Laws(mul) && TreeOk(t) && |v| == |t.parent| && Safe(t, thresh)
    ensures var w := Run(mul, t, v, thresh, k); w.At? ==> w.group >= k
  {
    if k > 0 {
      RunClimbs(mul, t, v, thresh, k - 1);
      var w := Run(mul, t, v, thresh, k - 1);
      assert Run(mul, t, v, thresh, k) == Step(mul, t, v, thresh, w);
      if w.At? {
        StepClimbs(mul, t, v, thresh, w);
      }
    }
  }

  function Zeros(n: nat): (v: seq<real>)
    ensures |v| == n && forall q :: 0 <= q < n ==> v[q] == 0.0
  {
    seq(n, _ => 0.0)
  }

  /** A negative threshold and a node 0 with children: on all-zero values the loop never ends. */
  lemma {:induction false} NeverStops(mul: Times, t: Tree, thresh: real, k: nat)
    requires Laws(mul) && TreeOk(t) && t.parent != [] && !Safe(t, thresh)
    ensures Run(mul, t, Zeros(|t.parent|), thresh, k).At?
  {
    if k > 0 {
      NeverStops(mul, t, thresh, k - 1);
      var v := Zeros(|t.parent|);
      var w := Run(mul, t, v, thresh, k - 1);
      var b := GroupBest(t, v, w.group);
      assert b.max == 0.0 && b.node == 0;
    }
  }

  /** The loop ends on all values exactly when the threshold is not negative or node 0 has no children. */
  lemma StopsIffSafe(mul: Times, t: Tree, thresh: real)
    requires Laws(mul) && TreeOk(t) && t.parent != []
    ensures (forall v :: |v| == |t.parent| ==> Run(mul, t, v, thresh, |t.groupOffset|).Stopped?) <==> Safe(t, thresh)
  {
    if Safe(t, thresh) {
      forall v | |v| == |t.parent|
        ensures Run(mul, t, v, thresh, |t.groupOffset|).Stopped?
      {
        RunClimbs(mul, t, v, thresh, |t.groupOffset|);
      }
    } else {
      NeverStops(mul, t, thresh, |t.groupOffset|);
    }
  }

  /** From node c up: every node is the first largest one of its group, and its group the one its parent leads to. */
  ghost predicate GreedyPath(t: Tree, v: seq<real>, c: int)
    requires TreeOk(t) && |v| == |t.parent| && c < |t.parent|
    decreases if c < 0 then 0 else c + 1
  {
    c >= 0 ==>
      && (forall d :: 0 <= d < |t.parent| && t.group[d] == t.group[c] ==> v[d] <= v[c] && (d < c ==> v[d] < v[c]))
      && (t.parent[c] >= 0 ==> t.child[t.parent[c]] == t.group[c])
      && GreedyPath(t, v, t.parent[c])
  }

  /** Node c was reached by greedy descent and lies above the threshold. */
  ghost predicate Reached(mul: Times, t: Tree, v: seq<real>, thresh: real, c: nat)
    requires Laws(mul) && TreeOk(t) && |v| == |t.parent|
  {
    c < |t.parent| && GreedyPath(t, v, c) && Prob(mul, t.parent, v, c) > thresh
  }

  /** The walk stands below node c (or at the root, c = -1). */
  ghost predicate Below(mul: Times, t: Tree, v: seq<real>, thresh: real, w: Walk, c: int)
    requires Laws(mul) && TreeOk(t) && |v| == |t.parent|
  {
    && w.At? && w.p > 0.0 && w.group < |t.groupOffset| && -1 <= c < |t.parent|
    && (if c < 0 then w == At(1.0, 0)
        else Reached(mul, t, v, thresh, c) && w.group == t.child[c] > 0 && w.p == Prob(mul, t.parent, v, c))
  }

  /**
   The answer: a node reached by greedy descent, above the threshold, none of whose children
   in its child group is above it; or, when no root node is above it, the best root node.
   */
  ghost predicate TopOk(mul: Times, t: Tree, v: seq<real>, thresh: real, r: int)
    requires Laws(mul) && TreeOk(t) && |v| == |t.parent|
  {
    || (0 <= r && Reached(mul, t, v, thresh, r)
        && forall c :: 0 <= c < |t.parent| && t.group[c] == t.child[r] ==> Prob(mul, t.parent, v, c) <= thresh)
    || (r == GroupBest(t, v, 0).node
        && forall c :: 0 <= c < |t.parent| && t.group[c] == 0 ==> Prob(mul, t.parent, v, c) <= thresh)
  }

  /** Nodes of the group at which the walk stands have node c as their parent. */
  lemma GroupBelow(mul: Times, t: Tree, v: seq<real>, thresh: real, w: Walk, c: int, d: nat)
    requires Laws(mul) && TreeOk(t) && |v| == |t.parent| && Below(mul, t, v, thresh, w, c)
    requires d < |t.parent| && t.group[d] == w.group
    ensures t.parent[d] == c && w.p == Prob(mul, t.parent, v, c)
  {
    if c >= 0 {
      ChildGroup(t, c);
    }
  }

  lemma BestIsGreatest(t: Tree, v: seq<real>, g: nat, b: Best)
    requires TreeOk(t) && |v| == |t.parent| && g < |t.groupOffset| && b == GroupBest(t, v, g)
    ensures forall d :: 0 <= d < |t.parent| && t.group[d] == g ==> v[d] <= b.max
    ensures b.max > 0.0 ==> forall d :: 0 <= d < b.node && d < |t.parent| && t.group[d] == g ==> v[d] < b.max
    ensures b.max > 0.0 ==> b.node < |t.parent| && t.group[b.node] == g && v[b.node] == b.max
  {
    assert b.max > 0.0 ==> InRange(t.groupOffset, t.groupSize, g, b.node);
    forall d | 0 <= d < |t.parent| && t.group[d] == g
      ensures v[d] <= b.max && (b.max > 0.0 && d < b.node ==> v[d] < b.max)
    {
      assert Placed(t.group, t.groupOffset, t.groupSize, d);
      if b.max > 0.0 && d < b.node {
        BestIsFirst(v, t.groupOffset[g], t.groupSize[g], d);
      }
    }
  }

  /** A greatest node below c continues the greedy path. */
  lemma PathGrows(t: Tree, v: seq<real>, c: int, d: nat)
    requires TreeOk(t) && |v| == |t.parent| && d < |t.parent| && t.parent[d] == c && GreedyPath(t, v, c)
    requires c >= 0 ==> t.child[c] == t.group[d]
    requires forall e :: 0 <= e < |t.parent| && t.group[e] == t.group[d] ==> v[e] <= v[d] && (e < d ==> v[e] < v[d])
    ensures GreedyPath(t, v, d)
  {
  }

  lemma Descend(mul: Times, t: Tree, v: seq<real>, thresh: real, w: Walk, c: int, b: Best)
    requires Laws(mul) && TreeOk(t) && |v| == |t.parent| && thresh >= 0.0 && Below(mul, t, v, thresh, w, c)
    requires b == GroupBest(t, v, w.group) && mul(w.p, b.max) > thresh
    ensures b.max > 0.0 && Reached(mul, t, v, thresh, b.node) && t.group[b.node] == w.group
    ensures Prob(mul, t.parent, v, b.node) == mul(w.p, b.max)
  {
    BestIsGreatest(t, v, w.group, b);
    GroupBelow(mul, t, v, thresh, w, c, b.node);
    PathGrows(t, v, c, b.node);
  }

  lemma NodeFails(mul: Times, t: Tree, v: seq<real>, thresh: real, w: Walk, c: int, b: Best, d: nat)
    requires Laws(mul) && TreeOk(t) && |v| == |t.parent| && Below(mul, t, v, thresh, w, c)
    requires d < |t.parent| && t.group[d] == w.group && v[d] <= b.max && mul(w.p, b.max) <= thresh
    ensures Prob(mul, t.parent, v, d) <= thresh
  {
    GroupBelow(mul, t, v, thresh, w, c, d);
  }

  lemma GroupFails(mul: Times, t: Tree, v: seq<real>, thresh: real, w: Walk, c: int, b: Best)
    requires Laws(mul) && TreeOk(t) && |v| == |t.parent| && Below(mul, t, v, thresh, w, c)
    requires b == GroupBest(t, v, w.group) && mul(w.p, b.max) <= thresh
    ensures forall d :: 0 <= d < |t.parent| && t.group[d] == w.group ==> Prob(mul, t.parent, v, d) <= thresh
  {
    BestIsGreatest(t, v, w.group, b);
    forall d | 0 <= d < |t.parent| && t.group[d] == w.group
      ensures Prob(mul, t.parent, v, d) <= thresh
    {
      NodeFails(mul, t, v, thresh, w, c, b, d);
    }
  }

  /** Nothing below node c is above the threshold: c is the answer, or the best root node is. */
  lemma StepFails(mul: Times, t: Tree, v: seq<real>, thresh: real, w: Walk, c: int, b: Best)
    requires Laws(mul) && TreeOk(t) && |v| == |t.parent| && WalkOk(t, w) && Below(mul, t, v, thresh, w, c)
    requires b == GroupBest(t, v, w.group) && mul(w.p, b.max) <= thresh
    ensures if w.group == 0 then TopOk(mul, t, v, thresh, b.node)
            else t.groupOffset[w.group] < |t.parent| && TopOk(mul, t, v, thresh, t.parent[t.groupOffset[w.group]])
  {
    GroupFails(mul, t, v, thresh, w, c, b);
    if w.group > 0 {
      assert InRange(t.groupOffset, t.groupSize, w.group, t.groupOffset[w.group]);
      GroupBelow(mul, t, v, thresh, w, c, t.groupOffset[w.group]);
    }
  }

  /** The node the walk hangs from after a step, or the answer. */
  lemma StepMeaning(mul: Times, t: Tree, v: seq<real>, thresh: real, w: Walk, c: int) returns (c': int)
    requires Laws(mul) && TreeOk(t) && |v| == |t.parent| && thresh >= 0.0 && WalkOk(t, w) && Below(mul, t, v, thresh, w, c)
    ensures var r := Step(mul, t, v, thresh, w);
            if r.At? then Below(mul, t, v, thresh, r, c') else TopOk(mul, t, v, thresh, r.node)
  {
    var b := GroupBest(t, v, w.group);
    c' := c;
    if mul(w.p, b.max) > thresh {
      Descend(mul, t, v, thresh, w, c, b);
      c' := b.node;
      if t.child[b.node] >= 0 {
        ChildGroup(t, b.node);
      }
    } else {
      StepFails(mul, t, v, thresh, w, c, b);
    }
  }

  lemma {:induction false} RunMeaning(mul: Times, t: Tree, v: seq<real>, thresh: real, k: nat) returns (c: int)
    requires Laws(mul) && TreeOk(t) && |v| == |t.parent| && thresh >= 0.0
    ensures var w := Run(mul, t, v, thresh, k);
            if w.At? then Below(mul, t, v, thresh, w, c) else TopOk(mul, t, v, thresh, w.node)
  {
    c := -1;
    if k > 0 {
      c := RunMeaning(mul, t, v, thresh, k - 1);
      var w := Run(mul, t, v, thresh, k - 1);
      if w.At? {
        c := StepMeaning(mul, t, v, thresh, w, c);
      }
    }
  }

  /** The inner loop of hierarchy_top_prediction. */
  method ArgMax(x: seq<real>, first: nat, size: nat, slot: Place, ghost v: seq<real>) returns (max: real, node: nat)
    requires first + size <= |v| && Fits(|v|, x, slot) && v == Values(|v|, x, slot)
    ensures Best(max, node) == BestOf(v, first, size)
  {
    max, node := 0.0, 0;
    for i := 0 to size
      invariant Best(max, node) == BestOf(v, first, i)
    {
      var index := i + first;
      var val := x[slot(index)];
      if val > max {
        node, max := index, val;
      }
    }
  }

  /** One iteration of the outer loop. */
  method TopStep(mul: Times, x: seq<real>, t: Tree, thresh: real, slot: Place, p: real, group: nat) returns (w: Walk)
    requires Laws(mul) && TreeOk(t) && Fits(|t.parent|, x, slot) && Safe(t, thresh) && WalkOk(t, At(p, group))
    ensures w == Step(mul, t, Values(|t.parent|, x, slot), thresh, At(p, group))
  {
    var max, node := ArgMax(x, t.groupOffset[group], t.groupSize[group], slot, Values(|t.parent|, x, slot));
    if mul(p, max) > thresh {
      TakenIsNode(mul, t, Best(max, node), p, thresh);
      w := if t.child[node] < 0 then Stopped(node) else At(mul(p, max), t.child[node]);
    } else if group == 0 {
      w := Stopped(node);
    } else {
      w := Stopped(t.parent[t.groupOffset[group]]);
    }
  }

  /** The next state of the run; a walk that goes on is at a later group. */
  method NextState(mul: Times, x: seq<real>, t: Tree, thresh: real, slot: Place, w: Walk, ghost steps: nat) returns (r: Walk)
    requires (var given := TreeOk(t) && Fits(|t.parent|, x, slot) && Safe(t, thresh); given) && Laws(mul) && w.At?
    requires Run(mul, t, Values(|t.parent|, x, slot), thresh, steps) == w
    ensures Run(mul, t, Values(|t.parent|, x, slot), thresh, steps + 1) == r
    ensures r.At? ==> w.group < r.group < |t.groupOffset|
  {
    StepClimbs(mul, t, Values(|t.parent|, x, slot), thresh, w);
    r := TopStep(mul, x, t, thresh, slot, w.p, w.group);
  }

  method TopWalk(mul: Times, x: seq<real>, t: Tree, thresh: real, slot: Place) returns (r: int, ghost steps: nat)
    requires Laws(mul) && TreeOk(t) && Fits(|t.parent|, x, slot) && Safe(t, thresh)
    ensures Run(mul, t, Values(|t.parent|, x, slot), thresh, steps) == Stopped(r) && steps <= |t.groupOffset|
  {
    ghost var v := Values(|t.parent|, x, slot);
    var w := At(1.0, 0);
    steps := 0;
    while w.At?
      invariant Run(mul, t, v, thresh, steps) == w && steps <= |t.groupOffset|
      invariant w.At? ==> steps <= w.group < |t.groupOffset|
      decreases w.At?, if w.At? then |t.groupOffset| - w.group else 0
    {
      w := NextState(mul, x, t, thresh, slot, w, steps);
      steps := steps + 1;
    }
    r := w.node;
  }

  /** hierarchy_top_prediction. */
  method HierarchyTopPrediction(x: seq<real>, t: Tree, thresh: real, stride: nat) returns (r: int, ghost steps: nat)
    requires TreeOk(t) && Fits(|t.parent|, x, Strided(stride)) && Safe(t, thresh)
    ensures Run(Product(), t, Values(|t.parent|, x, Strided(stride)), thresh, steps) == Stopped(r) && steps <= |t.groupOffset|
    ensures thresh >= 0.0 ==> TopOk(Product(), t, Values(|t.parent|, x, Strided(stride)), thresh, r)
  {
    ProductLaws();
    r, steps := TopWalk(Product(), x, t, thresh, Strided(stride));
    if thresh >= 0.0 {
      ghost var c := RunMeaning(Product(), t, Values(|t.parent|, x, Strided(stride)), thresh, steps);
    }
  }
}
