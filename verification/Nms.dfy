/**
 Greedy non-maximum suppression, do_nms_obj and do_nms_sort. The overlap test is a parameter
 of the loops; the driver methods use box_iou against the threshold. `qsort` is any method
 that permutes the detections into an order that nms_comparator accepts.
 */
module Nms {
  import opened Boxes

  datatype Det = Det(bbox: Box, objectness: real, prob: seq<real>, sortClass: int)

  /** The value that nms_comparator compares: a class probability, or the objectness. */
  function Key(cls: int, d: Det): real { if 0 <= cls < |d.prob| then d.prob[cls] else d.objectness }

  /** nms_comparator: negative when `a` goes first. */
  function Comparator(a: Det, b: Det): int {
    var diff := Key(b.sortClass, a) - Key(b.sortClass, b);
    if diff < 0.0 then 1 else if diff > 0.0 then -1 else 0
  }

  // ---------------------------------------------------------------- permutations

  /** Position i now holds what was at to[i]; what was at j is now at from[j]. */
  datatype Perm = Perm(to: seq<nat>, from: seq<nat>)

  ghost predicate IsPerm(p: Perm, n: nat) {
    && |p.to| == |p.from| == n
    && (forall i {:trigger p.to[i]} :: 0 <= i < n ==> p.to[i] < n && p.from[p.to[i]] == i)
    && (forall j {:trigger p.from[j]} :: 0 <= j < n ==> p.from[j] < n && p.to[p.from[j]] == j)
  }

  function Id(n: nat): (p: Perm)
    ensures IsPerm(p, n)
  {
    Perm(seq(n, i requires i >= 0 => i), seq(n, i requires i >= 0 => i))
  }

  /** `p` followed by a swap of positions a and b. */
  function Swapped(p: Perm, n: nat, a: nat, b: nat): (r: Perm)
    requires IsPerm(p, n) && a < n && b < n
    ensures IsPerm(r, n)
  {
    Perm(p.to[a := p.to[b]][b := p.to[a]], p.from[p.to[a] := b][p.to[b] := a])
  }

  /** First `p`, then `q` on the first m positions. */
  function Then(p: Perm, n: nat, q: Perm, m: nat): (r: Perm)
    requires IsPerm(p, n) && IsPerm(q, m) && m <= n
    ensures |r.to| == |r.from| == n
    ensures forall i :: 0 <= i < n ==> r.to[i] == p.to[if i < m then q.to[i] else i]
    ensures forall j :: 0 <= j < n ==> r.from[j] == if p.from[j] < m then q.from[p.from[j]] else p.from[j]
  {
    Perm(seq(n, i requires 0 <= i < n => p.to[if i < m then q.to[i] else i]),
         seq(n, j requires 0 <= j < n => if p.from[j] < m then q.from[p.from[j]] else p.from[j]))
  }

  lemma ThenIsPerm(p: Perm, n: nat, q: Perm, m: nat)
    requires IsPerm(p, n) && IsPerm(q, m) && m <= n
    ensures IsPerm(Then(p, n, q, m), n)
  {
    var r := Then(p, n, q, m);
    forall i | 0 <= i < n
      ensures r.to[i] < n && r.from[r.to[i]] == i
    {
      var k := if i < m then q.to[i] else i;
      assert r.to[i] == p.to[k] && p.from[p.to[k]] == k;
    }
    forall j | 0 <= j < n
      ensures r.from[j] < n && r.to[r.from[j]] == j
    {
      var k := p.from[j];
      assert p.to[k] == j;
      if k < m {
        assert q.to[q.from[k]] == k;
      }
    }
  }

  /** `now` is `was` in another order. */
  ghost predicate Reordered(was: seq<Det>, now: seq<Det>, p: Perm) {
    && |was| == |now| && IsPerm(p, |now|)
    && forall i :: 0 <= i < |now| ==> now[i] == was[p.to[i]]
  }

  // ---------------------------------------------------------------- sorting

  method SwapDets(dets: array<Det>, a: nat, b: nat, ghost was: seq<Det>, ghost p: Perm) returns (ghost r: Perm)
    requires a < dets.Length && b < dets.Length && Reordered(was, dets[..], p)
    modifies dets
    ensures Reordered(was, dets[..], r) && (forall i :: 0 <= i < |p.to| && i != a && i != b ==> r.to[i] == p.to[i])
    ensures dets[..] == old(dets[..])[a := old(dets[..])[b]][b := old(dets[..])[a]]
  {
    r := Swapped(p, dets.Length, a, b);
    dets[a], dets[b] := dets[b], dets[a];
  }

  /** Entries lo .. hi - 1 do not go before entry m. */
  ghost predicate FirstOf(s: seq<Det>, m: nat, lo: nat, hi: nat, cls: int) {
    m < |s| && hi <= |s| && forall j :: lo <= j < hi ==> Key(cls, s[m]) >= Key(cls, s[j])
  }

  method FindFirst(dets: array<Det>, i: nat, n: nat, cls: int) returns (m: nat)
    requires i < n <= dets.Length && SameClass(dets[..], n, cls)
    ensures i <= m < n && FirstOf(dets[..], m, i, n, cls)
  {
    m := i;
    for j := i to n
      invariant i <= m < n && FirstOf(dets[..], m, i, j, cls)
    {
      if Comparator(dets[j], dets[m]) < 0 {
        m := j;
      }
    }
  }

  /** The first i of n entries are in their final order. */
  ghost predicate Ordered(s: seq<Det>, i: nat, n: nat, cls: int) {
    i <= n <= |s| && forall a, b :: 0 <= a < i && a < b < n ==> Key(cls, s[a]) >= Key(cls, s[b])
  }

  predicate SameClass(s: seq<Det>, n: nat, cls: int) {
    n <= |s| && forall j :: 0 <= j < n ==> s[j].sortClass == cls
  }

  predicate FixedFrom(p: Perm, n: nat) { forall i :: n <= i < |p.to| ==> p.to[i] == i }

  /** One round: bring the entry that goes first to position i. */
  method SortStep(dets: array<Det>, i: nat, n: nat, cls: int, ghost was: seq<Det>, ghost p: Perm) returns (ghost r: Perm)
    requires i < n <= dets.Length && SameClass(dets[..], n, cls) && Ordered(dets[..], i, n, cls)
    requires Reordered(was, dets[..], p) && FixedFrom(p, n)
    modifies dets
    ensures Reordered(was, dets[..], r) && FixedFrom(r, n)
    ensures SameClass(dets[..], n, cls) && Ordered(dets[..], i + 1, n, cls)
  {
    var m := FindFirst(dets, i, n, cls);
    OrderedSwap(dets[..], dets[..][i := dets[m]][m := dets[i]], i, m, n, cls);
    r := SwapDets(dets, i, m, was, p);
  }

  /** Sort the first n detections, all of which carry `cls` as their sort class. */
  method Qsort(dets: array<Det>, n: nat, cls: int) returns (ghost p: Perm)
    requires n <= dets.Length && SameClass(dets[..], n, cls)
    modifies dets
    ensures Reordered(old(dets[..]), dets[..], p) && FixedFrom(p, n) && Ordered(dets[..], n, n, cls)
  {
    ghost var was := dets[..];
    p := Id(dets.Length);
    for i := 0 to n
      invariant Reordered(was, dets[..], p) && FixedFrom(p, n)
      invariant SameClass(dets[..], n, cls) && Ordered(dets[..], i, n, cls)
    {
      p := SortStep(dets, i, n, cls, was, p);
    }
  }

  lemma OrderedSwap(s: seq<Det>, t: seq<Det>, i: nat, m: nat, n: nat, cls: int)
    requires i <= m < n <= |s| && Ordered(s, i, n, cls) && FirstOf(s, m, i, n, cls)
    requires t == s[i := s[m]][m := s[i]]
    ensures Ordered(t, i + 1, n, cls)
  {
    forall a, b | 0 <= a < i + 1 && a < b < n
      ensures Key(cls, t[a]) >= Key(cls, t[b])
    {
      assert t[b] == s[if b == i then m else if b == m then i else b];
      assert a < i ==> t[a] == s[a];
    }
  }

  // ---------------------------------------------------------------- dropping empty detections

  /** Entries before i have objectness, entries from k on have none. */
  predicate Split(s: seq<Det>, i: nat, k: nat) {
    && i <= k <= |s|
    && (forall x :: 0 <= x < i ==> s[x].objectness != 0.0)
    && (forall x :: k <= x < |s| ==> s[x].objectness == 0.0)
  }

  lemma SplitSwap(s: seq<Det>, i: nat, k: nat)
    requires Split(s, i, k + 1) && i <= k < |s| && s[i].objectness == 0.0
    ensures Split(s[i := s[k]][k := s[i]], i, k)
  {
  }

  /** One iteration: keep entry i, or swap it with entry k and shrink the range. */
  method CompactStep(dets: array<Det>, i: nat, k: nat, ghost was: seq<Det>, ghost p: Perm) returns (i': nat, k': int, ghost r: Perm)
    requires i <= k < dets.Length && Reordered(was, dets[..], p) && Split(dets[..], i, k + 1)
    modifies dets
    ensures 0 <= i' <= k' + 1 && k' - i' < k - i && Reordered(was, dets[..], r) && Split(dets[..], i', k' + 1)
  {
    if dets[i].objectness == 0.0 {
      SplitSwap(dets[..], i, k);
      r := SwapDets(dets, i, k, was, p);
      i', k' := i, k - 1;
    } else {
      i', k', r := i + 1, k, p;
    }
  }

  /** The first loop of both functions: detections without objectness go to the end. */
  method Compact(dets: array<Det>) returns (total: nat, ghost p: Perm)
    modifies dets
    ensures Reordered(old(dets[..]), dets[..], p) && Split(dets[..], total, total)
  {
    ghost var was := dets[..];
    p := Id(dets.Length);
    var i: nat, k: int := 0, dets.Length - 1;
    while i <= k
      invariant i <= k + 1 && Reordered(was, dets[..], p) && Split(dets[..], i, k + 1)
      decreases k + 1 - i
    {
      i, k, p := CompactStep(dets, i, k, was, p);
    }
    total := k + 1;
  }

  // ---------------------------------------------------------------- greedy suppression

  type Hit = (Box, Box) -> bool

  /**
   The double loop over sorted scores, at row i and column j: rows before i, and row i up to
   column j, have suppressed what they hit; and whatever is suppressed was hit by an earlier
   entry that still stands.
   */
  ghost predicate Greedy(hit: Hit, bs: seq<Box>, s0: seq<real>, s: seq<real>, i: nat, j: nat) {
    && |bs| == |s0| == |s|
    && (forall x :: 0 <= x < |s| ==> s[x] == s0[x] || s[x] == 0.0)
    && (forall a, b :: 0 <= a < b < |s| && (a < i || (a == i && b < j)) && s[a] != 0.0 && hit(bs[a], bs[b]) ==> s[b] == 0.0)
    && (forall b :: 0 <= b < |s| && s0[b] != 0.0 && s[b] == 0.0 ==> Hitter(hit, bs, s, i, b))
  }

  /** Some entry before b, in a row up to i, stands and hits b. */
  ghost predicate Hitter(hit: Hit, bs: seq<Box>, s: seq<real>, i: nat, b: nat)
    requires |bs| == |s| && b < |s|
  {
    exists a :: 0 <= a < b && a <= i && s[a] != 0.0 && hit(bs[a], bs[b])
  }

  lemma GreedyStart(hit: Hit, bs: seq<Box>, s: seq<real>)
    requires |bs| == |s|
    ensures Greedy(hit, bs, s, s, 0, 0)
  {
  }

  /** Row i hits column j: its score becomes zero. */
  lemma GreedyHit(hit: Hit, bs: seq<Box>, s0: seq<real>, s: seq<real>, i: nat, j: nat)
    requires Greedy(hit, bs, s0, s, i, j) && i < j < |s| && s[i] != 0.0 && hit(bs[i], bs[j])
    ensures Greedy(hit, bs, s0, s[j := 0.0], i, j + 1)
  {
    var t := s[j := 0.0];
    forall b | 0 <= b < |t| && s0[b] != 0.0 && t[b] == 0.0
      ensures Hitter(hit, bs, t, i, b)
    {
      if b == j {
        assert t[i] != 0.0;
      } else {
        var a :| 0 <= a < b && a <= i && s[a] != 0.0 && hit(bs[a], bs[b]);
        assert t[a] != 0.0;
      }
    }
  }

  lemma GreedyMiss(hit: Hit, bs: seq<Box>, s0: seq<real>, s: seq<real>, i: nat, j: nat)
    requires Greedy(hit, bs, s0, s, i, j) && i < j < |s|
    requires s[i] == 0.0 || s[j] == 0.0 || !hit(bs[i], bs[j])
    ensures Greedy(hit, bs, s0, s, i, j + 1)
  {
  }

  lemma GreedyNextRow(hit: Hit, bs: seq<Box>, s0: seq<real>, s: seq<real>, i: nat, j: nat)
    requires Greedy(hit, bs, s0, s, i, j) && i < |s| && (j >= |s| || s[i] == 0.0)
    ensures Greedy(hit, bs, s0, s, i + 1, i + 2)
  {
    forall b | 0 <= b < |s| && s0[b] != 0.0 && s[b] == 0.0
      ensures Hitter(hit, bs, s, i + 1, b)
    {
      var a :| 0 <= a < b && a <= i && s[a] != 0.0 && hit(bs[a], bs[b]);
    }
  }

  lemma GreedyEarlier(hit: Hit, bs: seq<Box>, s0: seq<real>, s: seq<real>, i: nat)
    requires Greedy(hit, bs, s0, s, i, 0)
    ensures Greedy(hit, bs, s0, s, i, i + 1)
  {
  }

  /** What the loops leave: no standing pair hits, and every suppressed entry is explained. */
  ghost predicate Suppressed(hit: Hit, bs: seq<Box>, s0: seq<real>, s: seq<real>) {
    && |bs| == |s0| == |s|
    && (forall x :: 0 <= x < |s| ==> s[x] == s0[x] || s[x] == 0.0)
    && (forall a, b :: 0 <= a < |s| && 0 <= b < |s| && a != b && s[a] != 0.0 && s[b] != 0.0 ==> !hit(bs[a], bs[b]))
    && (forall b :: 0 <= b < |s| && s0[b] != 0.0 && s[b] == 0.0 ==> Better(hit, bs, s0, s, b))
  }

  /** A standing entry of at least b's score hits b. */
  ghost predicate Better(hit: Hit, bs: seq<Box>, s0: seq<real>, s: seq<real>, b: nat)
    requires |bs| == |s0| == |s| && b < |s|
  {
    exists a :: 0 <= a < |s| && s[a] != 0.0 && hit(bs[a], bs[b]) && s[a] >= s0[b]
  }

  ghost predicate Symmetric(hit: Hit) { forall a, b :: hit(a, b) == hit(b, a) }

  lemma GreedyEnd(hit: Hit, bs: seq<Box>, s0: seq<real>, s: seq<real>, i: nat, j: nat)
    requires Symmetric(hit) && Greedy(hit, bs, s0, s, i, j) && i >= |s|
    requires forall a, b :: 0 <= a < b < |s0| ==> s0[a] >= s0[b]
    ensures Suppressed(hit, bs, s0, s)
  {
    forall a, b | 0 <= a < |s| && 0 <= b < |s| && a != b && s[a] != 0.0 && s[b] != 0.0
      ensures !hit(bs[a], bs[b])
    {
      assert hit(bs[a], bs[b]) == hit(bs[b], bs[a]);
    }
    forall b | 0 <= b < |s| && s0[b] != 0.0 && s[b] == 0.0
      ensures Better(hit, bs, s0, s, b)
    {
      var a :| 0 <= a < b && a <= i && s[a] != 0.0 && hit(bs[a], bs[b]);
      assert s[a] == s0[a] >= s0[b];
    }
  }

  // ---------------------------------------------------------------- do_nms_obj

  function Zeros(n: nat): (r: seq<real>)
    ensures |r| == n && forall i :: 0 <= i < n ==> r[i] == 0.0
  {
    seq(n, _ => 0.0)
  }

  /** The detection with its score and all class probabilities set to zero. */
  function Dropped(d: Det): Det { d.(objectness := 0.0, prob := Zeros(|d.prob|)) }

  method ZeroProbs(d: Det) returns (r: Det)
    ensures r == Dropped(d)
  {
    var prob := d.prob;
    for k := 0 to |prob|
      invariant |prob| == |d.prob| && forall x :: 0 <= x < k ==> prob[x] == 0.0
    {
      prob := prob[k := 0.0];
    }
    assert prob == Zeros(|d.prob|);
    r := d.(objectness := 0.0, prob := prob);
  }

  function BoxesOf(s: seq<Det>): (r: seq<Box>)
    ensures |r| == |s| && forall i :: 0 <= i < |s| ==> r[i] == s[i].bbox
  {
    seq(|s|, i requires 0 <= i < |s| => s[i].bbox)
  }

  function KeysOf(cls: int, s: seq<Det>): (r: seq<real>)
    ensures |r| == |s| && forall i :: 0 <= i < |s| ==> r[i] == Key(cls, s[i])
  {
    seq(|s|, i requires 0 <= i < |s| => Key(cls, s[i]))
  }

  /** The current detections, given the sorted ones and their current scores. */
  ghost predicate ObjNow(d0: seq<Det>, d: seq<Det>, s: seq<real>, total: nat) {
    && total == |s| <= |d| == |d0|
    && (forall x :: 0 <= x < total ==> d0[x].objectness != 0.0 && d0[x].sortClass == -1)
    && (forall x :: 0 <= x < total ==> d[x] == if s[x] == 0.0 then Dropped(d0[x]) else d0[x])
    && (forall x :: total <= x < |d| ==> d[x] == d0[x])
  }

  /** Column loop of do_nms_obj for one row. */
  method ObjRow(hit: Hit, dets: array<Det>, total: nat, i: nat, ghost d0: seq<Det>, ghost s: seq<real>) returns (ghost t: seq<real>)
    requires total <= dets.Length && i < total && ObjNow(d0, dets[..], s, total)
    requires Greedy(hit, BoxesOf(d0[..total]), KeysOf(-1, d0[..total]), s, i, 0)
    modifies dets
    ensures ObjNow(d0, dets[..], t, total)
    ensures Greedy(hit, BoxesOf(d0[..total]), KeysOf(-1, d0[..total]), t, i + 1, 0)
  {
    t := s;
    ghost var bs, s0 := BoxesOf(d0[..total]), KeysOf(-1, d0[..total]);
    GreedyEarlier(hit, bs, s0, t, i);
    if dets[i].objectness == 0.0 {
      GreedyNextRow(hit, bs, s0, t, i, i + 1);
      return;
    }
    var a := dets[i].bbox;
    for j := i + 1 to total
      invariant ObjNow(d0, dets[..], t, total) && Greedy(hit, bs, s0, t, i, j) && t[i] == s[i]
    {
      t := ObjPair(hit, dets, total, i, j, a, d0, t, bs, s0);
    }
    GreedyNextRow(hit, bs, s0, t, i, total);
  }

  /** One pair. */
  method ObjPair(hit: Hit, dets: array<Det>, total: nat, i: nat, j: nat, a: Box, ghost d0: seq<Det>, ghost s: seq<real>,
                 ghost bs: seq<Box>, ghost s0: seq<real>) returns (ghost t: seq<real>)
    requires total <= dets.Length && i < j < total && ObjNow(d0, dets[..], s, total) && a == dets[i].bbox && s[i] != 0.0
    requires bs == BoxesOf(d0[..total]) && s0 == KeysOf(-1, d0[..total])
    requires var greedy := Greedy(hit, bs, s0, s, i, j); greedy
    modifies dets
    ensures ObjNow(d0, dets[..], t, total) && t[i] == s[i]
    ensures var greedy := Greedy(hit, bs, s0, t, i, j + 1); greedy
  {
    t := s;
    if dets[j].objectness != 0.0 && hit(a, dets[j].bbox) {
      GreedyHit(hit, bs, s0, t, i, j);
      t := t[j := 0.0];
      dets[j] := ZeroProbs(dets[j]);
    } else {
      GreedyMiss(hit, bs, s0, t, i, j);
    }
  }

  /** The row loop. */
  method ObjRows(hit: Hit, dets: array<Det>, total: nat) returns (ghost s: seq<real>)
    requires total <= dets.Length && Symmetric(hit) && Ordered(dets[..], total, total, -1)
    requires forall x :: 0 <= x < total ==> dets[x].objectness != 0.0 && dets[x].sortClass == -1
    modifies dets
    ensures ObjNow(old(dets[..]), dets[..], s, total)
    ensures Suppressed(hit, BoxesOf(old(dets[..])[..total]), KeysOf(-1, old(dets[..])[..total]), s)
  {
    ghost var d0 := dets[..];
    ghost var bs, s0 := BoxesOf(d0[..total]), KeysOf(-1, d0[..total]);
    s := s0;
    GreedyStart(hit, bs, s0);
    for i := 0 to total
      invariant ObjNow(d0, dets[..], s, total) && Greedy(hit, bs, s0, s, i, 0)
    {
      s := ObjRow(hit, dets, total, i, d0, s);
    }
    GreedyEnd(hit, bs, s0, s, total, 0);
  }

  /** Set the sort class of the first n detections. */
  method Mark(dets: array<Det>, n: nat, cls: int)
    requires n <= dets.Length
    modifies dets
    ensures dets[..] == Marked(old(dets[..]), n, cls)
  {
    ghost var d0 := dets[..];
    for i := 0 to n
      invariant dets[..] == Marked(d0, i, cls)
    {
      dets[i] := dets[i].(sortClass := cls);
    }
  }

  function Marked(s: seq<Det>, n: nat, cls: int): (r: seq<Det>)
    ensures |r| == |s|
    ensures forall i :: 0 <= i < |s| ==> r[i] == if i < n then s[i].(sortClass := cls) else s[i]
  {
    seq(|s|, i requires 0 <= i < |s| => if i < n then s[i].(sortClass := cls) else s[i])
  }

  /** A permutation that fixes everything from n on keeps the first n together. */
  lemma PrefixClosed(p: Perm, n: nat, len: nat, i: nat)
    requires IsPerm(p, len) && FixedFrom(p, n) && n <= len && i < n
    ensures p.to[i] < n
  {
    var k := p.to[i];
    assert p.from[k] == i;
    assert p.from[p.to[k]] == k;
  }

  /** A detection after do_nms_obj: the same, or dropped. */
  predicate KeptOrDropped(was: Det, now: Det) {
    && now.bbox == was.bbox
    && (if now.objectness == 0.0 && was.objectness != 0.0 then now.prob == Zeros(|was.prob|)
        else now.objectness == was.objectness && now.prob == was.prob)
  }

  /**
   The promise of do_nms_obj: a permutation of the detections, some of them dropped; no two
   that keep their objectness hit each other; and every dropped one is hit by a kept one with
   at least its objectness.
   */
  ghost predicate ObjResult(hit: Hit, was: seq<Det>, now: seq<Det>, p: Perm) {
    && |was| == |now| && IsPerm(p, |now|)
    && (forall i :: 0 <= i < |now| ==> KeptOrDropped(was[p.to[i]], now[i]))
    && (forall i, j :: 0 <= i < |now| && 0 <= j < |now| && i != j && now[i].objectness != 0.0 && now[j].objectness != 0.0 ==>
          !hit(now[i].bbox, now[j].bbox))
    && (forall j :: 0 <= j < |now| && was[p.to[j]].objectness != 0.0 && now[j].objectness == 0.0 ==>
          exists i :: 0 <= i < |now| && now[i].objectness != 0.0 && hit(now[i].bbox, now[j].bbox)
                      && now[i].objectness >= was[p.to[j]].objectness)
  }

  /** `d` is `was` in another order, apart from the sort class, with the detections that have objectness first. */
  ghost predicate Origin(was: seq<Det>, d: seq<Det>, p: Perm, total: nat) {
    && |was| == |d| && IsPerm(p, |d|) && total <= |d|
    && forall i :: 0 <= i < |d| ==>
         d[i].(sortClass := 0) == was[p.to[i]].(sortClass := 0) && (i < total <==> d[i].objectness != 0.0)
  }

  lemma OriginSorted(was: seq<Det>, d1: seq<Det>, p1: Perm, d3: seq<Det>, p2: Perm, total: nat, cls: int)
    requires Origin(was, d1, p1, total)
    requires Reordered(Marked(d1, total, cls), d3, p2) && FixedFrom(p2, total)
    ensures Origin(was, d3, Then(p1, |d3|, p2, |d3|), total)
  {
    var n := |d3|;
    ThenIsPerm(p1, n, p2, n);
    forall i | 0 <= i < n
      ensures d3[i].(sortClass := 0) == was[Then(p1, n, p2, n).to[i]].(sortClass := 0) && (i < total <==> d3[i].objectness != 0.0)
    {
      assert d3[i] == Marked(d1, total, cls)[p2.to[i]];
      if i < total {
        PrefixClosed(p2, total, n, i);
      }
    }
  }

  lemma ObjAssemble(hit: Hit, was: seq<Det>, d3: seq<Det>, p: Perm, now: seq<Det>, total: nat, s: seq<real>)
    requires Origin(was, d3, p, total)
    requires ObjNow(d3, now, s, total) && Suppressed(hit, BoxesOf(d3[..total]), KeysOf(-1, d3[..total]), s)
    ensures ObjResult(hit, was, now, p)
  {
    forall i | 0 <= i < |now|
      ensures KeptOrDropped(was[p.to[i]], now[i])
    {
    }
    forall i | 0 <= i < total && s[i] != 0.0
      ensures s[i] == d3[i].objectness == now[i].objectness
    {
      assert s[i] == KeysOf(-1, d3[..total])[i];
    }
    forall i, j | 0 <= i < |now| && 0 <= j < |now| && i != j && now[i].objectness != 0.0 && now[j].objectness != 0.0
      ensures !hit(now[i].bbox, now[j].bbox)
    {
      assert BoxesOf(d3[..total])[i] == now[i].bbox && BoxesOf(d3[..total])[j] == now[j].bbox;
    }
    forall j | 0 <= j < |now| && was[p.to[j]].objectness != 0.0 && now[j].objectness == 0.0
      ensures exists i :: 0 <= i < |now| && now[i].objectness != 0.0 && hit(now[i].bbox, now[j].bbox)
                          && now[i].objectness >= was[p.to[j]].objectness
    {
      ObjExplained(hit, d3, now, total, s, j);
    }
  }

  lemma ObjExplained(hit: Hit, d3: seq<Det>, now: seq<Det>, total: nat, s: seq<real>, j: nat)
    requires ObjNow(d3, now, s, total) && Suppressed(hit, BoxesOf(d3[..total]), KeysOf(-1, d3[..total]), s)
    requires j < total && s[j] == 0.0
    ensures exists i :: 0 <= i < |now| && now[i].objectness != 0.0 && hit(now[i].bbox, now[j].bbox)
                        && now[i].objectness >= d3[j].objectness
  {
    var (bs, s0) := (BoxesOf(d3[..total]), KeysOf(-1, d3[..total]));
    assert s0[j] == d3[j].objectness;
    assert Better(hit, bs, s0, s, j);
    var i :| 0 <= i < |s| && s[i] != 0.0 && hit(bs[i], bs[j]) && s[i] >= s0[j];
    assert s[i] == s0[i] == now[i].objectness && bs[i] == now[i].bbox && bs[j] == now[j].bbox;
  }

  /** box_iou(a, b) > thresh. */
  function Overlapping(thresh: real): Hit { (a: Box, b: Box) => a.Positive() && b.Positive() && Iou(a, b) > thresh }

  /** A hit, by areas: the boxes share more than the threshold's part of what they cover together. */
  lemma OverlappingIff(thresh: real, a: Box, b: Box, shared: real, covered: real)
    requires a.Positive() && b.Positive() && (var common := CommonArea(a, b, shared); common) && covered == a.w * a.h + b.w * b.h - shared
    ensures Overlapping(thresh)(a, b) <==> shared > thresh * covered
  {
    IouAboveIff(a, b, shared, covered, thresh);
  }

  predicate AtMost(thresh: real, shared: real, covered: real) { shared <= thresh * covered }

  /** The common points of the boxes take at most the threshold's part of the area they cover together. */
  ghost predicate Clear(thresh: real, a: Box, b: Box) {
    forall shared, covered {:trigger AtMost(thresh, shared, covered)} ::
      CommonArea(a, b, shared) && covered == a.w * a.h + b.w * b.h - shared ==> AtMost(thresh, shared, covered)
  }

  lemma AtMostIff(thresh: real, a: Box, b: Box, shared: real, covered: real)
    requires a.Positive() && b.Positive() && (var common := CommonArea(a, b, shared); common) && covered == a.w * a.h + b.w * b.h - shared
    ensures AtMost(thresh, shared, covered) <==> !Overlapping(thresh)(a, b)
  {
    OverlappingIff(thresh, a, b, shared, covered);
  }

  lemma ClearUnlessHit(thresh: real, a: Box, b: Box)
    requires a.Positive() && b.Positive() && !Overlapping(thresh)(a, b)
    ensures Clear(thresh, a, b)
  {
    forall shared, covered {:trigger AtMost(thresh, shared, covered)} | CommonArea(a, b, shared) && covered == a.w * a.h + b.w * b.h - shared
      ensures AtMost(thresh, shared, covered)
    {
      AtMostIff(thresh, a, b, shared, covered);
    }
  }

  lemma HitUnlessClear(thresh: real, a: Box, b: Box, shared: real, covered: real)
    requires Clear(thresh, a, b) && CommonArea(a, b, shared) && covered == a.w * a.h + b.w * b.h - shared
    ensures AtMost(thresh, shared, covered)
  {
  }

  lemma ClearIff(thresh: real, a: Box, b: Box)
    requires a.Positive() && b.Positive()
    ensures var clear := Clear(thresh, a, b); clear <==> !Overlapping(thresh)(a, b)
  {
    if Overlapping(thresh)(a, b) {
      var shared := SomeCommonArea(a, b);
      var covered := a.w * a.h + b.w * b.h - shared;
      AtMostIff(thresh, a, b, shared, covered);
      if Clear(thresh, a, b) {
        HitUnlessClear(thresh, a, b, shared, covered);
      }
    } else {
      ClearUnlessHit(thresh, a, b);
    }
  }

  lemma OverlappingSymmetric(thresh: real)
    ensures Symmetric(Overlapping(thresh))
  {
    forall a: Box, b: Box
      ensures Overlapping(thresh)(a, b) == Overlapping(thresh)(b, a)
    {
      if a.Positive() && b.Positive() {
        IouLaws(a, b);
      }
    }
  }

  /** do_nms_obj. */
  method DoNmsObj(dets: array<Det>, thresh: real) returns (ghost p: Perm)
    requires forall i :: 0 <= i < dets.Length ==> dets[i].bbox.Positive()
    modifies dets
    ensures ObjResult(Overlapping(thresh), old(dets[..]), dets[..], p)
  {
    ghost var was := dets[..];
    OverlappingSymmetric(thresh);
    var total, p1 := Compact(dets);
    ghost var d1 := dets[..];
    Mark(dets, total, -1);
    ghost var p2 := Qsort(dets, total, -1);
    ghost var d3 := dets[..];
    OriginSorted(was, d1, p1, d3, p2, total, -1);
    SortedHaveClass(d1, d3, p2, total, -1);
    p := Then(p1, dets.Length, p2, dets.Length);
    ghost var s := ObjRows(Overlapping(thresh), dets, total);
    ObjAssemble(Overlapping(thresh), was, d3, p, dets[..], total, s);
  }

  /**
   do_nms_obj by areas: survivors are clear of each other, and whatever lost its score is not
   clear of a survivor with at least that score.
   */
  lemma ObjByAreas(thresh: real, was: seq<Det>, now: seq<Det>, p: Perm)
    requires (var result := ObjResult(Overlapping(thresh), was, now, p); result) && forall i :: 0 <= i < |now| ==> now[i].bbox.Positive()
    ensures forall i, j :: 0 <= i < |now| && 0 <= j < |now| && i != j && now[i].objectness != 0.0 && now[j].objectness != 0.0 ==>
              Clear(thresh, now[i].bbox, now[j].bbox)
    ensures forall j :: 0 <= j < |now| && was[p.to[j]].objectness != 0.0 && now[j].objectness == 0.0 ==>
              exists i :: 0 <= i < |now| && now[i].objectness != 0.0 && !Clear(thresh, now[i].bbox, now[j].bbox)
                          && now[i].objectness >= was[p.to[j]].objectness
  {
    forall i, j | 0 <= i < |now| && 0 <= j < |now|
      ensures Clear(thresh, now[i].bbox, now[j].bbox) <==> !Overlapping(thresh)(now[i].bbox, now[j].bbox)
    {
      ClearIff(thresh, now[i].bbox, now[j].bbox);
    }
  }

  lemma SortedHaveClass(d1: seq<Det>, d3: seq<Det>, p2: Perm, total: nat, cls: int)
    requires total <= |d1| && Reordered(Marked(d1, total, cls), d3, p2) && FixedFrom(p2, total)
    ensures SameClass(d3, total, cls)
  {
    forall x | 0 <= x < total
      ensures d3[x].sortClass == cls
    {
      PrefixClosed(p2, total, |d3|, x);
    }
  }

  // ---------------------------------------------------------------- do_nms_sort

  /** The original detections in the current order. */
  function Permuted(was: seq<Det>, p: Perm): (r: seq<Det>)
    requires IsPerm(p, |was|)
    ensures |r| == |was| && forall i :: 0 <= i < |was| ==> r[i] == was[p.to[i]]
  {
    seq(|was|, i requires 0 <= i < |was| => was[p.to[i]])
  }

  /** Detection i still counts for class k. */
  predicate Stands(d: seq<Det>, k: nat, i: nat) {
    i < |d| && k < |d[i].prob| && d[i].objectness != 0.0 && d[i].prob[k] != 0.0
  }

  /** A standing detection with at least the score that b had hits b. */
  ghost predicate Beaten(hit: Hit, was: seq<Det>, now: seq<Det>, k: nat, b: nat)
    requires |was| == |now| && b < |now| && k < |was[b].prob|
  {
    exists a :: 0 <= a < |now| && Stands(now, k, a) && hit(now[a].bbox, now[b].bbox) && now[a].prob[k] >= was[b].prob[k]
  }

  /** Same detections, position by position, apart from class probabilities and sort class. */
  ghost predicate Frame(was: seq<Det>, now: seq<Det>, total: nat, classes: nat) {
    && |was| == |now| && total <= |now|
    && forall i :: 0 <= i < |now| ==>
         && now[i].bbox == was[i].bbox && now[i].objectness == was[i].objectness
         && |now[i].prob| == |was[i].prob| == classes
         && (i < total <==> now[i].objectness != 0.0)
         && (i >= total ==> now[i].prob == was[i].prob)
  }

  /** Class k after its turn: the same promise as do_nms_obj gives, on its probabilities. */
  ghost predicate ClassDone(hit: Hit, was: seq<Det>, now: seq<Det>, k: nat) {
    && |was| == |now|
    && (forall i :: 0 <= i < |now| ==> k < |was[i].prob| && k < |now[i].prob|)
    && (forall i :: 0 <= i < |now| ==> now[i].prob[k] == was[i].prob[k] || now[i].prob[k] == 0.0)
    && (forall a, b :: 0 <= a < |now| && 0 <= b < |now| && a != b && Stands(now, k, a) && Stands(now, k, b) ==>
          !hit(now[a].bbox, now[b].bbox))
    && (forall b :: 0 <= b < |now| && was[b].prob[k] != 0.0 && now[b].prob[k] == 0.0 ==> Beaten(hit, was, now, k, b))
  }

  /** Class k before its turn. */
  ghost predicate ClassPending(was: seq<Det>, now: seq<Det>, k: nat) {
    && |was| == |now|
    && (forall i :: 0 <= i < |now| ==> k < |was[i].prob| && k < |now[i].prob| && now[i].prob[k] == was[i].prob[k])
  }

  /** Classes below k are done and the others untouched, with `was` already in the current order. */
  ghost predicate Progress(hit: Hit, was: seq<Det>, now: seq<Det>, k: nat, classes: nat) {
    && (forall c :: 0 <= c < k ==> ClassDone(hit, was, now, c))
    && (forall c :: k <= c < classes ==> ClassPending(was, now, c))
  }

  /** `t` is `s` rearranged by q, apart from the sort class. */
  ghost predicate Moved(s: seq<Det>, t: seq<Det>, q: Perm) {
    && |s| == |t| && IsPerm(q, |t|)
    && forall i :: 0 <= i < |t| ==> t[i].(sortClass := 0) == s[q.to[i]].(sortClass := 0)
  }

  lemma DoneMoves(hit: Hit, was: seq<Det>, now: seq<Det>, was': seq<Det>, now': seq<Det>, q: Perm, k: nat)
    requires ClassDone(hit, was, now, k) && Moved(was, was', q) && Moved(now, now', q)
    ensures ClassDone(hit, was', now', k)
  {
    forall a, b | 0 <= a < |now'| && 0 <= b < |now'| && a != b && Stands(now', k, a) && Stands(now', k, b)
      ensures !hit(now'[a].bbox, now'[b].bbox)
    {
      assert Stands(now, k, q.to[a]) && Stands(now, k, q.to[b]);
      assert q.from[q.to[a]] == a && q.from[q.to[b]] == b;
    }
    forall b | 0 <= b < |now'| && was'[b].prob[k] != 0.0 && now'[b].prob[k] == 0.0
      ensures Beaten(hit, was', now', k, b)
    {
      assert Beaten(hit, was, now, k, q.to[b]);
      var a :| 0 <= a < |now| && Stands(now, k, a) && hit(now[a].bbox, now[q.to[b]].bbox) && now[a].prob[k] >= was[q.to[b]].prob[k];
      assert q.to[q.from[a]] == a;
      assert Stands(now', k, q.from[a]);
    }
  }

  /** A change to other classes does not matter. */
  lemma DoneKept(hit: Hit, was: seq<Det>, now: seq<Det>, now': seq<Det>, k: nat)
    requires ClassDone(hit, was, now, k) && |now'| == |now|
    requires forall i :: 0 <= i < |now| ==> now'[i].bbox == now[i].bbox && now'[i].objectness == now[i].objectness
                                            && k < |now'[i].prob| && now'[i].prob[k] == now[i].prob[k]
    ensures ClassDone(hit, was, now', k)
  {
    forall a, b | 0 <= a < |now'| && 0 <= b < |now'| && a != b && Stands(now', k, a) && Stands(now', k, b)
      ensures !hit(now'[a].bbox, now'[b].bbox)
    {
      assert Stands(now, k, a) && Stands(now, k, b);
    }
    forall b | 0 <= b < |now'| && was[b].prob[k] != 0.0 && now'[b].prob[k] == 0.0
      ensures Beaten(hit, was, now', k, b)
    {
      var a :| 0 <= a < |now| && Stands(now, k, a) && hit(now[a].bbox, now[b].bbox) && now[a].prob[k] >= was[b].prob[k];
      assert Stands(now', k, a);
    }
  }

  /** The current detections, given the sorted ones and the current scores of class k. */
  ghost predicate SortNow(d0: seq<Det>, d: seq<Det>, s: seq<real>, total: nat, k: nat) {
    && total == |s| <= |d| == |d0|
    && (forall x :: 0 <= x < |d0| ==> k < |d0[x].prob|)
    && (forall x :: 0 <= x < total ==> d[x] == d0[x].(prob := d0[x].prob[k := s[x]]))
    && (forall x :: total <= x < |d| ==> d[x] == d0[x])
  }

  function WithoutClass(d: Det, k: nat): Det
    requires k < |d.prob|
  {
    d.(prob := d.prob[k := 0.0])
  }

  lemma SortNowHit(d0: seq<Det>, d: seq<Det>, s: seq<real>, total: nat, k: nat, j: nat)
    requires SortNow(d0, d, s, total, k) && j < total
    ensures k < |d[j].prob| && SortNow(d0, d[j := WithoutClass(d[j], k)], s[j := 0.0], total, k)
  {
    assert d[j].prob[k := 0.0] == d0[j].prob[k := 0.0];
  }

  /** Column loop of do_nms_sort for one row; a column that is already zero is set again. */
  method SortRow(hit: Hit, dets: array<Det>, total: nat, k: nat, i: nat, ghost d0: seq<Det>, ghost s: seq<real>) returns (ghost t: seq<real>)
    requires total <= dets.Length && i < total && SortNow(d0, dets[..], s, total, k)
    requires Greedy(hit, BoxesOf(d0[..total]), KeysOf(k, d0[..total]), s, i, 0)
    modifies dets
    ensures SortNow(d0, dets[..], t, total, k)
    ensures Greedy(hit, BoxesOf(d0[..total]), KeysOf(k, d0[..total]), t, i + 1, 0)
  {
    t := s;
    ghost var bs, s0 := BoxesOf(d0[..total]), KeysOf(k, d0[..total]);
    GreedyEarlier(hit, bs, s0, t, i);
    if dets[i].prob[k] == 0.0 {
      GreedyNextRow(hit, bs, s0, t, i, i + 1);
      return;
    }
    var a := dets[i].bbox;
    for j := i + 1 to total
      invariant SortNow(d0, dets[..], t, total, k) && Greedy(hit, bs, s0, t, i, j) && t[i] == s[i]
    {
      if hit(a, dets[j].bbox) {
        GreedyHit(hit, bs, s0, t, i, j);
        SortNowHit(d0, dets[..], t, total, k, j);
        t := t[j := 0.0];
        dets[j] := WithoutClass(dets[j], k);
      } else {
        GreedyMiss(hit, bs, s0, t, i, j);
      }
    }
    GreedyNextRow(hit, bs, s0, t, i, total);
  }

  method SortRows(hit: Hit, dets: array<Det>, total: nat, k: nat) returns (ghost s: seq<real>)
    requires total <= dets.Length && Symmetric(hit) && Ordered(dets[..], total, total, k)
    requires forall x :: 0 <= x < dets.Length ==> k < |dets[x].prob|
    modifies dets
    ensures SortNow(old(dets[..]), dets[..], s, total, k)
    ensures Suppressed(hit, BoxesOf(old(dets[..])[..total]), KeysOf(k, old(dets[..])[..total]), s)
  {
    ghost var d0 := dets[..];
    ghost var bs, s0 := BoxesOf(d0[..total]), KeysOf(k, d0[..total]);
    s := s0;
    GreedyStart(hit, bs, s0);
    assert SortNow(d0, dets[..], s, total, k);
    for i := 0 to total
      invariant SortNow(d0, dets[..], s, total, k) && Greedy(hit, bs, s0, s, i, 0)
    {
      s := SortRow(hit, dets, total, k, i, d0, s);
    }
    GreedyEnd(hit, bs, s0, s, total, 0);
  }

  /** Class k's promise, from what the rows leave. */
  lemma ClassFinished(hit: Hit, was: seq<Det>, d3: seq<Det>, now: seq<Det>, total: nat, s: seq<real>, k: nat, classes: nat)
    requires Frame(was, d3, total, classes) && k < classes && ClassPending(was, d3, k)
    requires SortNow(d3, now, s, total, k) && Suppressed(hit, BoxesOf(d3[..total]), KeysOf(k, d3[..total]), s)
    ensures ClassDone(hit, was, now, k)
  {
    var (bs, s0) := (BoxesOf(d3[..total]), KeysOf(k, d3[..total]));
    forall i | 0 <= i < |now|
      ensures now[i].prob[k] == was[i].prob[k] || now[i].prob[k] == 0.0
    {
      if i < total {
        assert s[i] == s0[i] || s[i] == 0.0;
      }
    }
    forall a, b | 0 <= a < |now| && 0 <= b < |now| && a != b && Stands(now, k, a) && Stands(now, k, b)
      ensures !hit(now[a].bbox, now[b].bbox)
    {
      assert bs[a] == now[a].bbox && bs[b] == now[b].bbox;
    }
    forall b | 0 <= b < |now| && was[b].prob[k] != 0.0 && now[b].prob[k] == 0.0
      ensures Beaten(hit, was, now, k, b)
    {
      assert s0[b] == was[b].prob[k];
      assert Better(hit, bs, s0, s, b);
      var a :| 0 <= a < |s| && s[a] != 0.0 && hit(bs[a], bs[b]) && s[a] >= s0[b];
      assert Stands(now, k, a) && bs[a] == now[a].bbox && bs[b] == now[b].bbox;
    }
  }

  lemma ProgressMoves(hit: Hit, was: seq<Det>, now: seq<Det>, was': seq<Det>, now': seq<Det>, q: Perm, k: nat, classes: nat)
    requires Progress(hit, was, now, k, classes) && Moved(was, was', q) && Moved(now, now', q)
    ensures Progress(hit, was', now', k, classes)
  {
    forall c | 0 <= c < k
      ensures ClassDone(hit, was', now', c)
    {
      DoneMoves(hit, was, now, was', now', q, c);
    }
    forall c | k <= c < classes
      ensures ClassPending(was', now', c)
    {
      assert ClassPending(was, now, c);
    }
  }

  lemma ProgressStep(hit: Hit, was: seq<Det>, d3: seq<Det>, now: seq<Det>, total: nat, s: seq<real>, k: nat, classes: nat)
    requires Frame(was, d3, total, classes) && k < classes && Progress(hit, was, d3, k, classes)
    requires SortNow(d3, now, s, total, k) && Suppressed(hit, BoxesOf(d3[..total]), KeysOf(k, d3[..total]), s)
    ensures Frame(was, now, total, classes) && Progress(hit, was, now, k + 1, classes)
  {
    assert ClassPending(was, d3, k);
    ClassFinished(hit, was, d3, now, total, s, k, classes);
    forall c | 0 <= c < k
      ensures ClassDone(hit, was, now, c)
    {
      DoneKept(hit, was, d3, now, c);
    }
    forall c | k + 1 <= c < classes
      ensures ClassPending(was, now, c)
    {
      assert ClassPending(was, d3, c);
    }
  }

  lemma FrameMoves(was: seq<Det>, now: seq<Det>, was': seq<Det>, now': seq<Det>, q: Perm, total: nat, classes: nat)
    requires Frame(was, now, total, classes) && Moved(was, was', q) && Moved(now, now', q) && FixedFrom(q, total)
    ensures Frame(was', now', total, classes)
  {
    forall i | 0 <= i < |now'|
      ensures i < total <==> now'[i].objectness != 0.0
    {
      if i < total {
        PrefixClosed(q, total, |now'|, i);
      }
    }
  }

  /** Sorting moves the detections and their originals alike. */
  lemma SortMoves(hit: Hit, was: seq<Det>, p: Perm, d1: seq<Det>, d3: seq<Det>, q: Perm, r: Perm, total: nat, k: nat, classes: nat)
    requires IsPerm(p, |was|) && Reordered(Marked(d1, total, k), d3, q) && FixedFrom(q, total) && |was| == |d3|
    requires r == Then(p, |was|, q, |was|)
    requires Frame(Permuted(was, p), d1, total, classes) && Progress(hit, Permuted(was, p), d1, k, classes)
    ensures IsPerm(r, |was|) && Frame(Permuted(was, r), d3, total, classes) && Progress(hit, Permuted(was, r), d3, k, classes)
  {
    ThenIsPerm(p, |was|, q, |was|);
    var (w, w') := (Permuted(was, p), Permuted(was, r));
    assert Moved(w, w', q) && Moved(d1, d3, q);
    FrameMoves(w, d1, w', d3, q, total, classes);
    ProgressMoves(hit, w, d1, w', d3, q, k, classes);
  }

  /** The turn of class k: mark, sort, suppress. */
  method SortClass(hit: Hit, dets: array<Det>, total: nat, k: nat, classes: nat, ghost was: seq<Det>, ghost p: Perm) returns (ghost r: Perm)
    requires Symmetric(hit) && k < classes && |was| == dets.Length && IsPerm(p, |was|)
    requires Frame(Permuted(was, p), dets[..], total, classes) && Progress(hit, Permuted(was, p), dets[..], k, classes)
    modifies dets
    ensures IsPerm(r, |was|)
    ensures Frame(Permuted(was, r), dets[..], total, classes) && Progress(hit, Permuted(was, r), dets[..], k + 1, classes)
  {
    ghost var d1 := dets[..];
    Mark(dets, total, k);
    ghost var q := Qsort(dets, total, k);
    ghost var d3 := dets[..];
    r := Then(p, |was|, q, |was|);
    SortMoves(hit, was, p, d1, d3, q, r, total, k, classes);
    ghost var s := SortRows(hit, dets, total, k);
    ProgressStep(hit, Permuted(was, r), d3, dets[..], total, s, k, classes);
  }

  /**
   The promise of do_nms_sort: a permutation of the detections in which only class
   probabilities of detections with objectness may have become zero, and each class meets its
   own suppression promise.
   */
  ghost predicate SortResult(hit: Hit, was: seq<Det>, now: seq<Det>, p: Perm, total: nat, classes: nat) {
    && |was| == |now| && IsPerm(p, |was|)
    && Frame(Permuted(was, p), now, total, classes)
    && forall k :: 0 <= k < classes ==> ClassDone(hit, Permuted(was, p), now, k)
  }

  /** do_nms_sort. */
  method DoNmsSort(dets: array<Det>, classes: nat, thresh: real) returns (ghost p: Perm, ghost total: nat)
    requires forall i :: 0 <= i < dets.Length ==> dets[i].bbox.Positive() && |dets[i].prob| == classes
    modifies dets
    ensures SortResult(Overlapping(thresh), old(dets[..]), dets[..], p, total, classes)
  {
    ghost var was := dets[..];
    OverlappingSymmetric(thresh);
    var count;
    count, p := Compact(dets);
    total := count;
    for k := 0 to classes
      invariant IsPerm(p, |was|)
      invariant Frame(Permuted(was, p), dets[..], count, classes)
      invariant Progress(Overlapping(thresh), Permuted(was, p), dets[..], k, classes)
    {
      p := SortClass(Overlapping(thresh), dets, count, k, classes, was, p);
    }
  }

  /** do_nms_sort by areas, for one class. */
  lemma ClassByAreas(thresh: real, was: seq<Det>, now: seq<Det>, k: nat)
    requires (var done := ClassDone(Overlapping(thresh), was, now, k); done) && forall i :: 0 <= i < |now| ==> now[i].bbox.Positive()
    ensures forall i, j :: 0 <= i < |now| && 0 <= j < |now| && i != j && Stands(now, k, i) && Stands(now, k, j) ==>
              Clear(thresh, now[i].bbox, now[j].bbox)
    ensures forall j :: 0 <= j < |now| && was[j].prob[k] != 0.0 && now[j].prob[k] == 0.0 ==>
              exists i :: 0 <= i < |now| && Stands(now, k, i) && !Clear(thresh, now[i].bbox, now[j].bbox) && now[i].prob[k] >= was[j].prob[k]
  {
    forall i, j | 0 <= i < |now| && 0 <= j < |now|
      ensures Clear(thresh, now[i].bbox, now[j].bbox) <==> !Overlapping(thresh)(now[i].bbox, now[j].bbox)
    {
      ClearIff(thresh, now[i].bbox, now[j].bbox);
    }
    forall j | 0 <= j < |now| && was[j].prob[k] != 0.0 && now[j].prob[k] == 0.0
      ensures exists i :: 0 <= i < |now| && Stands(now, k, i) && !Clear(thresh, now[i].bbox, now[j].bbox) && now[i].prob[k] >= was[j].prob[k]
    {
      assert Beaten(Overlapping(thresh), was, now, k, j);
    }
  }
}
