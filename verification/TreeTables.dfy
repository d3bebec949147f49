/**
 The class hierarchy tables that read_tree builds from one parent index per line. Lines with
 the same parent that follow each other form a group.
 */
module TreeTables {

  datatype Tree = Tree(parent: seq<int>, child: seq<int>, group: seq<nat>, groupOffset: seq<nat>, groupSize: seq<nat>, leaf: seq<bool>)

  /** Every parent stands on an earlier line; negative means none. */
  predicate ParentsFirst(ps: seq<int>) { forall j :: 0 <= j < |ps| ==> ps[j] < j }

  /** Line j stays in the group of the line before exactly when the parent is the same. */
  predicate SplitsAt(ps: seq<int>, group: seq<nat>, j: nat)
    requires 0 < j < |ps| == |group|
  {
    group[j] == group[j - 1] <==> ps[j] == ps[j - 1]
  }

  predicate InRange(off: seq<nat>, size: seq<nat>, g: nat, j: nat)
    requires g < |off| == |size|
  {
    off[g] <= j < off[g] + size[g]
  }

  predicate Placed(group: seq<nat>, off: seq<nat>, size: seq<nat>, j: nat)
    requires j < |group| && |off| == |size|
  {
    group[j] < |off| && InRange(off, size, group[j], j)
  }

  /** The groups are consecutive ranges that partition the lines. */
  ghost predicate Partition(group: seq<nat>, off: seq<nat>, size: seq<nat>) {
    && |off| == |size| >= 1
    && (forall j {:trigger Placed(group, off, size, j)} :: 0 <= j < |group| ==> Placed(group, off, size, j))
    && (forall g :: 0 <= g < |off| ==> off[g] + size[g] <= |group|)
    && (forall g, j {:trigger InRange(off, size, g, j)} :: 0 <= g < |off| && 0 <= j && InRange(off, size, g, j) ==> j < |group| && group[j] == g)
    && (forall i, j {:trigger Placed(group, off, size, i), Placed(group, off, size, j)} :: 0 <= i <= j < |group| ==> group[i] <= group[j])
  }

  /** One parent for each group; neighbouring groups have different parents; group 0 has none. */
  ghost predicate OneParent(ps: seq<int>, group: seq<nat>) {
    && |group| == |ps|
    && (forall i, j :: 0 <= i < |ps| && 0 <= j < |ps| && group[i] == group[j] ==> ps[i] == ps[j])
    && (forall j {:trigger SplitsAt(ps, group, j)} :: 0 < j < |ps| ==> SplitsAt(ps, group, j))
    && (forall j :: 0 <= j < |ps| && group[j] == 0 ==> ps[j] == -1)
  }

  /** child[p] is the last group whose parent is p, or -1. */
  ghost predicate ChildOk(ps: seq<int>, child: seq<int>, group: seq<nat>, p: nat)
    requires p < |ps| == |child| == |group|
  {
    && child[p] >= -1
    && (forall j :: 0 <= j < |ps| && ps[j] == p ==> group[j] <= child[p])
    && (child[p] >= 0 ==> exists j :: 0 <= j < |ps| && ps[j] == p && group[j] == child[p])
  }

  ghost predicate ChildrenOk(ps: seq<int>, child: seq<int>, group: seq<nat>) {
    && |ps| == |child| == |group|
    && forall p {:trigger ChildOk(ps, child, group, p)} :: 0 <= p < |ps| ==> ChildOk(ps, child, group, p)
  }

  ghost predicate TablesOk(ps: seq<int>, child: seq<int>, group: seq<nat>, off: seq<nat>, size: seq<nat>) {
    ParentsFirst(ps) && Partition(group, off, size) && OneParent(ps, group) && ChildrenOk(ps, child, group)
  }

  ghost predicate TreeOk(t: Tree) {
    && TablesOk(t.parent, t.child, t.group, t.groupOffset, t.groupSize)
    && |t.leaf| == |t.parent|
    && forall i :: 0 <= i < |t.leaf| ==> (t.leaf[i] <==> forall j :: 0 <= j < |t.parent| ==> t.parent[j] != i)
  }

  lemma OneParentEach(ps: seq<int>, group: seq<nat>, i: nat, j: nat)
    requires OneParent(ps, group) && i < |ps| && j < |ps| && ps[i] != ps[j]
    ensures group[i] != group[j]
  {
  }

  /** Going down to a child group always moves to a later group. */
  lemma GroupsIncrease(t: Tree, p: nat)
    requires TreeOk(t) && p < |t.parent| && t.child[p] >= 0
    ensures t.group[p] < t.child[p] < |t.groupOffset|
  {
    assert ChildOk(t.parent, t.child, t.group, p);
    var j :| 0 <= j < |t.parent| && t.parent[j] == p && t.group[j] == t.child[p];
    assert Placed(t.group, t.groupOffset, t.groupSize, p) && Placed(t.group, t.groupOffset, t.groupSize, j);
    OneParentEach(t.parent, t.group, p, j);
  }

  /** A child group is not empty, and all its lines have the node as their parent. */
  lemma ChildGroup(t: Tree, p: nat)
    requires TreeOk(t) && p < |t.parent| && t.child[p] >= 0
    ensures 0 < t.child[p] < |t.groupOffset| && t.groupSize[t.child[p]] > 0
    ensures forall j :: 0 <= j < |t.parent| && t.group[j] == t.child[p] ==> t.parent[j] == p
  {
    GroupsIncrease(t, p);
    assert ChildOk(t.parent, t.child, t.group, p);
    var j :| 0 <= j < |t.parent| && t.parent[j] == p && t.group[j] == t.child[p];
    assert Placed(t.group, t.groupOffset, t.groupSize, j);
  }

  /** A node is a leaf exactly when it has no child group. */
  lemma LeafIffChildless(t: Tree, p: nat)
    requires TreeOk(t) && p < |t.parent|
    ensures t.leaf[p] <==> t.child[p] < 0
  {
    assert ChildOk(t.parent, t.child, t.group, p);
  }

  // ---------------------------------------------------------------- read_tree

  /** A new node without children, which makes g the child group of its parent. */
  function WithChild(child: seq<int>, parent: int, g: nat): seq<int>
    requires parent < |child|
  {
    if parent >= 0 then (child + [-1])[parent := g] else child + [-1]
  }

  lemma ChildrenGrow(ps: seq<int>, child: seq<int>, group: seq<nat>, parent: int, g: nat)
    requires ChildrenOk(ps, child, group) && parent < |ps| && ParentsFirst(ps)
    requires forall j :: 0 <= j < |ps| ==> group[j] <= g
    ensures ChildrenOk(ps + [parent], WithChild(child, parent, g), group + [g])
  {
    var (ps', group') := (ps + [parent], group + [g]);
    var child' := WithChild(child, parent, g);
    forall p | 0 <= p < |ps'|
      ensures ChildOk(ps', child', group', p)
    {
      if p == parent {
        assert ps'[|ps|] == p && group'[|ps|] == child'[p];
        forall j | 0 <= j < |ps'| && ps'[j] == p
          ensures group'[j] <= g
        {
        }
      } else if p < |ps| {
        assert ChildOk(ps, child, group, p);
        if child[p] >= 0 {
          var j :| 0 <= j < |ps| && ps[j] == p && group[j] == child[p];
          assert ps'[j] == p && group'[j] == child'[p];
        }
      }
    }
  }

  /** What is read so far; the last entry of the group tables is the group still open. */
  ghost predicate Reading(ps: seq<int>, child: seq<int>, group: seq<nat>, off: seq<nat>, size: seq<nat>, last: int) {
    && TablesOk(ps, child, group, off, size)
    && off[|off| - 1] + size[|off| - 1] == |ps|
    && (ps == [] ==> last == -1 && |off| == 1)
    && (ps != [] ==> last == ps[|ps| - 1] && group[|ps| - 1] == |off| - 1)
  }

  lemma OneParentGrows(ps: seq<int>, group: seq<nat>, parent: int, g: nat)
    requires OneParent(ps, group) && (g == 0 ==> parent == -1)
    requires ps != [] ==> (group[|ps| - 1] == g <==> ps[|ps| - 1] == parent)
    requires forall j :: 0 <= j < |ps| && group[j] == g ==> ps[j] == parent
    ensures OneParent(ps + [parent], group + [g])
  {
    var (ps', group') := (ps + [parent], group + [g]);
    forall j {:trigger SplitsAt(ps', group', j)} | 0 < j < |ps'|
      ensures SplitsAt(ps', group', j)
    {
      assert j < |ps| ==> SplitsAt(ps, group, j);
    }
  }

  lemma PartitionJoins(group: seq<nat>, off: seq<nat>, size: seq<nat>, g: nat)
    requires Partition(group, off, size) && g + 1 == |off| && off[g] + size[g] == |group|
    ensures Partition(group + [g], off, size[g := size[g] + 1])
  {
    var (group', size') := (group + [g], size[g := size[g] + 1]);
    forall j | 0 <= j < |group'|
      ensures Placed(group', off, size', j) && group'[j] <= g && (j < |group| ==> Placed(group, off, size, j))
    {
      assert j < |group| ==> Placed(group, off, size, j);
    }
    forall h, j {:trigger InRange(off, size', h, j)} | 0 <= h < |off| && 0 <= j && InRange(off, size', h, j)
      ensures j < |group'| && group'[j] == h
    {
      assert off[h] + size[h] <= |group|;
      if j < |group| {
        assert InRange(off, size, h, j);
      }
    }
  }

  lemma PartitionOpens(group: seq<nat>, off: seq<nat>, size: seq<nat>)
    requires Partition(group, off, size)
    ensures Partition(group + [|off|], off + [|group|], size + [1])
  {
    var (group', off', size') := (group + [|off|], off + [|group|], size + [1]);
    forall j | 0 <= j < |group'|
      ensures Placed(group', off', size', j) && group'[j] <= |off| && (j < |group| ==> Placed(group, off, size, j))
    {
      assert j < |group| ==> Placed(group, off, size, j);
    }
    forall h, j {:trigger InRange(off', size', h, j)} | 0 <= h < |off'| && 0 <= j && InRange(off', size', h, j)
      ensures j < |group'| && group'[j] == h
    {
      if h < |off| {
        assert off[h] + size[h] <= |group|;
        assert InRange(off, size, h, j);
      }
    }
  }

  lemma GroupsBounded(group: seq<nat>, off: seq<nat>, size: seq<nat>)
    requires Partition(group, off, size)
    ensures forall j :: 0 <= j < |group| ==> group[j] < |off|
  {
    forall j | 0 <= j < |group|
      ensures group[j] < |off|
    {
      assert Placed(group, off, size, j);
    }
  }

  lemma JoinsGroup(ps: seq<int>, child: seq<int>, group: seq<nat>, off: seq<nat>, size: seq<nat>, parent: int)
    requires Reading(ps, child, group, off, size, parent) && parent < |ps|
    ensures var g := |off| - 1;
            Reading(ps + [parent], WithChild(child, parent, g), group + [g], off, size[g := size[g] + 1], parent)
  {
    var g := |off| - 1;
    GroupsBounded(group, off, size);
    PartitionJoins(group, off, size, g);
    ChildrenGrow(ps, child, group, parent, g);
    OneParentGrows(ps, group, parent, g);
  }

  lemma OpensGroup(ps: seq<int>, child: seq<int>, group: seq<nat>, off: seq<nat>, size: seq<nat>, last: int, parent: int)
    requires Reading(ps, child, group, off, size, last) && parent != last && parent < |ps|
    ensures Reading(ps + [parent], WithChild(child, parent, |off|), group + [|off|], off + [|ps|], size + [1], parent)
  {
    GroupsBounded(group, off, size);
    PartitionOpens(group, off, size);
    ChildrenGrow(ps, child, group, parent, |off|);
    OneParentGrows(ps, group, parent, |off|);
  }

  function Close(s: seq<nat>, v: nat): seq<nat> { s + [v] }

  /** The tables while reading: `open` counts the lines of the group that is not closed yet. */
  ghost predicate Open(ps: seq<int>, child: seq<int>, group: seq<nat>, off: seq<nat>, size: seq<nat>, last: int, open: nat) {
    && open <= |ps| == |group| == |child| && |off| == |size|
    && Reading(ps, child, group, Close(off, |ps| - open), Close(size, open), last)
  }

  lemma OpenJoins(ps: seq<int>, child: seq<int>, group: seq<nat>, off: seq<nat>, size: seq<nat>, parent: int, open: nat)
    requires Open(ps, child, group, off, size, parent, open) && parent < |ps|
    ensures Open(ps + [parent], WithChild(child, parent, |off|), group + [|off|], off, size, parent, open + 1)
  {
    JoinsGroup(ps, child, group, Close(off, |ps| - open), Close(size, open), parent);
    assert Close(size, open)[|off| := open + 1] == Close(size, open + 1);
  }

  lemma OpenOpens(ps: seq<int>, child: seq<int>, group: seq<nat>, off: seq<nat>, size: seq<nat>, last: int, open: nat, parent: int)
    requires Open(ps, child, group, off, size, last, open) && parent != last && parent < |ps|
    ensures Open(ps + [parent], WithChild(child, parent, |off| + 1), group + [|off| + 1], Close(off, |ps| - open), Close(size, open), parent, 1)
  {
    OpensGroup(ps, child, group, Close(off, |ps| - open), Close(size, open), last, parent);
  }

  /** One line of read_tree. */
  method ReadLine(p: int, n: nat, ghost ps: seq<int>, child: seq<int>, group: seq<nat>, off: seq<nat>, size: seq<nat>, last: int, open: nat)
    returns (child': seq<int>, group': seq<nat>, off': seq<nat>, size': seq<nat>, last': int, open': nat)
    requires n == |ps| && p < n && (var isOpen := Open(ps, child, group, off, size, last, open); isOpen)
    ensures var isOpen := Open(ps + [p], child', group', off', size', last', open'); isOpen
  {
    if p != last {
      off', size', last', open' := Close(off, n - open), Close(size, open), p, 1;
      child', group' := WithChild(child, p, |off| + 1), group + [|off| + 1];
      OpenOpens(ps, child, group, off, size, last, open, p);
    } else {
      off', size', last', open' := off, size, last, open + 1;
      child', group' := WithChild(child, p, |off|), group + [|off|];
      OpenJoins(ps, child, group, off, size, last, open);
    }
  }

  /** The line loop of read_tree, with the last group closed after it. */
  method ReadLines(parents: seq<int>) returns (child: seq<int>, group: seq<nat>, offsets: seq<nat>, sizes: seq<nat>)
    requires ParentsFirst(parents)
    ensures TablesOk(parents, child, group, offsets, sizes)
  {
    child, group, offsets, sizes := [], [], [], [];
    var last, open: nat, n: nat := -1, 0, 0;
    ghost var ps: seq<int> := [];
    OpenStart();
    while n < |parents|
      invariant n <= |parents| && ps == parents[..n] && (var isOpen := Open(ps, child, group, offsets, sizes, last, open); isOpen)
    {
      child, group, offsets, sizes, last, open := ReadLine(parents[n], n, ps, child, group, offsets, sizes, last, open);
      ps := ps + [parents[n]];
      n := n + 1;
    }
    assert ps == parents;
    offsets, sizes := Close(offsets, n - open), Close(sizes, open);
  }

  lemma OpenStart()
    ensures Open([], [], [], [], [], -1, 0)
  {
  }

  /** read_tree, from the parent index of each line. */
  method ReadTree(parents: seq<int>) returns (t: Tree)
    requires ParentsFirst(parents)
    ensures t.parent == parents && TreeOk(t)
  {
    var child, group, offsets, sizes := ReadLines(parents);
    var leaf := MarkLeaves(parents);
    t := Tree(parents, child, group, offsets, sizes, leaf);
  }

  /** The last two loops of read_tree. */
  method MarkLeaves(parent: seq<int>) returns (leaf: seq<bool>)
    requires ParentsFirst(parent)
    ensures |leaf| == |parent|
    ensures forall i :: 0 <= i < |leaf| ==> (leaf[i] <==> forall j :: 0 <= j < |parent| ==> parent[j] != i)
  {
    leaf := seq(|parent|, _ => true);
    for j := 0 to |parent|
      invariant |leaf| == |parent|
      invariant forall i :: 0 <= i < |leaf| ==> (leaf[i] <==> forall k :: 0 <= k < j ==> parent[k] != i)
    {
      if parent[j] >= 0 {
        leaf := leaf[parent[j] := false];
      }
    }
  }
}
