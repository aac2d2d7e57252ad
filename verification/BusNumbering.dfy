/**
  What the bus scan achieves from a cold start: bus numbers are handed out depth first, every
  finished bridge has an exact interval of bus numbers, and `find_bus` is right at every step.
*/
module BusNumbering {
  import opened Common
  import opened BusTree
  import opened BusAlloc
  import opened BusScan

  // ---------------------------------------------------------------- the reference numbering

  /** One numbered bridge: the bus it sits on, its function and its class code. */
  datatype Rec = Rec(parent: nat, devfn: nat, classCode: nat)

  /** The depth-first plan: which bridges get the numbers `next`, `next + 1`, ... and in what order. */
  function Plan(hw: Bus, devfn: nat, bus: nat, next: nat): (r: seq<Rec>)
    requires devfn <= 256
    decreases hw, 256 - devfn
  {
    if devfn == 256 then []
    else if IsBridge(hw, devfn) then
      var sub := [Rec(bus, devfn, ClassAt(hw, devfn))] + Plan(hw.fns[devfn].below, 0, next, next + 1);
      sub + Plan(hw, devfn + 1, bus, next + |sub|)
    else Plan(hw, devfn + 1, bus, next)
  }

  // ---------------------------------------------------------------- invariants of the tree

  /** Bus numbers are creation order, and the links agree with them. */
  predicate NodeOk(ns: seq<Node>, i: nat) {
    i < |ns| ==>
      && ns[i].sec == i && ns[i].dev.Some?
      && (i == 0 ==> ns[0].pri == 0 && ns[0].dev.value.bus == 0 && ns[0].dev.value.header == 0)
      && (i > 0 ==> && 0 <= ns[i].parent < i && ns[i].pri == ns[i].parent == ns[i].prev
                    && ns[i].dev.value.bus == ns[i].parent && ns[i].dev.value.header == 1)
  }

  predicate KidsAscend(ns: seq<Node>, p: nat) {
    p < |ns| ==> forall j, k :: 0 <= j < k < |ns[p].kids| ==> ns[p].kids[j] < ns[p].kids[k]
  }

  /** `end[i]` closes an interval that starts at `i` and stays inside the parent's. */
  predicate EndOk(ns: seq<Node>, end: seq<nat>, i: nat) {
    i < |ns| == |end| ==>
      && i <= end[i] < |ns|
      && (i > 0 ==> 0 <= ns[i].parent < i && end[i] <= end[ns[i].parent])
  }

  predicate ApartOk(ns: seq<Node>, end: seq<nat>, i: nat, j: nat) {
    0 < i < j < |ns| == |end| && ns[i].parent == ns[j].parent ==> end[i] < j
  }

  /** Nested intervals: `end[i]` is the last number below `i`. */
  ghost predicate Nested(ns: seq<Node>, end: seq<nat>) {
    && 0 < |ns| == |end| && end[0] == |ns| - 1
    && (forall i: nat {:trigger EndOk(ns, end, i)} :: EndOk(ns, end, i))
    && (forall i: nat, j: nat {:trigger ApartOk(ns, end, i, j)} :: ApartOk(ns, end, i, j))
  }

  /** Consecutive buses of the path are parent and child. */
  predicate PathLink(ns: seq<Node>, path: seq<nat>, k: nat) {
    0 < k < |path| && path[k] < |ns| ==> ns[path[k]].parent == path[k - 1]
  }

  /** The buses being scanned right now, from bus 0 down to the current one. */
  ghost predicate PathOk(ns: seq<Node>, path: seq<nat>) {
    && path != [] && path[0] == 0
    && (forall k :: 0 <= k < |path| ==> path[k] < |ns|)
    && (forall k: nat {:trigger PathLink(ns, path, k)} :: PathLink(ns, path, k))
    && (forall j, k :: 0 <= j < k < |path| ==> path[j] < path[k])
  }

  function Top(path: seq<nat>): (r: nat)
    requires path != []
  {
    path[|path| - 1]
  }

  /** A finished bridge has its exact subordinate number; an open one still grows. */
  predicate SettledOk(ns: seq<Node>, path: seq<nat>, end: seq<nat>, i: nat) {
    i < |ns| == |end| ==> if i in path then end[i] == |ns| - 1 else ns[i].sub == end[i]
  }

  ghost predicate Core(ns: seq<Node>, path: seq<nat>, end: seq<nat>) {
    && TreeShape(ns) && Nested(ns, end) && PathOk(ns, path)
    && (forall i: nat {:trigger NodeOk(ns, i)} :: NodeOk(ns, i))
    && (forall p: nat {:trigger KidsAscend(ns, p)} :: KidsAscend(ns, p))
    && (forall i: nat {:trigger SettledOk(ns, path, end, i)} :: SettledOk(ns, path, end, i))
  }

  // ---------------------------------------------------------------- intervals are subtrees

  /** The ancestor of `i` (or `i` itself) that is a child of `p`. */
  lemma {:induction false} BranchToward(ns: seq<Node>, p: nat, i: nat) returns (c: nat)
    requires Below(ns, p, i) && p != i
    ensures 0 < c <= i && c < |ns| && ns[c].parent == p && Below(ns, c, i)
    decreases i
  {
    if ns[i].parent == p {
      c := i;
    } else {
      c := BranchToward(ns, p, ns[i].parent);
    }
  }

  lemma {:induction false} BelowEnd(ns: seq<Node>, end: seq<nat>, i: nat, j: nat)
    requires Nested(ns, end) && i < |ns| && j < |ns| && Below(ns, i, j)
    ensures i <= j <= end[j] <= end[i]
    decreases j
  {
    assert EndOk(ns, end, j);
    if i != j {
      BelowEnd(ns, end, i, ns[j].parent);
    }
  }

  lemma {:induction false} IntervalBelow(ns: seq<Node>, end: seq<nat>, i: nat, j: nat)
    requires Nested(ns, end) && i <= j < |ns| && j <= end[i]
    ensures Below(ns, i, j)
    decreases j
  {
    if i < j {
      assert EndOk(ns, end, j);
      if ns[j].parent < i {
        IntervalBelow(ns, end, ns[j].parent, i);
        EarlierBranchEnds(ns, end, i, j);
      }
      assert i <= ns[j].parent;
      IntervalBelow(ns, end, i, ns[j].parent);
    }
  }

  /** A node of an earlier branch ends before the next branch starts. */
  lemma {:induction false} EarlierBranchEnds(ns: seq<Node>, end: seq<nat>, i: nat, j: nat)
    requires Nested(ns, end) && 0 < i < j < |ns| && 0 <= ns[j].parent < i && Below(ns, ns[j].parent, i)
    ensures end[i] < j
  {
    var c := BranchToward(ns, ns[j].parent, i);
    BelowEnd(ns, end, c, i);
    assert ApartOk(ns, end, c, j);
  }

  /** The numbers below a node are exactly its interval. */
  lemma {:induction false} IntervalIsSubtree(ns: seq<Node>, end: seq<nat>, i: nat, j: nat)
    requires Nested(ns, end) && i < |ns| && j < |ns|
    ensures Below(ns, i, j) <==> i <= j <= end[i]
  {
    if Below(ns, i, j) {
      BelowEnd(ns, end, i, j);
    }
    if i <= j <= end[i] {
      IntervalBelow(ns, end, i, j);
    }
  }

  /** A node without children ends at itself. */
  lemma {:induction false} LeafEnds(ns: seq<Node>, end: seq<nat>, i: nat)
    requires TreeShape(ns) && Nested(ns, end) && i < |ns| && ns[i].kids == []
    ensures end[i] == i
  {
    assert EndOk(ns, end, i);
    if end[i] > i {
      IntervalBelow(ns, end, i, end[i]);
      var k := ChildToward(ns, i, end[i]);
    }
  }

  /** The state half-way through a scan is one in which the single-path walk is right. */
  lemma {:induction false} CoreIsSearchable(ns: seq<Node>, path: seq<nat>, end: seq<nat>)
    requires Core(ns, path, end)
    ensures Searchable(ns)
  {
    forall i, j | 0 <= i < |ns| && 0 <= j < |ns| && Below(ns, i, j) ensures ns[i].sec <= ns[j].sec {
      BelowIsYounger(ns, i, j);
      assert NodeOk(ns, i) && NodeOk(ns, j);
    }
    forall p, k, m, j | 0 <= p < |ns| && 0 <= k < m < |ns[p].kids| && 0 <= j < |ns| &&
                        Below(ns, ns[p].kids[m], j)
      ensures ns[ns[p].kids[k]].sub < ns[j].sec
    {
      CoreSiblings(ns, path, end, p, k, m, j);
    }
    forall p, k, j | 0 <= p < |ns| && 0 <= k < |ns[p].kids| - 1 && 0 <= j < |ns| &&
                     Below(ns, ns[p].kids[k], j)
      ensures ns[j].sec <= ns[ns[p].kids[k]].sub
    {
      CoreSiblings(ns, path, end, p, k, k + 1, j);
    }
  }

  lemma {:induction false} CoreSiblings(ns: seq<Node>, path: seq<nat>, end: seq<nat>, p: nat, k: nat, m: nat, j: nat)
    requires Core(ns, path, end) && p < |ns| && k < m < |ns[p].kids| && j < |ns|
    ensures Below(ns, ns[p].kids[m], j) ==> ns[ns[p].kids[k]].sub < ns[j].sec
    ensures Below(ns, ns[p].kids[k], j) ==> ns[j].sec <= ns[ns[p].kids[k]].sub
  {
    var a, b := ns[p].kids[k], ns[p].kids[m];
    assert KidOk(ns, p, k) && KidOk(ns, p, m) && KidsAscend(ns, p);
    assert ApartOk(ns, end, a, b) && SettledOk(ns, path, end, a) && NodeOk(ns, j);
    IntervalIsSubtree(ns, end, a, j);
    IntervalIsSubtree(ns, end, b, j);
  }

  /** At every point of the scan `find_bus` is an exhaustive search, and finds the node itself. */
  lemma {:induction false} FindDuringScan(ns: seq<Node>, path: seq<nat>, end: seq<nat>, b: nat)
    requires Core(ns, path, end)
    ensures Find(ns, b) == if b < |ns| then Some(b) else None
  {
    CoreIsSearchable(ns, path, end);
    FindIsExhaustive(ns, b);
    assert NodeOk(ns, b);
    if Find(ns, b).Some? {
      assert NodeOk(ns, Find(ns, b).value);
    }
    if b < |ns| {
      assert ns[b].sec == b;
    }
  }
}
