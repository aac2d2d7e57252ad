/**
  The tree of bus structures that the PCI server builds: one node per bus, in the order in which
  `alloc_bus` created them.  A node lists its children in `peer` order; the C fields `next` and
  `peer` are the first child and the following sibling.
*/
module BusTree {
  import opened Common

  /** The bridge function that leads to a bus, as far as the numbering code reads its `Device`. */
  datatype BridgeFn = BridgeFn(bus: nat, devfn: nat, header: nat, classCode: nat)

  /** One `BUSMAP`; `parent` and `prev` are indices of other nodes, or -1. */
  datatype Node = Node(pri: nat, sec: nat, sub: nat, parent: int, prev: int, kids: seq<nat>,
                       dev: Option<BridgeFn>)

  /** Every child is younger than its parent: the `next`/`peer` links cannot form a cycle. */
  predicate Acyclic(ns: seq<Node>) {
    forall p, k :: 0 <= p < |ns| && 0 <= k < |ns[p].kids| ==> p < ns[p].kids[k] < |ns|
  }

  /** The k-th child of `p` names `p` as its parent and primary bus; `prev` is `p` or the child before it. */
  predicate KidOk(ns: seq<Node>, p: nat, k: nat) {
    p < |ns| && k < |ns[p].kids| ==>
      var c := ns[p].kids[k];
      && p < c < |ns|
      && ns[c].parent == p && ns[c].pri == ns[p].sec
      && (ns[c].prev == p || (k > 0 && ns[c].prev == ns[p].kids[k - 1]))
  }

  /** Node `i` hangs below an older node. */
  predicate HangsOk(ns: seq<Node>, i: nat) {
    0 < i < |ns| ==> 0 <= ns[i].parent < i && i in ns[ns[i].parent].kids
  }

  predicate KidsDistinct(ns: seq<Node>, p: nat) {
    p < |ns| ==> forall j, k :: 0 <= j < k < |ns[p].kids| ==> ns[p].kids[j] != ns[p].kids[k]
  }

  /** The nodes form one tree rooted at node 0. */
  ghost predicate TreeShape(ns: seq<Node>) {
    && Acyclic(ns)
    && (|ns| > 0 ==> ns[0].parent == -1 && ns[0].prev == -1)
    && (forall p: nat, k: nat {:trigger KidOk(ns, p, k)} :: KidOk(ns, p, k))
    && (forall i: nat {:trigger HangsOk(ns, i)} :: HangsOk(ns, i))
    && (forall p: nat {:trigger KidsDistinct(ns, p)} :: KidsDistinct(ns, p))
  }

  /** Node `j` lies in the subtree of node `i`. */
  predicate Below(ns: seq<Node>, i: nat, j: nat) {
    i == j || (0 < j < |ns| && 0 <= ns[j].parent < j && Below(ns, i, ns[j].parent))
  }

  // ---------------------------------------------------------------- find_bus

  /**
    `find_bus` from the sibling list `ks` on: the head is the node the C loop looks at, the tail is
    its `peer` chain.  All of `ks` is younger than `p`.
  */
  function Walk(ns: seq<Node>, p: int, ks: seq<nat>, b: nat): (r: Option<nat>)
    requires Acyclic(ns)
    requires -1 <= p < |ns| && forall k :: 0 <= k < |ks| ==> p < ks[k] < |ns|
    ensures r.Some? ==> r.value < |ns| && ns[r.value].sec == b
    decreases |ns| - p, |ks|
  {
    if ks == [] then None
    else
      var i := ks[0];
      if ns[i].sec == b then Some(i)
      else if ns[i].sec < b then
        if ns[i].sub < b then
          if |ks| > 1 then Walk(ns, p, ks[1..], b)
          else Walk(ns, i, ns[i].kids, b)
        else
          if ns[i].kids != [] then Walk(ns, i, ns[i].kids, b)
          else Walk(ns, p, ks[1..], b)
      else Walk(ns, p, ks[1..], b)
  }

  /** `find_bus`: the single-path walk from the root. */
  function Find(ns: seq<Node>, b: nat): (r: Option<nat>)
    requires Acyclic(ns)
    ensures r.Some? ==> r.value < |ns| && ns[r.value].sec == b
  {
    if ns == [] then None else Walk(ns, -1, [0], b)
  }

  /** Exhaustive search: some node carries bus number `b`. */
  predicate Listed(ns: seq<Node>, b: nat) {
    exists i :: 0 <= i < |ns| && ns[i].sec == b
  }

  /** Numbers grow downwards. */
  ghost predicate NumbersGrow(ns: seq<Node>) {
    forall i, j :: 0 <= i < |ns| && 0 <= j < |ns| && Below(ns, i, j) ==> ns[i].sec <= ns[j].sec
  }

  /** Every sibling but the last has a subordinate number that bounds its own subtree. */
  ghost predicate SubtreesBounded(ns: seq<Node>)
    requires Acyclic(ns)
  {
    forall p, k, j | 0 <= p < |ns| && 0 <= k < |ns[p].kids| - 1 && 0 <= j < |ns| &&
                     Below(ns, ns[p].kids[k], j)
      :: ns[j].sec <= ns[ns[p].kids[k]].sub
  }

  /** ... and that lies below every number of the siblings after it. */
  ghost predicate SiblingsApart(ns: seq<Node>)
    requires Acyclic(ns)
  {
    forall p, k, m, j | 0 <= p < |ns| && 0 <= k < m < |ns[p].kids| && 0 <= j < |ns| &&
                        Below(ns, ns[p].kids[m], j)
      :: ns[ns[p].kids[k]].sub < ns[j].sec
  }

  /**
    What the single-path walk needs.  The last node of a sibling list may have any subordinate
    number, so the predicate holds half-way through a scan.
  */
  ghost predicate Searchable(ns: seq<Node>) {
    TreeShape(ns) && NumbersGrow(ns) && SubtreesBounded(ns) && SiblingsApart(ns)
  }

  /** A proper descendant lies below one of the children. */
  lemma {:induction false} ChildToward(ns: seq<Node>, i: nat, t: nat) returns (k: nat)
    requires TreeShape(ns) && i < |ns| && t < |ns| && Below(ns, i, t) && i != t
    ensures k < |ns[i].kids| && Below(ns, ns[i].kids[k], t)
    decreases t
  {
    assert HangsOk(ns, t);
    if ns[t].parent == i {
      k :| 0 <= k < |ns[i].kids| && ns[i].kids[k] == t;
    } else {
      k := ChildToward(ns, i, ns[t].parent);
    }
  }

  lemma {:induction false} BelowIsYounger(ns: seq<Node>, i: nat, j: nat)
    requires Below(ns, i, j)
    ensures i <= j
    decreases j
  {
    if i != j {
      BelowIsYounger(ns, i, ns[j].parent);
    }
  }

  lemma {:induction false} BelowTransitive(ns: seq<Node>, i: nat, j: nat, k: nat)
    requires Below(ns, i, j) && Below(ns, j, k)
    ensures Below(ns, i, k)
    decreases k
  {
    if j != k {
      BelowTransitive(ns, i, j, ns[k].parent);
    }
  }

  /** Following parents from any node ends at the root: nothing is unreachable. */
  lemma {:induction false} AllBelowRoot(ns: seq<Node>, j: nat)
    requires TreeShape(ns) && j < |ns|
    ensures Below(ns, 0, j)
    decreases j
  {
    if j != 0 {
      assert HangsOk(ns, j);
      AllBelowRoot(ns, ns[j].parent);
    }
  }

  lemma {:induction false} WalkFinds(ns: seq<Node>, p: nat, k: nat, m: nat, t: nat)
    requires Searchable(ns) && p < |ns| && k <= m < |ns[p].kids| && t < |ns|
    requires Below(ns, ns[p].kids[m], t)
    ensures Walk(ns, p, ns[p].kids[k..], ns[t].sec).Some?
    decreases |ns| - p, |ns[p].kids| - k
  {
    var ks, b := ns[p].kids[k..], ns[t].sec;
    var i := ks[0];
    assert i == ns[p].kids[k];
    assert ks[1..] == ns[p].kids[k + 1..];
    if ns[i].sec == b {
    } else if m == k {
      assert ns[i].sec < b;
      if |ks| > 1 {
        assert k < |ns[p].kids| - 1;
      }
      var c := ChildToward(ns, i, t);
      WalkFinds(ns, i, 0, c, t);
      assert ns[i].kids[0..] == ns[i].kids;
    } else {
      assert ns[i].sub < b;
      WalkFinds(ns, p, k + 1, m, t);
    }
  }

  /** The fast single-path lookup agrees with a search of all nodes. */
  lemma {:induction false} FindIsExhaustive(ns: seq<Node>, b: nat)
    requires Searchable(ns)
    ensures Find(ns, b).Some? <==> Listed(ns, b)
  {
    if Listed(ns, b) {
      var t :| 0 <= t < |ns| && ns[t].sec == b;
      AllBelowRoot(ns, t);
      if t != 0 {
        assert ns[0].sec <= b;
        var c := ChildToward(ns, 0, t);
        WalkFinds(ns, 0, 0, c, t);
        assert ns[0].kids[0..] == ns[0].kids;
      }
    }
  }
}
