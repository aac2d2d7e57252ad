/**
  `make_name`: the name of the resource pool of a bus, such as `pcimemory/Bus0/Bus2-pref`.  The walk
  towards the root starts at the parent and takes its primary bus, so the parent itself is skipped.
*/
module BusNames {
  import opened Common
  import opened BusTree
  import opened BusAlloc
  import opened BusScan
  import opened BusNumbering
  import opened BusServer

  const MAX_BUSES := 10
  const NAME_SIZE := 100

  datatype Space = PciMemory | IoPort

  // ---------------------------------------------------------------- the index list

  /** The primary bus numbers met on the way up from node `j`, as long as they are not 0. */
  ghost function Ups(ns: seq<Node>, j: int): (r: seq<nat>)
    requires TreeShape(ns) && -1 <= j < |ns|
    decreases if j < 0 then -1 else if ns[j].parent < 0 then 0 else ns[j].parent + 1, if j < 0 then 0 else Position(ns, j)
  {
    if j < 0 || ns[j].pri == 0 then []
    else if j == 0 then [ns[0].pri]
    else
      PrevDecreases(ns, j);
      [ns[j].pri] + Ups(ns, ns[j].prev)
  }

  /** The array `x` that `make_name` fills, or none for an unknown bus. */
  ghost function Indices(ns: seq<Node>, bus: nat): (r: Option<seq<nat>>)
    requires TreeShape(ns)
    ensures r.Some? ==> |r.value| > 0 && r.value[0] == bus
  {
    if bus == 0 then Some([0])
    else
      match Find(ns, bus)
      case None => None
      case Some(i) =>
        LinksInside(ns, i);
        Some([bus] + (if ns[i].pri == 0 || ns[i].prev < 0 then [] else Ups(ns, ns[i].prev)) + [0])
  }

  // ---------------------------------------------------------------- the name

  function Digit(n: nat): (r: char)
    requires n < 10
  {
    '0' + n as char
  }

  /** `%d` for a non-negative number. */
  function Decimal(n: nat): (r: string)
    ensures r != [] && forall k :: 0 <= k < |r| ==> '0' <= r[k] <= '9'
    ensures n < 100 ==> |r| <= 2
    ensures n < 1000 ==> |r| <= 3
  {
    if n < 10 then [Digit(n)] else Decimal(n / 10) + [Digit(n % 10)]
  }

  function Value(s: string): (r: nat)
    requires forall k :: 0 <= k < |s| ==> '0' <= s[k] <= '9'
  {
    if s == [] then 0 else 10 * Value(s[..|s| - 1]) + (s[|s| - 1] - '0') as nat
  }

  lemma {:induction false} DecimalValue(n: nat)
    ensures Value(Decimal(n)) == n
  {
    if n >= 10 {
      DecimalValue(n / 10);
      var d := Decimal(n);
      assert d[..|d| - 1] == Decimal(n / 10);
    }
  }

  function Component(bus: nat): (r: string) { "/Bus" + Decimal(bus) }

  /** The components in reverse order of the array. */
  function Components(xs: seq<nat>): (r: string) {
    if xs == [] then "" else Components(xs[1..]) + Component(xs[0])
  }

  function Prefix(space: Space): (r: string) {
    if space == PciMemory then "pcimemory" else "io"
  }

  function Suffix(pref: bool): (r: string) { if pref then "-pref" else "" }

  function Name(space: Space, xs: seq<nat>, pref: bool): (r: string) {
    Prefix(space) + Components(xs) + Suffix(pref)
  }

  /** What follows the last slash. */
  function Tail(s: string): (r: string) {
    if s == [] then [] else if s[|s| - 1] == '/' then [] else Tail(s[..|s| - 1]) + [s[|s| - 1]]
  }

  lemma {:induction false} TailAfterSlash(a: string, b: string)
    requires '/' !in b
    ensures Tail(a + "/" + b) == b
  {
    var s := a + "/" + b;
    if b != [] {
      assert s[..|s| - 1] == a + "/" + b[..|b| - 1];
      TailAfterSlash(a, b[..|b| - 1]);
      assert b == b[..|b| - 1] + [b[|b| - 1]];
    }
  }

  lemma {:induction false} Regroup(a: string, b: string, slash: string, d: string, t: string)
    ensures a + (b + (slash + d)) + t == (a + b) + slash + (d + t)
  {
  }

  /** The last component of a name is the bus itself, with the suffix. */
  lemma {:induction false} TailOfName(space: Space, xs: seq<nat>, pref: bool)
    requires xs != []
    ensures Tail(Name(space, xs, pref)) == "Bus" + Decimal(xs[0]) + Suffix(pref)
  {
    var a, d, t := Prefix(space) + Components(xs[1..]), Decimal(xs[0]), Suffix(pref);
    assert Component(xs[0]) == "/" + ("Bus" + d);
    Regroup(Prefix(space), Components(xs[1..]), "/", "Bus" + d, t);
    TailAfterSlash(a, "Bus" + d + t);
  }

  lemma {:induction false} NumbersWithSuffix(n: nat, m: nat, p: bool, q: bool)
    requires "Bus" + Decimal(n) + Suffix(p) == "Bus" + Decimal(m) + Suffix(q)
    ensures n == m && p == q
  {
    var s := "Bus" + Decimal(n) + Suffix(p);
    assert p ==> s[|s| - 1] == 'f';
    assert !p ==> s[|s| - 1] == Decimal(n)[|Decimal(n)| - 1];
    assert !q ==> s[|s| - 1] == Decimal(m)[|Decimal(m)| - 1];
    assert q ==> s[|s| - 1] == 'f';
    assert Decimal(n) == s[3..|s| - |Suffix(p)|] == Decimal(m);
    DecimalValue(n);
    DecimalValue(m);
  }

  /** Different (space, bus, prefetch) never share a pool name, whatever the walk in between. */
  lemma {:induction false} NameIsInjective(ns: seq<Node>, s1: Space, b1: nat, p1: bool, s2: Space, b2: nat, p2: bool)
    requires TreeShape(ns) && Indices(ns, b1).Some? && Indices(ns, b2).Some?
    ensures Name(s1, Indices(ns, b1).value, p1) == Name(s2, Indices(ns, b2).value, p2)
            <==> s1 == s2 && b1 == b2 && p1 == p2
  {
    var x1, x2 := Indices(ns, b1).value, Indices(ns, b2).value;
    if Name(s1, x1, p1) == Name(s2, x2, p2) {
      assert Name(s1, x1, p1)[0] == Prefix(s1)[0] && Name(s2, x2, p2)[0] == Prefix(s2)[0];
      TailOfName(s1, x1, p1);
      TailOfName(s2, x2, p2);
      NumbersWithSuffix(b1, b2, p1, p2);
    }
  }

  // ---------------------------------------------------------------- buffer sizes

  lemma {:induction false} ComponentsLength(xs: seq<nat>)
    requires xs != [] && xs[|xs| - 1] == 0 && forall k :: 0 <= k < |xs| ==> xs[k] < 256
    ensures |Components(xs)| <= 7 * |xs| - 2
  {
    if |xs| > 1 {
      ComponentsLength(xs[1..]);
    } else {
      assert Decimal(0) == "0";
      assert xs[1..] == [];
    }
  }

  /** With at most ten indices the name and its terminating zero fit the buffer. */
  lemma {:induction false} NameFits(space: Space, xs: seq<nat>, pref: bool)
    requires 0 < |xs| <= MAX_BUSES && xs[|xs| - 1] == 0 && forall k :: 0 <= k < |xs| ==> xs[k] < 256
    ensures |Name(space, xs, pref)| < NAME_SIZE
  {
    ComponentsLength(xs);
  }

  /** How many bridges lie between bus 0 and node `i`. */
  function Depth(ns: seq<Node>, i: nat): (r: nat)
    requires i < |ns|
    ensures r <= i
  {
    if i > 0 && 0 <= ns[i].parent < i then 1 + Depth(ns, ns[i].parent) else 0
  }

  lemma {:induction false} UpsLength(ns: seq<Node>, path: seq<nat>, end: seq<nat>, j: nat)
    requires Core(ns, path, end) && 0 < j < |ns|
    ensures |Ups(ns, j)| == Depth(ns, j) - 1
    ensures forall k :: 0 <= k < |Ups(ns, j)| ==> Ups(ns, j)[k] < |ns|
  {
    assert NodeOk(ns, j);
    if ns[j].pri > 0 {
      UpsLength(ns, path, end, ns[j].prev);
    }
  }

  /** The index array is overrun exactly for buses more than ten bridges deep. */
  lemma {:induction false} IndicesFitIff(ns: seq<Node>, path: seq<nat>, end: seq<nat>, bus: nat)
    requires Core(ns, path, end) && bus < |ns|
    ensures Indices(ns, bus).Some? && (|Indices(ns, bus).value| <= MAX_BUSES <==> Depth(ns, bus) <= MAX_BUSES)
    ensures var xs := Indices(ns, bus).value;
            xs[|xs| - 1] == 0 && forall k :: 0 <= k < |xs| ==> xs[k] < |ns|
  {
    FindDuringScan(ns, path, end, bus);
    assert NodeOk(ns, bus);
    if bus > 0 && ns[bus].pri > 0 {
      UpsLength(ns, path, end, ns[bus].prev);
    }
  }

  /** So for trees at most ten bridges deep neither buffer is overrun. */
  lemma {:induction false} NoBufferIsOverrun(ns: seq<Node>, path: seq<nat>, end: seq<nat>, space: Space, bus: nat,
          pref: bool)
    requires Core(ns, path, end) && |ns| <= 256 && bus < |ns| && Depth(ns, bus) <= MAX_BUSES
    ensures Indices(ns, bus).Some? && |Indices(ns, bus).value| <= MAX_BUSES
    ensures |Name(space, Indices(ns, bus).value, pref)| < NAME_SIZE
  {
    IndicesFitIff(ns, path, end, bus);
    NameFits(space, Indices(ns, bus).value, pref);
  }

  // ---------------------------------------------------------------- the method

  /** The walk of `make_name` from node `j` upwards, appending to the array `x`. */
  method WalkUp(server: Server, start: BusMap?, x: array<nat>, first: nat, ghost j0: int) returns (cnt: nat)
    requires server.Valid() && -1 <= j0 < |server.nodes| && start == At(server.objs, j0)
    requires first + |Ups(server.nodes, j0)| <= x.Length
    modifies x
    ensures cnt == first + |Ups(server.nodes, j0)|
    ensures x[..cnt] == old(x[..first]) + Ups(server.nodes, j0)
  {
    ghost var ns, j := server.nodes, j0;
    var node := start;
    cnt := first;
    while node != null
      invariant -1 <= j < |ns| && node == At(server.objs, j) && first <= cnt
      invariant cnt + |Ups(ns, j)| == first + |Ups(ns, j0)|
      invariant x[..cnt] + Ups(ns, j) == old(x[..first]) + Ups(ns, j0)
      decreases if j < 0 then -1 else if ns[j].parent < 0 then 0 else ns[j].parent + 1,
                if j < 0 then 0 else Position(ns, j)
    {
      assert Mirrors(server.objs, ns, j);
      LinksInside(ns, j);
      if node.primary == 0 {
        break;
      }
      if j > 0 {
        PrevDecreases(ns, j);
      }
      ghost var ups, done := Ups(ns, j), x[..cnt];
      assert ups == [node.primary] + ups[1..] && ups[1..] == Ups(ns, ns[j].prev);
      x[cnt] := node.primary;
      cnt := cnt + 1;
      assert x[..cnt] == done + [node.primary];
      assert done + [node.primary] + ups[1..] == done + ups;
      node := node.prev;
      j := ns[j].prev;
    }
  }

  /** The array of bus numbers from the bus itself up to bus 0. */
  method FillIndices(server: Server, bus: nat) returns (x: array<nat>, cnt: nat)
    requires server.Valid()
    requires Indices(server.nodes, bus).Some? ==> |Indices(server.nodes, bus).value| <= MAX_BUSES
    ensures fresh(x) && cnt <= x.Length
    ensures match Indices(server.nodes, bus)
            case None => cnt == 0
            case Some(xs) => x[..cnt] == xs
  {
    ghost var ns := server.nodes;
    x := new nat[MAX_BUSES];
    cnt := 0;
    if bus != 0 {
      var own := server.FindBus(bus);
      if own == null {
        return;
      }
      ghost var i := Find(ns, bus).value;
      assert Mirrors(server.objs, ns, i);
      LinksInside(ns, i);
      x[0] := bus;
      cnt := 1;
      if own.primary != 0 {
        cnt := WalkUp(server, own.prev, x, 1, ns[i].prev);
      }
    }
    x[cnt] := 0;
    cnt := cnt + 1;
  }

  /** `make_name`; -1 (here None) when the bus is unknown. */
  method MakeName(server: Server, space: Space, bus: nat, pref: bool) returns (name: Option<string>)
    requires server.Valid()
    requires Indices(server.nodes, bus).Some? ==> |Indices(server.nodes, bus).value| <= MAX_BUSES
    ensures name == match Indices(server.nodes, bus)
                    case None => None
                    case Some(xs) => Some(Name(space, xs, pref))
  {
    var x, cnt := FillIndices(server, bus);
    if cnt == 0 {
      return None;
    }
    var s := Join(space, x, cnt);
    return Some(s + Suffix(pref));
  }

  /** The loop that appends one component after the other, from bus 0 down to the bus itself. */
  method Join(space: Space, x: array<nat>, cnt: nat) returns (s: string)
    requires cnt <= x.Length
    ensures s == Prefix(space) + Components(x[..cnt])
  {
    ghost var xs := x[..cnt];
    s := Prefix(space);
    var k := cnt;
    while k > 0
      invariant 0 <= k <= cnt && s == Prefix(space) + Components(xs[k..])
    {
      k := k - 1;
      ComponentsStep(xs, k);
      Reassociate(Prefix(space), Components(xs[k + 1..]), Component(xs[k]));
      s := s + Component(x[k]);
    }
    assert xs[0..] == xs;
  }

  lemma {:induction false} ComponentsStep(xs: seq<nat>, k: nat)
    requires k < |xs|
    ensures Components(xs[k..]) == Components(xs[k + 1..]) + Component(xs[k])
  {
    assert xs[k..][1..] == xs[k + 1..];
  }

  lemma {:induction false} Reassociate(a: string, b: string, c: string)
    ensures (a + b) + c == a + (b + c)
  {
  }
}
