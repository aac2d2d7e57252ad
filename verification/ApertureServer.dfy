/**
  The aperture loops as they run: bus structures linked by `prev`, updated in place.
*/
module ApertureServer {
  import opened Common
  import opened Apertures
  import opened ApertureShares

  /** The fields of `BUSMAP` that one kind of aperture uses. */
  class ApertureMap {
    const sec: nat
    /** The class code of `bdev`. */
    const classCode: nat
    var prev: ApertureMap?
    var reqd: nat
    var start: nat
    var end: nat

    constructor (sec: nat, classCode: nat, prev: ApertureMap?, reqd: nat)
      ensures this.sec == sec && this.classCode == classCode && this.prev == prev && this.reqd == reqd
      ensures start == 0 && end == 0
    {
      this.sec, this.classCode, this.prev, this.reqd := sec, classCode, prev, reqd;
      start, end := 0, 0;
    }
  }

  /**
    Structure number `i` holds `s`, and `prev` points to the structure that `s.parent` names; `hbc` is
    `host_bridge_class`.
  */
  predicate Holds(maps: seq<ApertureMap>, i: nat, s: Span, hbc: nat)
    requires i < |maps| && -1 <= s.parent < i
    reads maps[i]
  {
    && maps[i].sec == s.sec && maps[i].reqd == s.reqd && maps[i].start == s.start && maps[i].end == s.end
    && s.host == (maps[i].classCode == hbc)
    && maps[i].prev == if s.parent < 0 then null else maps[s.parent]
  }

  ghost predicate Reflects(maps: seq<ApertureMap>, t: seq<Span>, hbc: nat)
    reads maps
  {
    && |maps| == |t| && WellLinked(t)
    && (forall i, j :: 0 <= i < j < |maps| ==> maps[i] != maps[j])
    && (forall i: nat {:trigger Holds(maps, i, t[i], hbc)} :: i < |maps| ==> Holds(maps, i, t[i], hbc))
  }

  /** `find_bus`, by its contract. */
  method FindMap(maps: seq<ApertureMap>, b: nat, ghost t: seq<Span>, ghost hbc: nat) returns (map': ApertureMap?,
          ghost i: Option<nat>)
    requires Reflects(maps, t, hbc)
    ensures i == Lookup(t, b)
    ensures match i case Some(k) => k < |maps| && map' == maps[k] case None => map' == null
  {
    var n := |maps|;
    map', i := null, None;
    assert t[..n] == t;
    while n > 0 && map' == null
      invariant 0 <= n <= |maps| && (map' != null ==> i.Some? && i.value < |maps| && map' == maps[i.value] && i == Lookup(t, b))
      invariant map' == null ==> i == None && Lookup(t, b) == Lookup(t[..n], b)
    {
      n := n - 1;
      assert Holds(maps, n, t[n], hbc) && t[..n + 1][..n] == t[..n];
      if maps[n].sec == b {
        map', i := maps[n], Some(n);
      }
    }
  }

  /** One requirement of the rounding pass of `PCI_Startup`; `g` is KB4 or MEG1. */
  method RoundOne(map': ApertureMap, total: nat, g: nat) returns (total': nat)
    requires 0 < g
    modifies map'`reqd
    ensures map'.reqd == Rounded(old(map'.reqd), g)
    ensures total' == W64(total + Charge(old(map'.reqd), g))
  {
    total' := W64(total);
    if map'.reqd != 0 {
      ghost var extra := 0;
      if map'.reqd < g {
        W64Step(total, g);
        total', extra := W64(total' + g), g;
        map'.reqd := g;
      } else if map'.reqd % g != 0 {
        map'.reqd := Down(W64(map'.reqd + g), g);
      }
      assert total' == W64(total + extra);
      W64Step(total + extra, map'.reqd);
      total' := W64(total' + map'.reqd);
    }
  }

  /** What bus `b` adds to the total. */
  function ChargeOf(t: seq<Span>, b: nat, g: nat): (r: nat)
    requires 0 < g
  {
    match Lookup(t, b)
    case Some(i) => Charge(t[i].reqd, g)
    case None => 0
  }

  method RoundBus(maps: seq<ApertureMap>, b: nat, g: nat, total: nat, ghost t: seq<Span>, ghost hbc: nat)
    returns (total': nat,
          ghost u: seq<Span>)
    requires Reflects(maps, t, hbc) && 0 < g
    modifies maps
    ensures Reflects(maps, u, hbc) && |u| == |t|
    ensures forall i :: 0 <= i < |t| ==> u[i] == if t[i].sec == b then t[i].(reqd := Rounded(t[i].reqd, g)) else t[i]
    ensures total' == W64(total + ChargeOf(t, b, g))
  {
    var map', i := FindMap(maps, b, t, hbc);
    total', u := W64(total), t;
    if map' != null {
      ghost var k := i.value;
      assert Holds(maps, k, t[k], hbc);
      label L:
      total' := RoundOne(map', total, g);
      u := t[k := t[k].(reqd := map'.reqd)];
      forall j: nat | j < |maps| ensures Holds(maps, j, u[j], hbc) {
        assert old@L(Holds(maps, j, t[j], hbc));
      }
    }
  }

  /** Structures rounded up to bus `b`. */
  ghost predicate RoundedTo(u: seq<Span>, t: seq<Span>, b: nat, g: nat)
    requires 0 < g
  {
    |u| == |t| && forall i :: 0 <= i < |t| ==> u[i] == RoundSpan(t[i], b, g)
  }

  lemma {:induction false} NextRounded(t: seq<Span>, u: seq<Span>, v: seq<Span>, b: nat, g: nat)
    requires 0 < g && 1 <= b && RoundedTo(u, t, b, g) && |v| == |u|
    requires forall i :: 0 <= i < |u| ==> v[i] == if u[i].sec == b then u[i].(reqd := Rounded(u[i].reqd, g)) else u[i]
    ensures RoundedTo(v, t, b + 1, g)
  {
  }

  /** `total` is what the buses before `b` add up to. */
  ghost predicate TotalSoFar(total: nat, t: seq<Span>, b: nat, lastbus: nat, g: nat)
    requires 0 < g
  {
    total < TWO64 && W64(total + TotalFrom(t, b, lastbus, g)) == W64(TotalFrom(t, 1, lastbus, g))
  }

  lemma {:induction false} NextTotal(t: seq<Span>, u: seq<Span>, b: nat, lastbus: nat, g: nat, total: nat)
    requires 0 < g && b < lastbus && RoundedTo(u, t, b, g) && TotalSoFar(total, t, b, lastbus, g)
    ensures TotalSoFar(W64(total + ChargeOf(u, b, g)), t, b + 1, lastbus, g)
  {
    var more, rest := ChargeOf(t, b, g), TotalFrom(t, b + 1, lastbus, g);
    SameNumbers(u, t, b, g, b);
    assert TotalFrom(t, b, lastbus, g) == more + rest;
    W64Step(total + more, rest);
  }

  /** The rounding pass for one kind. */
  method RoundRequirements(maps: seq<ApertureMap>, lastbus: nat, g: nat, ghost t: seq<Span>, ghost hbc: nat)
    returns (total: nat,
          ghost u: seq<Span>)
    requires Reflects(maps, t, hbc) && 0 < g
    modifies maps
    ensures Reflects(maps, u, hbc) && |u| == |t| && forall i :: 0 <= i < |t| ==> u[i] == RoundSpan(t[i], lastbus, g)
    ensures total == W64(TotalFrom(t, 1, lastbus, g))
  {
    total, u := 0, t;
    var b := 1;
    while b < lastbus
      invariant 1 <= b && (b <= lastbus || b == 1)
      invariant Reflects(maps, u, hbc) && RoundedTo(u, t, b, g) && TotalSoFar(total, t, b, lastbus, g)
    {
      NextTotal(t, u, b, lastbus, g, total);
      ghost var v := u;
      total, u := RoundBus(maps, b, g, total, u, hbc);
      NextRounded(t, v, u, b, g);
      b := b + 1;
    }
  }

  /** One bridge takes in a slice. */
  method WidenOne(map': ApertureMap, addr: nat, size: nat, ghost s: Span) returns (ghost r: Span)
    requires size > 0 && s.start == map'.start && s.end == map'.end
    modifies map'`start, map'`end
    ensures r == Widen(s, addr, size) && map'.start == r.start && map'.end == r.end
  {
    if map'.start == 0 {
      map'.start := addr;
      map'.end := addr + size - 1;
    } else if addr > map'.start {
      map'.end := addr + size - 1;
    } else {
      map'.start := addr;
    }
    r := Widen(s, addr, size);
  }

  /** The inner loop of `setup_pci_io`, `setup_pci_mem` and `setup_pci_pref`. */
  method WidenUp(maps: seq<ApertureMap>, first: ApertureMap, addr: nat, size: nat, ghost t: seq<Span>, ghost i: nat,
          hbc: nat)
    returns (ghost r: seq<Span>)
    requires Reflects(maps, t, hbc) && i < |t| && maps[i] == first && size > 0
    modifies maps
    ensures Reflects(maps, r, hbc) && r == Climb(t, i, addr, size)
  {
    r := t;
    var map': ApertureMap? := first;
    ghost var k: int := i;
    while map' != null
      invariant Reflects(maps, r, hbc) && |r| == |t| && -1 <= k < |r| && (map' != null <==> k >= 0)
      invariant k >= 0 ==> map' == maps[k]
      invariant Climb(r, k, addr, size) == Climb(t, i, addr, size)
      decreases k
    {
      assert Holds(maps, k, r[k], hbc);
      if map'.classCode == hbc {
        break;
      }
      label L:
      ghost var s := WidenOne(map', addr, size, r[k]);
      ghost var u := r[k := s];
      forall j: nat | j < |maps| ensures Holds(maps, j, u[j], hbc) {
        assert old@L(Holds(maps, j, r[j], hbc));
      }
      r, map', k := u, map'.prev, r[k].parent;
    }
  }

  /**
    The outer loop: the listed bridges in order; the chunk is requested when the first slice is
    needed, and `grant` is the answer of the resource database.
  */
  method SetupApertures(maps: seq<ApertureMap>, list: seq<nat>, grant: Option<nat>, ghost t: seq<Span>,
          hbc: nat)
    returns (ok: bool, ghost l: Layout)
    requires Reflects(maps, t, hbc)
    modifies maps
    ensures l == Setup(t, list, grant) && ok == l.ok && Reflects(maps, l.spans, hbc)
  {
    ok, l := true, Setup(t, [], grant);
    var next := None;
    var n := 0;
    assert list[..0] == [];
    while n < |list| && ok
      invariant 0 <= n <= |list| && Reflects(maps, l.spans, hbc)
      invariant l == Setup(t, list[..n], grant) && ok == l.ok && next == l.next
    {
      assert list[..n + 1][..n] == list[..n];
      assert Setup(t, list[..n + 1], grant) == HandOut(l, list[n], grant);
      next, ok, l := ServeBridge(maps, list[n], next, grant, l, hbc);
      n := n + 1;
    }
    StopsAt(t, list, n, grant);
  }

  /** Once a call has failed the rest of the list is not looked at. */
  lemma {:induction false} StopsAt(t: seq<Span>, list: seq<nat>, n: nat, grant: Option<nat>)
    requires WellLinked(t) && n <= |list| && (n < |list| ==> !Setup(t, list[..n], grant).ok)
    ensures Setup(t, list, grant) == Setup(t, list[..n], grant)
    decreases |list|
  {
    if n < |list| {
      var m := |list| - 1;
      assert list[..m][..n] == list[..n];
      if n == m {
        assert list[..n] == list[..m];
      } else {
        StopsAt(t, list[..m], n, grant);
      }
    } else {
      assert list[..n] == list;
    }
  }

  method ServeBridge(maps: seq<ApertureMap>, sec: nat, next: Option<nat>, grant: Option<nat>, ghost l: Layout,
          hbc: nat)
    returns (next': Option<nat>, ok: bool, ghost r: Layout)
    requires Reflects(maps, l.spans, hbc) && next == l.next && l.ok
    modifies maps
    ensures r == HandOut(l, sec, grant) && ok == r.ok && next' == r.next && Reflects(maps, r.spans, hbc)
  {
    r := HandOut(l, sec, grant);
    var map', i := FindMap(maps, sec, l.spans, hbc);
    next', ok := next, map' != null;
    if map' != null {
      assert Holds(maps, i.value, l.spans[i.value], hbc);
      if map'.reqd != 0 && map'.start == 0 && map'.end == 0 {
        if next' == None {
          next' := grant;
        }
        if next' == None {
          ok := false;
        } else {
          var size := map'.reqd;
          ghost var u := WidenUp(maps, map', next'.value, size, l.spans, i.value, hbc);
          next' := Some(next'.value + size);
        }
      }
    }
  }
}
