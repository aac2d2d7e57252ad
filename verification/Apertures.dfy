/**
  Bridge apertures: rounding what each bus needs, and handing out slices of one chunk, widening every
  bridge on the way up.  `setup_pci_io`, `setup_pci_mem` and `setup_pci_pref` differ only in the
  fields and the granule, so one model serves all three.
*/
module Apertures {
  import opened Common
  import Bits

  /**
    A bus structure, for one kind of aperture; `parent` is the position of `prev`, and -1 for a bus
    with none.  `host`: the device of the bus has the class code of the host bridge.  `find_bus` is a
    search for the secondary number: during a cold start it is exact (see `BusColdStart`).
  */
  datatype Span = Span(sec: nat, parent: int, host: bool, reqd: nat, start: nat, end: nat)

  ghost predicate WellLinked(t: seq<Span>) {
    && (forall i :: 0 <= i < |t| ==> -1 <= t[i].parent < i)
    && (forall i, j :: 0 <= i < j < |t| ==> t[i].sec != t[j].sec)
  }

  /** `find_bus` */
  function Lookup(t: seq<Span>, b: nat): (r: Option<nat>)
    ensures match r
            case Some(i) => i < |t| && t[i].sec == b
            case None => forall i :: 0 <= i < |t| ==> t[i].sec != b
  {
    if t == [] then None
    else if t[|t| - 1].sec == b then Some(|t| - 1)
    else Lookup(t[..|t| - 1], b)
  }

  // ---------------------------------------------------------------- rounding

  /** The value a `uint64_t` holds after being assigned `x`. */
  function W64(x: nat): (r: nat)
    ensures r < TWO64 && (x < TWO64 ==> r == x)
  {
    if x < TWO64 then x else W64(x - TWO64)
  }

  lemma {:induction false} W64Step(t: nat, n: nat)
    ensures W64(W64(t) + n) == W64(t + n)
  {
    if t >= TWO64 {
      W64Step(t - TWO64, n);
    }
  }

  /** `y & ~(g - 1)` for a power of two `g` */
  function Down(y: nat, g: nat): (r: nat)
    requires g > 0
    ensures r % g == 0 && r <= y < r + g
  {
    Bits.MultipleOf(g * (y / g), g, y / g);
    g * (y / g)
  }

  /** A requirement after rounding; `g` is KB4 or MEG1. */
  function Rounded(x: nat, g: nat): (r: nat)
    requires g > 0
  {
    if x == 0 then 0
    else if x < g then g
    else if x % g != 0 then Down(W64(x + g), g)
    else x
  }

  /** What a requirement adds to the total: small ones are counted twice. */
  function Charge(x: nat, g: nat): (r: nat)
    requires g > 0
  {
    Rounded(x, g) + if 0 < x < g then g else 0
  }

  /** What the buses numbered `b` and up add to the total. */
  function TotalFrom(t: seq<Span>, b: nat, lastbus: nat, g: nat): (r: nat)
    requires g > 0
    decreases lastbus - b
  {
    if b >= lastbus then 0
    else (match Lookup(t, b) case Some(i) => Charge(t[i].reqd, g) case None => 0) + TotalFrom(t, b + 1, lastbus, g)
  }

  /** The requirements after rounding buses 1 to `lastbus - 1`. */
  function RoundSpan(s: Span, lastbus: nat, g: nat): (r: Span)
    requires g > 0
  {
    if 1 <= s.sec < lastbus then s.(reqd := Rounded(s.reqd, g)) else s
  }

  lemma {:induction false} RoundingUp(x: nat, g: nat)
    requires 0 < g <= x && x % g != 0
    ensures x < Down(x + g, g) < x + g
  {
    var r := Down(x + g, g);
    if r == x + g {
      assert x + g == g * ((x + g) / g);
      assert x == g * ((x + g) / g - 1);
      Bits.MultipleOf(x, g, (x + g) / g - 1);
    }
  }

  lemma {:induction false} Wraps(x: nat, g: nat)
    requires 0 < g && 2 * g <= TWO64 && x < TWO64 <= x + g
    ensures Down(W64(x + g), g) < x
  {
    assert W64(x + g) == W64(x + g - TWO64) == x + g - TWO64;
  }

  /**
    A rounded requirement is a whole number of granules, less than one granule more than before; it is
    not smaller than before exactly when it needed no rounding or rounding does not wrap around at
    2^64.
  */
  lemma {:induction false} RoundingGrowsIff(x: nat, g: nat)
    requires 0 < g && 2 * g <= TWO64 && x < TWO64
    ensures Rounded(x, g) % g == 0 && (Rounded(x, g) < x + g)
    ensures Rounded(x, g) >= x <==> x % g == 0 || x + g < TWO64
  {
    if 0 < x < g {
      Bits.MultipleOf(g, g, 1);
      Bits.ModUnique(x, g, 0, x);
    } else if x >= g && x % g != 0 {
      if x + g >= TWO64 {
        Wraps(x, g);
      } else {
        RoundingUp(x, g);
      }
    }
  }

  // ---------------------------------------------------------------- handing out slices

  datatype Slice = Slice(owner: nat, start: nat, size: nat)

  /** One bridge on the way up takes in a slice; a start of 0 means "not set yet". */
  function Widen(s: Span, addr: nat, size: nat): (r: Span)
    requires size > 0
  {
    if s.start == 0 then s.(start := addr, end := addr + size - 1)
    else if addr > s.start then s.(end := addr + size - 1)
    else s.(start := addr)
  }

  /** From bridge `i` up to, and without, the first with the class code of the host bridge. */
  function Climb(t: seq<Span>, i: int, addr: nat, size: nat): (r: seq<Span>)
    requires size > 0 && WellLinked(t) && -1 <= i < |t|
    ensures |r| == |t| && WellLinked(r)
    ensures forall k {:trigger r[k]} :: 0 <= k < |t| ==> r[k] == t[k].(start := r[k].start, end := r[k].end)
    decreases i
  {
    if i < 0 || t[i].host then t
    else Climb(t[i := Widen(t[i], addr, size)], t[i].parent, addr, size)
  }

  /** The bridges, the slices handed out so far, the next free address, and success. */
  datatype Layout = Layout(spans: seq<Span>, slices: seq<Slice>, next: Option<nat>, ok: bool)

  predicate Wanting(s: Span) { s.reqd != 0 && s.start == 0 && s.end == 0 }

  /** One round of the loop over the listed bridges; the chunk is requested when it is first needed. */
  function HandOut(l: Layout, sec: nat, grant: Option<nat>): (r: Layout)
    requires WellLinked(l.spans)
    ensures WellLinked(r.spans) && |r.spans| == |l.spans|
  {
    match Lookup(l.spans, sec)
    case None => l.(ok := false)
    case Some(i) =>
      if !Wanting(l.spans[i]) then l
      else if l.next == None && grant == None then l.(ok := false)
      else
        var addr, size := if l.next.Some? then l.next.value else grant.value, l.spans[i].reqd;
        Layout(Climb(l.spans, i, addr, size), l.slices + [Slice(i, addr, size)], Some(addr + size), true)
  }

  /** `setup_pci_io`, `setup_pci_mem`, `setup_pci_pref`; `list` holds the secondary numbers of the listed bridges. */
  function Setup(t: seq<Span>, list: seq<nat>, grant: Option<nat>): (r: Layout)
    requires WellLinked(t)
    ensures WellLinked(r.spans) && |r.spans| == |t|
  {
    if list == [] then Layout(t, [], None, true)
    else
      var l := Setup(t, list[..|list| - 1], grant);
      if l.ok then HandOut(l, list[|list| - 1], grant) else l
  }

  // ---------------------------------------------------------------- what an aperture should be

  /** `j` is `i` or lies behind it. */
  predicate Under(t: seq<Span>, i: nat, j: int)
    requires WellLinked(t) && j < |t|
    decreases j
  {
    j >= 0 && (i == j || Under(t, i, t[j].parent))
  }

  /** A slice of `j` widens `i`: `i` is `j` or above it, and nothing from `j` to `i` has the class of the host bridge. */
  predicate Reaches(t: seq<Span>, i: nat, j: int)
    requires WellLinked(t) && j < |t|
    decreases j
  {
    j >= 0 && !t[j].host && (i == j || Reaches(t, i, t[j].parent))
  }

  /** The slices that widen bridge `i`, in order. */
  function SlicesOf(t: seq<Span>, slices: seq<Slice>, i: nat): (r: seq<Slice>)
    requires WellLinked(t) && forall k :: 0 <= k < |slices| ==> slices[k].owner < |t|
  {
    if slices == [] then []
    else
      var n := |slices| - 1;
      SlicesOf(t, slices[..n], i) + if Reaches(t, i, slices[n].owner) then [slices[n]] else []
  }

  /** From the first slice to the last, except that a slice at address 0 is lost when another follows. */
  predicate IsHull(s: Span, slices: seq<Slice>) {
    if slices == [] then s.start == 0 && s.end == 0
    else
      && s.start == (if slices[0].start == 0 && |slices| > 1 then slices[1].start else slices[0].start)
      && s.end == slices[|slices| - 1].start + slices[|slices| - 1].size - 1
  }

  predicate Follows(slices: seq<Slice>, k: nat)
    requires 0 < k < |slices|
  {
    slices[k].start == slices[k - 1].start + slices[k - 1].size
  }

  /** Each slice begins where the previous one ends. */
  predicate Consecutive(slices: seq<Slice>, next: Option<nat>, grant: Option<nat>) {
    && (forall k :: 0 <= k < |slices| ==> slices[k].size > 0)
    && (forall k: nat {:trigger Follows(slices, k)} :: 0 < k < |slices| ==> Follows(slices, k))
    && (if slices == [] then next == None
        else && next == Some(slices[|slices| - 1].start + slices[|slices| - 1].size)
             && Some(slices[0].start) == grant)
  }

  /** Structure `i` has the aperture its slices call for; with the class of the host bridge it is left alone. */
  predicate SpanRight(s: Span, t: seq<Span>, slices: seq<Slice>, i: nat)
    requires WellLinked(t) && i < |t| && forall k :: 0 <= k < |slices| ==> slices[k].owner < |t|
  {
    if !t[i].host then IsHull(s, SlicesOf(t, slices, i)) else s == t[i]
  }

  ghost predicate LaidOut(l: Layout, t: seq<Span>, grant: Option<nat>) {
    && WellLinked(t) && WellLinked(l.spans) && |l.spans| == |t|
    && (forall i :: 0 <= i < |t| ==> l.spans[i] == t[i].(start := l.spans[i].start, end := l.spans[i].end))
    && (forall k :: 0 <= k < |l.slices| ==> l.slices[k].owner < |t| && l.slices[k].size == t[l.slices[k].owner].reqd)
    && Consecutive(l.slices, l.next, grant)
    && (forall i: nat {:trigger SpanRight(l.spans[i], t, l.slices, i)} :: i < |t| ==> SpanRight(l.spans[i], t, l.slices, i))
  }

  lemma {:induction false} ReachesSame(t: seq<Span>, u: seq<Span>, i: nat, j: int)
    requires WellLinked(t) && WellLinked(u) && |t| == |u| && j < |t|
    requires forall k :: 0 <= k < |t| ==> t[k].parent == u[k].parent && t[k].host == u[k].host
    ensures Reaches(t, i, j) == Reaches(u, i, j)
    decreases j
  {
    if j >= 0 && i != j {
      ReachesSame(t, u, i, t[j].parent);
    }
  }

  /** Nothing lies behind a bridge that has a smaller position than it. */
  lemma {:induction false} UnderIsLater(t: seq<Span>, i: nat, j: int)
    requires WellLinked(t) && j < |t| && Under(t, i, j)
    ensures i <= j
    decreases j
  {
    if i != j {
      UnderIsLater(t, i, t[j].parent);
    }
  }

  /** What widens a bridge lies at or behind it. */
  lemma {:induction false} ReachesIsUnder(t: seq<Span>, i: nat, j: int)
    requires WellLinked(t) && j < |t| && Reaches(t, i, j)
    ensures Under(t, i, j) && i <= j && !t[i].host
    decreases j
  {
    if i != j {
      ReachesIsUnder(t, i, t[j].parent);
    }
  }

  /** Climbing widens exactly the bridges that the slice reaches. */
  lemma {:induction false} ClimbWidens(t: seq<Span>, j: int, addr: nat, size: nat, i: nat)
    requires size > 0 && WellLinked(t) && -1 <= j < |t| && i < |t|
    ensures Climb(t, j, addr, size)[i] == if Reaches(t, i, j) then Widen(t[i], addr, size) else t[i]
    decreases j
  {
    if j >= 0 && !t[j].host {
      var u := t[j := Widen(t[j], addr, size)];
      ClimbWidens(u, t[j].parent, addr, size, i);
      ReachesSame(t, u, i, t[j].parent);
      if i == j && Reaches(t, j, t[j].parent) {
        ReachesIsUnder(t, j, t[j].parent);
      }
    }
  }

  /** Slices ascend. */
  lemma {:induction false} SlicesAscend(slices: seq<Slice>, next: Option<nat>, grant: Option<nat>, j: nat, k: nat)
    requires Consecutive(slices, next, grant) && j < k < |slices|
    ensures slices[j].start + slices[j].size <= slices[k].start
    decreases k
  {
    assert Follows(slices, k);
    if j < k - 1 {
      SlicesAscend(slices, next, grant, j, k - 1);
    }
  }

  /** In order, without overlap, and below `bound`. */
  predicate InOrder(s: seq<Slice>, bound: nat) {
    && (forall k :: 0 <= k < |s| ==> s[k].size > 0 && s[k].start + s[k].size <= bound)
    && (forall j, k :: 0 <= j < k < |s| ==> s[j].start + s[j].size <= s[k].start)
  }

  lemma {:induction false} ConsecutiveIsInOrder(slices: seq<Slice>, next: Option<nat>, grant: Option<nat>)
    requires Consecutive(slices, next, grant) && slices != []
    ensures InOrder(slices, next.value)
  {
    forall j: nat, k: nat | j < k < |slices| ensures slices[j].start + slices[j].size <= slices[k].start {
      SlicesAscend(slices, next, grant, j, k);
    }
    forall k: nat | k < |slices| - 1 ensures slices[k].start + slices[k].size <= next.value {
      SlicesAscend(slices, next, grant, k, |slices| - 1);
    }
  }

  lemma {:induction false} PrefixInOrder(s: seq<Slice>, bound: nat)
    requires InOrder(s, bound) && s != []
    ensures var n := |s| - 1; InOrder(s[..n], s[n].start) && s[n].start <= bound
  {
  }

  lemma {:induction false} AppendInOrder(s: seq<Slice>, x: Slice, bound: nat)
    requires InOrder(s, x.start) && x.size > 0 && x.start + x.size <= bound
    ensures InOrder(s, bound) && InOrder(s + [x], bound)
  {
  }

  lemma {:induction false} UnderInOrder(t: seq<Span>, slices: seq<Slice>, i: nat, bound: nat)
    requires WellLinked(t) && (forall k :: 0 <= k < |slices| ==> slices[k].owner < |t|) && InOrder(slices, bound)
    ensures InOrder(SlicesOf(t, slices, i), bound)
    decreases |slices|
  {
    if slices != [] {
      var n := |slices| - 1;
      PrefixInOrder(slices, bound);
      UnderInOrder(t, slices[..n], i, slices[n].start);
      AppendInOrder(SlicesOf(t, slices[..n], i), slices[n], bound);
    }
  }

  /** Widening a hull by a later slice gives the hull of all of them. */
  lemma {:induction false} WidenKeepsHull(s: Span, slices: seq<Slice>, addr: nat, x: Slice)
    requires IsHull(s, slices) && InOrder(slices, addr) && x.start == addr && x.size > 0
    ensures IsHull(Widen(s, addr, x.size), slices + [x])
  {
    if slices != [] && |slices| > 1 {
      assert slices[0].start + slices[0].size <= slices[1].start;
      assert slices[1].start + slices[1].size <= addr;
    }
  }

  /** One round either leaves everything as it is or hands out one slice. */
  lemma {:induction false} HandOutIs(l: Layout, sec: nat, grant: Option<nat>) returns (x: Option<Slice>)
    requires WellLinked(l.spans)
    ensures x == None ==> HandOut(l, sec, grant) == l.(ok := HandOut(l, sec, grant).ok)
    ensures x.Some? ==>
              && x.value.owner < |l.spans| && x.value.size == l.spans[x.value.owner].reqd > 0
              && (if l.next.Some? then x.value.start == l.next.value else grant == Some(x.value.start))
              && HandOut(l, sec, grant) == Layout(Climb(l.spans, x.value.owner, x.value.start, x.value.size), l.slices + [x.value],
                                                  Some(x.value.start + x.value.size), true)
  {
    x := None;
    match Lookup(l.spans, sec)
    case None =>
    case Some(i) =>
      if Wanting(l.spans[i]) && !(l.next == None && grant == None) {
        x := Some(Slice(i, if l.next.Some? then l.next.value else grant.value, l.spans[i].reqd));
      }
  }

  lemma {:induction false} HandOutKeeps(l: Layout, t: seq<Span>, sec: nat, grant: Option<nat>)
    requires LaidOut(l, t, grant)
    ensures LaidOut(HandOut(l, sec, grant), t, grant)
  {
    var x := HandOutIs(l, sec, grant);
    if x.Some? {
      var i := x.value.owner;
      assert l.spans[i] == t[i].(start := l.spans[i].start, end := l.spans[i].end);
      StepKeeps(l, t, grant, x.value);
    }
  }

  lemma {:induction false} StepKeeps(l: Layout, t: seq<Span>, grant: Option<nat>, x: Slice)
    requires LaidOut(l, t, grant) && x.owner < |t| && x.size > 0 && x.size == t[x.owner].reqd
    requires if l.next.Some? then x.start == l.next.value else grant == Some(x.start)
    ensures LaidOut(Layout(Climb(l.spans, x.owner, x.start, x.size), l.slices + [x], Some(x.start + x.size), true), t, grant)
  {
    StepConsecutive(l, grant, x);
    SpansStep(l, t, x);
    var spans := Climb(l.spans, x.owner, x.start, x.size);
    forall i: nat | i < |t| ensures SpanRight(spans[i], t, l.slices + [x], i) {
      assert SpanRight(l.spans[i], t, l.slices, i);
      if !t[i].host {
        HullStep(l, t, x.start, x, i);
      } else {
        HostStays(l.spans, x.owner, x.start, x.size, i);
      }
    }
  }

  lemma {:induction false} HostStays(t: seq<Span>, j: int, addr: nat, size: nat, i: nat)
    requires size > 0 && WellLinked(t) && -1 <= j < |t| && i < |t| && t[i].host
    ensures Climb(t, j, addr, size)[i] == t[i]
  {
    ClimbWidens(t, j, addr, size, i);
    if Reaches(t, i, j) {
      ReachesIsUnder(t, i, j);
    }
  }

  lemma {:induction false} SpansStep(l: Layout, t: seq<Span>, x: Slice)
    requires WellLinked(l.spans) && |l.spans| == |t| && x.owner < |t| && x.size > 0
    requires forall i :: 0 <= i < |t| ==> l.spans[i] == t[i].(start := l.spans[i].start, end := l.spans[i].end)
    ensures var spans := Climb(l.spans, x.owner, x.start, x.size);
            forall i :: 0 <= i < |t| ==> spans[i] == t[i].(start := spans[i].start, end := spans[i].end)
  {
    var spans := Climb(l.spans, x.owner, x.start, x.size);
    forall i | 0 <= i < |t| ensures spans[i] == t[i].(start := spans[i].start, end := spans[i].end) {
      assert l.spans[i] == t[i].(start := l.spans[i].start, end := l.spans[i].end);
    }
  }

  lemma {:induction false} StepConsecutive(l: Layout, grant: Option<nat>, x: Slice)
    requires Consecutive(l.slices, l.next, grant) && x.size > 0
    requires if l.next.Some? then x.start == l.next.value else grant == Some(x.start)
    ensures Consecutive(l.slices + [x], Some(x.start + x.size), grant) && InOrder(l.slices, x.start)
  {
    var slices := l.slices + [x];
    forall k: nat | 0 < k < |slices| ensures Follows(slices, k) {
      if k < |l.slices| {
        assert Follows(l.slices, k);
      }
    }
    if l.slices != [] {
      ConsecutiveIsInOrder(l.slices, l.next, grant);
    }
  }

  lemma {:induction false} HullStep(l: Layout, t: seq<Span>, addr: nat, x: Slice, i: nat)
    requires WellLinked(t) && WellLinked(l.spans) && |l.spans| == |t| && i < |t| && !t[i].host
    requires forall k :: 0 <= k < |t| ==> l.spans[k].parent == t[k].parent && l.spans[k].host == t[k].host
    requires forall k :: 0 <= k < |l.slices| ==> l.slices[k].owner < |t|
    requires InOrder(l.slices, addr) && x.start == addr && x.owner < |t| && x.size > 0
    requires IsHull(l.spans[i], SlicesOf(t, l.slices, i))
    ensures IsHull(Climb(l.spans, x.owner, addr, x.size)[i], SlicesOf(t, l.slices + [x], i))
  {
    var slices := SlicesOf(t, l.slices, i);
    assert (l.slices + [x])[..|l.slices|] == l.slices;
    ClimbWidens(l.spans, x.owner, addr, x.size, i);
    ReachesSame(l.spans, t, i, x.owner);
    UnderInOrder(t, l.slices, i, addr);
    WidenKeepsHull(l.spans[i], slices, addr, x);
    assert slices + [] == slices;
  }

  /** No bridge has an aperture yet; bus 0 may have one, which `configure_bridge` gives it. */
  predicate Unset(t: seq<Span>) {
    forall i :: 0 <= i < |t| && (t[i].parent >= 0 || !t[i].host) ==> t[i].start == 0 && t[i].end == 0
  }

  /**
    After the setup the aperture of every bridge runs from the first slice handed out that reaches it to
    the last, and the slices follow each other without gaps from the start of the chunk.  A bridge with
    the class of the host bridge is left as it was.
  */
  lemma {:induction false} ApertureIsHull(t: seq<Span>, list: seq<nat>, grant: Option<nat>)
    requires WellLinked(t) && Unset(t)
    ensures LaidOut(Setup(t, list, grant), t, grant)
  {
    if list != [] {
      var n := |list| - 1;
      ApertureIsHull(t, list[..n], grant);
      HandOutKeeps(Setup(t, list[..n], grant), t, list[n], grant);
    }
  }

  predicate Contains(s: Span, x: Slice) { s.start <= x.start && x.start + x.size - 1 <= s.end }

  /** An aperture contains every slice that reaches the bridge exactly when none was lost at address 0. */
  lemma {:induction false} HullContainsIff(s: Span, slices: seq<Slice>, bound: nat)
    requires IsHull(s, slices) && InOrder(slices, bound)
    ensures (forall k :: 0 <= k < |slices| ==> Contains(s, slices[k])) <==>
            !(slices != [] && slices[0].start == 0 && |slices| > 1)
  {
    if slices != [] {
      if slices[0].start == 0 && |slices| > 1 {
        assert slices[0].start + slices[0].size <= slices[1].start;
        assert !Contains(s, slices[0]);
      } else {
        forall k | 0 <= k < |slices| ensures Contains(s, slices[k]) {
          assert k > 0 ==> slices[0].start + slices[0].size <= slices[k].start;
          assert k < |slices| - 1 ==> slices[k].start + slices[k].size <= slices[|slices| - 1].start;
        }
      }
    }
  }

  // ---------------------------------------------------------------- nesting

  lemma {:induction false} UnderTransitive(t: seq<Span>, a: nat, i: nat, j: int)
    requires WellLinked(t) && j < |t| && i < |t| && Under(t, a, i) && Under(t, i, j)
    ensures Under(t, a, j)
    decreases j
  {
    if i != j {
      UnderTransitive(t, a, i, t[j].parent);
    }
  }

  lemma {:induction false} ReachesTransitive(t: seq<Span>, a: nat, i: nat, j: int)
    requires WellLinked(t) && j < |t| && i < |t| && Reaches(t, a, i) && Reaches(t, i, j)
    ensures Reaches(t, a, j)
    decreases j
  {
    if i != j {
      ReachesTransitive(t, a, i, t[j].parent);
    }
  }

  ghost predicate Owners(t: seq<Span>, slices: seq<Slice>) {
    forall k :: 0 <= k < |slices| ==> slices[k].owner < |t|
  }

  /** `SlicesOf` holds exactly the slices that reach the bridge. */
  lemma {:induction false} InSlicesOf(t: seq<Span>, slices: seq<Slice>, i: nat, x: Slice)
    requires WellLinked(t) && Owners(t, slices)
    ensures x in SlicesOf(t, slices, i) <==> x in slices && Reaches(t, i, x.owner)
    decreases |slices|
  {
    if slices != [] {
      var n := |slices| - 1;
      InSlicesOf(t, slices[..n], i, x);
      assert slices == slices[..n] + [slices[n]];
    }
  }

  /** What reaches a bridge reaches the bridges that this one reaches. */
  lemma {:induction false} ReachGrows(t: seq<Span>, slices: seq<Slice>, a: nat, i: nat, x: Slice)
    requires WellLinked(t) && Owners(t, slices) && a < |t| && i < |t| && Reaches(t, a, i) && x in SlicesOf(t, slices, i)
    ensures x in SlicesOf(t, slices, a)
  {
    InSlicesOf(t, slices, i, x);
    InSlicesOf(t, slices, a, x);
    ReachesTransitive(t, a, i, x.owner);
  }

  /** With a chunk that does not start at 0, every aperture contains the slices that reach its bridge. */
  lemma {:induction false} ApertureContains(t: seq<Span>, list: seq<nat>, base: nat, i: nat, x: Slice)
    requires WellLinked(t) && Unset(t) && base > 0 && i < |t| && !t[i].host
    requires var l := Setup(t, list, Some(base)); Owners(t, l.slices) && x in SlicesOf(t, l.slices, i)
    ensures Contains(Setup(t, list, Some(base)).spans[i], x) && x.start >= base && x.size > 0
  {
    var l := Setup(t, list, Some(base));
    ApertureIsHull(t, list, Some(base));
    ConsecutiveIsInOrder(l.slices, l.next, Some(base));
    UnderInOrder(t, l.slices, i, l.next.value);
    var s := SlicesOf(t, l.slices, i);
    SliceAtLeast(t, l.slices, l.next, base, i, 0);
    assert SpanRight(l.spans[i], t, l.slices, i);
    HullContainsIff(l.spans[i], s, l.next.value);
    var k :| 0 <= k < |s| && s[k] == x;
    SliceAtLeast(t, l.slices, l.next, base, i, k);
  }

  lemma {:induction false} SliceAtLeast(t: seq<Span>, slices: seq<Slice>, next: Option<nat>, base: nat, i: nat, k: nat)
    requires WellLinked(t) && Owners(t, slices) && Consecutive(slices, next, Some(base)) && k < |SlicesOf(t, slices, i)|
    ensures SlicesOf(t, slices, i)[k].start >= base
  {
    var x := SlicesOf(t, slices, i)[k];
    InSlicesOf(t, slices, i, x);
    var m :| 0 <= m < |slices| && slices[m] == x;
    if m > 0 {
      SlicesAscend(slices, next, Some(base), 0, m);
    }
  }

  predicate Encloses(s: Span, u: Span) { s.start <= u.start <= u.end <= s.end }

  lemma {:induction false} AncestorContains(t: seq<Span>, list: seq<nat>, base: nat, a: nat, i: nat, x: Slice)
    requires WellLinked(t) && Unset(t) && base > 0 && a < |t| && i < |t| && Reaches(t, a, i)
    requires var l := Setup(t, list, Some(base)); Owners(t, l.slices) && x in SlicesOf(t, l.slices, i)
    ensures Contains(Setup(t, list, Some(base)).spans[a], x) && x.start >= base && x.size > 0
  {
    ReachesIsUnder(t, a, i);
    ReachGrows(t, Setup(t, list, Some(base)).slices, a, i, x);
    ApertureContains(t, list, base, a, x);
  }

  /** A set aperture begins and ends with slices that reach its bridge. */
  lemma {:induction false} ApertureEnds(t: seq<Span>, list: seq<nat>, base: nat, i: nat) returns (first: Slice,
          last: Slice)
    requires WellLinked(t) && Unset(t) && base > 0 && i < |t| && !t[i].host
    requires Setup(t, list, Some(base)).spans[i].end != 0
    ensures var l := Setup(t, list, Some(base));
            && Owners(t, l.slices) && first in SlicesOf(t, l.slices, i) && last in SlicesOf(t, l.slices, i)
            && l.spans[i].start == first.start && l.spans[i].end == last.start + last.size - 1
  {
    var l := Setup(t, list, Some(base));
    ApertureIsHull(t, list, Some(base));
    var s := SlicesOf(t, l.slices, i);
    assert SpanRight(l.spans[i], t, l.slices, i);
    first, last := s[0], s[|s| - 1];
    ApertureContains(t, list, base, i, first);
  }

  /**
    Nesting: with a chunk that does not start at 0, the aperture of a bridge contains the apertures of
    the bridges behind it, as long as none of them up to it has the class of the host bridge.
  */
  lemma {:induction false} AperturesNest(t: seq<Span>, list: seq<nat>, base: nat, a: nat, i: nat)
    requires WellLinked(t) && Unset(t) && base > 0 && a < |t| && i < |t| && Reaches(t, a, i)
    ensures var l := Setup(t, list, Some(base));
            l.spans[i].end != 0 ==> Encloses(l.spans[a], l.spans[i])
  {
    ReachesIsUnder(t, a, i);
    if Setup(t, list, Some(base)).spans[i].end != 0 {
      var first, last := ApertureEnds(t, list, base, i);
      AncestorContains(t, list, base, a, i, first);
      AncestorContains(t, list, base, a, i, last);
      ApertureContains(t, list, base, i, first);
    }
  }

  // ---------------------------------------------------------------- what an aperture covers

  /** No two slices overlap. */
  lemma {:induction false} SlicesApart(t: seq<Span>, list: seq<nat>, grant: Option<nat>, j: nat, k: nat)
    requires WellLinked(t) && Unset(t) && j < k < |Setup(t, list, grant).slices|
    ensures var s := Setup(t, list, grant).slices; s[j].start + s[j].size <= s[k].start
  {
    ApertureIsHull(t, list, grant);
    SlicesAscend(Setup(t, list, grant).slices, Setup(t, list, grant).next, grant, j, k);
  }

  lemma {:induction false} LookupAt(t: seq<Span>, i: nat)
    requires WellLinked(t) && i < |t|
    ensures Lookup(t, t[i].sec) == Some(i)
  {
  }

  lemma {:induction false} PositionOf(t: seq<Span>, slices: seq<Slice>, i: nat, k: nat) returns (m: nat)
    requires WellLinked(t) && Owners(t, slices) && k < |SlicesOf(t, slices, i)|
    ensures m < |slices| && slices[m] == SlicesOf(t, slices, i)[k] && Reaches(t, i, slices[m].owner)
  {
    var x := SlicesOf(t, slices, i)[k];
    InSlicesOf(t, slices, i, x);
    m :| m < |slices| && slices[m] == x;
  }

  /** Slice `k` was handed out between two slices, possibly itself, that reach bridge `i`. */
  ghost predicate Between(t: seq<Span>, slices: seq<Slice>, i: nat, k: nat)
    requires WellLinked(t) && Owners(t, slices)
  {
    exists j: nat, m: nat {:trigger slices[j].owner, slices[m].owner} ::
      j <= k <= m < |slices| && Reaches(t, i, slices[j].owner) && Reaches(t, i, slices[m].owner)
  }

  lemma {:induction false} CoversOwn(t: seq<Span>, list: seq<nat>, base: nat, i: nat, j: nat)
    requires WellLinked(t) && Unset(t) && base > 0 && i < |t| && !t[i].host && j < |Setup(t, list, Some(base)).slices|
    requires Owners(t, Setup(t, list, Some(base)).slices) && Reaches(t, i, Setup(t, list, Some(base)).slices[j].owner)
    ensures Contains(Setup(t, list, Some(base)).spans[i], Setup(t, list, Some(base)).slices[j])
    ensures Setup(t, list, Some(base)).slices[j].size > 0
  {
    var s := Setup(t, list, Some(base)).slices;
    InSlicesOf(t, s, i, s[j]);
    ApertureContains(t, list, base, i, s[j]);
  }

  lemma {:induction false} WithinEnds(s: Span, a: Slice, x: Slice, b: Slice)
    requires Contains(s, a) && Contains(s, b) && a.size > 0 && b.size > 0
    requires (a == x || a.start + a.size <= x.start) && (x == b || x.start + x.size <= b.start)
    ensures Contains(s, x)
  {
  }

  lemma {:induction false} BetweenIsCovered(t: seq<Span>, list: seq<nat>, base: nat, i: nat, k: nat)
    requires WellLinked(t) && Unset(t) && base > 0 && i < |t| && !t[i].host && k < |Setup(t, list, Some(base)).slices|
    requires Owners(t, Setup(t, list, Some(base)).slices) && Between(t, Setup(t, list, Some(base)).slices, i, k)
    ensures Contains(Setup(t, list, Some(base)).spans[i], Setup(t, list, Some(base)).slices[k])
  {
    var l := Setup(t, list, Some(base));
    var s := l.slices;
    var j: nat, m: nat :| j <= k <= m < |s| && Reaches(t, i, s[j].owner) && Reaches(t, i, s[m].owner);
    CoversOwn(t, list, base, i, j);
    CoversOwn(t, list, base, i, m);
    if j < k {
      SlicesApart(t, list, Some(base), j, k);
    }
    if k < m {
      SlicesApart(t, list, Some(base), k, m);
    }
    WithinEnds(l.spans[i], s[j], s[k], s[m]);
  }

  /**
    What an aperture covers: exactly the slices handed out between the first and the last slice that
    reaches its bridge, so also those of a sibling listed in between.
  */
  lemma {:induction false} ApertureCoversIff(t: seq<Span>, list: seq<nat>, base: nat, i: nat, k: nat)
    requires WellLinked(t) && Unset(t) && base > 0 && i < |t| && !t[i].host && k < |Setup(t, list, Some(base)).slices|
    ensures var l := Setup(t, list, Some(base));
            Owners(t, l.slices) && (Contains(l.spans[i], l.slices[k]) <==> Between(t, l.slices, i, k))
  {
    var l := Setup(t, list, Some(base));
    ApertureIsHull(t, list, Some(base));
    if Contains(l.spans[i], l.slices[k]) {
      assert SpanRight(l.spans[i], t, l.slices, i);
      CoveredIsBetween(t, l, base, i, k);
    } else if Between(t, l.slices, i, k) {
      BetweenIsCovered(t, list, base, i, k);
    }
  }

  lemma {:induction false} CoveredIsBetween(t: seq<Span>, l: Layout, base: nat, i: nat, k: nat)
    requires WellLinked(t) && Owners(t, l.slices) && Consecutive(l.slices, l.next, Some(base)) && base > 0
    requires i < |l.spans| && k < |l.slices| && IsHull(l.spans[i], SlicesOf(t, l.slices, i))
    requires Contains(l.spans[i], l.slices[k])
    ensures Between(t, l.slices, i, k)
  {
    var s := SlicesOf(t, l.slices, i);
    AtLeastBase(l.slices, l.next, base, k);
    SliceAtLeast(t, l.slices, l.next, base, i, 0);
    var j := PositionOf(t, l.slices, i, 0);
    var m := PositionOf(t, l.slices, i, |s| - 1);
    if k < j {
      SlicesAscend(l.slices, l.next, Some(base), k, j);
    }
    if m < k {
      SlicesAscend(l.slices, l.next, Some(base), m, k);
    }
  }

  lemma {:induction false} AtLeastBase(slices: seq<Slice>, next: Option<nat>, base: nat, k: nat)
    requires Consecutive(slices, next, Some(base)) && k < |slices|
    ensures slices[k].start >= base && slices[k].size > 0
  {
    if k > 0 {
      SlicesAscend(slices, next, Some(base), 0, k);
    }
  }
}
