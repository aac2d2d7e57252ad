/**
  From the bus scan to the base registers: what is assigned to a device on a bus with an aperture lies
  inside the aperture of every bridge on the way to it.
*/
module ColdWindows {
  import opened Common
  import opened BusTree
  import opened BusScan
  import opened BusNumbering
  import opened BusColdStart
  import C = ColdApertures
  import A = Apertures
  import N = ApertureNesting
  import opened Sorting
  import opened Registers
  import opened Carving
  import R = Resources
  import D = DeviceTheorems
  import opened AttachRuns

  /** One value for each kind of aperture. */
  datatype PerArea<T> = PerArea(io: T, mem: T, pref: T) {
    function Of(a: Area): (r: T) {
      match a
      case IoArea => io
      case MemArea => mem
      case PrefArea => pref
    }
  }

  /** The windows that the allocator sees are the apertures that the bridges were given. */
  ghost predicate WindowsAre(host: R.Host, spans: PerArea<seq<A.Span>>) {
    forall b {:trigger host.windows[b]} :: 0 < b < |spans.io| == |spans.mem| == |spans.pref| ==>
      && b in host.windows
      && host.windows[b] == R.Windows(Page(spans.io[b].start, spans.io[b].end), Page(spans.mem[b].start, spans.mem[b].end),
                                      Page(spans.pref[b].start, spans.pref[b].end))
  }

  /** A stretch in a window that is not empty lies in the aperture. */
  lemma {:induction false} WindowIsAperture(host: R.Host, spans: PerArea<seq<A.Span>>, a: Area, b: nat, start: nat,
          length: nat)
    requires WindowsAre(host, spans) && 0 < b < |spans.io| == |spans.mem| == |spans.pref|
    requires R.InWindow(host, a, b, start, length) && spans.Of(a)[b].start != spans.Of(a)[b].end
    ensures spans.Of(a)[b].start <= start && start + length <= spans.Of(a)[b].end + 1
  {
    assert b in host.windows;
    if a != IoArea {
      var i: nat :| i < |host.pages| && R.Within(R.MemRange(host, a, b, i), start, length);
    }
  }

  /** The apertures after a cold start: `t` is what the buses want, `base` where the chunks start. */
  ghost predicate SetUp(hw: Bus, fn: nat, t: PerArea<seq<A.Span>>, base: PerArea<nat>, spans: PerArea<seq<A.Span>>) {
    forall a: Area {:trigger t.Of(a)} ::
      && C.SpansOf(t.Of(a), ColdStart(hw, fn).0.nodes) && base.Of(a) > 0 && A.WellLinked(t.Of(a))
      && spans.Of(a) == A.Setup(t.Of(a), C.Listing(ColdStart(hw, fn).0.bridges), Some(base.Of(a))).spans
  }

  /** A bridge whose aperture is not empty has one. */
  lemma {:induction false} NotEmptyIsSet(t: seq<A.Span>, list: seq<nat>, base: nat, b: nat)
    requires A.WellLinked(t) && A.Unset(t) && base > 0 && b < |t| && (t[b].parent >= 0 || !t[b].host)
    requires var s := A.Setup(t, list, Some(base)).spans[b]; s.start != s.end
    ensures A.Setup(t, list, Some(base)).spans[b].end != 0
  {
    var l := A.Setup(t, list, Some(base));
    A.ApertureIsHull(t, list, Some(base));
    assert A.SpanRight(l.spans[b], t, l.slices, b);
    if l.spans[b].end == 0 && !t[b].host && A.SlicesOf(t, l.slices, b) != [] {
      A.ApertureContains(t, list, base, b, A.SlicesOf(t, l.slices, b)[0]);
    }
  }

  /** An aperture that is not empty lies in those of the bridges above it. */
  lemma {:induction false} EnclosedAbove(hw: Bus, fn: nat, t: seq<A.Span>, base: nat, c: nat, b: nat)
    requires Plain(hw) && |Plan(hw, 0, 0, 1)| < 256 && C.SpansOf(t, ColdStart(hw, fn).0.nodes) && base > 0
    requires C.RunsDown(Plan(hw, 0, 0, 1), ClassAt(hw, fn)) && A.WellLinked(t)
    requires 0 < c < |t| && 0 < b < |t| && Below(ColdStart(hw, fn).0.nodes, c, b)
    requires var s := A.Setup(t, C.Listing(ColdStart(hw, fn).0.bridges), Some(base)).spans[b]; s.start != s.end
    ensures var spans := A.Setup(t, C.Listing(ColdStart(hw, fn).0.bridges), Some(base)).spans;
            A.Encloses(spans[c], spans[b])
  {
    var end := ColdStartIsCold(hw, fn);
    var s := ColdStart(hw, fn).0;
    C.ColdStartListsAncestorsFirst(hw, fn, t);
    C.FlagIsClass(hw, fn, t, b);
    C.FlagIsClass(hw, fn, t, c);
    NotEmptyIsSet(t, C.Listing(s.bridges), base, b);
    C.UnderIsBelow(s, end, t, c, b);
    C.ColdStartAperturesNest(hw, fn, t, base);
    assert N.Nest(t, A.Setup(t, C.Listing(s.bridges), Some(base)).spans, c, b);
  }

  /**
    In every run on a machine that was started cold, an address assigned on a bus whose aperture is not
    empty lies inside the apertures of all the bridges on the way to that bus, if no bridge of another
    class sits behind one with the class of the host bridge.
  */
  lemma {:induction false} AssignedInsideApertures(hw: Bus, fn: nat, t: PerArea<seq<A.Span>>, base: PerArea<nat>,
          spans: PerArea<seq<A.Span>>, ws: seq<World>, es: seq<Event>, hws: seq<seq<Reg>>, host: R.Host, i: nat,
          d: nat, j: nat, c: nat)
    requires Plain(hw) && |Plan(hw, 0, 0, 1)| < 256 && SetUp(hw, fn, t, base, spans)
    requires C.RunsDown(Plan(hw, 0, 0, 1), ClassAt(hw, fn)) && WindowsAre(host, spans)
    requires IsRun(ws, es, host) && Begins(ws[0], hws) && i < |ws| && d < |ws[i].devs| && j < 7
    requires |ws[i].devs[d].regs| == 7 && D.Assigned(ws[i].devs[d].regs[j])
    requires 0 < ws[i].devs[d].bus < |spans.io| && 0 < c < |spans.io| && Below(ColdStart(hw, fn).0.nodes, c, ws[i].devs[d].bus)
    requires var s := spans.Of(AreaOf(ws[i].devs[d].regs[j].kind)); |s| == |spans.io| && s[ws[i].devs[d].bus].start != s[ws[i].devs[d].bus].end
    ensures var reg := ws[i].devs[d].regs[j];
            var s := spans.Of(AreaOf(reg.kind));
            c < |s| && s[c].start <= Base(reg) && Base(reg) + Units(reg) <= s[c].end + 1
  {
    var dev, reg := ws[i].devs[d], ws[i].devs[d].regs[j];
    var a := AreaOf(reg.kind);
    SameLengths(hw, fn, t, base, spans);
    AssignedAreOwned(ws, es, hws, host, i, d, j);
    WindowIsAperture(host, spans, a, dev.bus, Base(reg), Units(reg));
    EnclosedAbove(hw, fn, t.Of(a), base.Of(a), c, dev.bus);
  }

  lemma {:induction false} SameLengths(hw: Bus, fn: nat, t: PerArea<seq<A.Span>>, base: PerArea<nat>,
          spans: PerArea<seq<A.Span>>)
    requires SetUp(hw, fn, t, base, spans)
    ensures forall a: Area {:trigger spans.Of(a)} :: |spans.Of(a)| == |t.Of(a)| == |ColdStart(hw, fn).0.nodes|
    ensures |spans.io| == |spans.mem| == |spans.pref|
  {
    assert |spans.Of(IoArea)| == |t.Of(IoArea)| && |spans.Of(MemArea)| == |t.Of(MemArea)|;
    assert |spans.Of(PrefArea)| == |t.Of(PrefArea)|;
  }
}
