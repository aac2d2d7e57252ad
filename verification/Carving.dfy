/**
  Carving is right: every register placed lies inside its chunk, no two overlap, and memory
  registers are naturally aligned, because the largest comes first in a chunk aligned to it.
*/
module Carving {
  import opened Bits
  import opened Sorting
  import opened Registers

  /** What the registers in `slots` that want an address take of area `a`. */
  function Need(regs: seq<Reg>, slots: seq<Slot>, a: Area): (r: nat)
    requires |regs| == 7 && forall k :: 0 <= k < |slots| ==> slots[k].reg < 7
  {
    if slots == [] then 0
    else
      var reg := regs[slots[0].reg];
      (if Wants(reg) && AreaOf(reg.kind) == a then Units(reg) else 0) + Need(regs, slots[1..], a)
  }

  predicate Slots(regs: seq<Reg>, slots: seq<Slot>) {
    && |regs| == 7
    && (forall k :: 0 <= k < |slots| ==> slots[k].reg < 7 && slots[k].size == regs[slots[k].reg].size)
    && (forall j, k :: 0 <= j < k < |slots| ==> slots[j].reg != slots[k].reg)
  }

  /** Every multiple of this keeps clear of the flag bits of a register in the area. */
  function Grain(a: Area): (r: nat) { if a == IoArea then 4 else 16 }

  predicate Grained(regs: seq<Reg>, slots: seq<Slot>, cur: Cursor)
    requires Slots(regs, slots)
  {
    && cur.io % 4 == 0 && cur.mem % 16 == 0 && cur.pref % 16 == 0
    && forall k :: 0 <= k < |slots| ==>
         var reg := regs[slots[k].reg];
         Wants(reg) ==> Units(reg) % Grain(AreaOf(reg.kind)) == 0
  }

  lemma {:induction false} NeedIgnores(regs: seq<Reg>, slots: seq<Slot>, i: nat, reg: Reg, a: Area)
    requires |regs| == 7 && i < 7 && forall k :: 0 <= k < |slots| ==> slots[k].reg < 7 && slots[k].reg != i
    ensures Need(regs[i := reg], slots, a) == Need(regs, slots, a)
  {
    if slots != [] {
      NeedIgnores(regs, slots[1..], i, reg, a);
    }
  }

  /** A placed register sits where the registers before it in its area end. */
  function Placed(regs: seq<Reg>, slots: seq<Slot>, cur: Cursor, k: nat): (r: Reg)
    requires Slots(regs, slots) && k < |slots|
  {
    var reg := regs[slots[k].reg];
    if Wants(reg)
    then reg.(address := reg.address + cur.At(AreaOf(reg.kind)) + Need(regs, slots[..k], AreaOf(reg.kind)))
    else reg
  }

  lemma {:induction false} OrAligned(reg: Reg, x: nat)
    requires reg.address < Limit(reg) && x % Limit(reg) == 0
    ensures Or(reg.address, x) == reg.address + x
  {
    var k := if reg.kind == IoReg then 2 else 4;
    assert Pow2(2) == 4;
    assert Pow2(4) == 4 * Pow2(2);
    OrIsSum(reg.address, x, k);
  }

  /** The registers and the cursor after the first slot. */
  function Next(regs: seq<Reg>, slot: Slot, cur: Cursor): (r: seq<Reg>)
    requires |regs| == 7 && slot.reg < 7
  {
    var reg := regs[slot.reg];
    if Wants(reg) then regs[slot.reg := reg.(address := Or(reg.address, cur.At(AreaOf(reg.kind))))] else regs
  }

  function Past(regs: seq<Reg>, slot: Slot, cur: Cursor): (r: Cursor)
    requires |regs| == 7 && slot.reg < 7
  {
    var reg := regs[slot.reg];
    if Wants(reg) then cur.Past(AreaOf(reg.kind), Units(reg)) else cur
  }

  lemma {:induction false} PastGrained(reg: Reg, cur: Cursor)
    requires cur.io % 4 == 0 && cur.mem % 16 == 0 && cur.pref % 16 == 0
    requires Units(reg) % Grain(AreaOf(reg.kind)) == 0
    ensures var p := cur.Past(AreaOf(reg.kind), Units(reg)); p.io % 4 == 0 && p.mem % 16 == 0 && p.pref % 16 == 0
  {
    match AreaOf(reg.kind)
    case IoArea => DividesSum(cur.io, Units(reg), 4);
    case MemArea => DividesSum(cur.mem, Units(reg), 16);
    case PrefArea => DividesSum(cur.pref, Units(reg), 16);
  }

  lemma {:induction false} NextSame(regs: seq<Reg>, slots: seq<Slot>, cur: Cursor)
    requires slots != [] && Slots(regs, slots)
    ensures forall k :: 0 <= k < |slots[1..]| ==>
              slots[1..][k].reg < 7 && Next(regs, slots[0], cur)[slots[1..][k].reg] == regs[slots[1..][k].reg]
    ensures Slots(Next(regs, slots[0], cur), slots[1..])
  {
    var next := Next(regs, slots[0], cur);
    forall k | 0 <= k < |slots[1..]| ensures next[slots[1..][k].reg] == regs[slots[k + 1].reg] {
      assert slots[1..][k] == slots[k + 1];
    }
  }

  lemma {:induction false} NextGrained(regs: seq<Reg>, slots: seq<Slot>, cur: Cursor)
    requires slots != [] && Slots(regs, slots) && Grained(regs, slots, cur)
    ensures Slots(Next(regs, slots[0], cur), slots[1..])
    ensures Grained(Next(regs, slots[0], cur), slots[1..], Past(regs, slots[0], cur))
  {
    NextSame(regs, slots, cur);
    if Wants(regs[slots[0].reg]) {
      PastGrained(regs[slots[0].reg], cur);
    }
  }

  lemma {:induction false} NeedStep(regs: seq<Reg>, slots: seq<Slot>, cur: Cursor, k: nat, b: Area)
    requires Slots(regs, slots) && 0 < k < |slots|
    ensures Slots(Next(regs, slots[0], cur), slots[1..])
    ensures var reg := regs[slots[0].reg];
            Need(regs, slots[..k], b) == Need(Next(regs, slots[0], cur), slots[1..][..k - 1], b) +
                                         if Wants(reg) && AreaOf(reg.kind) == b then Units(reg) else 0
  {
    var next, rest := Next(regs, slots[0], cur), slots[1..];
    NeedIgnores(regs, rest[..k - 1], slots[0].reg, next[slots[0].reg], b);
    assert slots[..k][1..] == rest[..k - 1];
    assert next == regs[slots[0].reg := next[slots[0].reg]];
  }

  lemma {:induction false} CarvePlaces(regs: seq<Reg>, slots: seq<Slot>, cur: Cursor, k: nat)
    requires Slots(regs, slots) && Grained(regs, slots, cur) && k < |slots|
    ensures Carve(regs, slots, cur)[slots[k].reg] == Placed(regs, slots, cur, k)
    decreases |slots|
  {
    var next, past, rest := Next(regs, slots[0], cur), Past(regs, slots[0], cur), slots[1..];
    assert Carve(regs, slots, cur) == Carve(next, rest, past);
    NextGrained(regs, slots, cur);
    if k == 0 {
      if Wants(regs[slots[0].reg]) {
        OrAligned(regs[slots[0].reg], cur.At(AreaOf(regs[slots[0].reg].kind)));
      }
      assert slots[..0] == [];
      CarveLeaves(next, rest, past, slots[0].reg);
    } else {
      CarvePlaces(next, rest, past, k - 1);
      assert next[slots[k].reg] == regs[slots[k].reg];
      NeedStep(regs, slots, cur, k, AreaOf(regs[slots[k].reg].kind));
    }
  }

  /** Registers that are not in `slots` are not touched. */
  lemma {:induction false} CarveLeaves(regs: seq<Reg>, slots: seq<Slot>, cur: Cursor, i: nat)
    requires |regs| == 7 && i < 7 && forall k :: 0 <= k < |slots| ==> slots[k].reg < 7 && slots[k].reg != i
    ensures Carve(regs, slots, cur)[i] == regs[i]
    decreases |slots|
  {
    if slots != [] {
      var reg, a := regs[slots[0].reg], AreaOf(regs[slots[0].reg].kind);
      if Wants(reg) {
        CarveLeaves(regs[slots[0].reg := reg.(address := Or(reg.address, cur.At(a)))], slots[1..],
                    cur.Past(a, Units(reg)), i);
      } else {
        CarveLeaves(regs, slots[1..], cur, i);
      }
    }
  }

  // ---------------------------------------------------------------- sums do not depend on the order

  /** What `x` alone takes of area `a`. */
  function NeedOf(regs: seq<Reg>, x: Slot, a: Area): (r: nat)
    requires |regs| == 7 && x.reg < 7
  {
    if Wants(regs[x.reg]) && AreaOf(regs[x.reg].kind) == a then Units(regs[x.reg]) else 0
  }

  predicate InRange(slots: seq<Slot>) { forall k :: 0 <= k < |slots| ==> slots[k].reg < 7 }

  lemma {:induction false} NeedSplits(regs: seq<Reg>, p: seq<Slot>, q: seq<Slot>, a: Area)
    requires |regs| == 7 && InRange(p) && InRange(q)
    ensures Need(regs, p + q, a) == Need(regs, p, a) + Need(regs, q, a)
  {
    if p == [] {
      assert p + q == q;
    } else {
      assert (p + q)[1..] == p[1..] + q;
      NeedSplits(regs, p[1..], q, a);
    }
  }

  lemma {:induction false} NeedWithout(regs: seq<Reg>, s: seq<Slot>, k: nat, a: Area)
    requires |regs| == 7 && InRange(s) && k < |s|
    ensures Need(regs, s, a) == NeedOf(regs, s[k], a) + Need(regs, s[..k] + s[k + 1..], a)
  {
    assert s == s[..k] + s[k..] && s[k..][1..] == s[k + 1..];
    NeedSplits(regs, s[..k], s[k..], a);
    NeedSplits(regs, s[..k], s[k + 1..], a);
  }

  lemma {:induction false} RemoveOne<T>(s: seq<T>, t: seq<T>, k: nat)
    requires s != [] && k < |t| && multiset(s) == multiset(t) && t[k] == s[0]
    ensures multiset(s[1..]) == multiset(t[..k] + t[k + 1..])
  {
    assert t == t[..k] + [t[k]] + t[k + 1..];
    assert s == [s[0]] + s[1..];
    var u := t[..k] + t[k + 1..];
    assert multiset(t) == multiset(u) + multiset{t[k]};
    assert multiset(s) == multiset(s[1..]) + multiset{s[0]};
    assert multiset(u) == multiset(t) - multiset{s[0]};
  }

  lemma {:induction false} NeedOfPermutation(regs: seq<Reg>, s: seq<Slot>, t: seq<Slot>, a: Area)
    requires |regs| == 7 && InRange(s) && InRange(t) && multiset(s) == multiset(t)
    ensures Need(regs, s, a) == Need(regs, t, a)
    decreases |s|
  {
    if s == [] {
      assert |multiset(t)| == 0;
    } else {
      assert s[0] in multiset(t);
      var k: nat :| k < |t| && t[k] == s[0];
      RemoveOne(s, t, k);
      NeedOfPermutation(regs, s[1..], t[..k] + t[k + 1..], a);
      NeedWithout(regs, t, k, a);
    }
  }

  lemma {:induction false} NeedPrefix(regs: seq<Reg>, s: seq<Slot>, j: nat, k: nat, a: Area)
    requires |regs| == 7 && InRange(s) && j < k <= |s|
    ensures Need(regs, s[..j], a) + NeedOf(regs, s[j], a) <= Need(regs, s[..k], a) <= Need(regs, s, a)
  {
    assert s == s[..k] + s[k..] && s[..k] == s[..j] + s[j..k] && s[j..k][1..] == s[j + 1..k];
    NeedSplits(regs, s[..k], s[k..], a);
    NeedSplits(regs, s[..j], s[j..k], a);
  }

  // ---------------------------------------------------------------- what adding up yields

  /** No register was enabled by firmware. */
  predicate NoneEnabled(regs: seq<Reg>) { forall i :: 0 <= i < |regs| ==> !regs[i].enabled }

  /** The exact sum of what the registers in `slots` take of an area. */
  function Total(regs: seq<Reg>, slots: seq<Slot>, a: Area): (r: nat)
    requires |regs| == 7 && InRange(slots)
  {
    if slots == [] then 0
    else
      var reg := regs[slots[|slots| - 1].reg];
      Total(regs, slots[..|slots| - 1], a) + if AreaOf(reg.kind) == a then Units(reg) else 0
  }

  /** The largest register in `slots` of an area. */
  function Largest(regs: seq<Reg>, slots: seq<Slot>, a: Area): (r: nat)
    requires |regs| == 7 && InRange(slots)
    ensures forall k :: 0 <= k < |slots| && AreaOf(regs[slots[k].reg].kind) == a ==> regs[slots[k].reg].size <= r
    ensures r == 0 || exists k :: 0 <= k < |slots| && AreaOf(regs[slots[k].reg].kind) == a && regs[slots[k].reg].size == r
  {
    if slots == [] then 0
    else
      var rest := Largest(regs, slots[..|slots| - 1], a);
      var reg := regs[slots[|slots| - 1].reg];
      if AreaOf(reg.kind) == a && reg.size > rest then reg.size else rest
  }

  /** The sums gathered for one area: the total modulo 2^32, and the largest register if it has a 32-bit size. */
  ghost predicate AreaGathered(regs: seq<Reg>, slots: seq<Slot>, a: Area, sum: nat, align: nat)
    requires |regs| == 7 && InRange(slots)
  {
    && sum == W32(Total(regs, slots, a))
    && (a != IoArea && Largest(regs, slots, a) < 0x1_0000_0000 ==> align == Largest(regs, slots, a))
  }

  /** What has been gathered from the registers below `i`. */
  ghost predicate GatheredUpTo(regs: seq<Reg>, g: Gathered, i: nat)
    requires |regs| == 7
  {
    && Slots(regs, g.slots) && !g.enabled
    && (forall k :: 0 <= k < |g.slots| ==> g.slots[k].reg < i && regs[g.slots[k].reg].kind != Unused)
    && (forall a :: AreaGathered(regs, g.slots, a, g.sums.Of(a), g.sums.AlignOf(a)))
  }

  lemma {:induction false} LargestFits(regs: seq<Reg>, slots: seq<Slot>, a: Area)
    requires |regs| == 7 && InRange(slots) && a != IoArea
    ensures Largest(regs, slots, a) <= Total(regs, slots, a)
  {
    if slots != [] {
      LargestFits(regs, slots[..|slots| - 1], a);
    }
  }

  lemma {:induction false} TotalAppend(regs: seq<Reg>, slots: seq<Slot>, x: Slot, a: Area)
    requires |regs| == 7 && InRange(slots) && x.reg < 7
    ensures var more := AreaOf(regs[x.reg].kind) == a;
            && Total(regs, slots + [x], a) == Total(regs, slots, a) + (if more then Units(regs[x.reg]) else 0)
            && Largest(regs, slots + [x], a) ==
                 if more && regs[x.reg].size > Largest(regs, slots, a) then regs[x.reg].size else Largest(regs, slots, a)
  {
    assert (slots + [x])[..|slots|] == slots;
  }

  lemma {:induction false} AreaAppend(regs: seq<Reg>, slots: seq<Slot>, x: Slot, a: Area, sum: nat, align: nat)
    requires |regs| == 7 && InRange(slots) && x.reg < 7 && AreaGathered(regs, slots, a, sum, align)
    requires AreaOf(regs[x.reg].kind) == a
    ensures var reg := regs[x.reg];
            AreaGathered(regs, slots + [x], a, W32(sum + Units(reg)),
                         if a != IoArea && reg.size > align then W32(reg.size) else align)
  {
    TotalAppend(regs, slots, x, a);
    W32Step(Total(regs, slots, a), Units(regs[x.reg]));
  }

  lemma {:induction false} AreaSkip(regs: seq<Reg>, slots: seq<Slot>, x: Slot, a: Area, sum: nat, align: nat)
    requires |regs| == 7 && InRange(slots) && x.reg < 7 && AreaGathered(regs, slots, a, sum, align)
    requires AreaOf(regs[x.reg].kind) != a
    ensures AreaGathered(regs, slots + [x], a, sum, align)
  {
    TotalAppend(regs, slots, x, a);
  }

  lemma {:induction false} SlotsAppend(regs: seq<Reg>, slots: seq<Slot>, i: nat)
    requires Slots(regs, slots) && i < 7 && regs[i].kind != Unused
    requires forall k :: 0 <= k < |slots| ==> slots[k].reg < i && regs[slots[k].reg].kind != Unused
    ensures var s := slots + [Slot(regs[i].size, i)];
            Slots(regs, s) && forall k :: 0 <= k < |s| ==> s[k].reg < i + 1 && regs[s[k].reg].kind != Unused
  {
  }

  lemma {:induction false} AddSizeIs(s: Sums, reg: Reg, a: Area)
    ensures AddSize(s, reg).Of(a) == if AreaOf(reg.kind) == a then W32(s.Of(a) + Units(reg)) else s.Of(a)
    ensures AddSize(s, reg).AlignOf(a) ==
            if AreaOf(reg.kind) == a && a != IoArea && reg.size > s.AlignOf(a) then W32(reg.size) else s.AlignOf(a)
  {
  }

  lemma {:induction false} AddKeepsArea(regs: seq<Reg>, g: Gathered, i: nat, a: Area)
    requires |regs| == 7 && i < 7 && InRange(g.slots) && AreaGathered(regs, g.slots, a, g.sums.Of(a), g.sums.AlignOf(a))
    ensures var s := AddSize(g.sums, regs[i]);
            AreaGathered(regs, g.slots + [Slot(regs[i].size, i)], a, s.Of(a), s.AlignOf(a))
  {
    var x := Slot(regs[i].size, i);
    AddSizeIs(g.sums, regs[i], a);
    if AreaOf(regs[i].kind) == a {
      AreaAppend(regs, g.slots, x, a, g.sums.Of(a), g.sums.AlignOf(a));
    } else {
      AreaSkip(regs, g.slots, x, a, g.sums.Of(a), g.sums.AlignOf(a));
    }
  }

  lemma {:induction false} AddKeepsGathered(regs: seq<Reg>, g: Gathered, i: nat)
    requires |regs| == 7 && i < 7 && GatheredUpTo(regs, g, i) && regs[i].kind != Unused
    ensures GatheredUpTo(regs, Gathered(AddSize(g.sums, regs[i]), g.slots + [Slot(regs[i].size, i)], false), i + 1)
  {
    SlotsAppend(regs, g.slots, i);
    var x, s := Slot(regs[i].size, i), AddSize(g.sums, regs[i]);
    forall a ensures AreaGathered(regs, g.slots + [x], a, s.Of(a), s.AlignOf(a)) {
      AddKeepsArea(regs, g, i, a);
    }
  }

  lemma {:induction false} GatherBasesTotals(regs: seq<Reg>, g: Gathered, i: nat, flags: set<Flag>)
    requires |regs| == 7 && i <= 6 && NoneEnabled(regs) && GatheredUpTo(regs, g, i)
    ensures GatheredUpTo(regs, GatherBases(g, regs, i, flags, false), 6)
    decreases 6 - i
  {
    if i < 6 {
      if InitBase(i) in flags && regs[i].kind != Unused {
        AddKeepsGathered(regs, g, i);
      }
      GatherBasesTotals(regs, GatherBase(g, regs[i], i, flags, false), i + 1, flags);
    }
  }

  /** The sums are the exact totals modulo 2^32, and the alignments the largest sizes, as far as these have 32 bits. */
  lemma {:induction false} GatherTotals(regs: seq<Reg>, flags: set<Flag>)
    requires |regs| == 7 && NoneEnabled(regs)
    ensures GatheredUpTo(regs, Gather(regs, flags, false), 7)
  {
    GatherBasesTotals(regs, NOTHING, 0, flags);
    var g := GatherBases(NOTHING, regs, 0, flags, false);
    if InitRom in flags && regs[6].kind == RomReg {
      AddKeepsGathered(regs, g, 6);
    }
  }

  lemma {:induction false} NeedWithinTotal(regs: seq<Reg>, slots: seq<Slot>, a: Area)
    requires |regs| == 7 && InRange(slots)
    ensures Need(regs, slots, a) <= Total(regs, slots, a)
    ensures (forall k :: 0 <= k < |slots| ==> Wants(regs[slots[k].reg])) ==> Need(regs, slots, a) == Total(regs, slots, a)
    decreases |slots|
  {
    if slots != [] {
      var n := |slots| - 1;
      NeedWithinTotal(regs, slots[..n], a);
      assert slots == slots[..n] + [slots[n]];
      NeedSplits(regs, slots[..n], [slots[n]], a);
      assert [slots[n]][1..] == [];
    }
  }

  // ---------------------------------------------------------------- sorting the slots

  lemma {:induction false} CountDistinct(regs: seq<Reg>, s: seq<Slot>, x: Slot)
    requires Slots(regs, s)
    ensures multiset(s)[x] <= 1
  {
    if s != [] {
      assert s == [s[0]] + s[1..];
      CountDistinct(regs, s[1..], x);
      assert x in multiset(s[1..]) ==> x in s[1..];
    }
  }

  lemma {:induction false} CountTwice(s: seq<Slot>, j: nat, k: nat)
    requires j < k < |s| && s[j] == s[k]
    ensures multiset(s)[s[j]] >= 2
  {
    assert s == s[..j] + [s[j]] + s[j + 1..k] + [s[k]] + s[k + 1..];
  }

  lemma {:induction false} SortKeepsSlots(regs: seq<Reg>, s: seq<Slot>, t: seq<Slot>)
    requires Slots(regs, s) && SortedVersion(s, t, SlotKey)
    ensures Slots(regs, t) && multiset(s) == multiset(t)
  {
    SameOrderIsPermutation(s, t, SlotKey);
    forall k | 0 <= k < |t| ensures t[k] in s {
      assert t[k] in multiset(s);
    }
    forall j, k | 0 <= j < k < |t| ensures t[j].reg != t[k].reg {
      if t[j].reg == t[k].reg {
        assert t[j] in s && t[k] in s;
        CountTwice(t, j, k);
        CountDistinct(regs, s, t[j]);
      }
    }
  }

  // ---------------------------------------------------------------- where the registers end up

  /** The address without the flag bits below it. */
  function Base(reg: Reg): (r: nat) { reg.address - reg.address % Limit(reg) }

  /** Every register in `slots` is a multiple of `n`, as far as it wants area `a`. */
  predicate UnitsAre(regs: seq<Reg>, slots: seq<Slot>, a: Area, n: nat)
    requires |regs| == 7 && InRange(slots) && n > 0
  {
    forall k :: 0 <= k < |slots| ==> NeedOf(regs, slots[k], a) % n == 0
  }

  lemma {:induction false} NeedIsMultiple(regs: seq<Reg>, slots: seq<Slot>, a: Area, n: nat)
    requires |regs| == 7 && InRange(slots) && n > 0 && UnitsAre(regs, slots, a, n)
    ensures Need(regs, slots, a) % n == 0
  {
    if slots != [] {
      NeedIsMultiple(regs, slots[1..], a, n);
      assert NeedOf(regs, slots[0], a) % n == 0;
      DividesSum(NeedOf(regs, slots[0], a), Need(regs, slots[1..], a), n);
    }
  }

  lemma {:induction false} ModOfSum(x: nat, y: nat, n: nat)
    requires n > 0 && y % n == 0
    ensures (x + y) % n == x % n
  {
    assert x + y == n * (x / n + y / n) + x % n;
    ModUnique(x + y, n, x / n + y / n, x % n);
  }

  lemma {:induction false} StartIsGrained(regs: seq<Reg>, slots: seq<Slot>, cur: Cursor, k: nat, a: Area)
    requires Slots(regs, slots) && Grained(regs, slots, cur) && k <= |slots|
    ensures (cur.At(a) + Need(regs, slots[..k], a)) % Grain(a) == 0
  {
    forall j | 0 <= j < k ensures NeedOf(regs, slots[..k][j], a) % Grain(a) == 0 {
      assert slots[..k][j] == slots[j];
    }
    NeedIsMultiple(regs, slots[..k], a, Grain(a));
    DividesSum(cur.At(a), Need(regs, slots[..k], a), Grain(a));
  }

  lemma {:induction false} BaseOfPlaced(reg: Reg, x: nat)
    requires reg.address < Limit(reg) && x % Limit(reg) == 0
    ensures Base(reg.(address := reg.address + x)) == x
  {
    ModOfSum(reg.address, x, Limit(reg));
  }

  /** A placed register starts where the registers before it in its area end. */
  lemma {:induction false} CarvedBase(regs: seq<Reg>, slots: seq<Slot>, cur: Cursor, k: nat)
    requires Slots(regs, slots) && Grained(regs, slots, cur) && k < |slots| && Wants(regs[slots[k].reg])
    ensures var a, r := AreaOf(regs[slots[k].reg].kind), Carve(regs, slots, cur)[slots[k].reg];
            && r == regs[slots[k].reg].(address := regs[slots[k].reg].address + Base(r))
            && Base(r) == cur.At(a) + Need(regs, slots[..k], a)
  {
    var reg := regs[slots[k].reg];
    CarvePlaces(regs, slots, cur, k);
    StartIsGrained(regs, slots, cur, k, AreaOf(reg.kind));
    BaseOfPlaced(reg, cur.At(AreaOf(reg.kind)) + Need(regs, slots[..k], AreaOf(reg.kind)));
  }

  /** Every register placed lies inside what its area needs, from the start of the chunk. */
  lemma {:induction false} CarvedInside(regs: seq<Reg>, slots: seq<Slot>, cur: Cursor, k: nat)
    requires Slots(regs, slots) && Grained(regs, slots, cur) && k < |slots| && Wants(regs[slots[k].reg])
    ensures var a, r := AreaOf(regs[slots[k].reg].kind), Carve(regs, slots, cur)[slots[k].reg];
            cur.At(a) <= Base(r) && Base(r) + Units(r) <= cur.At(a) + Need(regs, slots, a)
  {
    CarvedBase(regs, slots, cur, k);
    NeedPrefix(regs, slots, k, |slots|, AreaOf(regs[slots[k].reg].kind));
    assert slots[..|slots|] == slots;
  }

  /** No two registers placed in one area overlap. */
  lemma {:induction false} CarvedApart(regs: seq<Reg>, slots: seq<Slot>, cur: Cursor, j: nat, k: nat)
    requires Slots(regs, slots) && Grained(regs, slots, cur) && j < k < |slots|
    requires Wants(regs[slots[j].reg]) && Wants(regs[slots[k].reg])
    requires AreaOf(regs[slots[j].reg].kind) == AreaOf(regs[slots[k].reg].kind)
    ensures var r := Carve(regs, slots, cur);
            Base(r[slots[j].reg]) + Units(r[slots[j].reg]) <= Base(r[slots[k].reg])
  {
    CarvedBase(regs, slots, cur, j);
    CarvedBase(regs, slots, cur, k);
    NeedPrefix(regs, slots, j, k, AreaOf(regs[slots[j].reg].kind));
  }

  /** Sizes are powers of two. */
  ghost predicate PowersOfTwo(regs: seq<Reg>, slots: seq<Slot>)
    requires Slots(regs, slots)
  {
    forall k :: 0 <= k < |slots| && Wants(regs[slots[k].reg]) ==> IsPow2From(Units(regs[slots[k].reg]), 0)
  }

  /**
    With the largest first, a register of an area is naturally aligned exactly when the start of the
    chunk is a multiple of the register.
  */
  lemma {:induction false} CarvedAligned(regs: seq<Reg>, slots: seq<Slot>, cur: Cursor, k: nat)
    requires Slots(regs, slots) && Grained(regs, slots, cur) && k < |slots| && Wants(regs[slots[k].reg])
    requires PowersOfTwo(regs, slots) && Ascending(slots, SlotKey)
    ensures var a, r := AreaOf(regs[slots[k].reg].kind), Carve(regs, slots, cur)[slots[k].reg];
            Units(r) > 0 && (Base(r) % Units(r) == 0 <==> cur.At(a) % Units(r) == 0)
  {
    var reg := regs[slots[k].reg];
    var a, n := AreaOf(reg.kind), Units(reg);
    CarvedBase(regs, slots, cur, k);
    SmallerDivides(n, n);
    forall j | 0 <= j < k ensures NeedOf(regs, slots[..k][j], a) % n == 0 {
      assert slots[..k][j] == slots[j] && SlotKey(slots[j]) <= SlotKey(slots[k]);
      if NeedOf(regs, slots[j], a) != 0 {
        SmallerDivides(NeedOf(regs, slots[j], a), n);
      }
    }
    NeedIsMultiple(regs, slots[..k], a, n);
    ModOfSum(cur.At(a), Need(regs, slots[..k], a), n);
  }
}
