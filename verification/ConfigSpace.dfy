/**
  The configuration accessors over a backend that only moves whole 32-bit registers.  Bytes and words
  are both "units" of a register: four of base 256, or two of base 65536.  For a little-endian host.
*/
module ConfigSpace {
  import Bits

  datatype Status = Success | BufferTooSmall | BadRegister | Unsupported | NotFound | DeviceError

  /** How a register splits into units. */
  datatype Width = Byte | Word {
    function Per(): (r: nat) { if Byte? then 4 else 2 }

    /** How many units `n` registers hold. */
    function Times(n: nat): (r: nat) { if Byte? then 4 * n else 2 * n }

    function Radix(): (r: nat) { if Byte? then 0x100 else 0x1_0000 }
  }

  const TWO32: nat := 0x1_0000_0000

  /** The units of a register, lowest first. */
  function Units(d: nat, w: Width): (r: seq<nat>)
    ensures |r| == w.Per() && forall k :: 0 <= k < |r| ==> r[k] < w.Radix()
  {
    if w.Byte? then [d % 0x100, d / 0x100 % 0x100, d / 0x1_0000 % 0x100, d / 0x100_0000 % 0x100]
    else [d % 0x1_0000, d / 0x1_0000 % 0x1_0000]
  }

  function Register(u: seq<nat>, w: Width): (r: nat)
    requires |u| == w.Per()
  {
    if w.Byte? then u[0] + 0x100 * u[1] + 0x1_0000 * u[2] + 0x100_0000 * u[3] else u[0] + 0x1_0000 * u[1]
  }

  predicate AllUnits(u: seq<nat>, w: Width) { forall k :: 0 <= k < |u| ==> u[k] < w.Radix() }

  lemma {:induction false} BytesOfRegister(a: nat, b: nat, c: nat, d: nat)
    requires a < 0x100 && b < 0x100 && c < 0x100 && d < 0x100
    ensures var x := a + 0x100 * b + 0x1_0000 * c + 0x100_0000 * d;
            && x < TWO32 && x % 0x100 == a && x / 0x100 % 0x100 == b
            && x / 0x1_0000 % 0x100 == c && x / 0x100_0000 % 0x100 == d
  {
    var x := a + 0x100 * b + 0x1_0000 * c + 0x100_0000 * d;
    var y := b + 0x100 * c + 0x1_0000 * d;
    Bits.ModUnique(x, 0x100, y, a);
    Bits.ModUnique(y, 0x100, c + 0x100 * d, b);
    Bits.ModUnique(x, 0x1_0000, c + 0x100 * d, a + 0x100 * b);
    Bits.ModUnique(c + 0x100 * d, 0x100, d, c);
    Bits.ModUnique(x, 0x100_0000, d, a + 0x100 * b + 0x1_0000 * c);
    Bits.ModUnique(d, 0x100, 0, d);
  }

  lemma {:induction false} WordsOfRegister(a: nat, b: nat)
    requires a < 0x1_0000 && b < 0x1_0000
    ensures var x := a + 0x1_0000 * b; x < TWO32 && x % 0x1_0000 == a && x / 0x1_0000 % 0x1_0000 == b
  {
    Bits.ModUnique(a + 0x1_0000 * b, 0x1_0000, b, a);
    Bits.ModUnique(b, 0x1_0000, 0, b);
  }

  /** Splitting a register undoes putting it together. */
  lemma {:induction false} UnitsOfRegister(u: seq<nat>, w: Width)
    requires |u| == w.Per() && AllUnits(u, w)
    ensures Units(Register(u, w), w) == u && Register(u, w) < TWO32
  {
    if w.Byte? {
      BytesOfRegister(u[0], u[1], u[2], u[3]);
    } else {
      WordsOfRegister(u[0], u[1]);
    }
  }

  /** Registers seen as blocks of units. */
  function Blocks(space: seq<nat>, w: Width): (r: seq<seq<nat>>)
    ensures |r| == |space| && Even(r, w)
  {
    seq(|space|, j requires 0 <= j < |space| => Units(space[j], w))
  }

  /** Every block has as many units as a register. */
  predicate Even(blocks: seq<seq<nat>>, w: Width) { forall j :: 0 <= j < |blocks| ==> |blocks[j]| == w.Per() }

  /** The flat map of units that callers think of. */
  function Flat(blocks: seq<seq<nat>>): (r: seq<nat>) {
    if blocks == [] then [] else blocks[0] + Flat(blocks[1..])
  }

  lemma {:induction false} FlatLength(blocks: seq<seq<nat>>, w: Width)
    requires Even(blocks, w)
    ensures |Flat(blocks)| == w.Times(|blocks|)
  {
    if blocks != [] {
      FlatLength(blocks[1..], w);
    }
  }

  lemma {:induction false} FlatAppend(a: seq<seq<nat>>, b: seq<seq<nat>>)
    ensures Flat(a + b) == Flat(a) + Flat(b)
  {
    if a == [] {
      assert a + b == b;
    } else {
      assert (a + b)[0] == a[0] && (a + b)[1..] == a[1..] + b;
      FlatAppend(a[1..], b);
    }
  }

  lemma {:induction false} FlatThree(a: seq<seq<nat>>, b: seq<seq<nat>>, c: seq<seq<nat>>)
    ensures Flat(a + b + c) == Flat(a) + Flat(b) + Flat(c)
  {
    FlatAppend(a + b, c);
    FlatAppend(a, b);
  }

  /** The other way round: `n` blocks cut from a row of units. */
  function Chop(u: seq<nat>, w: Width, n: nat): (r: seq<seq<nat>>)
    requires |u| >= w.Times(n)
    ensures |r| == n && Even(r, w)
    decreases n
  {
    if n == 0 then [] else [u[..w.Per()]] + Chop(u[w.Per()..], w, n - 1)
  }

  lemma {:induction false} FlatChop(u: seq<nat>, w: Width, n: nat)
    requires |u| >= w.Times(n)
    ensures Flat(Chop(u, w, n)) == u[..w.Times(n)]
    decreases n
  {
    if n > 0 {
      var p := w.Per();
      FlatChop(u[p..], w, n - 1);
      assert Chop(u, w, n)[1..] == Chop(u[p..], w, n - 1);
      assert u[..w.Times(n)] == u[..p] + u[p..][..w.Times(n - 1)];
    }
  }

  // ---------------------------------------------------------------- one call

  /** Where a stretch of units begins: register and unit within it, and how many registers are fetched. */
  datatype Span = Span(first: nat, rest: nat, count: nat)

  function SpanOf(o: nat, n: nat, w: Width): (s: Span)
    ensures s.rest < w.Per() && o == w.Times(s.first) + s.rest && n <= w.Times(s.count) < n + w.Per()
  {
    if w.Byte? then Span(o / 4, o % 4, (n + 3) / 4) else Span(o / 2, o % 2, (n + 1) / 2)
  }

  /** The stretch lies within the registers fetched. */
  predicate Fits(o: nat, n: nat, w: Width) {
    SpanOf(o, n, w).rest + n <= w.Times(SpanOf(o, n, w).count)
  }

  predicate InSpace(space: seq<seq<nat>>, o: nat, n: nat, w: Width) {
    Even(space, w) && SpanOf(o, n, w).first + SpanOf(o, n, w).count <= |space|
  }

  /** The registers fetched. */
  function Fetched(space: seq<seq<nat>>, o: nat, n: nat, w: Width): (r: seq<nat>)
    requires InSpace(space, o, n, w)
  {
    var s := SpanOf(o, n, w);
    Flat(space[s.first..s.first + s.count])
  }

  lemma {:induction false} FetchedLength(space: seq<seq<nat>>, o: nat, n: nat, w: Width)
    requires InSpace(space, o, n, w)
    ensures |Fetched(space, o, n, w)| == w.Times(SpanOf(o, n, w).count)
  {
    var s := SpanOf(o, n, w);
    FlatLength(space[s.first..s.first + s.count], w);
  }

  /** The copy from or to the buffer stays inside it, with `tail` behind the registers fetched. */
  predicate Inside(o: nat, n: nat, w: Width, tail: seq<nat>) {
    SpanOf(o, n, w).rest + n <= w.Times(SpanOf(o, n, w).count) + |tail|
  }

  /** What a read returns; `tail` is what the buffer holds behind the registers fetched. */
  function ReadBack(space: seq<seq<nat>>, o: nat, n: nat, w: Width, tail: seq<nat>): (r: seq<nat>)
    requires InSpace(space, o, n, w) && Inside(o, n, w, tail)
  {
    FetchedLength(space, o, n, w);
    var r := SpanOf(o, n, w).rest;
    (Fetched(space, o, n, w) + tail)[r..r + n]
  }

  /** Overwrites units in the middle. */
  function Splice(u: seq<nat>, o: nat, data: seq<nat>): (r: seq<nat>)
    requires o + |data| <= |u|
    ensures |r| == |u|
  {
    u[..o] + data + u[o + |data|..]
  }

  /** The space after a write: the registers are fetched, spliced and written back. */
  function WriteBack(space: seq<seq<nat>>, o: nat, data: seq<nat>, w: Width, tail: seq<nat>): (r: seq<seq<nat>>)
    requires InSpace(space, o, |data|, w) && Inside(o, |data|, w, tail)
    ensures |r| == |space|
  {
    FetchedLength(space, o, |data|, w);
    var s := SpanOf(o, |data|, w);
    space[..s.first] + Chop(Splice(Fetched(space, o, |data|, w) + tail, s.rest, data), w, s.count) + space[s.first + s.count..]
  }

  // ---------------------------------------------------------------- what callers get

  /** The registers fetched are a stretch of the flat map. */
  lemma {:induction false} FetchedIsSlice(space: seq<seq<nat>>, o: nat, n: nat, w: Width) returns (a: seq<nat>,
          z: seq<nat>)
    requires InSpace(space, o, n, w)
    ensures Flat(space) == a + Fetched(space, o, n, w) + z && |a| + SpanOf(o, n, w).rest == o
    ensures var s := SpanOf(o, n, w); a == Flat(space[..s.first]) && z == Flat(space[s.first + s.count..])
  {
    var s := SpanOf(o, n, w);
    var b, m, c := space[..s.first], space[s.first..s.first + s.count], space[s.first + s.count..];
    assert space == b + m + c;
    FlatThree(b, m, c);
    FlatLength(b, w);
    a, z := Flat(b), Flat(c);
  }

  lemma {:induction false} MiddleOf(a: seq<nat>, m: seq<nat>, z: seq<nat>, tail: seq<nat>, r: nat, n: nat)
    requires r + n <= |m|
    ensures (m + tail)[r..r + n] == (a + m + z)[|a| + r..|a| + r + n]
  {
  }

  /** When the stretch fits, a read returns exactly the addressed units. */
  lemma {:induction false} ReadIsExact(space: seq<seq<nat>>, o: nat, n: nat, w: Width, tail: seq<nat>)
    requires InSpace(space, o, n, w) && Fits(o, n, w)
    ensures o + n <= |Flat(space)| && ReadBack(space, o, n, w, tail) == Flat(space)[o..o + n]
  {
    var a, z := FetchedIsSlice(space, o, n, w);
    FetchedLength(space, o, n, w);
    MiddleOf(a, Fetched(space, o, n, w), z, tail, SpanOf(o, n, w).rest, n);
  }

  /** What a read returns does not depend on what the buffer held before exactly when the stretch fits. */
  lemma {:induction false} ReadIsExactIff(space: seq<seq<nat>>, o: nat, n: nat, w: Width)
    requires InSpace(space, o, n, w) && n > 0
    ensures (forall t0: seq<nat>, t1: seq<nat> {:trigger ReadBack(space, o, n, w, t0), ReadBack(space, o, n, w, t1)} ::
               |t0| == |t1| == w.Per() ==> ReadBack(space, o, n, w, t0) == ReadBack(space, o, n, w, t1)) <==> Fits(o, n, w)
  {
    if Fits(o, n, w) {
      forall t0: seq<nat>, t1: seq<nat> | |t0| == |t1| == w.Per()
        ensures ReadBack(space, o, n, w, t0) == ReadBack(space, o, n, w, t1)
      {
        ReadIsExact(space, o, n, w, t0);
        ReadIsExact(space, o, n, w, t1);
      }
    } else {
      ReadsTail(space, o, n, w, seq(w.Per(), _ => 0));
      ReadsTail(space, o, n, w, seq(w.Per(), _ => 1));
    }
  }

  lemma {:induction false} ReadsTail(space: seq<seq<nat>>, o: nat, n: nat, w: Width, tail: seq<nat>)
    requires InSpace(space, o, n, w) && n > 0 && |tail| == w.Per() && !Fits(o, n, w)
    ensures |ReadBack(space, o, n, w, tail)| == n && ReadBack(space, o, n, w, tail)[n - 1] in tail
  {
    FetchedLength(space, o, n, w);
    var r, m := SpanOf(o, n, w).rest, Fetched(space, o, n, w);
    assert (m + tail)[r..r + n][n - 1] == tail[r + n - 1 - |m|];
  }

  lemma {:induction false} SpliceMiddle(a: seq<nat>, m: seq<nat>, z: seq<nat>, tail: seq<nat>, r: nat, data: seq<nat>)
    requires r + |data| <= |m|
    ensures Splice(m + tail, r, data)[..|m|] == Splice(m, r, data)
    ensures a + Splice(m, r, data) + z == Splice(a + m + z, |a| + r, data)
  {
  }

  lemma {:induction false} FlatOfWrite(space: seq<seq<nat>>, o: nat, data: seq<nat>, w: Width, tail: seq<nat>)
    requires InSpace(space, o, |data|, w) && Inside(o, |data|, w, tail)
    ensures |Fetched(space, o, |data|, w)| == w.Times(SpanOf(o, |data|, w).count)
    ensures var s, m := SpanOf(o, |data|, w), Fetched(space, o, |data|, w);
            Flat(WriteBack(space, o, data, w, tail)) ==
              Flat(space[..s.first]) + Splice(m + tail, s.rest, data)[..|m|] + Flat(space[s.first + s.count..])
  {
    FetchedLength(space, o, |data|, w);
    var s := SpanOf(o, |data|, w);
    var u := Splice(Fetched(space, o, |data|, w) + tail, s.rest, data);
    FlatChop(u, w, s.count);
    FlatThree(space[..s.first], Chop(u, w, s.count), space[s.first + s.count..]);
  }

  /** When the stretch fits, a write changes exactly the addressed units and leaves every other unit. */
  lemma {:induction false} WriteIsExact(space: seq<seq<nat>>, o: nat, data: seq<nat>, w: Width, tail: seq<nat>)
    requires InSpace(space, o, |data|, w) && Fits(o, |data|, w)
    ensures o + |data| <= |Flat(space)|
    ensures Flat(WriteBack(space, o, data, w, tail)) == Splice(Flat(space), o, data)
  {
    var s, m := SpanOf(o, |data|, w), Fetched(space, o, |data|, w);
    var a, z := FetchedIsSlice(space, o, |data|, w);
    var next := Flat(WriteBack(space, o, data, w, tail));
    assert |m| == w.Times(s.count) && next == a + Splice(m + tail, s.rest, data)[..|m|] + z by {
      FlatOfWrite(space, o, data, w, tail);
    }
    SpliceMiddle(a, m, z, tail, s.rest, data);
  }

  /** When it does not fit, the last unit is lost: the space comes out the same whatever that unit is. */
  lemma {:induction false} WriteLosesIff(space: seq<seq<nat>>, o: nat, data: seq<nat>, last: nat, w: Width,
          tail: seq<nat>)
    requires InSpace(space, o, |data|, w) && Inside(o, |data|, w, tail) && data != [] && data[|data| - 1] != last
    ensures WriteBack(space, o, data[|data| - 1 := last], w, tail) == WriteBack(space, o, data, w, tail) <==> !Fits(o, |data|, w)
  {
    var n := |data|;
    var changed := data[n - 1 := last];
    if Fits(o, n, w) {
      WriteIsExact(space, o, data, w, tail);
      WriteIsExact(space, o, changed, w, tail);
      assert Splice(Flat(space), o, data)[o + n - 1] == data[n - 1];
      assert Splice(Flat(space), o, changed)[o + n - 1] == last;
    } else {
      FetchedLength(space, o, n, w);
      var s, m := SpanOf(o, n, w), Fetched(space, o, n, w);
      var u, v := Splice(m + tail, s.rest, data), Splice(m + tail, s.rest, changed);
      assert u[..w.Times(s.count)] == v[..w.Times(s.count)];
      ChopPrefix(u, v, w, s.count);
    }
  }

  lemma {:induction false} ChopPrefix(u: seq<nat>, v: seq<nat>, w: Width, n: nat)
    requires |u| >= w.Times(n) && |v| >= w.Times(n) && u[..w.Times(n)] == v[..w.Times(n)]
    ensures Chop(u, w, n) == Chop(v, w, n)
    decreases n
  {
    if n > 0 {
      var p, k := w.Per(), w.Times(n);
      assert u[..p] == u[..k][..p] && v[..p] == v[..k][..p];
      assert u[p..][..k - p] == u[..k][p..] && v[p..][..k - p] == v[..k][p..];
      ChopPrefix(u[p..], v[p..], w, n - 1);
    }
  }

  /** Reading what was written gives the data back. */
  lemma {:induction false} WriteThenRead(space: seq<seq<nat>>, o: nat, data: seq<nat>, w: Width, tail: seq<nat>,
          tail': seq<nat>)
    requires InSpace(space, o, |data|, w) && Fits(o, |data|, w)
    ensures var next := WriteBack(space, o, data, w, tail);
            InSpace(next, o, |data|, w) && ReadBack(next, o, |data|, w, tail') == data
  {
    var next := WriteBack(space, o, data, w, tail);
    WriteIsExact(space, o, data, w, tail);
    ReadIsExact(next, o, |data|, w, tail');
    assert Splice(Flat(space), o, data)[o..o + |data|] == data;
  }

  /** Bytes fit by the arithmetic of the call; words fit from an even word on, or in an odd number. */
  lemma {:induction false} FitsMeans(o: nat, n: nat)
    ensures Fits(o, n, Byte) <==> o % 4 + n <= 4 * ((n + 3) / 4)
    ensures n > 0 ==> (Fits(o, n, Word) <==> o % 2 == 0 || n % 2 == 1)
  {
    var k := n / 2;
    if n % 2 == 0 {
      Bits.ModUnique(n + 1, 2, k, 1);
    } else {
      Bits.ModUnique(n + 1, 2, k + 1, 0);
    }
  }
}
