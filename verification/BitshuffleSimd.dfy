/**
  The forms of the bit passes that use vector registers: a register is a sequence of 16-bit lanes, the mask move
  collects the top bit of every byte, and the shift moves bits across the byte boundary inside a lane.  They meet
  the same contracts as the scalar passes, so by uniqueness they compute the same output.
*/
module BitshuffleSimd {
  import opened BitMatrix
  import opened BitshuffleScalar

  type Register = seq<bv16>

  // ------------------------------------------------------------------------------------------------
  // One lane

  /** Two bytes as a little-endian lane. */
  function Lane(lo: byte, hi: byte): bv16 {
    (lo as bv16) | ((hi as bv16) << 8)
  }

  /** After k one-bit shifts. */
  function ShiftedLane(x: bv16, k: nat): bv16 {
    if k == 0 then x else if k == 1 then x << 1 else if k == 2 then x << 2 else if k == 3 then x << 3
    else if k == 4 then x << 4 else if k == 5 then x << 5 else if k == 6 then x << 6 else if k == 7 then x << 7 else x << 8
  }

  lemma ShiftLaneOnce(x: bv16, k: nat)
    requires k < 8
    ensures ShiftedLane(x, k) << 1 == ShiftedLane(x, k + 1)
  {
    match k
    case 0 => assert x << 1 == x << 1;
    case 1 => assert (x << 1) << 1 == x << 2;
    case 2 => assert (x << 2) << 1 == x << 3;
    case 3 => assert (x << 3) << 1 == x << 4;
    case 4 => assert (x << 4) << 1 == x << 5;
    case 5 => assert (x << 5) << 1 == x << 6;
    case 6 => assert (x << 6) << 1 == x << 7;
    case _ => assert (x << 7) << 1 == x << 8;
  }

  lemma LaneBits(lo: byte, hi: byte)
    ensures var x := Lane(lo, hi);
            && (x & 0x80 != 0) == (lo & 128 != 0) && (x & 0x8000 != 0) == (hi & 128 != 0)
            && ((x << 1) & 0x80 != 0) == (lo & 64 != 0) && ((x << 1) & 0x8000 != 0) == (hi & 64 != 0)
            && ((x << 2) & 0x80 != 0) == (lo & 32 != 0) && ((x << 2) & 0x8000 != 0) == (hi & 32 != 0)
            && ((x << 3) & 0x80 != 0) == (lo & 16 != 0) && ((x << 3) & 0x8000 != 0) == (hi & 16 != 0)
            && ((x << 4) & 0x80 != 0) == (lo & 8 != 0) && ((x << 4) & 0x8000 != 0) == (hi & 8 != 0)
            && ((x << 5) & 0x80 != 0) == (lo & 4 != 0) && ((x << 5) & 0x8000 != 0) == (hi & 4 != 0)
            && ((x << 6) & 0x80 != 0) == (lo & 2 != 0) && ((x << 6) & 0x8000 != 0) == (hi & 2 != 0)
            && ((x << 7) & 0x80 != 0) == (lo & 1 != 0) && ((x << 7) & 0x8000 != 0) == (hi & 1 != 0)
  {
  }

  predicate TopOfLow(x: bv16) { x & 0x80 != 0 }
  predicate TopOfHigh(x: bv16) { x & 0x8000 != 0 }

  /** Shifts leak bits from the low byte into the high one, but not into the bit that is extracted. */
  lemma ShiftedTops(lo: byte, hi: byte, k: nat)
    requires k < 8
    ensures TopOfLow(ShiftedLane(Lane(lo, hi), k)) == Bit(lo, 7 - k)
    ensures TopOfHigh(ShiftedLane(Lane(lo, hi), k)) == Bit(hi, 7 - k)
  {
    hide Lane;
    LaneBits(lo, hi);
    match k case 0 => case 1 => case 2 => case 3 => case 4 => case 5 => case 6 => case _ =>
  }

  // ------------------------------------------------------------------------------------------------
  // Registers

  function Load(s: seq<byte>, at: nat, lanes: nat): (r: Register)
    requires at + 2 * lanes <= |s|
    ensures |r| == lanes && forall l :: 0 <= l < lanes ==> r[l] == LaneAt(s, at, l)
  {
    seq(lanes, l requires 0 <= l < lanes => LaneAt(s, at, l))
  }

  function LaneAt(s: seq<byte>, at: nat, l: nat): bv16
    requires at + 2 * l + 1 < |s|
  {
    Lane(s[at + 2 * l], s[at + 2 * l + 1])
  }

  function ShiftLanes(r: Register): (t: Register)
    ensures |t| == |r|
  {
    if r == [] then [] else ShiftLanes(r[..|r| - 1]) + [r[|r| - 1] << 1]
  }

  lemma {:induction false} ShiftLanesAt(r: Register, l: nat)
    requires l < |r|
    ensures ShiftLanes(r)[l] == r[l] << 1
  {
    if l < |r| - 1 { ShiftLanesAt(r[..|r| - 1], l); }
  }

  /** The top bit of every byte, byte 0 first. */
  function MoveMask(r: Register): (m: seq<bool>)
    ensures |m| == 2 * |r|
  {
    if r == [] then [] else MoveMask(r[..|r| - 1]) + [TopOfLow(r[|r| - 1]), TopOfHigh(r[|r| - 1])]
  }

  lemma {:induction false} MoveMaskAt(r: Register, l: nat)
    requires l < |r|
    ensures MoveMask(r)[2 * l] == TopOfLow(r[l]) && MoveMask(r)[2 * l + 1] == TopOfHigh(r[l])
  {
    if l < |r| - 1 { MoveMaskAt(r[..|r| - 1], l); }
  }

  /** The register loaded from `at` and shifted k times. */
  predicate Holds(r: Register, s: seq<byte>, at: nat, k: nat) {
    at + 2 * |r| <= |s| && forall l :: 0 <= l < |r| ==> LaneHolds(r[l], s, at, k, l)
  }

  predicate LaneHolds(x: bv16, s: seq<byte>, at: nat, k: nat, l: nat) {
    at + 2 * l + 1 < |s| && x == ShiftedLane(LaneAt(s, at, l), k)
  }

  lemma LoadHolds(s: seq<byte>, at: nat, lanes: nat)
    requires at + 2 * lanes <= |s|
    ensures Holds(Load(s, at, lanes), s, at, 0)
  {
    hide Lane;
  }

  lemma ShiftHolds(r: Register, s: seq<byte>, at: nat, k: nat)
    requires k < 8 && Holds(r, s, at, k)
    ensures Holds(ShiftLanes(r), s, at, k + 1)
  {
    hide ShiftedLane, LaneAt;
    forall l | 0 <= l < |r| ensures LaneHolds(ShiftLanes(r)[l], s, at, k + 1, l) {
      assert LaneHolds(r[l], s, at, k, l);
      ShiftLanesAt(r, l);
      ShiftLaneOnce(LaneAt(s, at, l), k);
    }
  }

  lemma LaneMask(x: bv16, s: seq<byte>, at: nat, k: nat, l: nat)
    requires k < 8 && LaneHolds(x, s, at, k, l)
    ensures TopOfLow(x) == Bit(s[at + 2 * l], 7 - k) && TopOfHigh(x) == Bit(s[at + 2 * l + 1], 7 - k)
  {
    hide ShiftedLane, Lane, TopOfLow, TopOfHigh, Bit;
    ShiftedTops(s[at + 2 * l], s[at + 2 * l + 1], k);
  }

  /** Bit p of the mask is bit 7-k of byte p. */
  lemma MaskBit(r: Register, s: seq<byte>, at: nat, k: nat, p: nat)
    requires k < 8 && Holds(r, s, at, k) && p < 2 * |r|
    ensures MoveMask(r)[p] == Bit(s[at + p], 7 - k)
  {
    hide TopOfLow, TopOfHigh, Bit, LaneHolds, MoveMask;
    var l := p / 2;
    MoveMaskAt(r, l);
    assert LaneHolds(r[l], s, at, k, l);
    LaneMask(r[l], s, at, k, l);
    assert p == 2 * l || p == 2 * l + 1;
  }

  // ------------------------------------------------------------------------------------------------
  // Storing a mask

  /** Byte m of a mask, stored little-endian. */
  function MaskByte(mask: seq<bool>, m: nat): byte
    requires 8 * m + 8 <= |mask|
  {
    Pack(mask[8 * m], mask[8 * m + 1], mask[8 * m + 2], mask[8 * m + 3],
         mask[8 * m + 4], mask[8 * m + 5], mask[8 * m + 6], mask[8 * m + 7])
  }

  lemma MaskByteBit(mask: seq<bool>, m: nat, c: nat)
    requires 8 * m + 8 <= |mask| && c < 8
    ensures Bit(MaskByte(mask, m), c) == mask[8 * m + c]
  {
    hide Pack;
    PackBits(mask[8 * m], mask[8 * m + 1], mask[8 * m + 2], mask[8 * m + 3],
             mask[8 * m + 4], mask[8 * m + 5], mask[8 * m + 6], mask[8 * m + 7]);
    match c case 0 => case 1 => case 2 => case 3 => case 4 => case 5 => case 6 => case _ =>
  }

  /** So byte m of the mask is column 7-k of octet m of the register. */
  lemma MaskColumn(r: Register, s: seq<byte>, at: nat, k: nat, m: nat)
    requires k < 8 && Holds(r, s, at, k) && 8 * m + 8 <= 2 * |r|
    ensures IsColumn(MaskByte(MoveMask(r), m), s, at + 8 * m, 7 - k)
  {
    hide Holds, Bit, MaskByte, MoveMask;
    HoldsInside(r, s, at, k);
    forall c | 0 <= c < 8 ensures Bit(MaskByte(MoveMask(r), m), c) == Bit(s[at + 8 * m + c], 7 - k) {
      MaskByteBit(MoveMask(r), m, c);
      MaskBit(r, s, at, k, 8 * m + c);
    }
  }

  lemma HoldsInside(r: Register, s: seq<byte>, at: nat, k: nat)
    requires Holds(r, s, at, k)
    ensures at + 2 * |r| <= |s|
  {
  }

  // ------------------------------------------------------------------------------------------------
  // Transposing bits within bytes, a register at a time

  /** Byte q of row k holds its column, or has not been touched. */
  predicate OctetCell(s: seq<byte>, t0: seq<byte>, t: seq<byte>, n: nat, q: nat, k: nat, done: bool)
    requires k < 8
  {
    if done then OctetMoved(s, t, n, q, k) else Kept(t0, t, n, k, q)
  }

  ghost predicate Octets(s: seq<byte>, t0: seq<byte>, t: seq<byte>, n: nat, done: (nat, nat) -> bool) {
    forall q, k :: 0 <= q < n && 0 <= k < 8 ==> OctetCell(s, t0, t, n, q, k, done(q, k))
  }

  lemma OctetCellStored(s: seq<byte>, t0: seq<byte>, t: seq<byte>, n: nat, q: nat, k: nat, v: byte,
                        done: (nat, nat) -> bool, after: (nat, nat) -> bool)
    requires |s| == |t| == 8 * n && q < n && k < 8 && Octets(s, t0, t, n, done)
    requires IsColumn(v, s, 8 * q, k) && At(k, n, q) < |t|
    requires after(q, k) && forall q', k' :: 0 <= q' < n && 0 <= k' < 8 && (q' != q || k' != k) ==> after(q', k') == done(q', k')
    ensures Octets(s, t0, t[At(k, n, q) := v], n, after)
  {
    hide IsColumn;
    var u := t[At(k, n, q) := v];
    AllInside(n);
    forall q', k' | 0 <= q' < n && 0 <= k' < 8 ensures OctetCell(s, t0, u, n, q', k', after(q', k')) {
      assert OctetCell(s, t0, t, n, q', k', done(q', k'));
      if q' != q || k' != k { StoreKeeps(t, n, k, q, v, k', q'); }
    }
  }

  lemma OctetsRenamed(s: seq<byte>, t0: seq<byte>, t: seq<byte>, n: nat, a: (nat, nat) -> bool, b: (nat, nat) -> bool)
    requires Octets(s, t0, t, n, a) && forall q, k :: 0 <= q < n && 0 <= k < 8 ==> a(q, k) == b(q, k)
    ensures Octets(s, t0, t, n, b)
  {
    hide OctetCell;
    forall q, k | 0 <= q < n && 0 <= k < 8 ensures OctetCell(s, t0, t, n, q, k, b(q, k)) {
      assert OctetCell(s, t0, t, n, q, k, a(q, k));
    }
  }

  /** Octets below q0 are done; of the next `width` octets, the top kk rows, and m octets of the row below them. */
  function MaskReached(q0: nat, width: nat, kk: nat, m: nat): (nat, nat) -> bool {
    (q, k) => q < q0 || (q < q0 + width && k + kk >= 8) || (q < q0 + m && k + kk == 7)
  }

  /** One register: `lanes` lanes from octet q0 on; the mask of step kk is stored in row 7-kk. */
  method TransMasks(inp: array<byte>, out: array<byte>, n: nat, q0: nat, lanes: nat, ghost t0: seq<byte>)
    requires inp != out && inp.Length == out.Length == 8 * n && lanes % 4 == 0 && q0 + lanes / 4 <= n
    requires Octets(inp[..], t0, out[..], n, MaskReached(q0, 0, 0, 0))
    modifies out
    ensures Octets(inp[..], t0, out[..], n, MaskReached(q0 + lanes / 4, 0, 0, 0))
  {
    ghost var s := inp[..];
    var width := lanes / 4;
    var r := Load(inp[..], 8 * q0, lanes);
    LoadHolds(s, 8 * q0, lanes);
    AllInside(n);
    OctetsRenamed(s, t0, out[..], n, MaskReached(q0, 0, 0, 0), MaskReached(q0, width, 0, 0));
    for kk := 0 to 8
      invariant |r| == lanes && Holds(r, s, 8 * q0, kk)
      invariant inp[..] == s && Octets(s, t0, out[..], n, MaskReached(q0, width, kk, 0))
    {
      StoreMask(inp, out, n, q0, r, kk, t0);
      OctetsRenamed(s, t0, out[..], n, MaskReached(q0, width, kk, width), MaskReached(q0, width, kk + 1, 0));
      ShiftHolds(r, s, 8 * q0, kk);
      r := ShiftLanes(r);
    }
    OctetsRenamed(s, t0, out[..], n, MaskReached(q0, width, 8, 0), MaskReached(q0 + width, 0, 0, 0));
  }

  /** The mask of step kk, stored as consecutive bytes of row 7-kk. */
  method StoreMask(inp: array<byte>, out: array<byte>, n: nat, q0: nat, r: Register, kk: nat, ghost t0: seq<byte>)
    requires inp != out && inp.Length == out.Length == 8 * n && |r| % 4 == 0 && q0 + |r| / 4 <= n && kk < 8
    requires Holds(r, inp[..], 8 * q0, kk)
    requires Octets(inp[..], t0, out[..], n, MaskReached(q0, |r| / 4, kk, 0))
    modifies out
    ensures Octets(inp[..], t0, out[..], n, MaskReached(q0, |r| / 4, kk, |r| / 4)) && inp[..] == old(inp[..])
  {
    hide Holds, MaskByte, IsColumn, MoveMask;
    ghost var s := inp[..];
    var bt := MoveMask(r);
    var width := |r| / 4;
    AllInside(n);
    for m := 0 to width
      invariant inp[..] == s && Octets(s, t0, out[..], n, MaskReached(q0, width, kk, m))
    {
      MaskColumn(r, s, 8 * q0, kk, m);
      OctetCellStored(s, t0, out[..], n, q0 + m, 7 - kk, MaskByte(bt, m),
                      MaskReached(q0, width, kk, m), MaskReached(q0, width, kk, m + 1));
      out[At(7 - kk, n, q0 + m)] := MaskByte(bt, m);
    }
  }

  /** Registers of `lanes` lanes (8 for 128 bits, 16 for 256), then the scalar remainder. */
  method TransBitByteSimd(inp: array<byte>, out: array<byte>, size: nat, elem: nat, lanes: nat) returns (count: int)
    requires inp != out && inp.Length == out.Length == At(size, elem, 0) && (lanes == 8 || lanes == 16)
    modifies out
    ensures inp.Length % 8 != 0 ==> count == NOT_MULTIPLE_OF_EIGHT && out[..] == old(out[..])
    ensures inp.Length % 8 == 0 ==> count == At(size, elem, 0) && BitsTransposed(inp[..], out[..], inp.Length / 8)
  {
    var nbyte := At(size, elem, 0);
    if nbyte % 8 != 0 { return NOT_MULTIPLE_OF_EIGHT; }
    hide Aligned, Tail, BitsTransposed;
    ghost var s, t0 := inp[..], out[..];
    var n := nbyte / 8;
    var ii := 0;
    AllInside(n);
    NoneAligned(lanes);
    assert Octets(s, t0, out[..], n, MaskReached(0, 0, 0, 0));
    while ii + 2 * lanes - 1 < nbyte
      invariant Aligned(ii, lanes) && ii <= nbyte
      invariant inp[..] == s && Octets(s, t0, out[..], n, MaskReached(ii / 8, 0, 0, 0))
    {
      NextAligned(ii, lanes, nbyte);
      TransMasks(inp, out, n, ii / 8, lanes, t0);
      ii := ii + 2 * lanes;
    }
    ghost var t := out[..];
    LastAligned(ii, lanes, nbyte);
    count := TransBitByteRemainder(inp, out, size, elem, nbyte - Tail(nbyte, lanes));
    assert inp[..] == s;
    RemainderCompletes(s, t0, t, out[..], n, ii / 8);
  }

  /** A whole number of registers. */
  predicate Aligned(ii: nat, lanes: nat) {
    if lanes == 8 then ii % 16 == 0 else ii % 32 == 0
  }

  /** The bytes that do not fill a register. */
  function Tail(nbyte: nat, lanes: nat): (r: nat)
    ensures r <= nbyte
  {
    if lanes == 8 then nbyte % 16 else nbyte % 32
  }

  lemma NoneAligned(lanes: nat)
    ensures Aligned(0, lanes)
  {
  }

  lemma NextAligned(ii: nat, lanes: nat, nbyte: nat)
    requires (lanes == 8 || lanes == 16) && Aligned(ii, lanes) && ii + 2 * lanes <= nbyte && nbyte % 8 == 0
    ensures Aligned(ii + 2 * lanes, lanes)
    ensures (ii + 2 * lanes) / 8 == ii / 8 + lanes / 4 && ii / 8 + lanes / 4 <= nbyte / 8
  {
  }

  lemma LastAligned(ii: nat, lanes: nat, nbyte: nat)
    requires (lanes == 8 || lanes == 16) && Aligned(ii, lanes) && ii <= nbyte < ii + 2 * lanes
    ensures nbyte - Tail(nbyte, lanes) == ii && ii % 8 == 0
  {
  }

  lemma RemainderCompletes(s: seq<byte>, t0: seq<byte>, t: seq<byte>, u: seq<byte>, n: nat, q0: nat)
    requires |s| == |t| == |u| == 8 * n && q0 <= n
    requires Octets(s, t0, t, n, MaskReached(q0, 0, 0, 0))
    requires forall q, k :: q0 <= q < n && 0 <= k < 8 ==> OctetMoved(s, u, n, q, k)
    requires forall q, k :: 0 <= q < q0 && q < n && 0 <= k < 8 ==> Kept(t, u, n, k, q)
    ensures BitsTransposed(s, u, n)
  {
    hide IsColumn;
    forall q, k | 0 <= q < n && 0 <= k < 8 ensures OctetMoved(s, u, n, q, k) {
      if q < q0 {
        assert OctetCell(s, t0, t, n, q, k, MaskReached(q0, 0, 0, 0)(q, k));
        assert Kept(t, u, n, k, q);
      }
    }
  }

  // ------------------------------------------------------------------------------------------------
  // Shuffling bits within eight-element blocks, a register at a time

  ghost predicate Spreads(s: seq<byte>, t: seq<byte>, nb: nat, elem: nat, done: (nat, nat, nat) -> bool) {
    forall b, j, c :: 0 <= b < nb && 0 <= j < elem && 0 <= c < 8 && done(b, j, c) ==> OctetSpread(s, t, nb, elem, b, j, c)
  }

  lemma SpreadCellStored(s: seq<byte>, t: seq<byte>, nb: nat, elem: nat, b: nat, j: nat, c: nat, v: byte,
                         done: (nat, nat, nat) -> bool, after: (nat, nat, nat) -> bool)
    requires |s| == |t| == At(8 * nb, elem, 0) && b < nb && j < elem && c < 8 && Spreads(s, t, nb, elem, done)
    requires At(b, 8 * elem, 8 * j) + 8 <= |s| && IsColumn(v, s, At(b, 8 * elem, 8 * j), c)
    requires At(8 * b + c, elem, j) < |t|
    requires forall b', j', c' :: 0 <= b' < nb && 0 <= j' < elem && 0 <= c' < 8 && (b' != b || j' != j || c' != c) ==>
                                    after(b', j', c') == done(b', j', c')
    ensures Spreads(s, t[At(8 * b + c, elem, j) := v], nb, elem, after)
  {
    hide IsColumn;
    var u := t[At(8 * b + c, elem, j) := v];
    forall b', j', c' | 0 <= b' < nb && 0 <= j' < elem && 0 <= c' < 8 && after(b', j', c')
      ensures OctetSpread(s, u, nb, elem, b', j', c')
    {
      if b' != b || j' != j || c' != c {
        assert OctetSpread(s, t, nb, elem, b', j', c');
        StoreKeeps(t, elem, 8 * b + c, j, v, 8 * b' + c', j');
      }
    }
  }

  lemma SpreadsRenamed(s: seq<byte>, t: seq<byte>, nb: nat, elem: nat, a: (nat, nat, nat) -> bool, z: (nat, nat, nat) -> bool)
    requires Spreads(s, t, nb, elem, a)
    requires forall b, j, c :: 0 <= b < nb && 0 <= j < elem && 0 <= c < 8 && z(b, j, c) ==> a(b, j, c)
    ensures Spreads(s, t, nb, elem, z)
  {
  }

  /** Blocks below b are done; of block b the octets below j0, and of the next `width` octets the top kk elements and m more. */
  function SpreadReached(b0: nat, j0: nat, width: nat, kk: nat, m: nat): (nat, nat, nat) -> bool {
    (b, j, c) => b < b0 || (b == b0 && (j < j0 || (j < j0 + width && c + kk >= 8) || (j < j0 + m && c + kk == 7)))
  }

  /** The mask of step kk, stored as consecutive bytes of element 7-kk of the block. */
  method SpreadMask(inp: array<byte>, out: array<byte>, nb: nat, elem: nat, b: nat, j0: nat, r: Register, kk: nat)
    requires inp != out && inp.Length == out.Length == At(8 * nb, elem, 0)
    requires b < nb && |r| % 4 == 0 && j0 + |r| / 4 <= elem && kk < 8
    requires Holds(r, inp[..], At(b, 8 * elem, 8 * j0), kk)
    requires Spreads(inp[..], out[..], nb, elem, SpreadReached(b, j0, |r| / 4, kk, 0))
    modifies out
    ensures Spreads(inp[..], out[..], nb, elem, SpreadReached(b, j0, |r| / 4, kk, |r| / 4)) && inp[..] == old(inp[..])
  {
    hide Holds, MaskByte, IsColumn, MoveMask;
    ghost var s := inp[..];
    var bt := MoveMask(r);
    var width := |r| / 4;
    for m := 0 to width
      invariant inp[..] == s && Spreads(s, out[..], nb, elem, SpreadReached(b, j0, width, kk, m))
    {
      MaskColumn(r, s, At(b, 8 * elem, 8 * j0), kk, m);
      AtColumn(b, 8 * elem, 8 * j0, 8 * m);
      assert 8 * j0 + 8 * m == 8 * (j0 + m);
      AtBound(8 * b + (7 - kk), 8 * nb, elem, j0 + m);
      OctetInside(nb, elem, b, j0 + m);
      SpreadCellStored(s, out[..], nb, elem, b, j0 + m, 7 - kk, MaskByte(bt, m),
                       SpreadReached(b, j0, width, kk, m), SpreadReached(b, j0, width, kk, m + 1));
      out[At(8 * b + (7 - kk), elem, j0 + m)] := MaskByte(bt, m);
    }
  }

  /** One register of block b. */
  method SpreadMasks(inp: array<byte>, out: array<byte>, nb: nat, elem: nat, b: nat, j0: nat, lanes: nat)
    requires inp != out && inp.Length == out.Length == At(8 * nb, elem, 0)
    requires b < nb && lanes % 4 == 0 && lanes > 0 && j0 + lanes / 4 <= elem
    requires Spreads(inp[..], out[..], nb, elem, SpreadReached(b, j0, 0, 0, 0))
    modifies out
    ensures Spreads(inp[..], out[..], nb, elem, SpreadReached(b, j0 + lanes / 4, 0, 0, 0)) && inp[..] == old(inp[..])
  {
    ghost var s := inp[..];
    var width := lanes / 4;
    var at := At(b, 8 * elem, 8 * j0);
    OctetInside(nb, elem, b, j0 + width - 1);
    AtColumn(b, 8 * elem, 8 * j0, 8 * (width - 1));
    assert 8 * j0 + 8 * (width - 1) == 8 * (j0 + width - 1);
    var r := Load(inp[..], at, lanes);
    LoadHolds(s, at, lanes);
    SpreadsRenamed(s, out[..], nb, elem, SpreadReached(b, j0, 0, 0, 0), SpreadReached(b, j0, width, 0, 0));
    for kk := 0 to 8
      invariant |r| == lanes && Holds(r, s, at, kk)
      invariant inp[..] == s && Spreads(s, out[..], nb, elem, SpreadReached(b, j0, width, kk, 0))
    {
      SpreadMask(inp, out, nb, elem, b, j0, r, kk);
      SpreadsRenamed(s, out[..], nb, elem, SpreadReached(b, j0, width, kk, width), SpreadReached(b, j0, width, kk + 1, 0));
      ShiftHolds(r, s, at, kk);
      r := ShiftLanes(r);
    }
    SpreadsRenamed(s, out[..], nb, elem, SpreadReached(b, j0, width, 8, 0), SpreadReached(b, j0 + width, 0, 0, 0));
  }

  /** All registers of block b. */
  method SpreadBlock(inp: array<byte>, out: array<byte>, nb: nat, elem: nat, b: nat, lanes: nat)
    requires inp != out && inp.Length == out.Length == At(8 * nb, elem, 0) && b < nb
    requires (lanes == 8 && elem % 2 == 0) || (lanes == 16 && elem % 4 == 0)
    requires Spreads(inp[..], out[..], nb, elem, SpreadReached(b, 0, 0, 0, 0))
    modifies out
    ensures Spreads(inp[..], out[..], nb, elem, SpreadReached(b + 1, 0, 0, 0, 0)) && inp[..] == old(inp[..])
  {
    hide At, Spreads, SpreadReached;
    ghost var s := inp[..];
    var j0 := 0;
    while j0 + lanes / 4 - 1 < elem
      invariant j0 <= elem && WholeRegisters(j0, elem, lanes)
      invariant inp[..] == s && Spreads(s, out[..], nb, elem, SpreadReached(b, j0, 0, 0, 0))
    {
      SpreadMasks(inp, out, nb, elem, b, j0, lanes);
      j0 := j0 + lanes / 4;
    }
    BlockSpread(s, out[..], nb, elem, b);
  }

  /** What is left of a block is a whole number of registers. */
  predicate WholeRegisters(j0: nat, elem: nat, lanes: nat) {
    j0 <= elem && if lanes == 8 then (elem - j0) % 2 == 0 else (elem - j0) % 4 == 0
  }

  lemma BlockSpread(s: seq<byte>, t: seq<byte>, nb: nat, elem: nat, b: nat)
    requires Spreads(s, t, nb, elem, SpreadReached(b, elem, 0, 0, 0))
    ensures Spreads(s, t, nb, elem, SpreadReached(b + 1, 0, 0, 0, 0))
  {
    SpreadsRenamed(s, t, nb, elem, SpreadReached(b, elem, 0, 0, 0), SpreadReached(b + 1, 0, 0, 0, 0));
  }

  lemma NoneSpread(s: seq<byte>, t: seq<byte>, nb: nat, elem: nat)
    ensures Spreads(s, t, nb, elem, SpreadReached(0, 0, 0, 0, 0))
  {
  }

  lemma AllSpread(s: seq<byte>, t: seq<byte>, nb: nat, elem: nat)
    requires |s| == |t| == At(8 * nb, elem, 0) && Spreads(s, t, nb, elem, SpreadReached(nb, 0, 0, 0, 0))
    ensures OctetsSpread(s, t, nb, elem)
  {
    forall b, j, c | 0 <= b < nb && 0 <= j < elem && 0 <= c < 8 ensures OctetSpread(s, t, nb, elem, b, j, c) {
      assert SpreadReached(nb, 0, 0, 0, 0)(b, j, c);
    }
  }

  /**
    Registers of 8 lanes for an even element size, 16 for a multiple of four; any other size goes to the next
    smaller form.
  */
  method ShuffleBitEightelemSimd(inp: array<byte>, out: array<byte>, size: nat, elem: nat, lanes: nat) returns (count: int)
    requires inp != out && inp.Length == out.Length == At(size, elem, 0) && (lanes == 8 || lanes == 16)
    modifies out
    ensures size % 8 != 0 ==> count == NOT_MULTIPLE_OF_EIGHT && out[..] == old(out[..])
    ensures size % 8 == 0 ==> count == At(size, elem, 0) && OctetsSpread(inp[..], out[..], size / 8, elem)
    decreases lanes
  {
    if size % 8 != 0 { return NOT_MULTIPLE_OF_EIGHT; }
    if lanes == 16 && elem % 4 != 0 {
      count := ShuffleBitEightelemSimd(inp, out, size, elem, 8);
      return;
    }
    if lanes == 8 && elem % 2 != 0 {
      count := ShuffleBitEightelemScal(inp, out, size, elem);
      return;
    }
    hide At, Spreads, OctetsSpread;
    ghost var s := inp[..];
    var nb := size / 8;
    NoneSpread(s, out[..], nb, elem);
    for b := 0 to nb
      invariant inp[..] == s && Spreads(s, out[..], nb, elem, SpreadReached(b, 0, 0, 0, 0))
    {
      SpreadBlock(inp, out, nb, elem, b, lanes);
    }
    AllSpread(s, out[..], nb, elem);
    count := At(size, elem, 0);
  }
}
