/**
  The unpack networks of bitshuffle_core.c: bytes within elements, and rows of bits, transposed a register at a time.
  An unpack interleaves one half of two registers, in groups of 1, 2, 4 or 8 bytes; 256-bit registers do so in each of
  their two lanes.
*/
module BitshuffleUnpack {
  import opened BitMatrix
  import opened BitshuffleScalar
  import opened BitshuffleSimd

  type Bytes = seq<byte>

  // ------------------------------------------------------------------------------------------------
  // Unpack

  /** Is byte m of a lane taken from the second operand? */
  predicate FromSecond(group: nat, m: nat) {
    if group == 1 then m % 2 == 1 else if group == 2 then m / 2 % 2 == 1 else if group == 4 then m / 4 % 2 == 1 else m / 8 % 2 == 1
  }

  /** Which byte of a half it is. */
  function UnpackIndex(group: nat, m: nat): (k: nat)
    ensures m < 16 ==> k < 8
  {
    if group == 1 then m / 2 else if group == 2 then 2 * (m / 4) + m % 2 else if group == 4 then 4 * (m / 8) + m % 4 else m % 8
  }

  predicate IsRegister(a: Bytes) { |a| == 16 || |a| == 32 }

  lemma LaneInside(n: nat, m: nat)
    requires (n == 16 || n == 32) && m < n
    ensures 16 * (m / 16) + 16 <= n && m % 16 < 16
  {
  }

  function UnpackByte(a: Bytes, b: Bytes, group: nat, half: nat, m: nat): byte
    requires IsRegister(a) && |a| == |b| && half < 2 && m < |a|
  {
    LaneInside(|a|, m);
    var k := 16 * (m / 16) + 8 * half + UnpackIndex(group, m % 16);
    if FromSecond(group, m % 16) then b[k] else a[k]
  }

  function Unpack(a: Bytes, b: Bytes, group: nat, half: nat): (r: Bytes)
    requires IsRegister(a) && |a| == |b| && half < 2
    ensures |r| == |a| && forall m :: 0 <= m < |a| ==> r[m] == UnpackByte(a, b, group, half, m)
  {
    seq(|a|, m requires 0 <= m < |a| => UnpackByte(a, b, group, half, m))
  }

  /** A binary digit; indices are written in binary, since an unpack permutes the digits. */
  type Digit = d: nat | d < 2

  function Four(d3: Digit, d2: Digit, d1: Digit, d0: Digit): (m: nat)
    ensures m < 16 && m == 8 * d3 + 4 * d2 + 2 * d1 + d0
  {
    8 * d3 + 4 * d2 + 2 * d1 + d0
  }

  function Three(d2: Digit, d1: Digit, d0: Digit): (m: nat)
    ensures m < 8 && m == 4 * d2 + 2 * d1 + d0
  {
    4 * d2 + 2 * d1 + d0
  }

  lemma DigitsOf(m: nat) returns (d3: Digit, d2: Digit, d1: Digit, d0: Digit)
    requires m < 16
    ensures m == Four(d3, d2, d1, d0)
    ensures (m < 8 ==> d3 == 0) && (m < 4 ==> d2 == 0) && (m < 2 ==> d1 == 0)
  {
    d3, d2, d1, d0 := m / 8, m / 4 % 2, m / 2 % 2, m % 2;
  }

  function Either(a: Bytes, b: Bytes, d: Digit): (r: Bytes) { if d == 1 then b else a }

  lemma Digits1(d3: Digit, d2: Digit, d1: Digit, d0: Digit)
    ensures (FromSecond(1, Four(d3, d2, d1, d0)) <==> d0 == 1) && UnpackIndex(1, Four(d3, d2, d1, d0)) == Three(d3, d2, d1)
  {
    assert Four(d3, d2, d1, d0) == 2 * Three(d3, d2, d1) + d0;
  }

  lemma Digits2(d3: Digit, d2: Digit, d1: Digit, d0: Digit)
    ensures (FromSecond(2, Four(d3, d2, d1, d0)) <==> d1 == 1) && UnpackIndex(2, Four(d3, d2, d1, d0)) == Three(d3, d2, d0)
  {
    var m := Four(d3, d2, d1, d0);
    assert m / 4 == 2 * d3 + d2 && m / 2 == 2 * (2 * d3 + d2) + d1;
  }

  lemma Digits4(d3: Digit, d2: Digit, d1: Digit, d0: Digit)
    ensures (FromSecond(4, Four(d3, d2, d1, d0)) <==> d2 == 1) && UnpackIndex(4, Four(d3, d2, d1, d0)) == Three(d3, d1, d0)
  {
    var m := Four(d3, d2, d1, d0);
    assert m / 8 == d3 && m / 4 == 2 * d3 + d2;
  }

  lemma Digits8(d3: Digit, d2: Digit, d1: Digit, d0: Digit)
    ensures (FromSecond(8, Four(d3, d2, d1, d0)) <==> d3 == 1) && UnpackIndex(8, Four(d3, d2, d1, d0)) == Three(d2, d1, d0)
  {
    assert Four(d3, d2, d1, d0) / 8 == d3;
  }

  lemma UnpackedByte(a: Bytes, b: Bytes, group: nat, half: Digit, lane: nat, m: nat)
    requires IsRegister(a) && |a| == |b| && 16 * lane + 15 < |a| && m < 16
    ensures Unpack(a, b, group, half)[16 * lane + m]
            == Either(a, b, if FromSecond(group, m) then 1 else 0)[16 * lane + 8 * half + UnpackIndex(group, m)]
  {
    hide FromSecond, UnpackIndex;
    assert (16 * lane + m) / 16 == lane && (16 * lane + m) % 16 == m;
  }

  /** Lane `lane`, byte d3 d2 d1 d0 of an unpack: the digits are rotated, and one of them chooses the operand. */
  lemma UnpackAt(a: Bytes, b: Bytes, group: nat, half: Digit, lane: nat, d3: Digit, d2: Digit, d1: Digit, d0: Digit)
    requires IsRegister(a) && |a| == |b| && 16 * lane + 15 < |a|
    ensures var r := Unpack(a, b, group, half)[16 * lane + Four(d3, d2, d1, d0)];
            && (group == 1 ==> r == Either(a, b, d0)[16 * lane + Four(half, d3, d2, d1)])
            && (group == 2 ==> r == Either(a, b, d1)[16 * lane + Four(half, d3, d2, d0)])
            && (group == 4 ==> r == Either(a, b, d2)[16 * lane + Four(half, d3, d1, d0)])
            && (group == 8 ==> r == Either(a, b, d3)[16 * lane + Four(half, d2, d1, d0)])
  {
    hide FromSecond, UnpackIndex, Four, Unpack;
    UnpackedByte(a, b, group, half, lane, Four(d3, d2, d1, d0));
    if group == 1 {
      Digits1(d3, d2, d1, d0);
      FourIsThree(half, d3, d2, d1);
    } else if group == 2 {
      Digits2(d3, d2, d1, d0);
      FourIsThree(half, d3, d2, d0);
    } else if group == 4 {
      Digits4(d3, d2, d1, d0);
      FourIsThree(half, d3, d1, d0);
    } else if group == 8 {
      Digits8(d3, d2, d1, d0);
      FourIsThree(half, d2, d1, d0);
    }
  }

  lemma FourIsThree(d3: Digit, d2: Digit, d1: Digit, d0: Digit)
    ensures Four(d3, d2, d1, d0) == 8 * d3 + Three(d2, d1, d0)
  {
  }

  /** n registers of the same length. */
  predicate File(r: seq<Bytes>, n: nat, width: nat) {
    |r| == n && (width == 16 || width == 32) && forall q :: 0 <= q < n ==> |r[q]| == width
  }

  // ------------------------------------------------------------------------------------------------
  // Elements of two bytes

  function Interleave2(r: seq<Bytes>): (t: seq<Bytes>)
    requires File(r, 2, 16)
    ensures File(t, 2, 16)
  {
    [Unpack(r[0], r[1], 1, 0), Unpack(r[0], r[1], 1, 1)]
  }

  lemma Interleave2At(r: seq<Bytes>, q: Digit, d3: Digit, d2: Digit, d1: Digit, d0: Digit)
    requires File(r, 2, 16)
    ensures Interleave2(r)[q][Four(d3, d2, d1, d0)] == r[d0][Four(q, d3, d2, d1)]
  {
    hide Unpack, Four;
    UnpackAt(r[0], r[1], 1, q, 0, d3, d2, d1, d0);
  }

  function Network2(r: seq<Bytes>): (t: seq<Bytes>)
    requires File(r, 2, 16)
    ensures File(t, 2, 16)
  {
    Interleave2(Interleave2(Interleave2(Interleave2(r))))
  }

  lemma Network2At(r: seq<Bytes>, q: Digit, d3: Digit, d2: Digit, d1: Digit, d0: Digit)
    requires File(r, 2, 16)
    ensures Network2(r)[q][Four(d3, d2, d1, d0)] == r[d3][Four(d2, d1, d0, q)]
  {
    hide Interleave2, Four;
    var r1 := Interleave2(r);
    var r2 := Interleave2(r1);
    Interleave2At(Interleave2(r2), q, d3, d2, d1, d0);
    Interleave2At(r2, d0, q, d3, d2, d1);
    Interleave2At(r1, d1, d0, q, d3, d2);
    Interleave2At(r, d2, d1, d0, q, d3);
  }

  // ------------------------------------------------------------------------------------------------
  // Elements of four bytes

  function Interleave4(r: seq<Bytes>): (t: seq<Bytes>)
    requires File(r, 4, 16)
    ensures File(t, 4, 16)
  {
    [Unpack(r[0], r[1], 1, 0), Unpack(r[0], r[1], 1, 1), Unpack(r[2], r[3], 1, 0), Unpack(r[2], r[3], 1, 1)]
  }

  function Quads4(r: seq<Bytes>): (t: seq<Bytes>)
    requires File(r, 4, 16)
    ensures File(t, 4, 16)
  {
    [Unpack(r[0], r[2], 8, 0), Unpack(r[0], r[2], 8, 1), Unpack(r[1], r[3], 8, 0), Unpack(r[1], r[3], 8, 1)]
  }

  lemma Interleave4At(r: seq<Bytes>, q1: Digit, q0: Digit, d3: Digit, d2: Digit, d1: Digit, d0: Digit)
    requires File(r, 4, 16)
    ensures Interleave4(r)[2 * q1 + q0][Four(d3, d2, d1, d0)] == r[2 * q1 + d0][Four(q0, d3, d2, d1)]
  {
    hide Unpack, Four;
    UnpackAt(r[2 * q1], r[2 * q1 + 1], 1, q0, 0, d3, d2, d1, d0);
  }

  lemma Quads4At(r: seq<Bytes>, q1: Digit, q0: Digit, d3: Digit, d2: Digit, d1: Digit, d0: Digit)
    requires File(r, 4, 16)
    ensures Quads4(r)[2 * q1 + q0][Four(d3, d2, d1, d0)] == r[2 * d3 + q1][Four(q0, d2, d1, d0)]
  {
    hide Unpack, Four;
    UnpackAt(r[q1], r[q1 + 2], 8, q0, 0, d3, d2, d1, d0);
  }

  function Network4(r: seq<Bytes>): (t: seq<Bytes>)
    requires File(r, 4, 16)
    ensures File(t, 4, 16)
  {
    Quads4(Interleave4(Interleave4(Interleave4(r))))
  }

  lemma Network4At(r: seq<Bytes>, q1: Digit, q0: Digit, d3: Digit, d2: Digit, d1: Digit, d0: Digit)
    requires File(r, 4, 16)
    ensures Network4(r)[2 * q1 + q0][Four(d3, d2, d1, d0)] == r[2 * d3 + d2][Four(d1, d0, q1, q0)]
  {
    hide Interleave4, Quads4, Four;
    var r1 := Interleave4(r);
    var r2 := Interleave4(r1);
    Quads4At(Interleave4(r2), q1, q0, d3, d2, d1, d0);
    Interleave4At(r2, d3, q1, q0, d2, d1, d0);
    Interleave4At(r1, d3, d0, q1, q0, d2, d1);
    Interleave4At(r, d3, d1, d0, q1, q0, d2);
  }

  // ------------------------------------------------------------------------------------------------
  // Elements of eight bytes

  function Interleave8(r: seq<Bytes>): (t: seq<Bytes>)
    requires File(r, 8, 16)
    ensures File(t, 8, 16)
  {
    [Unpack(r[0], r[1], 1, 0), Unpack(r[0], r[1], 1, 1), Unpack(r[2], r[3], 1, 0), Unpack(r[2], r[3], 1, 1),
     Unpack(r[4], r[5], 1, 0), Unpack(r[4], r[5], 1, 1), Unpack(r[6], r[7], 1, 0), Unpack(r[6], r[7], 1, 1)]
  }

  function Pairs8(r: seq<Bytes>): (t: seq<Bytes>)
    requires File(r, 8, 16)
    ensures File(t, 8, 16)
  {
    [Unpack(r[0], r[2], 4, 0), Unpack(r[0], r[2], 4, 1), Unpack(r[1], r[3], 4, 0), Unpack(r[1], r[3], 4, 1),
     Unpack(r[4], r[6], 4, 0), Unpack(r[4], r[6], 4, 1), Unpack(r[5], r[7], 4, 0), Unpack(r[5], r[7], 4, 1)]
  }

  function Quads8(r: seq<Bytes>): (t: seq<Bytes>)
    requires File(r, 8, 16)
    ensures File(t, 8, 16)
  {
    [Unpack(r[0], r[4], 8, 0), Unpack(r[0], r[4], 8, 1), Unpack(r[1], r[5], 8, 0), Unpack(r[1], r[5], 8, 1),
     Unpack(r[2], r[6], 8, 0), Unpack(r[2], r[6], 8, 1), Unpack(r[3], r[7], 8, 0), Unpack(r[3], r[7], 8, 1)]
  }

  lemma DigitsOfRegister(q2: Digit, q1: Digit, q0: Digit)
    ensures var q := Three(q2, q1, q0);
            && q % 2 == q0
            && 2 * (q / 2) == Three(q2, q1, 0) && 2 * (q / 2) + 1 == Three(q2, q1, 1)
            && 4 * (q / 4) + q / 2 % 2 == Three(q2, 0, q1) && 4 * (q / 4) + q / 2 % 2 + 2 == Three(q2, 1, q1)
            && q / 2 == Three(0, q2, q1) && q / 2 + 4 == Three(1, q2, q1)
  {
    assert Three(q2, q1, q0) / 2 == 2 * q2 + q1 && Three(q2, q1, q0) / 4 == q2;
  }

  lemma Interleave8Register(r: seq<Bytes>, q: nat)
    requires File(r, 8, 16) && q < 8
    ensures Interleave8(r)[q] == Unpack(r[2 * (q / 2)], r[2 * (q / 2) + 1], 1, q % 2)
  {
    hide Unpack;
    match q case 0 => case 1 => case 2 => case 3 => case 4 => case 5 => case 6 => case _ =>
  }

  lemma Interleave8At(r: seq<Bytes>, q2: Digit, q1: Digit, q0: Digit, d3: Digit, d2: Digit, d1: Digit, d0: Digit)
    requires File(r, 8, 16)
    ensures Interleave8(r)[Three(q2, q1, q0)][Four(d3, d2, d1, d0)] == r[Three(q2, q1, d0)][Four(q0, d3, d2, d1)]
  {
    hide Unpack, UnpackByte, Four, Three, Interleave8;
    var q := Three(q2, q1, q0);
    DigitsOfRegister(q2, q1, q0);
    Interleave8Register(r, q);
    var a, b := r[Three(q2, q1, 0)], r[Three(q2, q1, 1)];
    UnpackAt(a, b, 1, q0, 0, d3, d2, d1, d0);
    assert Either(a, b, d0) == if d0 == 0 then a else b;
  }

  lemma Pairs8Register(r: seq<Bytes>, q: nat)
    requires File(r, 8, 16) && q < 8
    ensures Pairs8(r)[q] == Unpack(r[4 * (q / 4) + q / 2 % 2], r[4 * (q / 4) + q / 2 % 2 + 2], 4, q % 2)
  {
    hide Unpack;
    match q case 0 => case 1 => case 2 => case 3 => case 4 => case 5 => case 6 => case _ =>
  }

  lemma Pairs8At(r: seq<Bytes>, q2: Digit, q1: Digit, q0: Digit, d3: Digit, d2: Digit, d1: Digit, d0: Digit)
    requires File(r, 8, 16)
    ensures Pairs8(r)[Three(q2, q1, q0)][Four(d3, d2, d1, d0)] == r[Three(q2, d2, q1)][Four(q0, d3, d1, d0)]
  {
    hide Unpack, UnpackByte, Four, Three, Pairs8;
    var q := Three(q2, q1, q0);
    DigitsOfRegister(q2, q1, q0);
    Pairs8Register(r, q);
    var a, b := r[Three(q2, 0, q1)], r[Three(q2, 1, q1)];
    UnpackAt(a, b, 4, q0, 0, d3, d2, d1, d0);
    assert Either(a, b, d2) == if d2 == 0 then a else b;
  }

  lemma Quads8Register(r: seq<Bytes>, q: nat)
    requires File(r, 8, 16) && q < 8
    ensures Quads8(r)[q] == Unpack(r[q / 2], r[q / 2 + 4], 8, q % 2)
  {
    hide Unpack;
    match q case 0 => case 1 => case 2 => case 3 => case 4 => case 5 => case 6 => case _ =>
  }

  lemma Quads8At(r: seq<Bytes>, q2: Digit, q1: Digit, q0: Digit, d3: Digit, d2: Digit, d1: Digit, d0: Digit)
    requires File(r, 8, 16)
    ensures Quads8(r)[Three(q2, q1, q0)][Four(d3, d2, d1, d0)] == r[Three(d3, q2, q1)][Four(q0, d2, d1, d0)]
  {
    hide Unpack, UnpackByte, Four, Three, Quads8;
    var q := Three(q2, q1, q0);
    DigitsOfRegister(q2, q1, q0);
    Quads8Register(r, q);
    var a, b := r[Three(0, q2, q1)], r[Three(1, q2, q1)];
    UnpackAt(a, b, 8, q0, 0, d3, d2, d1, d0);
    assert Either(a, b, d3) == if d3 == 0 then a else b;
  }

  function Network8(r: seq<Bytes>): (t: seq<Bytes>)
    requires File(r, 8, 16)
    ensures File(t, 8, 16)
  {
    Quads8(Pairs8(Interleave8(Interleave8(r))))
  }

  lemma Network8At(r: seq<Bytes>, q2: Digit, q1: Digit, q0: Digit, d3: Digit, d2: Digit, d1: Digit, d0: Digit)
    requires File(r, 8, 16)
    ensures Network8(r)[Three(q2, q1, q0)][Four(d3, d2, d1, d0)] == r[Three(d3, d2, d1)][Four(d0, q2, q1, q0)]
  {
    hide Interleave8, Pairs8, Quads8, Three, Four;
    var r1 := Interleave8(r);
    var r2 := Interleave8(r1);
    Quads8At(Pairs8(r2), q2, q1, q0, d3, d2, d1, d0);
    Pairs8At(r2, d3, q2, q1, q0, d2, d1, d0);
    Interleave8At(r1, d3, d2, q2, q1, q0, d1, d0);
    Interleave8At(r, d3, d2, d0, q2, q1, q0, d1);
  }

  /** Byte i of element j... of the block: the three networks are byte transposes. */
  function Network(elem: nat, r: seq<Bytes>): (t: seq<Bytes>)
    requires elem == 2 || elem == 4 || elem == 8
    requires File(r, elem, 16)
    ensures File(t, elem, 16)
  {
    if elem == 2 then Network2(r) else if elem == 4 then Network4(r) else Network8(r)
  }

  /** n consecutive registers. */
  function LoadFile(s: Bytes, at: nat, n: nat): (r: seq<Bytes>)
    requires at + 16 * n <= |s|
    ensures File(r, n, 16) && forall q, m :: 0 <= q < n && 0 <= m < 16 ==> r[q][m] == s[at + 16 * q + m]
  {
    seq(n, q requires 0 <= q < n => s[at + 16 * q..at + 16 * q + 16])
  }

  lemma Position2(q0: Digit, d3: Digit, d2: Digit, d1: Digit, d0: Digit)
    ensures 16 * (d3) + Four(d2, d1, d0, q0) == 2 * Four(d3, d2, d1, d0) + (q0)
  {
  }

  lemma Network2AtDigits(s: Bytes, at: nat, q0: Digit, d3: Digit, d2: Digit, d1: Digit, d0: Digit)
    requires at + 16 * 2 <= |s|
    ensures at + 2 * Four(d3, d2, d1, d0) + (q0) < |s|
    ensures Network2(LoadFile(s, at, 2))[q0][Four(d3, d2, d1, d0)] == s[at + 2 * Four(d3, d2, d1, d0) + (q0)]
  {
    hide Network2, LoadFile, Four;
    Network2At(LoadFile(s, at, 2), q0, d3, d2, d1, d0);
    Position2(q0, d3, d2, d1, d0);
  }

  lemma Position4(q1: Digit, q0: Digit, d3: Digit, d2: Digit, d1: Digit, d0: Digit)
    ensures 16 * (2 * d3 + d2) + Four(d1, d0, q1, q0) == 4 * Four(d3, d2, d1, d0) + (2 * q1 + q0)
  {
  }

  lemma Network4AtDigits(s: Bytes, at: nat, q1: Digit, q0: Digit, d3: Digit, d2: Digit, d1: Digit, d0: Digit)
    requires at + 16 * 4 <= |s|
    ensures at + 4 * Four(d3, d2, d1, d0) + (2 * q1 + q0) < |s|
    ensures Network4(LoadFile(s, at, 4))[2 * q1 + q0][Four(d3, d2, d1, d0)] == s[at + 4 * Four(d3, d2, d1, d0) + (2 * q1 + q0)]
  {
    hide Network4, LoadFile, Four;
    Network4At(LoadFile(s, at, 4), q1, q0, d3, d2, d1, d0);
    Position4(q1, q0, d3, d2, d1, d0);
  }

  lemma Position8(q2: Digit, q1: Digit, q0: Digit, d3: Digit, d2: Digit, d1: Digit, d0: Digit)
    ensures 16 * (Three(d3, d2, d1)) + Four(d0, q2, q1, q0) == 8 * Four(d3, d2, d1, d0) + (Three(q2, q1, q0))
  {
  }

  lemma Network8AtDigits(s: Bytes, at: nat, q2: Digit, q1: Digit, q0: Digit, d3: Digit, d2: Digit, d1: Digit, d0: Digit)
    requires at + 16 * 8 <= |s|
    ensures at + 8 * Four(d3, d2, d1, d0) + (Three(q2, q1, q0)) < |s|
    ensures Network8(LoadFile(s, at, 8))[Three(q2, q1, q0)][Four(d3, d2, d1, d0)] == s[at + 8 * Four(d3, d2, d1, d0) + (Three(q2, q1, q0))]
  {
    hide Network8, LoadFile, Four, Three;
    Network8At(LoadFile(s, at, 8), q2, q1, q0, d3, d2, d1, d0);
    Position8(q2, q1, q0, d3, d2, d1, d0);
  }

  lemma Network2Elements(s: Bytes, ii: nat, j: nat, m: nat)
    requires At(ii, 2, 0) + 32 <= |s| && j < 2 && m < 16
    ensures At(ii + m, 2, j) < |s|
    ensures Network2(LoadFile(s, At(ii, 2, 0), 2))[j][m] == s[At(ii + m, 2, j)]
  {
    hide Network2, LoadFile, At, Four;
    AtRows(ii, m, 2, j);
    AtIsProduct(m, 2, j);
    var d3, d2, d1, d0 := DigitsOf(m);
    var q3, q2, q1, q0 := DigitsOf(j);
    LowDigits(j, q3, q2, q1, q0);
    Network2AtDigits(s, At(ii, 2, 0), q0, d3, d2, d1, d0);
  }

  lemma Network4Elements(s: Bytes, ii: nat, j: nat, m: nat)
    requires At(ii, 4, 0) + 64 <= |s| && j < 4 && m < 16
    ensures At(ii + m, 4, j) < |s|
    ensures Network4(LoadFile(s, At(ii, 4, 0), 4))[j][m] == s[At(ii + m, 4, j)]
  {
    hide Network4, LoadFile, At, Four;
    AtRows(ii, m, 4, j);
    AtIsProduct(m, 4, j);
    var d3, d2, d1, d0 := DigitsOf(m);
    var q3, q2, q1, q0 := DigitsOf(j);
    LowDigits(j, q3, q2, q1, q0);
    Network4AtDigits(s, At(ii, 4, 0), q1, q0, d3, d2, d1, d0);
  }

  lemma Network8Elements(s: Bytes, ii: nat, j: nat, m: nat)
    requires At(ii, 8, 0) + 128 <= |s| && j < 8 && m < 16
    ensures At(ii + m, 8, j) < |s|
    ensures Network8(LoadFile(s, At(ii, 8, 0), 8))[j][m] == s[At(ii + m, 8, j)]
  {
    hide Network8, LoadFile, At, Four;
    AtRows(ii, m, 8, j);
    AtIsProduct(m, 8, j);
    var d3, d2, d1, d0 := DigitsOf(m);
    var q3, q2, q1, q0 := DigitsOf(j);
    LowDigits(j, q3, q2, q1, q0);
    Network8AtDigits(s, At(ii, 8, 0), q2, q1, q0, d3, d2, d1, d0);
  }

  /** Sixteen elements in, a register for each byte of the element out. */
  lemma NetworkTransposes(elem: nat, s: Bytes, ii: nat, j: nat, m: nat)
    requires elem == 2 || elem == 4 || elem == 8
    requires At(ii, elem, 0) + 16 * elem <= |s| && j < elem && m < 16
    ensures At(ii + m, elem, j) < |s|
    ensures Network(elem, LoadFile(s, At(ii, elem, 0), elem))[j][m] == s[At(ii + m, elem, j)]
  {
    hide Network2, Network4, Network8, LoadFile, At;
    if elem == 2 {
      Network2Elements(s, ii, j, m);
    } else if elem == 4 {
      Network4Elements(s, ii, j, m);
    } else {
      Network8Elements(s, ii, j, m);
    }
  }

  lemma LowDigits(m: nat, d3: Digit, d2: Digit, d1: Digit, d0: Digit)
    requires m == Four(d3, d2, d1, d0) && (m < 8 ==> d3 == 0) && (m < 4 ==> d2 == 0) && (m < 2 ==> d1 == 0)
    ensures m < 8 ==> m == Three(d2, d1, d0)
    ensures m < 4 ==> m == 2 * d1 + d0
    ensures m < 2 ==> m == d0
  {
  }

  // ------------------------------------------------------------------------------------------------
  // Rows of bits: eight rows in, pairs of columns out

  function Rows1(r: seq<Bytes>, width: nat): (t: seq<Bytes>)
    requires File(r, 8, width)
    ensures File(t, 8, width)
  {
    [Unpack(r[0], r[1], 1, 0), Unpack(r[2], r[3], 1, 0), Unpack(r[4], r[5], 1, 0), Unpack(r[6], r[7], 1, 0),
     Unpack(r[0], r[1], 1, 1), Unpack(r[2], r[3], 1, 1), Unpack(r[4], r[5], 1, 1), Unpack(r[6], r[7], 1, 1)]
  }

  function Rows2(r: seq<Bytes>, width: nat): (t: seq<Bytes>)
    requires File(r, 8, width)
    ensures File(t, 8, width)
  {
    [Unpack(r[0], r[1], 2, 0), Unpack(r[2], r[3], 2, 0), Unpack(r[0], r[1], 2, 1), Unpack(r[2], r[3], 2, 1),
     Unpack(r[4], r[5], 2, 0), Unpack(r[6], r[7], 2, 0), Unpack(r[4], r[5], 2, 1), Unpack(r[6], r[7], 2, 1)]
  }

  function Rows4(r: seq<Bytes>, width: nat): (t: seq<Bytes>)
    requires File(r, 8, width)
    ensures File(t, 8, width)
  {
    [Unpack(r[0], r[1], 4, 0), Unpack(r[0], r[1], 4, 1), Unpack(r[2], r[3], 4, 0), Unpack(r[2], r[3], 4, 1),
     Unpack(r[4], r[5], 4, 0), Unpack(r[4], r[5], 4, 1), Unpack(r[6], r[7], 4, 0), Unpack(r[6], r[7], 4, 1)]
  }

  lemma Rows1Register(r: seq<Bytes>, width: nat, q: nat)
    requires File(r, 8, width) && q < 8
    ensures Rows1(r, width)[q] == Unpack(r[2 * (q % 4)], r[2 * (q % 4) + 1], 1, q / 4)
  {
    hide Unpack;
    match q case 0 => case 1 => case 2 => case 3 => case 4 => case 5 => case 6 => case _ =>
  }

  lemma Rows2Register(r: seq<Bytes>, width: nat, q: nat)
    requires File(r, 8, width) && q < 8
    ensures Rows2(r, width)[q] == Unpack(r[4 * (q / 4) + 2 * (q % 2)], r[4 * (q / 4) + 2 * (q % 2) + 1], 2, q / 2 % 2)
  {
    hide Unpack;
    match q case 0 => case 1 => case 2 => case 3 => case 4 => case 5 => case 6 => case _ =>
  }

  lemma Rows4Register(r: seq<Bytes>, width: nat, q: nat)
    requires File(r, 8, width) && q < 8
    ensures Rows4(r, width)[q] == Unpack(r[2 * (q / 2)], r[2 * (q / 2) + 1], 4, q % 2)
  {
    hide Unpack;
    match q case 0 => case 1 => case 2 => case 3 => case 4 => case 5 => case 6 => case _ =>
  }

  lemma DigitsOfRow(q2: Digit, q1: Digit, q0: Digit)
    ensures var q := Three(q2, q1, q0);
            && q % 2 == q0 && q / 2 % 2 == q1 && q / 4 == q2
            && 2 * (q % 4) == Three(q1, q0, 0) && 2 * (q % 4) + 1 == Three(q1, q0, 1)
            && 4 * (q / 4) + 2 * (q % 2) == Three(q2, q0, 0) && 4 * (q / 4) + 2 * (q % 2) + 1 == Three(q2, q0, 1)
            && 2 * (q / 2) == Three(q2, q1, 0) && 2 * (q / 2) + 1 == Three(q2, q1, 1)
  {
    assert Three(q2, q1, q0) / 2 == 2 * q2 + q1 && Three(q2, q1, q0) / 4 == q2;
  }

  lemma Rows1At(r: seq<Bytes>, width: nat, q2: Digit, q1: Digit, q0: Digit,
                lane: nat, d3: Digit, d2: Digit, d1: Digit, d0: Digit)
    requires File(r, 8, width) && 16 * lane + 15 < width
    ensures Rows1(r, width)[Three(q2, q1, q0)][16 * lane + Four(d3, d2, d1, d0)]
            == r[Three(q1, q0, d0)][16 * lane + Four(q2, d3, d2, d1)]
  {
    hide Unpack, UnpackByte, Four, Three, Rows1;
    var q := Three(q2, q1, q0);
    DigitsOfRow(q2, q1, q0);
    Rows1Register(r, width, q);
    var a, b := r[Three(q1, q0, 0)], r[Three(q1, q0, 1)];
    UnpackAt(a, b, 1, q2, lane, d3, d2, d1, d0);
    assert Either(a, b, d0) == if d0 == 0 then a else b;
  }

  lemma Rows2At(r: seq<Bytes>, width: nat, q2: Digit, q1: Digit, q0: Digit,
                lane: nat, d3: Digit, d2: Digit, d1: Digit, d0: Digit)
    requires File(r, 8, width) && 16 * lane + 15 < width
    ensures Rows2(r, width)[Three(q2, q1, q0)][16 * lane + Four(d3, d2, d1, d0)]
            == r[Three(q2, q0, d1)][16 * lane + Four(q1, d3, d2, d0)]
  {
    hide Unpack, UnpackByte, Four, Three, Rows2;
    var q := Three(q2, q1, q0);
    DigitsOfRow(q2, q1, q0);
    Rows2Register(r, width, q);
    var a, b := r[Three(q2, q0, 0)], r[Three(q2, q0, 1)];
    UnpackAt(a, b, 2, q1, lane, d3, d2, d1, d0);
    assert Either(a, b, d1) == if d1 == 0 then a else b;
  }

  lemma Rows4At(r: seq<Bytes>, width: nat, q2: Digit, q1: Digit, q0: Digit,
                lane: nat, d3: Digit, d2: Digit, d1: Digit, d0: Digit)
    requires File(r, 8, width) && 16 * lane + 15 < width
    ensures Rows4(r, width)[Three(q2, q1, q0)][16 * lane + Four(d3, d2, d1, d0)]
            == r[Three(q2, q1, d2)][16 * lane + Four(q0, d3, d1, d0)]
  {
    hide Unpack, UnpackByte, Four, Three, Rows4;
    var q := Three(q2, q1, q0);
    DigitsOfRow(q2, q1, q0);
    Rows4Register(r, width, q);
    var a, b := r[Three(q2, q1, 0)], r[Three(q2, q1, 1)];
    UnpackAt(a, b, 4, q0, lane, d3, d2, d1, d0);
    assert Either(a, b, d2) == if d2 == 0 then a else b;
  }

  function RowNetwork(r: seq<Bytes>, width: nat): (t: seq<Bytes>)
    requires File(r, 8, width)
    ensures File(t, 8, width)
  {
    Rows4(Rows2(Rows1(r, width), width), width)
  }

  lemma RowNetworkAt(r: seq<Bytes>, width: nat, q2: Digit, q1: Digit, q0: Digit,
                     lane: nat, d3: Digit, d2: Digit, d1: Digit, d0: Digit)
    requires File(r, 8, width) && 16 * lane + 15 < width
    ensures RowNetwork(r, width)[Three(q2, q1, q0)][16 * lane + Four(d3, d2, d1, d0)]
            == r[Three(d2, d1, d0)][16 * lane + Four(q2, q1, q0, d3)]
  {
    hide Rows1, Rows2, Rows4, Three, Four;
    var r1 := Rows1(r, width);
    var r2 := Rows2(r1, width);
    Rows4At(r2, width, q2, q1, q0, lane, d3, d2, d1, d0);
    Rows2At(r1, width, q2, q1, d2, lane, q0, d3, d1, d0);
    Rows1At(r, width, q2, d2, d1, lane, q1, q0, d3, d0);
  }

  /** Half u of lane `lane` of register q holds column 2q+u of that lane, one byte from each row. */
  lemma RowNetworkTransposes(r: seq<Bytes>, width: nat, q: nat, lane: nat, u: nat, x: nat)
    requires File(r, 8, width) && 16 * lane + 15 < width && q < 8 && u < 2 && x < 8
    ensures RowNetwork(r, width)[q][16 * lane + 8 * u + x] == r[x][16 * lane + 2 * q + u]
  {
    hide RowNetwork, Four, Three;
    var q3, q2, q1, q0 := DigitsOf(q);
    var x3, x2, x1, x0 := DigitsOf(x);
    LowDigits(q, q3, q2, q1, q0);
    LowDigits(x, x3, x2, x1, x0);
    RowNetworkAt(r, width, q2, q1, q0, lane, u, x2, x1, x0);
    FourIsThree(u, x2, x1, x0);
    DoubledThree(q2, q1, q0, u);
  }

  lemma DoubledThree(q2: Digit, q1: Digit, q0: Digit, u: Digit)
    ensures Four(q2, q1, q0, u) == 2 * Three(q2, q1, q0) + u
  {
  }

  // ------------------------------------------------------------------------------------------------
  // Four 256-bit registers, each with eight bytes of a column in each half of each lane

  function LowLanes(a: Bytes, b: Bytes): (r: Bytes)
    requires |a| == |b| == 32
    ensures |r| == 32
  {
    a[..16] + b[..16]
  }

  function HighLanes(a: Bytes, b: Bytes): (r: Bytes)
    requires |a| == |b| == 32
    ensures |r| == 32
  {
    a[16..] + b[16..]
  }

  function Gather(y: seq<Bytes>): (t: seq<Bytes>)
    requires File(y, 4, 32)
    ensures File(t, 4, 32)
  {
    var a, b := Unpack(y[0], y[1], 8, 0), Unpack(y[2], y[3], 8, 0);
    var c, d := Unpack(y[0], y[1], 8, 1), Unpack(y[2], y[3], 8, 1);
    [LowLanes(a, b), LowLanes(c, d), HighLanes(a, b), HighLanes(c, d)]
  }

  lemma PairedHalves(a: Bytes, b: Bytes, half: Digit, lane: Digit, h: Digit, x: nat)
    requires |a| == |b| == 32 && x < 8
    ensures Unpack(a, b, 8, half)[16 * lane + 8 * h + x] == Either(a, b, h)[16 * lane + 8 * half + x]
  {
    hide Unpack, UnpackByte, Four, Three;
    var x3, x2, x1, x0 := DigitsOf(x);
    LowDigits(x, x3, x2, x1, x0);
    UnpackAt(a, b, 8, half, lane, h, x2, x1, x0);
    FourIsThree(h, x2, x1, x0);
    FourIsThree(half, x2, x1, x0);
  }

  lemma GatherRegister(y: seq<Bytes>, lane: Digit, u: Digit)
    requires File(y, 4, 32)
    ensures var a, b := Unpack(y[0], y[1], 8, u), Unpack(y[2], y[3], 8, u);
            Gather(y)[2 * lane + u] == if lane == 0 then LowLanes(a, b) else HighLanes(a, b)
  {
    hide Unpack, LowLanes, HighLanes;
    if lane == 0 {
      if u == 0 { assert Gather(y)[0] == LowLanes(Unpack(y[0], y[1], 8, 0), Unpack(y[2], y[3], 8, 0)); }
    } else {
      if u == 0 { assert Gather(y)[2] == HighLanes(Unpack(y[0], y[1], 8, 0), Unpack(y[2], y[3], 8, 0)); }
    }
  }

  lemma LanesAt(a: Bytes, b: Bytes, lane: Digit, h1: Digit, k: nat)
    requires |a| == |b| == 32 && k < 16
    ensures (if lane == 0 then LowLanes(a, b) else HighLanes(a, b))[16 * h1 + k] == Either(a, b, h1)[16 * lane + k]
  {
  }

  lemma GatherAt(y: seq<Bytes>, lane: Digit, u: Digit, h1: Digit, h0: Digit, x: nat)
    requires File(y, 4, 32) && x < 8
    ensures Gather(y)[2 * lane + u][16 * h1 + 8 * h0 + x] == y[2 * h1 + h0][16 * lane + 8 * u + x]
  {
    hide Unpack, UnpackByte, Gather, LowLanes, HighLanes;
    var a, b := Unpack(y[0], y[1], 8, u), Unpack(y[2], y[3], 8, u);
    GatherRegister(y, lane, u);
    LanesAt(a, b, lane, h1, 8 * h0 + x);
    assert Either(a, b, h1) == Unpack(y[2 * h1], y[2 * h1 + 1], 8, u);
    PairedHalves(y[2 * h1], y[2 * h1 + 1], u, lane, h0, x);
  }
}
