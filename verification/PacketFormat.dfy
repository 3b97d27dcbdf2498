/**
  The wire format of a packet: a header of 24 bytes, beam identifiers, frequency identifiers, scales, offsets, data.
  Integers are little-endian.  Single-precision values travel as four opaque bytes.
*/
module PacketFormat {
  import opened BitMatrix
  import opened EncodeBound
  import opened Products

  const MAX_PACKET_SIZE := 9000
  const MAX_NT_PER_PACKET := 1024
  const NFREQ_COARSE := 1024

  type Float4 = b: seq<uint8> | |b| == 4 witness [0, 0, 0, 0]

  // ------------------------------------------------------------------------------------------------
  // Little-endian integers

  function Range(n: nat): (r: nat)
    ensures r > 0
  {
    if n == 0 then 1 else 256 * Range(n - 1)
  }

  function ToBytes(v: nat, n: nat): (b: seq<uint8>)
    ensures |b| == n
  {
    if n == 0 then [] else [v % 256] + ToBytes(v / 256, n - 1)
  }

  function FromBytes(b: seq<uint8>): nat {
    if b == [] then 0 else b[0] + 256 * FromBytes(b[1..])
  }

  lemma {:induction false} ReadBack(v: nat, n: nat)
    requires v < Range(n)
    ensures FromBytes(ToBytes(v, n)) == v
  {
    if n > 0 {
      ReadBack(v / 256, n - 1);
      assert ToBytes(v, n)[1..] == ToBytes(v / 256, n - 1);
    }
  }

  lemma {:induction false} WriteBack(b: seq<uint8>)
    ensures FromBytes(b) < Range(|b|) && ToBytes(FromBytes(b), |b|) == b
  {
    if b != [] {
      WriteBack(b[1..]);
      var rest: nat := FromBytes(b[1..]);
      var low: nat := b[0];
      assert FromBytes(b) == low + 256 * rest;
      assert (low + 256 * rest) % 256 == low && (low + 256 * rest) / 256 == rest;
    }
  }

  function U16(b: seq<uint8>, at: nat): nat
    requires at + 2 <= |b|
  {
    FromBytes(b[at..at + 2])
  }

  /** Two's complement. */
  function Signed16(v: nat): int { if v < 32768 then v else v - 65536 }
  function Unsigned16(x: int): (v: nat)
    requires -32768 <= x < 32768
    ensures v < 65536 && Signed16(v) == x
  {
    if x < 0 then x + 65536 else x
  }

  lemma SignedBack(v: nat)
    requires v < 65536
    ensures -32768 <= Signed16(v) < 32768 && Unsigned16(Signed16(v)) == v
  {
  }

  // ------------------------------------------------------------------------------------------------
  // Arrays of fixed-size items

  function Items(v: seq<seq<uint8>>): seq<uint8> {
    if v == [] then [] else Items(v[..|v| - 1]) + v[|v| - 1]
  }

  predicate AllOfSize(v: seq<seq<uint8>>, size: nat) {
    forall i :: 0 <= i < |v| ==> |v[i]| == size
  }

  lemma {:induction false} ItemsSize(v: seq<seq<uint8>>, size: nat)
    requires AllOfSize(v, size)
    ensures |Items(v)| == At(|v|, size, 0)
  {
    if v != [] {
      ItemsSize(v[..|v| - 1], size);
      AtRows(|v| - 1, 1, size, 0);
      assert At(1, size, 0) == size + At(0, size, 0);
    }
  }

  lemma {:induction false} ItemAt(v: seq<seq<uint8>>, size: nat, i: nat)
    requires AllOfSize(v, size) && i < |v|
    ensures At(i, size, 0) + size <= |Items(v)|
    ensures Items(v)[At(i, size, 0)..At(i, size, 0) + size] == v[i]
  {
    hide At;
    var front := v[..|v| - 1];
    ItemsSize(front, size);
    if i < |v| - 1 {
      ItemAt(front, size, i);
      assert Items(v)[At(i, size, 0)..At(i, size, 0) + size] == Items(front)[At(i, size, 0)..At(i, size, 0) + size];
    }
  }

  lemma NextItem(n: nat, size: nat)
    ensures At(n + 1, size, 0) == At(n, size, 0) + size
  {
    AtRows(n, 1, size, 0);
    assert At(1, size, 0) == size + At(0, size, 0);
  }

  lemma ItemInside(n: nat, size: nat, i: nat)
    requires i < n
    ensures At(i, size, 0) + size <= At(n, size, 0)
  {
    hide At;
    NextItem(i, size);
    AtRows(i + 1, n - i - 1, size, 0);
  }

  /** Item i of an array of n items that starts at a position. */
  function ItemIn(b: seq<uint8>, at: nat, n: nat, size: nat, i: nat): (w: seq<uint8>)
    requires at + At(n, size, 0) <= |b| && i < n
    ensures |w| == size
  {
    ItemInside(n, size, i);
    b[at + At(i, size, 0)..at + At(i, size, 0) + size]
  }

  /** The array read back. */
  function ReadItems(b: seq<uint8>, at: nat, n: nat, size: nat): (v: seq<seq<uint8>>)
    requires at + At(n, size, 0) <= |b|
    ensures |v| == n && AllOfSize(v, size) && forall i :: 0 <= i < n ==> v[i] == ItemIn(b, at, n, size, i)
  {
    seq(n, i requires 0 <= i < n => ItemIn(b, at, n, size, i))
  }

  lemma SliceOfSlice(b: seq<uint8>, at: nat, to: nat, p: nat, q: nat)
    requires at <= to <= |b| && p <= q <= to - at
    ensures b[at..to][p..q] == b[at + p..at + q]
  {
    var x := b[at..to];
    forall k | 0 <= k < q - p ensures x[p..q][k] == b[at + p..at + q][k] {
      assert x[p + k] == b[at + p + k];
    }
  }

  lemma {:induction false} ItemsOfRead(b: seq<uint8>, at: nat, n: nat, size: nat)
    requires at + At(n, size, 0) <= |b|
    ensures Items(ReadItems(b, at, n, size)) == b[at..at + At(n, size, 0)]
  {
    hide At;
    if n == 0 {
      AtNone(size);
    } else {
      NextItem(n - 1, size);
      var v, front := ReadItems(b, at, n, size), ReadItems(b, at, n - 1, size);
      assert v[..n - 1] == front;
      ItemsOfRead(b, at, n - 1, size);
      var k := At(n - 1, size, 0);
      assert b[at..at + k] + b[at + k..at + k + size] == b[at..at + k + size];
    }
  }

  lemma AtNone(size: nat)
    ensures At(0, size, 0) == 0
  {
  }

  lemma ReadOfItems(v: seq<seq<uint8>>, size: nat, b: seq<uint8>, at: nat)
    requires AllOfSize(v, size) && at + |Items(v)| <= |b| && b[at..at + |Items(v)|] == Items(v)
    ensures at + At(|v|, size, 0) <= |b| && ReadItems(b, at, |v|, size) == v
  {
    hide At;
    ItemsSize(v, size);
    forall i | 0 <= i < |v| ensures ReadItems(b, at, |v|, size)[i] == v[i] {
      ItemAt(v, size, i);
      SliceOfSlice(b, at, at + |Items(v)|, At(i, size, 0), At(i, size, 0) + size);
    }
  }

  function Ids(v: seq<nat>): (w: seq<seq<uint8>>)
    ensures |w| == |v| && AllOfSize(w, 2) && forall i :: 0 <= i < |v| ==> w[i] == ToBytes(v[i], 2)
  {
    seq(|v|, i requires 0 <= i < |v| => ToBytes(v[i], 2))
  }

  function ReadIds(w: seq<seq<uint8>>): (v: seq<nat>)
    ensures |v| == |w| && forall i :: 0 <= i < |w| ==> v[i] == FromBytes(w[i])
  {
    seq(|w|, i requires 0 <= i < |w| => FromBytes(w[i]))
  }

  lemma IdsRoundTrip(v: seq<nat>)
    requires forall i :: 0 <= i < |v| ==> v[i] < 65536
    ensures ReadIds(Ids(v)) == v
  {
    forall i | 0 <= i < |v| ensures ReadIds(Ids(v))[i] == v[i] {
      ReadBack(v[i], 2);
      assert Range(2) == 65536;
    }
  }

  lemma IdsReadBack(w: seq<seq<uint8>>)
    requires AllOfSize(w, 2)
    ensures Ids(ReadIds(w)) == w
    ensures forall i :: 0 <= i < |w| ==> ReadIds(w)[i] < 65536
  {
    forall i | 0 <= i < |w| ensures Ids(ReadIds(w))[i] == w[i] && ReadIds(w)[i] < 65536 {
      WriteBack(w[i]);
      assert Range(2) == 65536;
    }
  }

  // ------------------------------------------------------------------------------------------------
  // The header

  datatype Header = Header(protocol: nat, dataNbytes: int, fpgaPerSample: nat, fpgaCount: nat,
                           nbeams: nat, nfreq: nat, nupfreq: nat, ntsamp: nat)

  predicate HeaderInRange(h: Header) {
    && h.protocol < Range(4) && -32768 <= h.dataNbytes < 32768 && h.fpgaPerSample < 65536 && h.fpgaCount < Range(8)
    && h.nbeams < 65536 && h.nfreq < 65536 && h.nupfreq < 65536 && h.ntsamp < 65536
  }

  function HeaderBytes(h: Header): (b: seq<uint8>)
    requires HeaderInRange(h)
    ensures |b| == 24
  {
    ToBytes(h.protocol, 4) + ToBytes(Unsigned16(h.dataNbytes), 2) + ToBytes(h.fpgaPerSample, 2) + ToBytes(h.fpgaCount, 8)
    + ToBytes(h.nbeams, 2) + ToBytes(h.nfreq, 2) + ToBytes(h.nupfreq, 2) + ToBytes(h.ntsamp, 2)
  }

  function ReadHeader(b: seq<uint8>): Header
    requires |b| >= 24
  {
    Header(FromBytes(b[0..4]), Signed16(U16(b, 4)), U16(b, 6), FromBytes(b[8..16]), U16(b, 16), U16(b, 18), U16(b, 20), U16(b, 22))
  }

  lemma HeaderRoundTrip(h: Header, rest: seq<uint8>)
    requires HeaderInRange(h)
    ensures ReadHeader(HeaderBytes(h) + rest) == h
  {
    hide ToBytes, FromBytes, Unsigned16, Signed16, Range;
    var b := HeaderBytes(h) + rest;
    TwoBytes();
    ReadBack(h.protocol, 4);
    ReadBack(Unsigned16(h.dataNbytes), 2);
    ReadBack(h.fpgaPerSample, 2);
    ReadBack(h.fpgaCount, 8);
    ReadBack(h.nbeams, 2);
    ReadBack(h.nfreq, 2);
    ReadBack(h.nupfreq, 2);
    ReadBack(h.ntsamp, 2);
    assert b[0..4] == ToBytes(h.protocol, 4);
    assert b[4..6] == ToBytes(Unsigned16(h.dataNbytes), 2);
    assert b[6..8] == ToBytes(h.fpgaPerSample, 2);
    assert b[8..16] == ToBytes(h.fpgaCount, 8);
    assert b[16..18] == ToBytes(h.nbeams, 2);
    assert b[18..20] == ToBytes(h.nfreq, 2);
    assert b[20..22] == ToBytes(h.nupfreq, 2);
    assert b[22..24] == ToBytes(h.ntsamp, 2);
  }

  lemma TwoBytes()
    ensures Range(2) == 65536
  {
    assert Range(1) == 256;
  }

  lemma HeaderReadBack(b: seq<uint8>)
    requires |b| >= 24
    ensures HeaderInRange(ReadHeader(b)) && HeaderBytes(ReadHeader(b)) == b[..24]
  {
    hide ToBytes, FromBytes, Range, Signed16, Unsigned16;
    TwoBytes();
    WriteBack(b[0..4]);
    WriteBack(b[4..6]);
    WriteBack(b[6..8]);
    WriteBack(b[8..16]);
    WriteBack(b[16..18]);
    WriteBack(b[18..20]);
    WriteBack(b[20..22]);
    WriteBack(b[22..24]);
    SignedBack(U16(b, 4));
    assert b[..24] == b[0..4] + b[4..6] + b[6..8] + b[8..16] + b[16..18] + b[18..20] + b[20..22] + b[22..24];
  }

  // ------------------------------------------------------------------------------------------------
  // A packet, and where its parts are

  datatype Packet = Packet(h: Header, beamIds: seq<nat>, freqIds: seq<nat>, scales: seq<Float4>, offsets: seq<Float4>,
                           data: seq<uint8>)

  /** How many scales, and how many data bytes. */
  function Blocks(h: Header): nat { At(h.nbeams, h.nfreq, 0) }
  function DataBytes(h: Header): nat { At(At(Blocks(h), h.nupfreq, 0), h.ntsamp, 0) }

  function HeaderSize(h: Header): nat {
    24 + At(h.nbeams, 2, 0) + At(h.nfreq, 2, 0) + 2 * At(Blocks(h), 4, 0)
  }

  predicate Consistent(p: Packet) {
    && HeaderInRange(p.h)
    && |p.beamIds| == p.h.nbeams && |p.freqIds| == p.h.nfreq
    && |p.scales| == |p.offsets| == Blocks(p.h) && |p.data| == DataBytes(p.h)
    && (forall i :: 0 <= i < |p.beamIds| ==> p.beamIds[i] < 65536)
    && (forall i :: 0 <= i < |p.freqIds| ==> p.freqIds[i] < 65536)
  }

  function Serialize(p: Packet): seq<uint8>
    requires HeaderInRange(p.h)
  {
    HeaderBytes(p.h) + Items(Ids(p.beamIds)) + Items(Ids(p.freqIds)) + Items(p.scales) + Items(p.offsets) + p.data
  }

  /** The header fields, and the positions of the arrays: what `decode` fills in. */
  datatype View = View(h: Header, beamIds: nat, freqIds: nat, scales: nat, offsets: nat, data: nat)

  function ViewOf(h: Header): View {
    var freqIds := 24 + At(h.nbeams, 2, 0);
    var scales := freqIds + At(h.nfreq, 2, 0);
    var offsets := scales + At(Blocks(h), 4, 0);
    View(h, 24, freqIds, scales, offsets, offsets + At(Blocks(h), 4, 0))
  }

  /** All arrays are inside the buffer. */
  predicate Fits(b: seq<uint8>, v: View) {
    && v.beamIds + At(v.h.nbeams, 2, 0) <= |b| && v.freqIds + At(v.h.nfreq, 2, 0) <= |b|
    && v.scales + At(Blocks(v.h), 4, 0) <= |b| && v.offsets + At(Blocks(v.h), 4, 0) <= |b|
    && v.data + DataBytes(v.h) <= |b|
  }

  function ReadFloats(b: seq<uint8>, at: nat, n: nat): (f: seq<Float4>)
    requires at + At(n, 4, 0) <= |b|
    ensures f == ReadItems(b, at, n, 4)
  {
    ReadItems(b, at, n, 4)
  }

  /** The packet seen through a view. */
  function ReadPacket(b: seq<uint8>, v: View): Packet
    requires Fits(b, v)
  {
    Packet(v.h, ReadIds(ReadItems(b, v.beamIds, v.h.nbeams, 2)), ReadIds(ReadItems(b, v.freqIds, v.h.nfreq, 2)),
           ReadFloats(b, v.scales, Blocks(v.h)), ReadFloats(b, v.offsets, Blocks(v.h)),
           b[v.data..v.data + DataBytes(v.h)])
  }

  lemma SerializedSize(p: Packet)
    requires Consistent(p)
    ensures |Serialize(p)| == HeaderSize(p.h) + DataBytes(p.h)
    ensures |Items(Ids(p.beamIds))| == At(p.h.nbeams, 2, 0) && |Items(Ids(p.freqIds))| == At(p.h.nfreq, 2, 0)
    ensures |Items(p.scales)| == |Items(p.offsets)| == At(Blocks(p.h), 4, 0)
  {
    hide At, Items, HeaderBytes, DataBytes;
    ItemsSize(Ids(p.beamIds), 2);
    ItemsSize(Ids(p.freqIds), 2);
    ItemsSize(p.scales, 4);
    ItemsSize(p.offsets, 4);
  }

  /** Every field of a serialized packet is read back. */
  lemma PacketRoundTrip(p: Packet)
    requires Consistent(p)
    ensures Fits(Serialize(p), ViewOf(p.h)) && ReadPacket(Serialize(p), ViewOf(p.h)) == p
    ensures |Serialize(p)| >= 24 && ReadHeader(Serialize(p)) == p.h
  {
    hide At, Items, HeaderBytes, ReadHeader, Ids, ReadIds, DataBytes, Blocks;
    SerializedSize(p);
    var b, v := Serialize(p), ViewOf(p.h);
    var ids, freqs, sca, off := Items(Ids(p.beamIds)), Items(Ids(p.freqIds)), Items(p.scales), Items(p.offsets);
    HeaderRoundTrip(p.h, ids + freqs + sca + off + p.data);
    assert b == HeaderBytes(p.h) + (ids + freqs + sca + off + p.data);
    assert b[24..24 + |ids|] == ids;
    assert b[v.freqIds..v.freqIds + |freqs|] == freqs;
    assert b[v.scales..v.scales + |sca|] == sca;
    assert b[v.offsets..v.offsets + |off|] == off;
    assert b[v.data..v.data + |p.data|] == p.data;
    ReadOfItems(Ids(p.beamIds), 2, b, 24);
    ReadOfItems(Ids(p.freqIds), 2, b, v.freqIds);
    ReadOfItems(p.scales, 4, b, v.scales);
    ReadOfItems(p.offsets, 4, b, v.offsets);
    IdsRoundTrip(p.beamIds);
    IdsRoundTrip(p.freqIds);
  }

  /** A buffer of the right size is the serialization of the packet read from it. */
  lemma PacketReadBack(b: seq<uint8>)
    requires |b| >= 24 && |b| == HeaderSize(ReadHeader(b)) + DataBytes(ReadHeader(b))
    ensures var v := ViewOf(ReadHeader(b));
            Fits(b, v) && Consistent(ReadPacket(b, v)) && Serialize(ReadPacket(b, v)) == b
  {
    hide At, Items, HeaderBytes, ReadHeader, Ids, ReadIds, DataBytes, Blocks;
    var h := ReadHeader(b);
    var v := ViewOf(h);
    HeaderReadBack(b);
    var p := ReadPacket(b, v);
    IdsReadBack(ReadItems(b, v.beamIds, h.nbeams, 2));
    IdsReadBack(ReadItems(b, v.freqIds, h.nfreq, 2));
    ItemsOfRead(b, v.beamIds, h.nbeams, 2);
    ItemsOfRead(b, v.freqIds, h.nfreq, 2);
    ItemsOfRead(b, v.scales, Blocks(h), 4);
    ItemsOfRead(b, v.offsets, Blocks(h), 4);
    assert b == b[..24] + b[24..v.freqIds] + b[v.freqIds..v.scales] + b[v.scales..v.offsets] + b[v.offsets..v.data] + b[v.data..];
  }

  // ------------------------------------------------------------------------------------------------
  // The layout, byte by byte

  function Two(a: nat, b: nat): nat { a + 256 * b }
  function Four(a: nat, b: nat, c: nat, d: nat): nat { Two(a, b) + 65536 * Two(c, d) }

  lemma TwoByteNumber(b: seq<uint8>, at: nat)
    requires at + 2 <= |b|
    ensures FromBytes(b[at..at + 2]) == Two(b[at], b[at + 1])
  {
    var s := b[at..at + 2];
    assert s[1..][1..] == [] && s[1..][0] == b[at + 1];
    assert FromBytes(s[1..]) == s[1..][0];
  }

  lemma FourByteNumber(b: seq<uint8>, at: nat)
    requires at + 4 <= |b|
    ensures FromBytes(b[at..at + 4]) == Four(b[at], b[at + 1], b[at + 2], b[at + 3])
  {
    var s := b[at..at + 4];
    assert s[1..][1..] == b[at + 2..at + 4] && s[1..][0] == b[at + 1];
    TwoByteNumber(b, at + 2);
  }

  lemma EightByteNumber(b: seq<uint8>, at: nat)
    requires at + 8 <= |b|
    ensures FromBytes(b[at..at + 8])
            == Four(b[at], b[at + 1], b[at + 2], b[at + 3]) + 0x1_0000_0000 * Four(b[at + 4], b[at + 5], b[at + 6], b[at + 7])
  {
    FourByteNumber(b, at + 4);
    var s := b[at..at + 8];
    var s1, s2, s3 := b[at + 1..at + 8], b[at + 2..at + 8], b[at + 3..at + 8];
    assert s[1..] == s1 && s1[1..] == s2 && s2[1..] == s3 && s3[1..] == b[at + 4..at + 8];
    NextByte(s);
    NextByte(s1);
    NextByte(s2);
    NextByte(s3);
    hide FromBytes;
    FourAndRest(b[at], b[at + 1], b[at + 2], b[at + 3], FromBytes(b[at + 4..at + 8]));
  }

  lemma NextByte(s: seq<uint8>)
    requires s != []
    ensures FromBytes(s) == Two(s[0], FromBytes(s[1..]))
  {
  }

  lemma FourAndRest(a: nat, b: nat, c: nat, d: nat, e: nat)
    ensures Two(a, Two(b, Two(c, Two(d, e)))) == Four(a, b, c, d) + 0x1_0000_0000 * e
  {
  }

  /** Where the fields of the header are. */
  lemma HeaderLayout(b: seq<uint8>)
    requires |b| >= 24
    ensures var h := ReadHeader(b);
            && h.protocol == Four(b[0], b[1], b[2], b[3])
            && h.dataNbytes == Two(b[4], b[5]) - (if b[5] >= 128 then 65536 else 0)
            && h.fpgaPerSample == Two(b[6], b[7])
            && h.fpgaCount == Four(b[8], b[9], b[10], b[11]) + 0x1_0000_0000 * Four(b[12], b[13], b[14], b[15])
            && h.nbeams == Two(b[16], b[17]) && h.nfreq == Two(b[18], b[19])
            && h.nupfreq == Two(b[20], b[21]) && h.ntsamp == Two(b[22], b[23])
  {
    hide FromBytes;
    FourByteNumber(b, 0);
    EightByteNumber(b, 8);
    TwoByteNumber(b, 4);
    TwoByteNumber(b, 6);
    TwoByteNumber(b, 16);
    TwoByteNumber(b, 18);
    TwoByteNumber(b, 20);
    TwoByteNumber(b, 22);
  }

  /** Where the arrays are, and how their items are read. */
  lemma ArrayLayout(b: seq<uint8>, h: Header)
    requires Fits(b, ViewOf(h))
    ensures var p, nb, nf, k := ReadPacket(b, ViewOf(h)), h.nbeams, h.nfreq, h.nbeams * h.nfreq;
            && NumbersAt(b, 24, nb, p.beamIds) && NumbersAt(b, 24 + 2 * nb, nf, p.freqIds)
            && FloatsAt(b, 24 + 2 * nb + 2 * nf, k, p.scales) && FloatsAt(b, 24 + 2 * nb + 2 * nf + 4 * k, k, p.offsets)
            && 24 + 2 * nb + 2 * nf + 8 * k + |p.data| <= |b| && |p.data| == k * h.nupfreq * h.ntsamp
            && p.data == b[24 + 2 * nb + 2 * nf + 8 * k..24 + 2 * nb + 2 * nf + 8 * k + |p.data|]
  {
    SizesAreProducts(h);
    hide At, FromBytes, DataBytes, Blocks, NumbersAt, FloatsAt;
    var nb, nf, k := h.nbeams, h.nfreq, Blocks(h);
    NumbersRead(b, 24, nb);
    NumbersRead(b, 24 + 2 * nb, nf);
    FloatsRead(b, 24 + 2 * nb + 2 * nf, k);
    FloatsRead(b, 24 + 2 * nb + 2 * nf + 4 * k, k);
  }

  predicate NumbersAt(b: seq<uint8>, at: nat, n: nat, v: seq<nat>) {
    |v| == n && at + 2 * n <= |b| && forall i :: 0 <= i < n ==> v[i] == Two(b[at + 2 * i], b[at + 2 * i + 1])
  }

  predicate FloatsAt(b: seq<uint8>, at: nat, n: nat, v: seq<Float4>) {
    |v| == n && at + 4 * n <= |b| && forall i :: 0 <= i < n ==> v[i] == b[at + 4 * i..at + 4 * i + 4]
  }

  lemma NumbersRead(b: seq<uint8>, at: nat, n: nat)
    requires at + At(n, 2, 0) <= |b|
    ensures NumbersAt(b, at, n, ReadIds(ReadItems(b, at, n, 2)))
  {
    hide At, FromBytes, Two;
    AtIsProduct(n, 2, 0);
    forall i | 0 <= i < n ensures ReadIds(ReadItems(b, at, n, 2))[i] == Two(b[at + 2 * i], b[at + 2 * i + 1]) {
      AtIsProduct(i, 2, 0);
      TwoByteNumber(b, at + 2 * i);
    }
  }

  lemma FloatsRead(b: seq<uint8>, at: nat, n: nat)
    requires at + At(n, 4, 0) <= |b|
    ensures FloatsAt(b, at, n, ReadFloats(b, at, n))
  {
    hide At;
    AtIsProduct(n, 4, 0);
    forall i | 0 <= i < n ensures ReadFloats(b, at, n)[i] == b[at + 4 * i..at + 4 * i + 4] {
      AtIsProduct(i, 4, 0);
    }
  }

  lemma SizesAreProducts(h: Header)
    ensures Blocks(h) == h.nbeams * h.nfreq && DataBytes(h) == h.nbeams * h.nfreq * h.nupfreq * h.ntsamp
    ensures At(h.nbeams, 2, 0) == 2 * h.nbeams && At(h.nfreq, 2, 0) == 2 * h.nfreq && At(Blocks(h), 4, 0) == 4 * Blocks(h)
  {
    hide At;
    AtIsProduct(h.nbeams, h.nfreq, 0);
    AtIsProduct(Blocks(h), h.nupfreq, 0);
    AtIsProduct(At(Blocks(h), h.nupfreq, 0), h.ntsamp, 0);
    AtIsProduct(h.nbeams, 2, 0);
    AtIsProduct(h.nfreq, 2, 0);
    AtIsProduct(Blocks(h), 4, 0);
  }

  // ------------------------------------------------------------------------------------------------
  // Decoding

  function BitAnd(a: nat, b: nat): nat {
    if a == 0 || b == 0 then 0 else 2 * BitAnd(a / 2, b / 2) + if a % 2 == 1 && b % 2 == 1 then 1 else 0
  }

  predicate PowerOfTwo(n: nat) {
    n == 1 || (n > 1 && n % 2 == 0 && PowerOfTwo(n / 2))
  }

  /** The usual test; zero passes it as well. */
  predicate PassesPowerTest(n: nat) { n == 0 || BitAnd(n, n - 1) == 0 }

  lemma {:induction false} BitAndSelf(a: nat)
    ensures BitAnd(a, a) == a
  {
    if a > 0 { BitAndSelf(a / 2); }
  }

  lemma {:induction false} PowerTest(n: nat)
    ensures PassesPowerTest(n) <==> n == 0 || PowerOfTwo(n)
  {
    if n > 1 {
      if n % 2 == 0 {
        PowerTest(n / 2);
        assert (n - 1) / 2 == n / 2 - 1 && (n - 1) % 2 == 1;
      } else {
        BitAndSelf(n / 2);
        assert (n - 1) / 2 == n / 2 && (n - 1) % 2 == 0;
      }
    }
  }

  datatype Outcome = Bad | Good(view: View) | DividesByZero

  /** The checks that come before the division. */
  predicate PlausibleHeader(b: seq<uint8>) {
    && 24 <= |b| <= MAX_PACKET_SIZE
    && var h := ReadHeader(b);
       h.protocol == 1 && h.ntsamp <= MAX_NT_PER_PACKET && (h.ntsamp == 0 || PowerOfTwo(h.ntsamp)) && h.fpgaPerSample > 0
  }

  /** What a receiver may rely on. */
  predicate Sendable(p: Packet) {
    && p.h.protocol == 1 && p.h.ntsamp <= MAX_NT_PER_PACKET && PowerOfTwo(p.h.ntsamp) && p.h.fpgaPerSample > 0
    && p.h.fpgaCount % (p.h.fpgaPerSample * p.h.ntsamp) == 0
    && p.h.dataNbytes == DataBytes(p.h)
    && HeaderSize(p.h) + DataBytes(p.h) <= MAX_PACKET_SIZE
    && forall i :: 0 <= i < |p.freqIds| ==> p.freqIds[i] < NFREQ_COARSE
  }

  predicate Accepts(b: seq<uint8>) {
    && PlausibleHeader(b)
    && var h := ReadHeader(b);
    && h.ntsamp > 0 && h.fpgaCount % (h.fpgaPerSample * h.ntsamp) == 0
    && |b| == HeaderSize(h) + DataBytes(h) && h.dataNbytes == DataBytes(h)
    && forall i :: 0 <= i < h.nfreq ==> FreqId(b, h, i) < NFREQ_COARSE
  }

  function FreqId(b: seq<uint8>, h: Header, i: nat): nat
    requires |b| == HeaderSize(h) + DataBytes(h) && i < h.nfreq
  {
    ItemInside(h.nfreq, 2, i);
    FromBytes(ItemIn(b, 24 + At(h.nbeams, 2, 0), h.nfreq, 2, i))
  }

  /** Fills in the header and the positions, after all checks. */
  method Decode(src: seq<uint8>) returns (o: Outcome)
    ensures o.Good? <==> Accepts(src)
    ensures o.DividesByZero? <==> PlausibleHeader(src) && ReadHeader(src).ntsamp == 0
    ensures o.Good? ==> o.view == ViewOf(ReadHeader(src))
  {
    hide ReadHeader, PowerOfTwo, BitAnd, DataBytes, Blocks, At, HeaderSize;
    if |src| < 24 || |src| > MAX_PACKET_SIZE { return Bad; }
    var h := ReadHeader(src);
    HeaderReadBack(src);
    if h.protocol != 1 { return Bad; }
    PowerTest(h.ntsamp);
    if h.ntsamp > MAX_NT_PER_PACKET || !PassesPowerTest(h.ntsamp) { return Bad; }
    if h.fpgaPerSample == 0 { return Bad; }
    if h.ntsamp == 0 { return DividesByZero; }
    ProductIsPositive(h.fpgaPerSample, h.ntsamp);
    var fpgaCountsPerPacket := h.fpgaPerSample * h.ntsamp;
    if h.fpgaCount % fpgaCountsPerPacket != 0 { return Bad; }
    var nh, nd := HeaderSize(h), DataBytes(h);
    if |src| != nh + nd { return Bad; }
    var unsignedDataNbytes := if h.dataNbytes < 0 then h.dataNbytes + Range(8) else h.dataNbytes;
    LargeRange();
    if unsignedDataNbytes != nd { return Bad; }
    for i := 0 to h.nfreq
      invariant forall j :: 0 <= j < i ==> FreqId(src, h, j) < NFREQ_COARSE
    {
      if FreqId(src, h, i) >= NFREQ_COARSE { return Bad; }
    }
    o := Good(ViewOf(h));
  }

  lemma LargeRange()
    ensures Range(8) > 65536 + MAX_PACKET_SIZE
  {
    assert Range(2) == 65536;
    assert Range(4) == 65536 * 65536 by { assert Range(3) == 256 * 65536; }
    assert Range(6) >= Range(4) by { assert Range(5) == 256 * Range(4); }
    assert Range(8) >= Range(6) by { assert Range(7) == 256 * Range(6); }
  }

  lemma AcceptedIsSerialized(b: seq<uint8>)
    requires Accepts(b)
    ensures var v := ViewOf(ReadHeader(b));
            && Fits(b, v) && Consistent(ReadPacket(b, v)) && Sendable(ReadPacket(b, v)) && Serialize(ReadPacket(b, v)) == b
  {
    hide Serialize, ReadHeader, PowerOfTwo, DataBytes, HeaderSize, At, Consistent, ItemIn, Blocks, ReadIds;
    PacketReadBack(b);
    var h := ReadHeader(b);
    var p := ReadPacket(b, ViewOf(h));
    forall i | 0 <= i < h.nfreq ensures p.freqIds[i] < NFREQ_COARSE {
      assert FreqId(b, h, i) < NFREQ_COARSE;
      assert ReadItems(b, ViewOf(h).freqIds, h.nfreq, 2)[i] == ItemIn(b, ViewOf(h).freqIds, h.nfreq, 2, i);
    }
  }

  /** b is what a sender may send for p. */
  predicate Sends(p: Packet, b: seq<uint8>) {
    Consistent(p) && Sendable(p) && Serialize(p) == b
  }

  lemma AcceptedIsSent(b: seq<uint8>) returns (p: Packet)
    requires Accepts(b)
    ensures Sends(p, b)
  {
    AcceptedIsSerialized(b);
    p := ReadPacket(b, ViewOf(ReadHeader(b)));
  }

  /** The packets that are accepted are exactly the serializations of sendable packets. */
  lemma AcceptsExactlySerializations(b: seq<uint8>)
    ensures Accepts(b) <==> exists p: Packet :: Sends(p, b)
  {
    hide Accepts;
    if Accepts(b) { var p := AcceptedIsSent(b); }
    if p: Packet :| Sends(p, b) { SendableIsAccepted(p); }
  }

  /** Whatever is sent is accepted, and read back. */
  lemma SendableIsAccepted(p: Packet)
    requires Consistent(p) && Sendable(p)
    ensures Accepts(Serialize(p)) && ReadHeader(Serialize(p)) == p.h
    ensures Fits(Serialize(p), ViewOf(p.h)) && ReadPacket(Serialize(p), ViewOf(p.h)) == p
  {
    hide Serialize, ReadHeader, PowerOfTwo, At, ItemIn, ReadIds;
    var b := Serialize(p);
    PacketRoundTrip(p);
    SerializedSize(p);
    PositivePower(p.h.ntsamp);
    forall i | 0 <= i < p.h.nfreq ensures FreqId(b, p.h, i) < NFREQ_COARSE {
      assert p.freqIds[i] == ReadIds(ReadItems(b, ViewOf(p.h).freqIds, p.h.nfreq, 2))[i];
      assert ReadItems(b, ViewOf(p.h).freqIds, p.h.nfreq, 2)[i] == ItemIn(b, ViewOf(p.h).freqIds, p.h.nfreq, 2, i);
    }
  }

  lemma PositivePower(n: nat)
    requires PowerOfTwo(n)
    ensures n > 0
  {
  }

  /** The checks do not require a beam, a frequency or any data. */
  lemma EmptyPacketIsAccepted()
    ensures var h := Header(1, 0, 1, 0, 0, 0, 0, 1);
            HeaderInRange(h) && Accepts(Serialize(Packet(h, [], [], [], [], [])))
  {
    var h := Header(1, 0, 1, 0, 0, 0, 0, 1);
    assert Range(4) > 1 && Range(8) > 1 by { LargeRange(); FourBytes(); }
    var p := Packet(h, [], [], [], [], []);
    AtNone(2);
    AtNone(4);
    assert Blocks(h) == 0 && DataBytes(h) == 0 && HeaderSize(h) == 24;
    SendableIsAccepted(p);
  }

  /** Twenty-four bytes that pass the checks before the division, and whose number of samples is zero. */
  lemma HeaderThatDividesByZero() returns (b: seq<uint8>)
    ensures |b| == 24 && PlausibleHeader(b) && ReadHeader(b).ntsamp == 0
  {
    var h := Header(1, 0, 1, 0, 0, 0, 0, 0);
    assert Range(4) > 1 && Range(8) > 1 by { LargeRange(); FourBytes(); }
    hide HeaderBytes, ReadHeader;
    b := HeaderBytes(h);
    HeaderRoundTrip(h, []);
    assert b + [] == b;
  }

  lemma FourBytes()
    ensures Range(4) > 1
  {
    assert Range(2) == 65536;
    assert Range(3) == 256 * Range(2);
  }
}
