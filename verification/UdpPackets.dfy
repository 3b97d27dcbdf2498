/**
  Lists of received packets, concatenated in a buffer, and the ring that hands lists from the network thread to the
  assembler thread by swapping them.
*/
module UdpPackets {
  import opened EncodeBound
  import opened Wrapping

  const MAX_INPUT_PACKET_SIZE := 9000

  type Bytes = seq<uint8>

  class UdpPacketList {
    const maxNpackets: nat
    const maxNbytes: nat
    const buf: array<uint8>
    const packetOffsets: array<nat>
    var currNpackets: nat
    var currNbytes: nat
    var isFull: bool

    constructor (npackets: nat, nbytes: nat)
      requires npackets > 0 && nbytes > 0
      ensures Valid() && Packets() == [] && fresh(buf) && fresh(packetOffsets) && maxNpackets == npackets && maxNbytes == nbytes
    {
      maxNpackets, maxNbytes := npackets, nbytes;
      buf := new uint8[nbytes + MAX_INPUT_PACKET_SIZE];
      packetOffsets := new nat[npackets + 1];
      currNpackets, currNbytes, isFull := 0, 0, false;
      new;
      packetOffsets[0] := 0;
    }

    /** The offsets cut the used part of the buffer into packets of acceptable size. */
    ghost predicate Valid()
      reads this, buf, packetOffsets
    {
      && maxNpackets > 0 && maxNbytes > 0
      && buf.Length == maxNbytes + MAX_INPUT_PACKET_SIZE && packetOffsets.Length == maxNpackets + 1
      && currNpackets <= maxNpackets && currNbytes < maxNbytes + MAX_INPUT_PACKET_SIZE
      && packetOffsets[0] == 0 && packetOffsets[currNpackets] == currNbytes
      && (forall i :: 0 <= i < currNpackets ==> PacketFits(i))
      && (isFull <==> currNpackets >= maxNpackets || currNbytes >= maxNbytes)
    }

    ghost predicate PacketFits(i: nat)
      requires i < packetOffsets.Length
      reads this, packetOffsets
    {
      i + 1 < packetOffsets.Length && packetOffsets[i] < packetOffsets[i + 1] <= currNbytes
      && packetOffsets[i + 1] - packetOffsets[i] <= MAX_INPUT_PACKET_SIZE
    }

    function Packet(i: nat): Bytes
      requires i + 1 < packetOffsets.Length && packetOffsets[i] <= packetOffsets[i + 1] <= buf.Length
      reads this, buf, packetOffsets
    {
      buf[packetOffsets[i]..packetOffsets[i + 1]]
    }

    /** The packets, in the order they came. */
    ghost function Packets(): (s: seq<Bytes>)
      requires Valid()
      reads this, buf, packetOffsets
      ensures |s| == currNpackets
    {
      seq(currNpackets, i requires 0 <= i < currNpackets && Valid() reads this, buf, packetOffsets =>
        assert PacketFits(i); Packet(i))
    }

    /** Behind the packets of a list that is not full there is room for one byte more than the largest packet. */
    lemma RoomBehind()
      requires Valid() && !isFull
      ensures currNbytes + MAX_INPUT_PACKET_SIZE + 1 <= buf.Length
    {
    }

    /** A receive call writes behind the packets; the bytes are not a packet yet. */
    method Receive(data: Bytes)
      requires Valid() && !isFull && currNbytes + |data| <= buf.Length
      modifies buf
      ensures Valid() && Packets() == old(Packets())
      ensures buf[currNbytes..currNbytes + |data|] == data
    {
      ghost var before := Packets();
      forall k | currNbytes <= k < currNbytes + |data| { buf[k] := data[k - currNbytes]; }
      forall i | 0 <= i < currNpackets ensures Packets()[i] == before[i] {
        assert PacketFits(i);
        assert before[i] == old(Packet(i));
      }
      assert buf[currNbytes..currNbytes + |data|] == data;
    }

    /** Makes the bytes behind the end a packet; refuses an empty or an oversized one, and a full list. */
    method AddPacket(nbytes: nat) returns (ok: bool)
      requires Valid()
      modifies this, packetOffsets
      ensures Valid() && (ok <==> 0 < nbytes <= MAX_INPUT_PACKET_SIZE && !old(isFull))
      ensures ok ==> old(currNbytes) + nbytes <= buf.Length
                     && Packets() == old(Packets()) + [buf[old(currNbytes)..old(currNbytes) + nbytes]]
      ensures !ok ==> Packets() == old(Packets()) && isFull == old(isFull)
    {
      if nbytes == 0 || nbytes > MAX_INPUT_PACKET_SIZE { return false; }
      if isFull { return false; }
      ghost var before := Packets();
      currNpackets := currNpackets + 1;
      currNbytes := currNbytes + nbytes;
      isFull := currNpackets >= maxNpackets || currNbytes >= maxNbytes;
      packetOffsets[currNpackets] := currNbytes;
      forall i | 0 <= i < currNpackets ensures PacketFits(i) {
        if i < currNpackets - 1 { assert old(PacketFits(i)); }
      }
      forall i | 0 <= i < currNpackets - 1 ensures Packets()[i] == before[i] {
        assert old(PacketFits(i));
        assert before[i] == old(Packet(i));
      }
      ok := true;
    }

    method Reset()
      requires Valid()
      modifies this, packetOffsets
      ensures Valid() && Packets() == [] && !isFull
    {
      currNpackets, currNbytes, isFull := 0, 0, false;
      packetOffsets[0] := 0;
    }
  }

  // ------------------------------------------------------------------------------------------------
  // The ring

  datatype PutResult = Put | Dropped | StreamOver

  /** n items from position `pos` on, wrapping around. */
  function QueueFrom<L>(s: seq<L>, pos: nat, n: nat): (q: seq<L>)
    requires |s| > 0
    ensures |q| == n
    decreases n
  {
    if n == 0 then [] else QueueFrom(s, pos, n - 1) + [s[Slot(pos, n - 1, |s|)]]
  }

  lemma {:induction false} QueueKeeps<L>(s: seq<L>, pos: nat, n: nat, i: nat, p: L)
    requires i < |s| && forall k :: 0 <= k < n ==> Slot(pos, k, |s|) != i
    ensures QueueFrom(s[i := p], pos, n) == QueueFrom(s, pos, n)
  {
    hide Slot;
    if n > 0 { QueueKeeps(s, pos, n - 1, i, p); }
  }

  /** The oldest item comes off the front. */
  lemma {:induction false} QueueFront<L>(s: seq<L>, pos: nat, n: nat)
    requires |s| > 0 && 0 < n
    ensures QueueFrom(s, pos, n) == [s[Wrap(pos, |s|)]] + QueueFrom(s, pos + 1, n - 1)
  {
    hide Wrap;
    if n == 1 {
      assert QueueFrom(s, pos, 0) == [];
    } else {
      QueueFront(s, pos, n - 1);
      assert Slot(pos + 1, n - 2, |s|) == Slot(pos, n - 1, |s|);
    }
  }

  lemma {:induction false} QueueMembers<L>(s: seq<L>, pos: nat, n: nat)
    requires |s| > 0
    ensures forall x :: x in QueueFrom(s, pos, n) ==> x in s
  {
    if n > 0 { QueueMembers(s, pos, n - 1); }
  }

  ghost predicate NoDuplicates<L>(s: seq<L>) {
    forall j, k :: 0 <= j < k < |s| ==> s[j] != s[k]
  }

  /**
    A fixed pool of lists, referred to by pointers of type L: the queue starts at `pos` and wraps around, and the
    other slots hold spare lists.
  */
  class UdpPacketRingbuf<L(==)> {
    const capacity: nat
    const ringbuf: array<L>
    var ringbufPos: nat
    var ringbufSize: nat
    var streamEnded: bool

    constructor (pool: seq<L>)
      requires |pool| > 0
      ensures Valid() && fresh(ringbuf) && ringbuf[..] == pool && Queue() == [] && !streamEnded && capacity == |pool|
    {
      capacity := |pool|;
      ringbufPos, ringbufSize, streamEnded := 0, 0, false;
      ringbuf := new L[|pool|](i requires 0 <= i < |pool| => pool[i]);
      new;
      assert ringbuf[..] == pool;
    }

    ghost predicate Valid()
      reads this
    {
      capacity > 0 && ringbuf.Length == capacity && ringbufSize <= capacity
    }

    /** The queued lists, oldest first. */
    ghost function Queue(): (q: seq<L>)
      requires Valid()
      reads this, ringbuf
      ensures |q| == ringbufSize
    {
      QueueFrom(ringbuf[..], ringbufPos, ringbufSize)
    }

    /** Where the next list goes, and where the oldest is. */
    ghost function PutSlot(): (i: nat)
      requires Valid()
      reads this
      ensures i < capacity
    {
      Slot(ringbufPos, ringbufSize, capacity)
    }

    ghost function GetSlot(): (i: nat)
      requires Valid()
      reads this
      ensures i < capacity
    {
      Wrap(ringbufPos, capacity)
    }

    /** All lists of the pool, with the one the caller holds. */
    ghost function Pool(p: L): multiset<L>
      reads this, ringbuf
    {
      multiset(ringbuf[..] + [p])
    }

    /**
      Puts a list at the end and hands back a spare one; when the ring is full, hands back the list itself.  (A caller
      that may block waits until there is room, so it only sees the first case.)
    */
    method PutPacketList(p: L) returns (r: PutResult, q: L)
      requires Valid()
      modifies this, ringbuf
      ensures Valid() && streamEnded == old(streamEnded)
      ensures r == if old(streamEnded) then StreamOver else if old(ringbufSize) < capacity then Put else Dropped
      ensures Queue() == if r == Put then old(Queue()) + [p] else old(Queue())
      ensures Pool(q) == old(Pool(p)) && (r != Put ==> q == p)
      ensures r == Put ==> old(PutSlot()) < capacity && q == old(ringbuf[..])[old(PutSlot())]
                           && ringbuf[..] == old(ringbuf[..])[old(PutSlot()) := p]
                           && ringbufPos == old(ringbufPos) && ringbufSize == old(ringbufSize) + 1
      ensures old(NoDuplicates(ringbuf[..] + [p])) ==> NoDuplicates(ringbuf[..] + [q]) && q !in Queue()
    {
      if streamEnded {
        QueueMembers(ringbuf[..], ringbufPos, ringbufSize);
        Distinct(ringbuf[..], p);
        return StreamOver, p;
      }
      if ringbufSize < capacity {
        ghost var s := ringbuf[..];
        var i := (ringbufPos + ringbufSize) % capacity;
        WrapIsRemainder(ringbufPos + ringbufSize, capacity);
        forall k | 0 <= k < ringbufSize ensures Slot(ringbufPos, k, capacity) != i {
          SlotDistinct(ringbufPos, k, ringbufSize, capacity);
        }
        QueueKeeps(s, ringbufPos, ringbufSize, i, p);
        q := ringbuf[i];
        ringbuf[i] := p;
        ringbufSize := ringbufSize + 1;
        assert ringbuf[..] == s[i := p];
        Swapped(s, i, p);
        QueueMembers(ringbuf[..], ringbufPos, ringbufSize);
        Distinct(ringbuf[..], q);
        r := Put;
      } else {
        QueueMembers(ringbuf[..], ringbufPos, ringbufSize);
        Distinct(ringbuf[..], p);
        return Dropped, p;
      }
    }

    /**
      Takes the oldest list and leaves the caller's in its slot.  Reports the end of the stream only when the queue is
      empty; with an empty queue and a stream that goes on, the caller waits.
    */
    method GetPacketList(p: L) returns (got: bool, q: L)
      requires Valid() && (ringbufSize > 0 || streamEnded)
      modifies this, ringbuf
      ensures Valid() && streamEnded == old(streamEnded)
      ensures got <==> old(Queue()) != []
      ensures got ==> old(Queue()) == [q] + Queue()
      ensures !got ==> q == p && Queue() == [] && streamEnded
      ensures got ==> q == old(ringbuf[..])[old(GetSlot())] && ringbuf[..] == old(ringbuf[..])[old(GetSlot()) := p]
                      && ringbufPos == old(ringbufPos) + 1 && ringbufSize == old(ringbufSize) - 1
      ensures Pool(q) == old(Pool(p))
      ensures old(NoDuplicates(ringbuf[..] + [p])) ==> NoDuplicates(ringbuf[..] + [q]) && q !in Queue()
    {
      if ringbufSize > 0 {
        hide QueueFrom, Wrap, NoDuplicates;
        ghost var s := ringbuf[..];
        QueueFront(s, ringbufPos, ringbufSize);
        var i := ringbufPos % capacity;
        WrapIsRemainder(ringbufPos, capacity);
        q := ringbuf[i];
        ringbuf[i] := p;
        ringbufPos := ringbufPos + 1;
        ringbufSize := ringbufSize - 1;
        forall k | 0 <= k < ringbufSize ensures Slot(ringbufPos, k, capacity) != i {
          SlotDistinct(ringbufPos - 1, 0, k + 1, capacity);
        }
        QueueKeeps(s, ringbufPos, ringbufSize, i, p);
        assert ringbuf[..] == s[i := p];
        Swapped(s, i, p);
        QueueMembers(ringbuf[..], ringbufPos, ringbufSize);
        Distinct(ringbuf[..], q);
        got := true;
      } else {
        got, q := false, p;
      }
    }

    method EndStream()
      requires Valid()
      modifies this
      ensures Valid() && streamEnded && Queue() == old(Queue())
    {
      streamEnded := true;
    }
  }

  lemma Swapped<L>(s: seq<L>, i: nat, p: L)
    requires i < |s|
    ensures multiset(s[i := p] + [s[i]]) == multiset(s + [p])
    ensures NoDuplicates(s + [p]) ==> NoDuplicates(s[i := p] + [s[i]])
  {
    var t, u := s + [p], s[i := p] + [s[i]];
    assert u == t[i := t[|s|]][|s| := t[i]];
    if NoDuplicates(t) {
      forall j, k | 0 <= j < k < |u| ensures u[j] != u[k] {
        var j' := if j == i then |s| else j;
        var k' := if k == i then |s| else if k == |s| then i else k;
        assert u[j] == t[j'] && u[k] == t[k'] && j' != k';
        assert if j' < k' then t[j'] != t[k'] else t[k'] != t[j'];
      }
    }
  }

  lemma Distinct<L>(s: seq<L>, q: L)
    ensures NoDuplicates(s + [q]) ==> q !in s
  {
    if q in s {
      var k :| 0 <= k < |s| && s[k] == q;
      assert (s + [q])[k] == (s + [q])[|s|];
    }
  }
}
