/**
  The lists behind the two receiving threads: a fixed set of buffers that the network thread, the ring and the assembler
  thread pass around by exchanging pointers.  No buffer is ever lost or shared, and what the pointers stand for is
  exactly what the machine of the two threads says.
*/
module ListSwapping {
  import opened EncodeBound
  import opened UdpPackets
  import P = UdpPipeline
  import opened Wrapping

  /** Pointers, and what they point to; `used` packets of the assembler's list have been dealt with. */
  datatype Buffers = Buffers(slots: seq<nat>, pos: nat, size: nat, producer: nat, consumer: nat,
                             contents: map<nat, seq<Bytes>>, used: nat)

  /** All pointers there are. */
  function Pointers(w: Buffers): seq<nat> { w.slots + [w.producer, w.consumer] }

  /** No two of the threads and slots hold the same buffer. */
  ghost predicate Unshared(w: Buffers) {
    && |w.slots| > 0 && w.size <= |w.slots|
    && NoDuplicates(Pointers(w)) && (forall x :: x in Pointers(w) ==> x in w.contents)
    && w.used <= |w.contents[w.consumer]|
  }

  function Follow(contents: map<nat, seq<Bytes>>, q: seq<nat>): (r: seq<seq<Bytes>>)
    requires forall x :: x in q ==> x in contents
    ensures |r| == |q| && forall i :: 0 <= i < |q| ==> r[i] == contents[q[i]]
  {
    seq(|q|, i requires 0 <= i < |q| => contents[q[i]])
  }

  /** The lists of the machine are those that the pointers stand for. */
  ghost predicate Represents(w: Buffers, s: P.State)
    requires Unshared(w)
  {
    InPool(w);
    && s.net.list == w.contents[w.producer]
    && s.ring == Follow(w.contents, QueueFrom(w.slots, w.pos, w.size))
    && s.asm.list == w.contents[w.consumer][w.used..]
  }

  lemma InPool(w: Buffers)
    requires Unshared(w)
    ensures forall x :: x in QueueFrom(w.slots, w.pos, w.size) ==> x in w.contents && x in w.slots && x != w.producer && x != w.consumer
    ensures w.producer in w.contents && w.consumer in w.contents && w.producer != w.consumer
  {
    QueueMembers(w.slots, w.pos, w.size);
    var t, n := Pointers(w), |w.slots|;
    assert t[n] == w.producer && t[n + 1] == w.consumer;
    assert w.producer in t && w.consumer in t;
    forall x | x in w.slots ensures x in w.contents && x != w.producer && x != w.consumer {
      var k :| 0 <= k < n && w.slots[k] == x;
      assert t[k] == x && x in t;
    }
  }

  // ------------------------------------------------------------------------------------------------
  // What the threads do with the buffers

  /** The network thread appends a packet to its list. */
  function Append(w: Buffers, p: Bytes): Buffers
    requires w.producer in w.contents
  {
    w.(contents := w.contents[w.producer := w.contents[w.producer] + [p]])
  }

  /** It puts the list into the ring and gets an empty one, or empties its own because the ring is full. */
  function Put(w: Buffers): Buffers
    requires |w.slots| > 0
  {
    if w.size < |w.slots| then
      var i := Slot(w.pos, w.size, |w.slots|);
      w.(slots := w.slots[i := w.producer], size := w.size + 1, producer := w.slots[i], contents := w.contents[w.slots[i] := []])
    else w.(contents := w.contents[w.producer := []])
  }

  /** The assembler thread empties its list and exchanges it for the oldest one of the ring. */
  function Get(w: Buffers): Buffers
    requires |w.slots| > 0 && w.size > 0
  {
    var i := Wrap(w.pos, |w.slots|);
    w.(slots := w.slots[i := w.consumer], pos := w.pos + 1, size := w.size - 1, consumer := w.slots[i],
       contents := w.contents[w.consumer := []], used := 0)
  }

  /** It is done with one packet. */
  function Use(w: Buffers): Buffers { w.(used := w.used + 1) }

  // ------------------------------------------------------------------------------------------------
  // Nothing is lost or shared

  /** Exchanging two elements. */
  lemma Exchanged(t: seq<nat>, i: nat, j: nat)
    requires i < j < |t|
    ensures multiset(t[i := t[j]][j := t[i]]) == multiset(t)
    ensures NoDuplicates(t) ==> NoDuplicates(t[i := t[j]][j := t[i]])
    ensures forall x :: x in t[i := t[j]][j := t[i]] ==> x in t
  {
    var u := t[i := t[j]][j := t[i]];
    if NoDuplicates(t) {
      forall a, b | 0 <= a < b < |u| ensures u[a] != u[b] {
        var a' := if a == i then j else if a == j then i else a;
        var b' := if b == i then j else if b == j then i else b;
        assert u[a] == t[a'] && u[b] == t[b'] && a' != b';
        assert if a' < b' then t[a'] != t[b'] else t[b'] != t[a'];
      }
    }
  }

  lemma PutExchanges(w: Buffers)
    requires Unshared(w)
    ensures multiset(Pointers(Put(w))) == multiset(Pointers(w)) && Unshared(Put(w))
  {
    InPool(w);
    if w.size < |w.slots| {
      var i, n := Slot(w.pos, w.size, |w.slots|), |w.slots|;
      Exchanged(Pointers(w), i, n);
      assert Pointers(Put(w)) == Pointers(w)[i := Pointers(w)[n]][n := Pointers(w)[i]];
      assert w.slots[i] == Pointers(w)[i] && w.consumer == Pointers(w)[n + 1];
    }
  }

  lemma GetExchanges(w: Buffers)
    requires Unshared(w) && w.size > 0
    ensures multiset(Pointers(Get(w))) == multiset(Pointers(w)) && Unshared(Get(w))
  {
    InPool(w);
    var i, n := Wrap(w.pos, |w.slots|), |w.slots|;
    Exchanged(Pointers(w), i, n + 1);
    assert Pointers(Get(w)) == Pointers(w)[i := Pointers(w)[n + 1]][n + 1 := Pointers(w)[i]];
    assert w.slots[i] == Pointers(w)[i];
  }

  // ------------------------------------------------------------------------------------------------
  // The pointers do what the machine says

  lemma FollowIgnores(contents: map<nat, seq<Bytes>>, q: seq<nat>, x: nat, v: seq<Bytes>)
    requires (forall y :: y in q ==> y in contents) && x !in q
    ensures Follow(contents[x := v], q) == Follow(contents, q)
  {
  }

  lemma AppendRepresents(w: Buffers, s: P.State, p: Bytes)
    requires Unshared(w) && Represents(w, s)
    ensures w.producer in w.contents && Unshared(Append(w, p))
    ensures Represents(Append(w, p), s.(net := s.net.(list := s.net.list + [p])))
  {
    InPool(w);
    FollowIgnores(w.contents, QueueFrom(w.slots, w.pos, w.size), w.producer, w.contents[w.producer] + [p]);
  }

  /** The list goes to the end of the ring with its packets, and the next one is empty; or the packets are dropped. */
  lemma PutRepresents(cfg: P.Config, w: Buffers, s: P.State)
    requires Unshared(w) && Represents(w, s) && cfg.capacity == |w.slots| && s.net.list != []
    ensures Unshared(Put(w)) && Represents(Put(w), P.PutList(cfg, s))
  {
    InPool(w);
    PutExchanges(w);
    var q := QueueFrom(w.slots, w.pos, w.size);
    if w.size < |w.slots| {
      var i := Slot(w.pos, w.size, |w.slots|);
      FreeSlot(w, i);
      QueueKeeps(w.slots, w.pos, w.size, i, w.producer);
      assert QueueFrom(Put(w).slots, w.pos, w.size + 1) == q + [w.producer];
      FollowIgnores(w.contents, q + [w.producer], w.slots[i], []);
      assert Follow(w.contents, q + [w.producer]) == Follow(w.contents, q) + [w.contents[w.producer]];
    } else {
      FollowIgnores(w.contents, q, w.producer, []);
    }
  }

  /** The slot behind the queue is not in it, nor with one of the threads. */
  lemma FreeSlot(w: Buffers, i: nat)
    requires Unshared(w) && w.size < |w.slots| && i == Slot(w.pos, w.size, |w.slots|)
    ensures forall k :: 0 <= k < w.size ==> Slot(w.pos, k, |w.slots|) != i
    ensures w.slots[i] !in QueueFrom(w.slots, w.pos, w.size) && w.slots[i] != w.producer && w.slots[i] != w.consumer
  {
    var t, n := Pointers(w), |w.slots|;
    assert t[i] == w.slots[i] && t[n] == w.producer && t[n + 1] == w.consumer;
    forall k | 0 <= k < w.size ensures Slot(w.pos, k, n) != i {
      SlotDistinct(w.pos, k, w.size, n);
    }
    NotQueued(w, i, w.size);
  }

  lemma {:induction false} NotQueued(w: Buffers, i: nat, k: nat)
    requires Unshared(w) && i < |w.slots| && k <= w.size
    requires forall j :: 0 <= j < k ==> Slot(w.pos, j, |w.slots|) != i
    ensures w.slots[i] !in QueueFrom(w.slots, w.pos, k)
  {
    if k > 0 {
      NotQueued(w, i, k - 1);
      var j := Slot(w.pos, k - 1, |w.slots|);
      assert Pointers(w)[i] == w.slots[i] && Pointers(w)[j] == w.slots[j] && i != j;
    }
  }

  /** The queue after the exchange is what is left of it. */
  lemma QueueAfterGet(w: Buffers) returns (rest: seq<nat>)
    requires Unshared(w) && w.size > 0
    ensures QueueFrom(w.slots, w.pos, w.size) == [w.slots[Wrap(w.pos, |w.slots|)]] + rest
    ensures QueueFrom(Get(w).slots, w.pos + 1, w.size - 1) == rest
  {
    var i, n := Wrap(w.pos, |w.slots|), |w.slots|;
    rest := QueueFrom(w.slots, w.pos + 1, w.size - 1);
    QueueFront(w.slots, w.pos, w.size);
    var next := w.pos + 1;
    forall k | 0 <= k < w.size - 1 ensures Slot(next, k, n) != i {
      SlotDistinct(w.pos, 0, k + 1, n);
    }
    QueueKeeps(w.slots, next, w.size - 1, i, w.consumer);
  }

  /** The oldest list comes with its packets. */
  lemma GetRepresents(w: Buffers, s: P.State)
    requires Unshared(w) && Represents(w, s) && w.size > 0
    ensures s.ring != [] && Unshared(Get(w)) && Represents(Get(w), s.(asm := s.asm.(list := s.ring[0]), ring := s.ring[1..]))
  {
    InPool(w);
    GetExchanges(w);
    var rest := QueueAfterGet(w);
    var t := s.(asm := s.asm.(list := s.ring[0]), ring := s.ring[1..]);
    Represented(Get(w), t, rest);
    hide QueueFrom, NoDuplicates, Unshared, Represents;
    RepresentedBy(w, s);
    FollowOn(w.contents, w.slots[Wrap(w.pos, |w.slots|)], rest, w.consumer);
  }

  lemma RepresentedBy(w: Buffers, s: P.State)
    requires Unshared(w) && Represents(w, s)
    ensures w.producer in w.contents && w.consumer in w.contents && w.used <= |w.contents[w.consumer]| && |w.slots| > 0
    ensures s.net.list == w.contents[w.producer] && s.asm.list == w.contents[w.consumer][w.used..]
    ensures forall x :: x in QueueFrom(w.slots, w.pos, w.size) ==> x in w.contents
    ensures s.ring == Follow(w.contents, QueueFrom(w.slots, w.pos, w.size))
  {
    InPool(w);
  }

  lemma Represented(w: Buffers, s: P.State, q: seq<nat>)
    requires Unshared(w) && q == QueueFrom(w.slots, w.pos, w.size)
    ensures w.producer in w.contents && w.consumer in w.contents && w.used <= |w.contents[w.consumer]|
    ensures forall x :: x in q ==> x in w.contents
    ensures s.net.list == w.contents[w.producer] && s.asm.list == w.contents[w.consumer][w.used..] && s.ring == Follow(w.contents, q)
            ==> Represents(w, s)
  {
    InPool(w);
  }

  /** Taking the first list away, and emptying one that is not queued. */
  lemma FollowOn(contents: map<nat, seq<Bytes>>, first: nat, rest: seq<nat>, x: nat)
    requires (forall y :: y in [first] + rest ==> y in contents) && x !in [first] + rest
    ensures var r := Follow(contents, [first] + rest);
            && r != [] && r[0] == contents[first] && (forall y :: y in rest ==> y in contents[x := []])
            && r[1..] == Follow(contents[x := []], rest) && contents[x := []][first] == contents[first]
  {
    forall y | y in rest ensures y in [first] + rest {
    }
  }

  lemma UseRepresents(w: Buffers, s: P.State)
    requires Unshared(w) && Represents(w, s) && s.asm.list != []
    ensures Unshared(Use(w)) && Represents(Use(w), s.(asm := s.asm.(list := s.asm.list[1..])))
  {
    InPool(w);
    var l := w.contents[w.consumer];
    assert l[w.used..][1..] == l[w.used + 1..];
  }

  // ------------------------------------------------------------------------------------------------
  // Whole runs

  /** The network thread puts its list away if there is anything in it. */
  function PutAway(w: Buffers, s: P.State): Buffers
    requires |w.slots| > 0
  {
    if s.net.list == [] then w else Put(w)
  }

  /** What an action of the machine does to the buffers. */
  function Exchange(cfg: P.Config, w: Buffers, s: P.State, a: P.Action): Buffers
    requires P.Enabled(cfg, s, a) && |w.slots| > 0 && w.producer in w.contents && (a.TakeList? ==> w.size > 0)
  {
    match a
    case Receive(p) =>
      if |p| == P.END_OF_STREAM_SIZE then if cfg.acceptEndOfStream then PutAway(w, s) else w
      else if |p| == 0 || |p| > MAX_INPUT_PACKET_SIZE then PutAway(w, s)
      else if P.Full(cfg, s.net.list + [p]) then Put(Append(w, p))
      else Append(w, p)
    case Timeout => PutAway(w, s)
    case Cancel => PutAway(w, s)
    case TakeList => Get(w)
    case JudgePacket => if P.JudgeFirst(cfg, s.asm).list == s.asm.list then w else Use(w)
    case _ => w
  }

  /** Buffers v stand for state t, and are the same buffers as w. */
  ghost predicate Follows(w: Buffers, v: Buffers, t: P.State) {
    Unshared(v) && Represents(v, t) && multiset(Pointers(v)) == multiset(Pointers(w)) && |v.slots| == |w.slots|
  }

  lemma PutAwayRepresents(cfg: P.Config, w: Buffers, s: P.State)
    requires Unshared(w) && Represents(w, s) && cfg.capacity == |w.slots|
    ensures Follows(w, PutAway(w, s), P.PutList(cfg, s))
  {
    if s.net.list != [] {
      PutRepresents(cfg, w, s);
      PutExchanges(w);
    }
  }

  /** Only the three lists matter. */
  lemma SameLists(w: Buffers, s: P.State, t: P.State)
    requires Unshared(w) && Represents(w, s) && t.net.list == s.net.list && t.ring == s.ring && t.asm.list == s.asm.list
    ensures Represents(w, t)
  {
  }

  lemma PutsAway(cfg: P.Config, w: Buffers, s: P.State, t: P.State)
    requires Unshared(w) && Represents(w, s) && cfg.capacity == |w.slots|
    requires t == P.Flush(cfg, s) || t == P.NetworkExit(cfg, s)
    ensures Follows(w, PutAway(w, s), t)
  {
    UnsharedHasSlots(w);
    PutAwayRepresents(cfg, w, s);
    hide Represents, Unshared, PutAway;
    SameLists(PutAway(w, s), P.PutList(cfg, s), t);
  }

  /** The network thread may count before it puts its list away. */
  lemma CountedAndPutAway(cfg: P.Config, w: Buffers, s: P.State, e: P.State, t: P.State)
    requires Unshared(w) && Represents(w, s) && cfg.capacity == |w.slots|
    requires e.net.list == s.net.list && e.ring == s.ring && e.asm.list == s.asm.list
    requires t == P.Flush(cfg, e) || t == P.NetworkExit(cfg, e)
    ensures Follows(w, PutAway(w, s), t)
  {
    UnsharedHasSlots(w);
    hide Represents, Unshared, Put, P.Flush, P.NetworkExit;
    SameLists(w, s, e);
    PutsAway(cfg, w, e, t);
  }

  lemma AppendAndPutAway(cfg: P.Config, w: Buffers, s: P.State, p: Bytes, e: P.State)
    requires Unshared(w) && Represents(w, s) && cfg.capacity == |w.slots|
    requires e == s.(net := s.net.(counts := e.net.counts, list := s.net.list + [p]))
    ensures w.producer in w.contents && |w.slots| > 0
    ensures Follows(w, Append(w, p), e) && Follows(w, Put(Append(w, p)), P.Flush(cfg, e))
  {
    InPool(w);
    UnsharedHasSlots(w);
    AppendRepresents(w, s, p);
    hide Represents, Unshared, P.Flush, PutAway, Put;
    var d := s.(net := s.net.(list := s.net.list + [p]));
    SameLists(Append(w, p), d, e);
    CountedAndPutAway(cfg, Append(w, p), d, e, P.Flush(cfg, e));
    NothingToPutAway(Append(w, p), d);
  }

  /** The three ways a received packet can change the counts and the list. */
  function Ended(s: P.State): P.State {
    s.(net := s.net.(counts := s.net.counts.(received := s.net.counts.received + 1, endOfStream := s.net.counts.endOfStream + 1)))
  }

  function Rejecting(s: P.State): P.State {
    s.(net := s.net.(counts := s.net.counts.(received := s.net.counts.received + 1), rejected := s.net.rejected + 1))
  }

  function Appending(s: P.State, p: Bytes): P.State {
    s.(net := s.net.(counts := s.net.counts.(received := s.net.counts.received + 1), list := s.net.list + [p]))
  }

  lemma ReceiveCases(cfg: P.Config, w: Buffers, s: P.State, p: Bytes)
    requires P.Enabled(cfg, s, P.Receive(p)) && |w.slots| > 0 && w.producer in w.contents
    ensures var v, t := Exchange(cfg, w, s, P.Receive(p)), P.ReceivePacket(cfg, s, p);
            || (v == w && t == Ended(s))
            || (v == PutAway(w, s) && t == P.NetworkExit(cfg, Ended(s)))
            || (v == PutAway(w, s) && t == P.NetworkExit(cfg, Rejecting(s)))
            || (v == Append(w, p) && t == Appending(s, p))
            || (v == Put(Append(w, p)) && t == P.Flush(cfg, Appending(s, p)))
  {
    hide P.Flush, P.NetworkExit, PutAway, Put, P.Full;
  }

  lemma ReceiveRepresents(cfg: P.Config, w: Buffers, s: P.State, p: Bytes)
    requires Unshared(w) && Represents(w, s) && cfg.capacity == |w.slots| && P.Enabled(cfg, s, P.Receive(p))
    ensures w.producer in w.contents && |w.slots| > 0
    ensures Follows(w, Exchange(cfg, w, s, P.Receive(p)), P.ReceivePacket(cfg, s, p))
  {
    AppendAndPutAway(cfg, w, s, p, Appending(s, p));
    ReceiveCases(cfg, w, s, p);
    SameLists(w, s, Ended(s));
    hide Represents, Put, P.Flush, P.NetworkExit, PutAway, Exchange, P.ReceivePacket, P.Enabled;
    CountedAndPutAway(cfg, w, s, Ended(s), P.NetworkExit(cfg, Ended(s)));
    CountedAndPutAway(cfg, w, s, Rejecting(s), P.NetworkExit(cfg, Rejecting(s)));
    hide Ended, Rejecting, Appending, Unshared;
  }

  lemma NothingToPutAway(w: Buffers, s: P.State)
    requires |w.slots| > 0 && s.net.list != []
    ensures PutAway(w, s) == Put(w)
  {
  }

  lemma ExchangeRepresents(cfg: P.Config, w: Buffers, s: P.State, a: P.Action, truths: P.Truths)
    requires Unshared(w) && Represents(w, s) && cfg.capacity == |w.slots| && P.Enabled(cfg, s, a)
    requires |truths| == |cfg.shape.beamIds|
    ensures w.producer in w.contents && |w.slots| > 0 && (a.TakeList? ==> w.size > 0)
    ensures Follows(w, Exchange(cfg, w, s, a), P.Step(cfg, s, a, truths))
  {
    InPool(w);
    match a
    case Receive(p) => hide *; ReceiveRepresents(cfg, w, s, p); StepReceives(cfg, s, p, truths);
    case Timeout => hide Represents, Unshared; PutsAway(cfg, w, s, P.Flush(cfg, s));
    case Cancel => hide Represents, Unshared; PutsAway(cfg, w, s, P.NetworkExit(cfg, s));
    case TakeList => GetRepresents(w, s); GetExchanges(w);
    case JudgePacket => JudgeRepresents(cfg, w, s, truths);
    case _ => OtherLists(cfg, s, a, truths); hide Represents, P.Step; SameLists(w, s, P.Step(cfg, s, a, truths));
  }

  lemma StepReceives(cfg: P.Config, s: P.State, p: Bytes, truths: P.Truths)
    requires P.Enabled(cfg, s, P.Receive(p)) && |truths| == |cfg.shape.beamIds|
    ensures P.Step(cfg, s, P.Receive(p), truths) == P.ReceivePacket(cfg, s, p)
  {
  }

  lemma JudgeRepresents(cfg: P.Config, w: Buffers, s: P.State, truths: P.Truths)
    requires Unshared(w) && Represents(w, s) && P.Enabled(cfg, s, P.JudgePacket) && |truths| == |cfg.shape.beamIds|
    requires |w.slots| > 0 && w.producer in w.contents
    ensures var v := Exchange(cfg, w, s, P.JudgePacket);
            Follows(w, v, P.Step(cfg, s, P.JudgePacket, truths))
  {
    var t := P.Step(cfg, s, P.JudgePacket, truths);
    JudgeLists(cfg, s, truths);
    UseRepresents(w, s);
    hide Represents, Unshared, P.Step, P.JudgeFirst;
    if t.asm.list == s.asm.list {
      SameLists(w, s, t);
    } else {
      SameLists(Use(w), s.(asm := s.asm.(list := s.asm.list[1..])), t);
    }
  }

  lemma JudgeLists(cfg: P.Config, s: P.State, truths: P.Truths)
    requires P.Enabled(cfg, s, P.JudgePacket) && |truths| == |cfg.shape.beamIds|
    ensures var t := P.Step(cfg, s, P.JudgePacket, truths);
            && t.net.list == s.net.list && t.ring == s.ring && t.asm.list == P.JudgeFirst(cfg, s.asm).list
            && (t.asm.list == s.asm.list || t.asm.list == s.asm.list[1..])
  {
  }

  /** All other actions leave the lists alone. */
  lemma OtherLists(cfg: P.Config, s: P.State, a: P.Action, truths: P.Truths)
    requires P.Enabled(cfg, s, a) && |truths| == |cfg.shape.beamIds|
    requires !a.Receive? && !a.Timeout? && !a.Cancel? && !a.TakeList? && !a.JudgePacket?
    ensures var t := P.Step(cfg, s, a, truths); t.net.list == s.net.list && t.ring == s.ring && t.asm.list == s.asm.list
  {
  }

  function Numbers(n: nat): (s: seq<nat>)
    ensures |s| == n && forall i :: 0 <= i < n ==> s[i] == i
  {
    seq(n, i requires 0 <= i < n => i)
  }

  function Empty(pointers: seq<nat>): (m: map<nat, seq<Bytes>>)
    ensures forall x :: x in pointers ==> x in m && m[x] == []
  {
    if pointers == [] then map[] else Empty(pointers[1..])[pointers[0] := []]
  }

  /** As many buffers as slots, and one for each thread. */
  function NewBuffers(capacity: nat): Buffers {
    Buffers(Numbers(capacity), 0, 0, capacity, capacity + 1, Empty(Numbers(capacity + 2)), 0)
  }

  lemma NewRepresents(cfg: P.Config)
    requires P.ValidConfig(cfg)
    ensures var w := NewBuffers(cfg.capacity); Unshared(w) && Represents(w, P.Initial(cfg)) && |w.slots| == cfg.capacity
  {
    var w := NewBuffers(cfg.capacity);
    var t := Pointers(w);
    forall k | 0 <= k < |t| ensures t[k] == Numbers(cfg.capacity + 2)[k] {
    }
    assert t == Numbers(cfg.capacity + 2);
  }

  /** The buffers after a run; what no thread can do is skipped. */
  function Swapped(cfg: P.Config, truths: P.Truths, actions: seq<P.Action>): Buffers
    requires |truths| == |cfg.shape.beamIds|
  {
    if actions == [] then NewBuffers(cfg.capacity)
    else
      var w, s := Swapped(cfg, truths, actions[..|actions| - 1]), P.Run(cfg, truths, actions[..|actions| - 1]);
      var a := actions[|actions| - 1];
      if P.Enabled(cfg, s, a) && |w.slots| > 0 && w.producer in w.contents && (a.TakeList? ==> w.size > 0) then Exchange(cfg, w, s, a) else w
  }

  /**
    In every run: the pointers stand for exactly the lists of the machine, no buffer is with two holders, and the
    buffers are the ones there were at the beginning.
  */
  lemma {:induction false} BuffersFollow(cfg: P.Config, truths: P.Truths, actions: seq<P.Action>)
    requires P.ValidConfig(cfg) && |truths| == |cfg.shape.beamIds|
    ensures var w := Swapped(cfg, truths, actions);
            && Unshared(w) && Represents(w, P.Run(cfg, truths, actions)) && |w.slots| == cfg.capacity
            && multiset(Pointers(w)) == multiset(Pointers(NewBuffers(cfg.capacity)))
  {
    hide Unshared, Represents, Exchange, P.Step, P.Enabled, P.Initial, NewBuffers, Pointers;
    if actions == [] {
      NewRepresents(cfg);
    } else {
      BuffersFollow(cfg, truths, actions[..|actions| - 1]);
      var w, s := Swapped(cfg, truths, actions[..|actions| - 1]), P.Run(cfg, truths, actions[..|actions| - 1]);
      if P.Enabled(cfg, s, actions[|actions| - 1]) { ExchangeRepresents(cfg, w, s, actions[|actions| - 1], truths); }
    }
  }

  lemma UnsharedHasSlots(w: Buffers)
    requires Unshared(w)
    ensures |w.slots| > 0
  {
  }
}
