/**
  The queue of write requests of one output device: a priority queue, requests that wait for their chunk's RFI mask,
  and the I/O thread that pops requests and sleeps when there is nothing to pop.
*/
module OutputDevices {
  import opened Options

  /** A request to write a chunk; `nrfifreq` is positive if the chunk will ever have a mask. */
  datatype Request = Request(id: nat, chunk: nat, fpgaBegin: nat, priority: int, needMask: bool, nrfifreq: int)

  /** The comparison of the priority queue: lower priority, or equal priority and later. */
  predicate Less(x: Request, y: Request) {
    x.priority < y.priority || (x.priority == y.priority && x.fpgaBegin > y.fpgaBegin)
  }

  predicate Maximal(q: multiset<Request>, r: Request) {
    r in q && forall x :: x in q ==> !Less(r, x)
  }

  lemma MaximalIsMember(q: multiset<Request>, r: Request)
    requires Maximal(q, r)
    ensures r in q
  {
  }

  /** A maximal request has the highest priority, and among those that have it the earliest data. */
  lemma MaximalIsFirst(q: multiset<Request>, r: Request)
    requires Maximal(q, r)
    ensures forall x :: x in q ==> x.priority <= r.priority && (x.priority == r.priority ==> r.fpgaBegin <= x.fpgaBegin)
  {
  }

  /** A queue that is not empty has a top. */
  lemma {:induction false} TopExists(q: multiset<Request>)
    requires q != multiset{}
    ensures exists r :: Maximal(q, r)
    decreases |q|
  {
    var x :| x in q;
    var rest := q - multiset{x};
    if rest == multiset{} {
      assert q == multiset{x};
      assert Maximal(q, x);
    } else {
      TopExists(rest);
      var r :| Maximal(rest, r);
      forall y | y in q ensures y == x || y in rest {
      }
      if Less(r, x) { assert Maximal(q, x); } else { assert Maximal(q, r); }
    }
  }

  // ------------------------------------------------------------------------------------------------
  // Requests that wait for a mask

  /** Does the request still wait? */
  predicate Waits(r: Request, masks: set<nat>) { r.chunk !in masks }

  function StillWaiting(a: seq<Request>, masks: set<nat>): (w: seq<Request>)
    ensures |w| <= |a|
  {
    if a == [] then [] else StillWaiting(a[..|a| - 1], masks) + if Waits(a[|a| - 1], masks) then [a[|a| - 1]] else []
  }

  function NowReady(a: seq<Request>, masks: set<nat>): (w: seq<Request>)
    ensures |w| <= |a|
  {
    if a == [] then [] else NowReady(a[..|a| - 1], masks) + if Waits(a[|a| - 1], masks) then [] else [a[|a| - 1]]
  }

  lemma {:induction false} NothingLost(a: seq<Request>, masks: set<nat>)
    ensures multiset(StillWaiting(a, masks)) + multiset(NowReady(a, masks)) == multiset(a)
  {
    if a != [] {
      NothingLost(a[..|a| - 1], masks);
      assert a == a[..|a| - 1] + [a[|a| - 1]];
    }
  }

  lemma {:induction false} WaitingMembers(a: seq<Request>, masks: set<nat>, r: Request)
    ensures r in StillWaiting(a, masks) <==> r in a && Waits(r, masks)
  {
    if a != [] {
      WaitingMembers(a[..|a| - 1], masks, r);
      assert a == a[..|a| - 1] + [a[|a| - 1]];
    }
  }

  lemma WaitingStep(a: seq<Request>, masks: set<nat>, n: nat)
    requires n < |a|
    ensures StillWaiting(a[..n + 1], masks) == StillWaiting(a[..n], masks) + if Waits(a[n], masks) then [a[n]] else []
    ensures NowReady(a[..n + 1], masks) == NowReady(a[..n], masks) + if Waits(a[n], masks) then [] else [a[n]]
  {
    assert a[..n + 1][..n] == a[..n];
  }

  lemma NoneSeen(a: seq<Request>, masks: set<nat>)
    ensures StillWaiting(a[..0], masks) == [] && NowReady(a[..0], masks) == [] && a[0..] == a
  {
  }

  lemma OnlyWaitersStay(a: seq<Request>, masks: set<nat>)
    ensures forall r :: r in StillWaiting(a, masks) ==> r in a
  {
    hide StillWaiting;
    forall r | r in StillWaiting(a, masks) ensures r in a {
      WaitingMembers(a, masks, r);
    }
  }

  // ------------------------------------------------------------------------------------------------
  // The device

  /** Every accepted request is queued, waits for its mask, has been popped, or has been cancelled. */
  predicate Conserved(accepted: multiset<Request>, q: multiset<Request>, a: seq<Request>, p: multiset<Request>, c: multiset<Request>) {
    accepted == q + multiset(a) + p + c
  }

  lemma OneMore(accepted: multiset<Request>, q: multiset<Request>, a: seq<Request>, p: multiset<Request>, c: multiset<Request>, r: Request)
    requires Conserved(accepted, q, a, p, c)
    ensures Conserved(accepted + multiset{r}, q, a + [r], p, c) && Conserved(accepted + multiset{r}, q + multiset{r}, a, p, c)
  {
    assert multiset(a + [r]) == multiset(a) + multiset{r};
  }

  lemma TopMoves(accepted: multiset<Request>, q: multiset<Request>, a: seq<Request>, p: multiset<Request>, c: multiset<Request>, r: Request)
    requires Conserved(accepted, q, a, p, c) && r in q
    ensures Conserved(accepted, q - multiset{r}, a, p + multiset{r}, c)
  {
  }

  lemma MasksCame(accepted: multiset<Request>, q: multiset<Request>, a: seq<Request>, p: multiset<Request>, c: multiset<Request>,
                  masks: set<nat>)
    requires Conserved(accepted, q, a, p, c)
    ensures Conserved(accepted, q + multiset(NowReady(a, masks)), StillWaiting(a, masks), p, c)
  {
    NothingLost(a, masks);
  }

  lemma AllCancelled(accepted: multiset<Request>, q: multiset<Request>, a: seq<Request>, p: multiset<Request>, c: multiset<Request>)
    requires Conserved(accepted, q, a, p, c)
    ensures Conserved(accepted, multiset{}, [], p, c + q + multiset(a))
  {
  }

  lemma NothingPending(accepted: multiset<Request>, p: multiset<Request>, c: multiset<Request>)
    requires Conserved(accepted, multiset{}, [], p, c)
    ensures accepted == p + c
  {
  }

  predicate AllNeedMasks(a: seq<Request>) { forall r :: r in a ==> r.needMask }

  lemma OneMoreWaits(a: seq<Request>, r: Request)
    requires AllNeedMasks(a)
    ensures AllNeedMasks([]) && (r.needMask ==> AllNeedMasks(a + [r]))
  {
  }

  datatype Enqueued = Queued | AwaitingMask | StreamEnding | NoMaskEver

  /** A request that wants a mask that will never come is an error; after the end of the stream requests are refused. */
  function Answer(req: Request, masks: set<nat>, ended: bool): Enqueued {
    if req.needMask && req.nrfifreq <= 0 then NoMaskEver
    else if ended then StreamEnding
    else if req.needMask && Waits(req, masks) then AwaitingMask
    else Queued
  }

  lemma AnswerIs(req: Request, masks: set<nat>, ended: bool)
    ensures req.needMask && req.nrfifreq <= 0 ==> Answer(req, masks, ended) == NoMaskEver
    ensures !(req.needMask && req.nrfifreq <= 0) && ended ==> Answer(req, masks, ended) == StreamEnding
    ensures !(req.needMask && req.nrfifreq <= 0) && !ended && req.needMask && req.chunk !in masks ==> Answer(req, masks, ended) == AwaitingMask
    ensures !(req.needMask && req.nrfifreq <= 0) && !ended && !(req.needMask && req.chunk !in masks) ==> Answer(req, masks, ended) == Queued
  {
  }

  datatype Popped = Popped(request: Request) | EndOfStream | MustWait

  class OutputDevice {
    var writeReqs: multiset<Request>
    var awaitingRfi: seq<Request>
    var endStreamCalled: bool
    ghost var accepted: multiset<Request>
    ghost var popped: multiset<Request>
    ghost var cancelled: multiset<Request>

    constructor ()
      ensures Valid() && !endStreamCalled && accepted == multiset{} && writeReqs == multiset{} && awaitingRfi == []
    {
      writeReqs, awaitingRfi, endStreamCalled := multiset{}, [], false;
      accepted, popped, cancelled := multiset{}, multiset{}, multiset{};
    }

    ghost predicate Valid()
      reads this
    {
      && Conserved(accepted, writeReqs, awaitingRfi, popped, cancelled)
      && AllNeedMasks(awaitingRfi)
    }

    /** The device as the machine below sees it, with its I/O thread. */
    ghost function AsQueue(masks: set<nat>, io: Thread): Queue
      reads this
    {
      Queue(writeReqs, awaitingRfi, endStreamCalled, false, masks, {}, io, Exited)
    }

    method EnqueueWriteRequest(req: Request, masks: set<nat>) returns (r: Enqueued)
      requires Valid()
      modifies this
      ensures Valid() && endStreamCalled == old(endStreamCalled) && popped == old(popped) && cancelled == old(cancelled)
      ensures r == Answer(req, masks, old(endStreamCalled))
      ensures writeReqs == if r == Queued then old(writeReqs) + multiset{req} else old(writeReqs)
      ensures awaitingRfi == if r == AwaitingMask then old(awaitingRfi) + [req] else old(awaitingRfi)
      ensures accepted == if r == Queued || r == AwaitingMask then old(accepted) + multiset{req} else old(accepted)
      ensures AsQueue(masks, Running) == Happen(old(AsQueue(masks, Running)), Enqueue(req))
    {
      EnqueueCases(AsQueue(masks, Running), req);
      OneMore(accepted, writeReqs, awaitingRfi, popped, cancelled, req);
      OneMoreWaits(awaitingRfi, req);
      AnswerIs(req, masks, endStreamCalled);
      hide Conserved, Happen, AllNeedMasks, Answer, Waits;
      if req.needMask && req.nrfifreq <= 0 {
        r := NoMaskEver;
      } else if endStreamCalled {
        r := StreamEnding;
      } else if req.needMask && req.chunk !in masks {
        awaitingRfi, accepted := awaitingRfi + [req], accepted + multiset{req};
        r := AwaitingMask;
      } else {
        writeReqs, accepted := writeReqs + multiset{req}, accepted + multiset{req};
        r := Queued;
      }
    }

    /** Moves the requests whose mask has come into the queue, erasing them one at a time. */
    method CollectMasks(masks: set<nat>)
      requires Valid()
      modifies this`writeReqs, this`awaitingRfi
      ensures Valid()
      ensures awaitingRfi == StillWaiting(old(awaitingRfi), masks)
      ensures writeReqs == old(writeReqs) + multiset(NowReady(old(awaitingRfi), masks))
    {
      hide StillWaiting, NowReady, Conserved;
      ghost var a, q := awaitingRfi, writeReqs;
      ghost var n := 0;
      var i := 0;
      NoneSeen(a, masks);
      while i < |awaitingRfi|
        invariant n <= |a| && i <= |awaitingRfi|
        invariant awaitingRfi[..i] == StillWaiting(a[..n], masks) && awaitingRfi[i..] == a[n..]
        invariant writeReqs == q + multiset(NowReady(a[..n], masks))
        decreases |awaitingRfi| - i
      {
        var req := awaitingRfi[i];
        assert req == awaitingRfi[i..][0] == a[n];
        WaitingStep(a, masks, n);
        ghost var before := awaitingRfi;
        if req.chunk in masks {
          writeReqs := writeReqs + multiset{req};
          awaitingRfi := awaitingRfi[..i] + awaitingRfi[i + 1..];
          assert awaitingRfi[..i] == before[..i] && awaitingRfi[i..] == before[i..][1..];
        } else {
          i := i + 1;
          assert awaitingRfi[..i] == before[..i - 1] + [req] && awaitingRfi[i..] == before[i - 1..][1..];
        }
        assert a[n..][1..] == a[n + 1..];
        n := n + 1;
      }
      assert n == |a| && a[..n] == a && awaitingRfi[..i] == awaitingRfi;
      MasksCame(accepted, q, a, popped, cancelled, masks);
      OnlyWaitersStay(a, masks);
    }

    /** One pass of the loop in `pop_write_request`, from one wait to the next. */
    method TryPop(masks: set<nat>) returns (r: Popped)
      requires Valid()
      modifies this
      ensures Valid() && endStreamCalled == old(endStreamCalled) && accepted == old(accepted) && cancelled == old(cancelled)
      ensures awaitingRfi == StillWaiting(old(awaitingRfi), masks)
      ensures var ready := old(writeReqs) + multiset(NowReady(old(awaitingRfi), masks));
              match r
              case Popped(req) => Maximal(ready, req) && writeReqs == ready - multiset{req} && popped == old(popped) + multiset{req}
              case EndOfStream => ready == multiset{} == writeReqs && popped == old(popped) && endStreamCalled && awaitingRfi == []
              case MustWait => ready == multiset{} == writeReqs && popped == old(popped) && !(endStreamCalled && awaitingRfi == [])
      ensures r.Popped? ==>
                forall x :: x in old(writeReqs) + multiset(NowReady(old(awaitingRfi), masks)) ==>
                  && x.priority <= r.request.priority
                  && (x.priority == r.request.priority ==> r.request.fpgaBegin <= x.fpgaBegin)
      ensures match r
              case Popped(req) => AsQueue(masks, Running) == PopStep(old(AsQueue(masks, Running)), req)
              case EndOfStream => forall top :: AsQueue(masks, Exited) == PopStep(old(AsQueue(masks, Running)), top)
              case MustWait => forall top :: AsQueue(masks, Asleep) == PopStep(old(AsQueue(masks, Running)), top)
    {
      hide StillWaiting, NowReady, Maximal, Conserved, PopStep;
      ghost var before := AsQueue(masks, Running);
      PopFindsNothing(before);
      CollectMasks(masks);
      if writeReqs == multiset{} {
        if endStreamCalled && |awaitingRfi| == 0 { return EndOfStream; }
        return MustWait;
      }
      TopExists(writeReqs);
      var top :| Maximal(writeReqs, top);
      MaximalIsMember(writeReqs, top);
      MaximalIsFirst(writeReqs, top);
      TopMoves(accepted, writeReqs, awaitingRfi, popped, cancelled, top);
      PopTakesTop(before, top);
      writeReqs := writeReqs - multiset{top};
      popped := popped + multiset{top};
      r := Popped(top);
    }

    /** Without waiting, everything that is pending is cancelled; otherwise the caller may only return when nothing is. */
    method EndStream(wait: bool) returns (done: bool)
      requires Valid()
      modifies this
      ensures Valid() && endStreamCalled && accepted == old(accepted) && popped == old(popped)
      ensures !wait ==> done && writeReqs == multiset{} && awaitingRfi == []
                        && cancelled == old(cancelled) + old(writeReqs) + multiset(old(awaitingRfi))
      ensures wait ==> (done <==> writeReqs == multiset{} && awaitingRfi == [])
                       && writeReqs == old(writeReqs) && awaitingRfi == old(awaitingRfi) && cancelled == old(cancelled)
      ensures done ==> accepted == popped + cancelled
      ensures var t := Happen(old(AsQueue({}, Running)), End(wait));
              AsQueue({}, Running) == t.(caller := Exited) && (done <==> t.caller == Exited)
    {
      EndCases(AsQueue({}, Running));
      hide Happen, Conserved;
      endStreamCalled := true;
      if !wait {
        AllCancelled(accepted, writeReqs, awaitingRfi, popped, cancelled);
        cancelled := cancelled + writeReqs + multiset(awaitingRfi);
        writeReqs := multiset{};
        awaitingRfi := [];
        NothingPending(accepted, popped, cancelled);
        return true;
      }
      done := writeReqs == multiset{} && |awaitingRfi| == 0;
      if done { NothingPending(accepted, popped, cancelled); }
    }
  }

  // ------------------------------------------------------------------------------------------------
  // Who wakes the threads

  /** A thread runs, sleeps on the condition variable, or has left its loop. */
  datatype Thread = Running | Asleep | Exited

  /**
    The device with its I/O thread, and one caller of `end_stream(true)` in its loop.  `silent` are the masks that have
    been set but not reported to the device yet.
  */
  datatype Queue = Queue(queued: multiset<Request>, awaiting: seq<Request>, ended: bool, joining: bool, masks: set<nat>,
                         silent: set<nat>, io: Thread, caller: Thread)

  datatype Event =
    | Enqueue(request: Request)
    | MaskSet(chunk: nat)
    | MaskFilled(chunk: nat)
    | Pop(top: Request)
    | End(wait: bool)
    | Join
    | CallerChecks

  function Wake(t: Thread): Thread { if t == Asleep then Running else t }

  /** All threads that sleep on the condition variable are notified. */
  function WakeAll(s: Queue): Queue { s.(io := Wake(s.io), caller := Wake(s.caller)) }

  predicate Idle(s: Queue) { s.queued == multiset{} && s.awaiting == [] }

  /** The thread tries to pop; `top` is the request it gets if there is one. */
  function PopStep(s: Queue, top: Request): Queue {
    var ready := s.queued + multiset(NowReady(s.awaiting, s.masks));
    var waiting := StillWaiting(s.awaiting, s.masks);
    if ready != multiset{} then WakeAll(s.(queued := ready - multiset{top}, awaiting := waiting))
    else if s.ended && waiting == [] then s.(awaiting := waiting, io := Exited)
    else s.(awaiting := waiting, io := Asleep)
  }

  /** A request, by cases. */
  lemma EnqueueCases(s: Queue, r: Request)
    ensures Happen(s, Enqueue(r)) ==
            match Answer(r, s.masks, s.ended)
            case Queued => s.(queued := s.queued + multiset{r}, io := Wake(s.io), caller := Wake(s.caller))
            case AwaitingMask => s.(awaiting := s.awaiting + [r])
            case _ => s
  {
    hide Waits;
  }

  /** Ending the stream, by cases. */
  lemma EndCases(s: Queue)
    ensures Happen(s, End(true)) == s.(ended := true, caller := if Idle(s) then Exited else Asleep)
    ensures Happen(s, End(false)) == s.(queued := multiset{}, awaiting := [], ended := true, io := Wake(s.io), caller := Wake(s.caller))
  {
  }

  lemma PopTakesTop(s: Queue, top: Request)
    requires s.queued + multiset(NowReady(s.awaiting, s.masks)) != multiset{}
    ensures PopStep(s, top) == WakeAll(s.(queued := s.queued + multiset(NowReady(s.awaiting, s.masks)) - multiset{top},
                                          awaiting := StillWaiting(s.awaiting, s.masks)))
  {
  }

  lemma PopFindsNothing(s: Queue)
    ensures s.queued + multiset(NowReady(s.awaiting, s.masks)) == multiset{} ==>
              forall top :: PopStep(s, top) == s.(awaiting := StillWaiting(s.awaiting, s.masks),
                                                  io := if s.ended && StillWaiting(s.awaiting, s.masks) == [] then Exited else Asleep)
  {
  }

  /** The caller of `end_stream(true)` tests the condition of its loop. */
  function Checked(s: Queue): Queue { s.(caller := if Idle(s) then Exited else Asleep) }

  /** `join_thread` throws unless the stream has been ended. */
  predicate Possible(s: Queue, e: Event) {
    match e
    case Pop(top) =>
      var ready := s.queued + multiset(NowReady(s.awaiting, s.masks));
      s.io == Running && (ready != multiset{} ==> Maximal(ready, top))
    case MaskSet(c) => c !in s.masks
    case MaskFilled(c) => c in s.masks
    case Join => s.ended
    case CallerChecks => s.caller == Running
    case _ => true
  }

  function Happen(s: Queue, e: Event): Queue {
    match e
    case Enqueue(r) =>
      if s.ended || (r.needMask && r.nrfifreq <= 0) then s
      else if r.needMask && Waits(r, s.masks) then s.(awaiting := s.awaiting + [r])
      else WakeAll(s.(queued := s.queued + multiset{r}))
    case MaskSet(c) => s.(masks := s.masks + {c}, silent := s.silent + {c})
    case MaskFilled(c) => WakeAll(s.(silent := s.silent - {c}))
    case Pop(top) => PopStep(s, top)
    case End(wait) =>
      if wait then Checked(s.(ended := true))
      else WakeAll(s.(queued := multiset{}, awaiting := [], ended := true))
    case Join => if s.joining then s else WakeAll(s.(joining := true))
    case CallerChecks => Checked(s)
  }

  function NewQueue(masks: set<nat>): Queue { Queue(multiset{}, [], false, false, masks, {}, Running, Exited) }

  function After(s: Queue, events: seq<Event>): Queue {
    if events == [] then s
    else
      var t := After(s, events[..|events| - 1]);
      if Possible(t, events[|events| - 1]) then Happen(t, events[|events| - 1]) else t
  }

  /** The I/O thread sleeps although the stream has ended and nothing is pending. */
  predicate LeftAsleep(s: Queue) { s.io == Asleep && s.ended && Idle(s) }

  /**
    A sleeping I/O thread has nothing to pop, and the masks it waits for have not been reported (a mask is reported after
    it has been set, and the report wakes the thread).  A sleeping caller of `end_stream(true)` has something to wait for.  Once the thread is being joined it does not sleep for nothing.
  */
  predicate Sound(s: Queue) {
    && (s.io == Asleep ==> s.queued == multiset{} && forall r :: r in s.awaiting ==> Waits(r, s.masks - s.silent))
    && (s.caller == Asleep ==> !Idle(s))
    && (s.joining ==> s.ended && !LeftAsleep(s))
    && (s.io == Exited ==> s.ended && Idle(s))
  }

  /** If no mask has come, none of the requests that wait is taken off the list. */
  lemma {:induction false} NoneReady(a: seq<Request>, masks: set<nat>)
    requires NowReady(a, masks) == []
    ensures StillWaiting(a, masks) == a
  {
    if a != [] {
      NoneReady(a[..|a| - 1], masks);
    }
  }

  lemma PopIsSound(s: Queue, top: Request)
    requires Sound(s) && Possible(s, Pop(top))
    ensures Sound(PopStep(s, top))
  {
    var still := StillWaiting(s.awaiting, s.masks);
    forall r | r in still ensures Waits(r, s.masks) {
      WaitingMembers(s.awaiting, s.masks, r);
    }
    hide StillWaiting, NowReady, Maximal, Waits;
    if s.queued + multiset(NowReady(s.awaiting, s.masks)) == multiset{} {
      NoSingle(NowReady(s.awaiting, s.masks));
      NoneReady(s.awaiting, s.masks);
    }
  }

  lemma NoSingle(a: seq<Request>)
    requires multiset(a) == multiset{}
    ensures a == []
  {
    assert |multiset(a)| == |a|;
  }

  lemma EnqueueIsSound(s: Queue, r: Request)
    requires Sound(s)
    ensures Sound(Happen(s, Enqueue(r)))
  {
    assert r in s.queued + multiset{r};
    hide StillWaiting, NowReady, Maximal, PopStep;
  }

  lemma StepIsSound(s: Queue, e: Event)
    requires Sound(s) && Possible(s, e)
    ensures Sound(Happen(s, e))
  {
    match e
    case Enqueue(r) => EnqueueIsSound(s, r);
    case Pop(top) => PopIsSound(s, top);
    case MaskSet(c) => hide StillWaiting, NowReady, Maximal, PopStep;
    case MaskFilled(c) => hide StillWaiting, NowReady, Maximal, PopStep;
    case End(wait) => hide StillWaiting, NowReady, Maximal, PopStep;
    case Join => hide StillWaiting, NowReady, Maximal, PopStep;
    case CallerChecks => hide StillWaiting, NowReady, Maximal, PopStep;
  }

  /** In every run: nobody's wake-up is missed, except possibly by an `end_stream(true)` that is not followed by a join. */
  lemma {:induction false} NoRequestSleeps(masks: set<nat>, events: seq<Event>)
    ensures Sound(After(NewQueue(masks), events))
  {
    if events != [] {
      NoRequestSleeps(masks, events[..|events| - 1]);
      var t := After(NewQueue(masks), events[..|events| - 1]);
      if Possible(t, events[|events| - 1]) { StepIsSound(t, events[|events| - 1]); }
    }
  }

  /**
    `end_stream(true)` alone leaves the thread asleep exactly when it already sleeps and nothing is pending, since that
    call returns at once and wakes nobody.
  */
  lemma LeftAsleepExactlyWhen(s: Queue, e: Event)
    requires Sound(s) && Possible(s, e) && !LeftAsleep(s)
    ensures LeftAsleep(Happen(s, e)) <==> e == End(true) && s.io == Asleep && Idle(s)
  {
    if e.Pop? {
      PopLeavesNobodyAsleep(s, e.top);
    }
  }

  lemma PopLeavesNobodyAsleep(s: Queue, top: Request)
    requires Possible(s, Pop(top))
    ensures !LeftAsleep(PopStep(s, top))
  {
  }

  /** It stays asleep until a mask is reported, the stream is ended without waiting, or the thread is joined. */
  lemma OnlyTheseWake(s: Queue, e: Event)
    requires Sound(s) && LeftAsleep(s) && Possible(s, e)
    ensures LeftAsleep(Happen(s, e)) <==> !e.MaskFilled? && e != End(false) && e != Join
  {
  }

  predicate Wakes(e: Event) { e.MaskFilled? || e == End(false) || e == Join }

  lemma {:induction false} PrefixOfRun(s: Queue, events: seq<Event>, e: Event)
    ensures var t := After(s, events);
            After(s, events + [e]) == if Possible(t, e) then Happen(t, e) else t
  {
    assert (events + [e])[..|events|] == events;
  }

  /** However long the run goes on: a thread left asleep sleeps until the first of these three happens. */
  lemma {:induction false} SleepsOn(masks: set<nat>, events: seq<Event>, more: seq<Event>)
    requires LeftAsleep(After(NewQueue(masks), events))
    requires forall k :: 0 <= k < |more| ==> !Wakes(more[k])
    ensures LeftAsleep(After(NewQueue(masks), events + more))
    decreases |more|
  {
    if more == [] {
      assert events + more == events;
    } else {
      var e, before := more[|more| - 1], more[..|more| - 1];
      SleepsOn(masks, events, before);
      NoRequestSleeps(masks, events + before);
      PrefixOfRun(NewQueue(masks), events + before, e);
      assert events + more == events + before + [e];
      var t := After(NewQueue(masks), events + before);
      if Possible(t, e) { OnlyTheseWake(t, e); }
    }
  }

  /** And nothing else puts it to sleep for good: in every run in which no `end_stream(true)` is called it never is. */
  lemma {:induction false} OnlyWaitingEndsLeaveAsleep(masks: set<nat>, events: seq<Event>)
    requires forall k :: 0 <= k < |events| ==> events[k] != End(true)
    ensures !LeftAsleep(After(NewQueue(masks), events))
  {
    if events != [] {
      var e, before := events[|events| - 1], events[..|events| - 1];
      OnlyWaitingEndsLeaveAsleep(masks, before);
      NoRequestSleeps(masks, before);
      var t := After(NewQueue(masks), before);
      if Possible(t, e) { LeftAsleepExactlyWhen(t, e); }
    }
  }

  /** It happens: a device that is started, has nothing to do, and is asked to end. */
  lemma IdleDeviceStaysAsleep(top: Request)
    ensures LeftAsleep(After(NewQueue({}), [Pop(top), End(true)]))
  {
    var s := NewQueue({});
    var events := [Pop(top), End(true)];
    assert events[..1] == [Pop(top)] && events[..1][..0] == [];
    assert After(s, []) == s;
    assert StillWaiting([], {}) == [] && NowReady([], {}) == [];
    assert After(s, [Pop(top)]) == s.(io := Asleep);
  }

  /** In every run: once the thread is being joined and nothing is pending, it has left or leaves at its next pop. */
  lemma JoinEndsTheThread(masks: set<nat>, events: seq<Event>, top: Request)
    requires var s := After(NewQueue(masks), events); s.joining && Idle(s)
    ensures var s := After(NewQueue(masks), events);
            s.io == Exited || (Possible(s, Pop(top)) && Happen(s, Pop(top)).io == Exited)
  {
    NoRequestSleeps(masks, events);
    assert StillWaiting([], masks) == [] && NowReady([], masks) == [];
  }

  /** In particular after ending the stream either way and joining: even the thread that was left asleep leaves. */
  lemma EndThenJoin(masks: set<nat>, events: seq<Event>, wait: bool, top: Request)
    requires Idle(After(NewQueue(masks), events))
    ensures var s := After(NewQueue(masks), events + [End(wait), Join]);
            s.io == Exited || (Possible(s, Pop(top)) && Happen(s, Pop(top)).io == Exited)
  {
    var run := events + [End(wait), Join];
    assert run[..|run| - 1] == events + [End(wait)] && (events + [End(wait)])[..|events|] == events;
    JoinEndsTheThread(masks, run, top);
  }

  predicate MasksCameFor(s: Queue) { forall r :: r in s.awaiting ==> !Waits(r, s.masks) }

  /** With all masks there, each pop of an ended stream takes one request, and a pop that finds none ends the thread. */
  lemma PopProgress(s: Queue, top: Request)
    requires s.ended && MasksCameFor(s) && Possible(s, Pop(top))
    ensures var t := Happen(s, Pop(top));
            && t.ended && t.awaiting == []
            && if Idle(s) then t.io == Exited
               else t.io == Running && |t.queued| == |s.queued| + |s.awaiting| - 1
  {
    NothingLost(s.awaiting, s.masks);
    if StillWaiting(s.awaiting, s.masks) != [] {
      var r := StillWaiting(s.awaiting, s.masks)[0];
      WaitingMembers(s.awaiting, s.masks, r);
      assert false;
    }
    hide StillWaiting, NowReady;
    assert |multiset(s.awaiting)| == |s.awaiting|;
    if !Idle(s) { MaximalIsMember(s.queued + multiset(NowReady(s.awaiting, s.masks)), top); }
  }

  /** The pops of `tops`, each of which the thread can make unless it has left. */
  predicate Pops(s: Queue, tops: seq<Request>)
    decreases |tops|
  {
    tops == [] || s.io == Exited || (Possible(s, Pop(tops[0])) && Pops(Happen(s, Pop(tops[0])), tops[1..]))
  }

  function Popping(s: Queue, tops: seq<Request>): Queue
    decreases |tops|
  {
    if tops == [] || s.io == Exited then s else Popping(PopStep(s, tops[0]), tops[1..])
  }

  /** An ended device whose masks have come drains: with n requests pending the thread has left after n + 1 pops. */
  lemma {:induction false} EndedDeviceDrains(s: Queue, tops: seq<Request>)
    requires s.ended && MasksCameFor(s) && s.io == Running && Pops(s, tops)
    requires |tops| == |s.queued| + |s.awaiting| + 1
    ensures Popping(s, tops).io == Exited && Idle(Popping(s, tops))
    decreases |tops|
  {
    PopProgress(s, tops[0]);
    var t := PopStep(s, tops[0]);
    if Idle(s) {
      assert StillWaiting([], s.masks) == [] && NowReady([], s.masks) == [];
    } else {
      EndedDeviceDrains(t, tops[1..]);
    }
  }

  /** The thread leaves its loop only when the stream has ended and nothing is pending. */
  lemma ExitsOnlyWhenDone(s: Queue, e: Event)
    requires Possible(s, e) && s.io != Exited && Happen(s, e).io == Exited
    ensures e.Pop? && s.ended && s.queued == multiset{} && Idle(Happen(s, e))
  {
    hide StillWaiting, NowReady, Maximal, Waits;
  }

  /** The caller of `end_stream(true)` returns only when nothing is pending. */
  lemma CallerLeavesOnlyWhenDone(s: Queue, e: Event)
    requires Possible(s, e) && (s.caller != Exited || e == End(true)) && Happen(s, e).caller == Exited
    ensures Idle(Happen(s, e)) && Happen(s, e).ended == (s.ended || e.End?)
  {
    hide StillWaiting, NowReady, Maximal, Waits, PopStep;
    if e.Pop? { PopKeepsCaller(s, e.top); }
  }

  lemma PopKeepsCaller(s: Queue, top: Request)
    requires s.caller != Exited
    ensures PopStep(s, top).caller != Exited
  {
    hide StillWaiting, NowReady;
  }

  // ------------------------------------------------------------------------------------------------
  // The last write

  /** The request that the I/O thread is writing: what its last pop has given it. */
  function BeingWritten(s: Queue, events: seq<Event>): Option<Request> {
    if events == [] then None
    else
      var front, e := events[..|events| - 1], events[|events| - 1];
      var t := After(s, front);
      if !(e.Pop? && Possible(t, e)) then BeingWritten(s, front)
      else if t.queued + multiset(NowReady(t.awaiting, t.masks)) == multiset{} then None
      else Some(e.top)
  }

  /** While it writes, the thread is awake; so once it has left, or sleeps, everything it has popped is written. */
  lemma {:induction false} WritesAwake(masks: set<nat>, events: seq<Event>)
    ensures BeingWritten(NewQueue(masks), events).Some? ==> After(NewQueue(masks), events).io == Running
  {
    if events != [] {
      var front, e := events[..|events| - 1], events[|events| - 1];
      WritesAwake(masks, front);
      var t := After(NewQueue(masks), front);
      hide StillWaiting, NowReady, Maximal;
      if e.Pop? && Possible(t, e) {
        PopFindsNothing(t);
      } else if Possible(t, e) && t.io == Running {
        StaysRunning(t, e);
      }
    }
  }

  lemma StaysRunning(s: Queue, e: Event)
    requires s.io == Running && !e.Pop?
    ensures Happen(s, e).io == Running
  {
    hide StillWaiting, NowReady, Maximal, PopStep;
  }

  /** `end_stream(true)` can return before the last write is complete: it waits for the queues only. */
  lemma EndReturnsBeforeTheLastWrite(r: Request)
    requires !r.needMask
    ensures var events := [Enqueue(r), Pop(r), End(true)];
            After(NewQueue({}), events).caller == Exited && BeingWritten(NewQueue({}), events) == Some(r)
  {
    var s, events := NewQueue({}), [Enqueue(r), Pop(r), End(true)];
    var a := s.(queued := multiset{r});
    assert events[..2] == [Enqueue(r), Pop(r)] && events[..2][..1] == [Enqueue(r)] && events[..1][..0] == [];
    assert After(s, []) == s;
    assert After(s, [Enqueue(r)]) == a;
    assert StillWaiting([], {}) == [] && NowReady([], {}) == [];
    assert a.queued + multiset(NowReady(a.awaiting, a.masks)) == multiset{r};
    assert Maximal(multiset{r}, r);
    assert r in multiset{r};
    assert After(s, [Enqueue(r), Pop(r)]) == a.(queued := multiset{});
    assert BeingWritten(s, [Enqueue(r), Pop(r)]) == Some(r);
  }
}
