/** Handing received packets to the driver. Any number of completion handlers queue packets on
    an endpoint and then try to drain the queue; one of them at a time indicates. The calls
    of DrainRecvIndicationQueue are the actors here, so that any number of threads, and
    handlers that run inside an indication, are covered. Endpoints do not share any state. */
module HtcRecvIndicate {
  import opened SeqFacts
  import opened HtcRecvPacket

  /** A call that is yet to be made, holds packets it is indicating, or has returned. */
  datatype Call = Due | Draining(local: seq<RxPacket>) | Returned

  datatype Ep = Ep(recvIndicationQueue: seq<RxPacket>, rxProcessCount: int)

  datatype State = State(ep: Ep, calls: seq<Call>, enqueued: seq<RxPacket>, indicated: seq<RxPacket>,
      flushed: seq<RxPacket>)

  datatype Step =
    | Enqueue(packets: seq<RxPacket>)
    | Begin(i: nat)
    | Indicate(i: nat)
    | Resume(i: nat)
    | FlushOne

  ghost predicate Init(s: State) {
    s == State(Ep([], 0), [], [], [], [])
  }

  predicate Enabled(s: State, step: Step)
  {
    match step
    case Enqueue(_) => true
    case Begin(i) => i < |s.calls| && s.calls[i].Due?
    case Indicate(i) => i < |s.calls| && s.calls[i].Draining? && s.calls[i].local != []
    case Resume(i) => i < |s.calls| && s.calls[i].Draining? && s.calls[i].local == []
    case FlushOne => s.ep.recvIndicationQueue != []
  }

  datatype Taken = Taken(ep: Ep, local: seq<RxPacket>)

  /** A lock-held turn of the drain loop. Taking nothing ends the drain. */
  function Transfer(ep: Ep): Taken
  {
    Taken(Ep([], if ep.recvIndicationQueue == [] then 0 else ep.rxProcessCount), ep.recvIndicationQueue)
  }

  /** The section at the start of a drain. */
  function Enter(ep: Ep): Taken
  {
    if ep.rxProcessCount + 1 > 1 then Taken(ep, []) else Transfer(ep.(rxProcessCount := ep.rxProcessCount + 1))
  }

  function Continue(s: State, i: nat, t: Taken): State
    requires i < |s.calls|
  {
    s.(ep := t.ep, calls := s.calls[i := if t.local == [] then Returned else Draining(t.local)])
  }

  function Apply(s: State, step: Step): State
    requires Enabled(s, step)
  {
    match step
    case Enqueue(packets) =>
      s.(ep := s.ep.(recvIndicationQueue := s.ep.recvIndicationQueue + packets),
        enqueued := s.enqueued + packets, calls := s.calls + [Due])
    case Begin(i) => Continue(s, i, Enter(s.ep))
    case Indicate(i) => s.(indicated := s.indicated + s.calls[i].local, calls := s.calls[i := Draining([])])
    case Resume(i) => Continue(s, i, Transfer(s.ep))
    case FlushOne =>
      s.(ep := s.ep.(recvIndicationQueue := s.ep.recvIndicationQueue[1..]),
        flushed := s.flushed + [s.ep.recvIndicationQueue[0]])
  }

  /** A call that has not returned can always go on. */
  lemma CallsGoOn(s: State, i: nat)
    requires i < |s.calls| && s.calls[i] != Returned
    ensures Enabled(s, Begin(i)) || Enabled(s, Indicate(i)) || Enabled(s, Resume(i))
    ensures s.calls[i].Draining? ==> (Enabled(s, Indicate(i)) <==> 0 < |s.calls[i].local|)
  {
  }

  // --- the invariant ----------------------------------------------------------------------

  ghost predicate Drains(s: State, i: nat) {
    i < |s.calls| && s.calls[i].Draining?
  }

  ghost predicate Waits(s: State, i: nat) {
    i < |s.calls| && s.calls[i].Due?
  }

  ghost predicate DrainersOk(s: State) {
    && (forall i: nat, j: nat :: Drains(s, i) && Drains(s, j) ==> i == j)
    && (s.ep.rxProcessCount == if exists i: nat :: Drains(s, i) then 1 else 0)
    && (s.ep.recvIndicationQueue != [] ==> s.ep.rxProcessCount == 1 || exists i: nat :: Waits(s, i))
  }

  /** The packets the draining call holds. */
  ghost function LocalOf(s: State): seq<RxPacket>
  {
    if exists i: nat :: Drains(s, i) then
      var i: nat :| Drains(s, i);
      s.calls[i].local
    else []
  }

  lemma LocalIs(s: State, i: nat)
    requires DrainersOk(s) && Drains(s, i)
    ensures LocalOf(s) == s.calls[i].local
  {
  }

  ghost predicate OrderOk(enqueued: seq<RxPacket>, indicated: seq<RxPacket>, local: seq<RxPacket>,
      queue: seq<RxPacket>, flushed: seq<RxPacket>) {
    && (flushed == [] ==> enqueued == indicated + local + queue)
    && multiset(enqueued) == multiset(indicated) + multiset(local) + multiset(queue) + multiset(flushed)
  }

  ghost predicate Inv(s: State) {
    DrainersOk(s) && OrderOk(s.enqueued, s.indicated, LocalOf(s), s.ep.recvIndicationQueue, s.flushed)
  }

  lemma OrderEnqueue(enqueued: seq<RxPacket>, indicated: seq<RxPacket>, local: seq<RxPacket>, queue: seq<RxPacket>,
      flushed: seq<RxPacket>, more: seq<RxPacket>)
    requires OrderOk(enqueued, indicated, local, queue, flushed)
    ensures OrderOk(enqueued + more, indicated, local, queue + more, flushed)
  {
    Regroup(indicated + local, queue, more);
  }

  lemma OrderFlush(enqueued: seq<RxPacket>, indicated: seq<RxPacket>, local: seq<RxPacket>, queue: seq<RxPacket>,
      flushed: seq<RxPacket>)
    requires OrderOk(enqueued, indicated, local, queue, flushed) && queue != []
    ensures OrderOk(enqueued, indicated, local, queue[1..], flushed + [queue[0]])
  {
    HeadTail(queue);
  }

  /** Taking the whole queue, and indicating everything taken. */
  lemma OrderMoves(enqueued: seq<RxPacket>, indicated: seq<RxPacket>, queue: seq<RxPacket>, flushed: seq<RxPacket>)
    ensures OrderOk(enqueued, indicated, [], queue, flushed) ==> OrderOk(enqueued, indicated, queue, [], flushed)
  {
    assert indicated + [] + queue == indicated + queue + [];
  }

  lemma OrderIndicate(enqueued: seq<RxPacket>, indicated: seq<RxPacket>, local: seq<RxPacket>, queue: seq<RxPacket>,
      flushed: seq<RxPacket>)
    requires OrderOk(enqueued, indicated, local, queue, flushed)
    ensures OrderOk(enqueued, indicated + local, [], queue, flushed)
  {
    assert indicated + local + [] + queue == indicated + local + queue;
  }

  lemma EnqueueOk(s: State, packets: seq<RxPacket>)
    requires Inv(s)
    ensures Inv(Apply(s, Enqueue(packets)))
  {
    var s' := Apply(s, Enqueue(packets));
    assert forall i: nat :: Drains(s', i) <==> Drains(s, i);
    assert Waits(s', |s.calls|);
    if i: nat :| Drains(s, i) {
      LocalIs(s, i);
      LocalIs(s', i);
    }
    OrderEnqueue(s.enqueued, s.indicated, LocalOf(s), s.ep.recvIndicationQueue, s.flushed, packets);
  }

  lemma FlushOneOk(s: State)
    requires Inv(s) && Enabled(s, FlushOne)
    ensures Inv(Apply(s, FlushOne))
  {
    var s' := Apply(s, FlushOne);
    assert forall i: nat :: Drains(s', i) <==> Drains(s, i);
    assert forall i: nat :: Waits(s', i) <==> Waits(s, i);
    if i: nat :| Drains(s, i) {
      LocalIs(s, i);
      LocalIs(s', i);
    }
    OrderFlush(s.enqueued, s.indicated, LocalOf(s), s.ep.recvIndicationQueue, s.flushed);
  }

  lemma IndicateOk(s: State, i: nat)
    requires Inv(s) && Enabled(s, Indicate(i))
    ensures Inv(Apply(s, Indicate(i)))
  {
    var s' := Apply(s, Indicate(i));
    assert Drains(s, i) && Drains(s', i);
    assert forall j: nat :: Drains(s', j) <==> Drains(s, j);
    assert forall j: nat :: Waits(s', j) <==> Waits(s, j);
    LocalIs(s, i);
    LocalIs(s', i);
    OrderIndicate(s.enqueued, s.indicated, LocalOf(s), s.ep.recvIndicationQueue, s.flushed);
  }

  /** Somebody else is draining: the call returns, the other one will see the packets. */
  lemma BusyOk(s: State, i: nat)
    requires Inv(s) && Enabled(s, Begin(i)) && s.ep.rxProcessCount == 1
    ensures Inv(Apply(s, Begin(i)))
  {
    var s' := Apply(s, Begin(i));
    assert forall j: nat :: Drains(s', j) <==> Drains(s, j);
    var d: nat :| Drains(s, d);
    LocalIs(s, d);
    LocalIs(s', d);
  }

  /** Call i is the only one that may drain, holds nothing, and takes the queue. */
  lemma TurnOk(s: State, i: nat, ep: Ep)
    requires Inv(s) && i < |s.calls| && LocalOf(s) == [] && forall j: nat :: Drains(s, j) ==> j == i
    requires ep == s.ep.(rxProcessCount := 1)
    ensures Inv(Continue(s, i, Transfer(ep)))
  {
    var s' := Continue(s, i, Transfer(ep));
    forall j: nat | j != i
      ensures !Drains(s', j)
    {
      assert Drains(s', j) ==> Drains(s, j);
    }
    if ep.recvIndicationQueue != [] {
      assert Drains(s', i);
      LocalIs(s', i);
    } else {
      assert !Drains(s', i);
    }
    OrderMoves(s.enqueued, s.indicated, s.ep.recvIndicationQueue, s.flushed);
  }

  lemma StepOk(s: State, step: Step)
    requires Inv(s) && Enabled(s, step)
    ensures Inv(Apply(s, step))
  {
    match step
    case Enqueue(packets) => EnqueueOk(s, packets);
    case FlushOne => FlushOneOk(s);
    case Indicate(i) => IndicateOk(s, i);
    case Begin(i) =>
      if s.ep.rxProcessCount == 1 {
        BusyOk(s, i);
      } else {
        TurnOk(s, i, s.ep.(rxProcessCount := 1));
      }
    case Resume(i) =>
      assert Drains(s, i);
      LocalIs(s, i);
      TurnOk(s, i, s.ep);
  }

  // --- over whole runs -----------------------------------------------------------------------

  ghost predicate IsRun(states: seq<State>, steps: seq<Step>) {
    && |states| == |steps| + 1 && Init(states[0])
    && (forall i :: 0 <= i < |steps| ==> Enabled(states[i], steps[i]) && states[i + 1] == Apply(states[i], steps[i]))
  }

  lemma {:induction false} RunOk(states: seq<State>, steps: seq<Step>, k: nat)
    requires IsRun(states, steps) && k <= |steps|
    ensures Inv(states[k])
  {
    if k > 0 {
      RunOk(states, steps, k - 1);
      StepOk(states[k - 1], steps[k - 1]);
    }
  }

  lemma {:induction false} NothingFlushed(states: seq<State>, steps: seq<Step>, k: nat)
    requires IsRun(states, steps) && k <= |steps| && forall i :: 0 <= i < k ==> !steps[i].FlushOne?
    ensures states[k].flushed == []
  {
    if k > 0 { NothingFlushed(states, steps, k - 1); }
  }

  /** Packets reach the driver exactly once and in the order they were queued: at any moment
      those indicated, those the draining call holds and those queued make up all of them. A
      flush takes packets out of the queue and does nothing else. */
  lemma IndicatedOnceInOrder(states: seq<State>, steps: seq<Step>, k: nat)
    requires IsRun(states, steps) && k <= |steps|
    ensures var s := states[k];
      && ((forall i :: 0 <= i < k ==> !steps[i].FlushOne?)
        ==> s.enqueued == s.indicated + LocalOf(s) + s.ep.recvIndicationQueue)
      && multiset(s.enqueued) == multiset(s.indicated) + multiset(LocalOf(s)) + multiset(s.ep.recvIndicationQueue)
        + multiset(s.flushed)
  {
    RunOk(states, steps, k);
    if forall i :: 0 <= i < k ==> !steps[i].FlushOne? { NothingFlushed(states, steps, k); }
  }

  /** RxProcessCount admits one draining call. */
  lemma SingleDrainer(states: seq<State>, steps: seq<Step>, k: nat)
    requires IsRun(states, steps) && k <= |steps|
    ensures forall i: nat, j: nat :: Drains(states[k], i) && Drains(states[k], j) ==> i == j
    ensures states[k].ep.rxProcessCount == if exists i: nat :: Drains(states[k], i) then 1 else 0
  {
    RunOk(states, steps, k);
  }

  /** A packet in the queue is bound to be seen: a call is draining, or one is yet to be made. */
  lemma NoneForgotten(states: seq<State>, steps: seq<Step>, k: nat)
    requires IsRun(states, steps) && k <= |steps| && states[k].ep.recvIndicationQueue != []
    ensures exists i: nat :: Drains(states[k], i) || Waits(states[k], i)
  {
    RunOk(states, steps, k);
    if states[k].ep.rxProcessCount == 1 {
      var i: nat :| Drains(states[k], i);
    } else {
      var i: nat :| Waits(states[k], i);
    }
  }

  /** Once every call has returned, everything queued has been indicated, in order. */
  lemma AllReturnedMeansAllIndicated(states: seq<State>, steps: seq<Step>, k: nat)
    requires IsRun(states, steps) && k <= |steps| && forall i :: 0 <= i < k ==> !steps[i].FlushOne?
    requires forall i :: 0 <= i < |states[k].calls| ==> states[k].calls[i].Returned?
    ensures states[k].indicated == states[k].enqueued
  {
    IndicatedOnceInOrder(states, steps, k);
    assert forall i: nat :: !Drains(states[k], i) && !Waits(states[k], i);
    if states[k].ep.recvIndicationQueue != [] { NoneForgotten(states, steps, k); }
  }

  // --- in place ---------------------------------------------------------------------------------

  class RecvEndpoint {
    var RecvIndicationQueue: seq<RxPacket>
    var RxProcessCount: int

    function View(): Ep
      reads this
    {
      Ep(RecvIndicationQueue, RxProcessCount)
    }

    /** A completion handler queues the good packets it has. */
    method QueuePackets(ghost s: State, packets: seq<RxPacket>)
      requires s.ep == View()
      modifies this
      ensures View() == Apply(s, Enqueue(packets)).ep
    {
      RecvIndicationQueue := RecvIndicationQueue + packets;
    }

    /** DrainRecvIndicationQueue up to the first release of the lock. */
    method BeginDrain(ghost s: State, ghost i: nat) returns (recvCompletions: seq<RxPacket>)
      requires s.ep == View() && Enabled(s, Begin(i))
      modifies this
      ensures View() == Apply(s, Begin(i)).ep
      ensures Apply(s, Begin(i)).calls[i] == if recvCompletions == [] then Returned else Draining(recvCompletions)
    {
      RxProcessCount := RxProcessCount + 1;
      if RxProcessCount > 1 {
        RxProcessCount := RxProcessCount - 1;
        return [];
      }
      recvCompletions := TransferQueue();
    }

    /** From taking the lock again to the next release. */
    method ResumeDrain(ghost s: State, ghost i: nat) returns (recvCompletions: seq<RxPacket>)
      requires s.ep == View() && Enabled(s, Resume(i))
      modifies this
      ensures View() == Apply(s, Resume(i)).ep
      ensures Apply(s, Resume(i)).calls[i] == if recvCompletions == [] then Returned else Draining(recvCompletions)
    {
      recvCompletions := TransferQueue();
    }

    method TransferQueue() returns (recvCompletions: seq<RxPacket>)
      modifies this
      ensures Transfer(old(View())) == Taken(View(), recvCompletions)
    {
      recvCompletions, RecvIndicationQueue := RecvIndicationQueue, [];
      if recvCompletions == [] {
        RxProcessCount := 0;
      }
    }
  }
}
