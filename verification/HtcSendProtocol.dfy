/** The send side of HTC as a transition system: any number of threads enqueue packets,
    drain queues and process credit reports, one lock-held section at a time. */
module HtcSendProtocol {
  import opened HtcSendSpec
  import opened HtcSendConn

  /** Where a thread stands: outside, waiting for the TX lock with packets to queue, or
      handing the packets it has taken to the device without the lock. */
  datatype Pc = Out | AtLock(e: nat, send: seq<Packet>) | Draining(e: nat, local: seq<Issued>)

  /** `visits` are the endpoints a credit reporter has still to look at. */
  datatype Thread = Thread(pc: Pc, visits: seq<nat>)

  datatype State = State(conns: seq<Conn>, threads: seq<Thread>)

  datatype Step =
    | Submit(t: nat, e: nat, send: seq<Packet>)
    | TakeLock(t: nat)
    | HandOver(t: nat, n: nat)
    | Relock(t: nat)
    | Deliver(e: nat, i: nat)
    | FailSend(e: nat, i: nat)
    | ReportCredits(t: nat, rpt: seq<Report>)
    | Inactive(t: nat)
    | Visit(t: nat)
    | Flush(e: nat, tag: nat)

  ghost predicate Init(cfg: Config, s: State) {
    && |s.conns| == ENDPOINT_MAX
    && (forall e: nat :: e < ENDPOINT_MAX ==> Fresh(s.conns[e]))
    && (forall e: nat :: e < ENDPOINT_MAX && InDistribution(cfg, e) ==> s.conns[e].owed == 0)
    && (forall t: nat :: t < |s.threads| ==> s.threads[t] == Thread(Out, []))
  }

  predicate Fresh(c: Conn) {
    && c.ep.txQueue == [] && c.ep.toDist == 0 && c.ep.processCount == 0 && c.ep.seqNo == 0
    && c.accepted == [] && c.flushed == [] && c.taken == [] && c.handed == []
    && c.inDevice == [] && c.delivered == [] && c.failed == []
    && 0 <= c.ep.credits && c.ep.credits + c.owed == c.budget
  }

  predicate Idle(s: State, t: nat) {
    t < |s.threads| && s.threads[t] == Thread(Out, [])
  }

  predicate Drains(s: State, t: nat, e: nat) {
    t < |s.threads| && s.threads[t].pc.Draining? && s.threads[t].pc.e == e
  }

  /** Thread t is bound to try endpoint e again. */
  predicate Due(s: State, t: nat, e: nat) {
    t < |s.threads| && (e in s.threads[t].visits || (s.threads[t].pc.AtLock? && s.threads[t].pc.e == e))
  }

  /** The target only reports credits it holds. */
  predicate HonestReport(s: State, rpt: seq<Report>)
    requires |s.conns| == ENDPOINT_MAX
  {
    forall e: nat :: e < ENDPOINT_MAX ==> CreditsFor(Usable(rpt), e) <= s.conns[e].owed
  }

  predicate Enabled(cfg: Config, s: State, step: Step)
    requires |s.conns| == ENDPOINT_MAX
  {
    match step
    case Submit(t, e, send) => Idle(s, t) && e < ENDPOINT_MAX && send != []
    case TakeLock(t) => t < |s.threads| && s.threads[t].pc.AtLock? && s.threads[t].pc.e < ENDPOINT_MAX
    case HandOver(t, n) =>
      && t < |s.threads| && s.threads[t].pc.Draining? && s.threads[t].pc.e < ENDPOINT_MAX
      && 0 < n <= |s.threads[t].pc.local|
      && |s.conns[s.threads[t].pc.e].handed| + n <= |s.conns[s.threads[t].pc.e].taken|
    case Relock(t) =>
      t < |s.threads| && s.threads[t].pc.Draining? && s.threads[t].pc.e < ENDPOINT_MAX && s.threads[t].pc.local == []
    case Deliver(e, i) => e < ENDPOINT_MAX && i < |s.conns[e].inDevice|
    case FailSend(e, i) => e < ENDPOINT_MAX && i < |s.conns[e].inDevice|
    case ReportCredits(t, rpt) => Idle(s, t) && HonestReport(s, rpt)
    case Inactive(t) => Idle(s, t)
    case Visit(t) =>
      t < |s.threads| && s.threads[t].pc == Out && s.threads[t].visits != [] && s.threads[t].visits[0] < ENDPOINT_MAX
    case Flush(e, tag) => e < ENDPOINT_MAX
  }

  function Goto(s: State, t: nat, pc: Pc): State
    requires t < |s.threads|
  {
    s.(threads := s.threads[t := s.threads[t].(pc := pc)])
  }

  function SetConn(s: State, e: nat, c: Conn): State
    requires e < |s.conns|
  {
    s.(conns := s.conns[e := c])
  }

  /** The drain turn of thread t on endpoint e, already marked as in process. */
  function Turn(cfg: Config, s: State, t: nat, e: nat, c: Conn): State
    requires t < |s.threads| && e < |s.conns|
  {
    var local := Pass(cfg, c.ep).local;
    Goto(SetConn(s, e, Passed(cfg, c)), t, if local == [] then Out else Draining(e, local))
  }

  function Apply(cfg: Config, s: State, step: Step): (s': State)
    requires |s.conns| == ENDPOINT_MAX && Enabled(cfg, s, step)
    ensures |s'.conns| == ENDPOINT_MAX && |s'.threads| == |s.threads|
  {
    match step
    case Submit(t, e, send) => Goto(s, t, AtLock(e, send))
    case TakeLock(t) =>
      var AtLock(e, send) := s.threads[t].pc;
      var c := Queued(s.conns[e], send);
      if c.ep.processCount + 1 > 1 then Goto(SetConn(s, e, c), t, Out)
      else Turn(cfg, s, t, e, Started(c))
    case HandOver(t, n) =>
      var Draining(e, local) := s.threads[t].pc;
      Goto(SetConn(s, e, HandedOver(s.conns[e], n)), t, Draining(e, local[n..]))
    case Relock(t) => Turn(cfg, s, t, s.threads[t].pc.e, s.conns[s.threads[t].pc.e])
    case Deliver(e, i) => SetConn(s, e, Delivered(s.conns[e], i))
    case FailSend(e, i) =>
      var failed := SetConn(s, e, Failed(s.conns[e], i));
      failed.(conns := seq(ENDPOINT_MAX, j requires 0 <= j < ENDPOINT_MAX =>
                if InDistribution(cfg, j) then Distributed(failed.conns[j]) else failed.conns[j]))
    case ReportCredits(t, rpt) =>
      s.(conns := seq(ENDPOINT_MAX, j requires 0 <= j < ENDPOINT_MAX => CreditsReported(cfg, s.conns[j], j, rpt)),
         threads := if TotalCredits(Usable(rpt)) == 0 then s.threads else s.threads[t := Thread(Out, cfg.distList)])
    case Inactive(t) => s.(threads := s.threads[t := Thread(Out, cfg.distList)])
    case Visit(t) =>
      var e := s.threads[t].visits[0];
      var pc := if s.conns[e].ep.txQueue != [] then AtLock(e, []) else Out;
      s.(threads := s.threads[t := Thread(pc, s.threads[t].visits[1..])])
    case Flush(e, tag) => SetConn(s, e, Flushed(s.conns[e], tag))
  }

  // --- the invariant ----------------------------------------------------------------

  ghost predicate ConnsOk(cfg: Config, s: State) {
    && |s.conns| == ENDPOINT_MAX
    && (forall e: nat :: e < ENDPOINT_MAX ==> ConnOk(cfg, s.conns[e]))
    && (forall e: nat :: e < ENDPOINT_MAX && InDistribution(cfg, e) ==> s.conns[e].ep.toDist == 0)
  }

  /** TxProcessCount is 1 exactly while one thread drains the endpoint. */
  ghost predicate DrainersOk(s: State)
    requires |s.conns| == ENDPOINT_MAX
  {
    && (forall t: nat, e: nat :: Drains(s, t, e) ==>
          && e < ENDPOINT_MAX && s.conns[e].ep.processCount == 1
          && |s.conns[e].handed| <= |s.conns[e].taken| && s.threads[t].pc.local == Local(s.conns[e]))
    && (forall t: nat, u: nat, e: nat :: Drains(s, t, e) && Drains(s, u, e) ==> t == u)
    && (forall e: nat :: e < ENDPOINT_MAX && s.conns[e].ep.processCount == 1 ==> exists t: nat :: Drains(s, t, e))
  }

  ghost predicate Inv(cfg: Config, s: State) {
    ConnsOk(cfg, s) && DrainersOk(s)
  }

  lemma InitOk(cfg: Config, s: State)
    requires Init(cfg, s)
    ensures Inv(cfg, s)
  {
    forall e | 0 <= e < ENDPOINT_MAX
      ensures ConnOk(cfg, s.conns[e])
    {
      assert Fresh(s.conns[e]);
      assert Pkts(s.conns[e].taken) == [];
    }
  }

  lemma SubmitOk(cfg: Config, s: State, t: nat, e: nat, send: seq<Packet>)
    requires Inv(cfg, s) && Enabled(cfg, s, Submit(t, e, send))
    ensures Inv(cfg, Apply(cfg, s, Submit(t, e, send)))
  {
    var s' := Apply(cfg, s, Submit(t, e, send));
    assert forall u: nat, d: nat :: Drains(s', u, d) <==> Drains(s, u, d);
  }

  /** Only thread t and connection e differ, and t was doing nothing but serving e. */
  ghost predicate LocalChange(s: State, s': State, t: nat, e: nat) {
    && |s.conns| == |s'.conns| == ENDPOINT_MAX && e < ENDPOINT_MAX
    && |s.threads| == |s'.threads| && t < |s.threads|
    && (forall d: nat :: d < ENDPOINT_MAX && d != e ==> s'.conns[d] == s.conns[d])
    && (forall u: nat :: u < |s.threads| && u != t ==> s'.threads[u] == s.threads[u])
    && s'.threads[t].visits == s.threads[t].visits
    && (s.threads[t].pc.AtLock? || s.threads[t].pc.Draining?) && s.threads[t].pc.e == e
    && (s'.threads[t].pc == Out || (s'.threads[t].pc.Draining? && s'.threads[t].pc.e == e))
  }

  /** The thread that serves e is the only one draining it, before and after. */
  lemma OwnerKeepsDrainers(s: State, s': State, t: nat, e: nat)
    requires LocalChange(s, s', t, e) && DrainersOk(s)
    requires forall u: nat :: Drains(s, u, e) ==> u == t
    requires |s'.conns[e].handed| <= |s'.conns[e].taken|
    requires s'.conns[e].ep.processCount == 1 <==> s'.threads[t].pc.Draining?
    requires s'.threads[t].pc.Draining? ==> s'.threads[t].pc.local == Local(s'.conns[e])
    ensures DrainersOk(s')
  {
    assert forall u: nat, d: nat :: u != t ==> (Drains(s', u, d) <==> Drains(s, u, d));
    assert forall d: nat :: d != e ==> !Drains(s', t, d) && !Drains(s, t, d);
    forall d: nat | d < ENDPOINT_MAX && s'.conns[d].ep.processCount == 1
      ensures exists u: nat :: Drains(s', u, d)
    {
      if d == e {
        assert Drains(s', t, d);
      } else {
        var u: nat :| Drains(s, u, d);
        assert Drains(s', u, d);
      }
    }
  }

  /** No thread starts or stops draining, and no drained connection changes its packets. */
  lemma DrainersUnchanged(s: State, s': State)
    requires |s.conns| == |s'.conns| == ENDPOINT_MAX && |s.threads| == |s'.threads| && DrainersOk(s)
    requires forall u: nat, d: nat :: Drains(s', u, d) <==> Drains(s, u, d)
    requires forall u: nat, d: nat :: Drains(s, u, d) ==> s'.threads[u].pc == s.threads[u].pc
    requires forall e: nat :: e < ENDPOINT_MAX ==>
      && s'.conns[e].ep.processCount == s.conns[e].ep.processCount
      && s'.conns[e].handed == s.conns[e].handed && s'.conns[e].taken == s.conns[e].taken
    ensures DrainersOk(s')
  {
    forall d: nat | d < ENDPOINT_MAX && s'.conns[d].ep.processCount == 1
      ensures exists u: nat :: Drains(s', u, d)
    {
      var u: nat :| Drains(s, u, d);
      assert Drains(s', u, d);
    }
  }

  /** The thread has just released or kept the drain of e after a turn on it. */
  lemma TurnOk(cfg: Config, s: State, t: nat, e: nat, c: Conn)
    requires Inv(cfg, s) && t < |s.threads| && e < ENDPOINT_MAX && AtTurn(cfg, c)
    requires c.ep.toDist == s.conns[e].ep.toDist
    requires s.threads[t].pc.AtLock? || s.threads[t].pc.Draining?
    requires s.threads[t].pc.e == e
    requires forall u: nat :: Drains(s, u, e) ==> u == t
    ensures Inv(cfg, Turn(cfg, s, t, e, c))
  {
    var s' := Turn(cfg, s, t, e, c);
    PassedOk(cfg, c);
    OwnerKeepsDrainers(s, s', t, e);
  }

  /** Somebody else is draining e: the packets are left in its queue. */
  lemma BusyOk(cfg: Config, s: State, t: nat)
    requires Inv(cfg, s) && Enabled(cfg, s, TakeLock(t)) && s.conns[s.threads[t].pc.e].ep.processCount == 1
    ensures Inv(cfg, Apply(cfg, s, TakeLock(t)))
  {
    var AtLock(e, send) := s.threads[t].pc;
    var s' := Apply(cfg, s, TakeLock(t));
    QueuedOk(cfg, s.conns[e], send);
    DrainersUnchanged(s, s');
  }

  /** Nobody is draining e: the thread starts. */
  lemma FreeOk(cfg: Config, s: State, t: nat)
    requires Inv(cfg, s) && Enabled(cfg, s, TakeLock(t)) && s.conns[s.threads[t].pc.e].ep.processCount == 0
    ensures Inv(cfg, Apply(cfg, s, TakeLock(t)))
  {
    var AtLock(e, send) := s.threads[t].pc;
    QueuedOk(cfg, s.conns[e], send);
    BeginTurn(cfg, Queued(s.conns[e], send));
    TurnOk(cfg, s, t, e, Started(Queued(s.conns[e], send)));
  }

  lemma TakeLockOk(cfg: Config, s: State, t: nat)
    requires Inv(cfg, s) && Enabled(cfg, s, TakeLock(t))
    ensures Inv(cfg, Apply(cfg, s, TakeLock(t)))
  {
    if s.conns[s.threads[t].pc.e].ep.processCount == 1 {
      BusyOk(cfg, s, t);
    } else {
      FreeOk(cfg, s, t);
    }
  }

  lemma RelockOk(cfg: Config, s: State, t: nat)
    requires Inv(cfg, s) && Enabled(cfg, s, Relock(t))
    ensures Inv(cfg, Apply(cfg, s, Relock(t)))
  {
    var e := s.threads[t].pc.e;
    assert Drains(s, t, e);
    assert |Local(s.conns[e])| == 0;
    TurnOk(cfg, s, t, e, s.conns[e]);
  }

  lemma HandOverOk(cfg: Config, s: State, t: nat, n: nat)
    requires Inv(cfg, s) && Enabled(cfg, s, HandOver(t, n))
    ensures Inv(cfg, Apply(cfg, s, HandOver(t, n)))
  {
    var e := s.threads[t].pc.e;
    var s' := Apply(cfg, s, HandOver(t, n));
    assert Drains(s, t, e);
    HandedOverOk(cfg, s.conns[e], n);
    OwnerKeepsDrainers(s, s', t, e);
  }

  lemma DeliverOk(cfg: Config, s: State, e: nat, i: nat)
    requires Inv(cfg, s) && Enabled(cfg, s, Deliver(e, i))
    ensures Inv(cfg, Apply(cfg, s, Deliver(e, i)))
  {
    DeliveredOk(cfg, s.conns[e], i);
    var s' := Apply(cfg, s, Deliver(e, i));
    assert forall u: nat, d: nat :: Drains(s', u, d) <==> Drains(s, u, d);
  }

  lemma FailSendConn(cfg: Config, s: State, e: nat, i: nat, d: nat)
    requires ConnsOk(cfg, s) && Enabled(cfg, s, FailSend(e, i)) && d < ENDPOINT_MAX
    ensures var c, c' := s.conns[d], Apply(cfg, s, FailSend(e, i)).conns[d];
      && ConnOk(cfg, c') && (d != e ==> c' == c) && c'.ep.processCount == c.ep.processCount
      && c'.handed == c.handed && c'.taken == c.taken
  {
    if d == e {
      FailedOk(cfg, s.conns[e], i);
      DistributedOk(cfg, Failed(s.conns[e], i));
    }
  }

  lemma FailSendConns(cfg: Config, s: State, e: nat, i: nat)
    requires ConnsOk(cfg, s) && Enabled(cfg, s, FailSend(e, i))
    ensures ConnsOk(cfg, Apply(cfg, s, FailSend(e, i)))
    ensures var s' := Apply(cfg, s, FailSend(e, i));
      forall d: nat :: d < ENDPOINT_MAX ==>
        && (d != e ==> s'.conns[d] == s.conns[d])
        && s'.conns[d].ep.processCount == s.conns[d].ep.processCount
        && s'.conns[d].handed == s.conns[d].handed && s'.conns[d].taken == s.conns[d].taken
  {
    forall d: nat | d < ENDPOINT_MAX {
      FailSendConn(cfg, s, e, i, d);
    }
  }

  lemma FailSendOk(cfg: Config, s: State, e: nat, i: nat)
    requires Inv(cfg, s) && Enabled(cfg, s, FailSend(e, i))
    ensures Inv(cfg, Apply(cfg, s, FailSend(e, i)))
  {
    var s' := Apply(cfg, s, FailSend(e, i));
    FailSendConns(cfg, s, e, i);
    DrainersUnchanged(s, s');
  }

  lemma ReportConn(cfg: Config, s: State, t: nat, rpt: seq<Report>, e: nat)
    requires cfg.Valid() && ConnsOk(cfg, s) && Enabled(cfg, s, ReportCredits(t, rpt)) && e < ENDPOINT_MAX
    ensures var c, c' := s.conns[e], Apply(cfg, s, ReportCredits(t, rpt)).conns[e];
      && ConnOk(cfg, c') && c'.ep.processCount == c.ep.processCount && c'.handed == c.handed && c'.taken == c.taken
      && (InDistribution(cfg, e) ==> c'.ep.toDist == 0)
  {
    CreditsReportedOk(cfg, s.conns[e], e, rpt);
    CreditsNameTheEndpoint(Usable(rpt), e);
  }

  lemma ReportCreditsOk(cfg: Config, s: State, t: nat, rpt: seq<Report>)
    requires cfg.Valid() && Inv(cfg, s) && Enabled(cfg, s, ReportCredits(t, rpt))
    ensures Inv(cfg, Apply(cfg, s, ReportCredits(t, rpt)))
  {
    forall e: nat | e < ENDPOINT_MAX {
      ReportConn(cfg, s, t, rpt, e);
    }
    DrainersUnchanged(s, Apply(cfg, s, ReportCredits(t, rpt)));
  }

  lemma InactiveOk(cfg: Config, s: State, t: nat)
    requires Inv(cfg, s) && Enabled(cfg, s, Inactive(t))
    ensures Inv(cfg, Apply(cfg, s, Inactive(t)))
  {
    var s' := Apply(cfg, s, Inactive(t));
    assert forall u: nat, d: nat :: Drains(s', u, d) <==> Drains(s, u, d);
  }

  lemma VisitOk(cfg: Config, s: State, t: nat)
    requires Inv(cfg, s) && Enabled(cfg, s, Visit(t))
    ensures Inv(cfg, Apply(cfg, s, Visit(t)))
  {
    var s' := Apply(cfg, s, Visit(t));
    assert forall u: nat, d: nat :: Drains(s', u, d) <==> Drains(s, u, d);
  }

  lemma FlushOk(cfg: Config, s: State, e: nat, tag: nat)
    requires Inv(cfg, s) && Enabled(cfg, s, Flush(e, tag))
    ensures Inv(cfg, Apply(cfg, s, Flush(e, tag)))
  {
    FlushedOk(cfg, s.conns[e], tag);
    FlushIdle(s.conns[e].ep.txQueue, tag);
    var s' := Apply(cfg, s, Flush(e, tag));
    assert forall u: nat, d: nat :: Drains(s', u, d) <==> Drains(s, u, d);
  }

  lemma StepOk(cfg: Config, s: State, step: Step)
    requires cfg.Valid() && Inv(cfg, s) && Enabled(cfg, s, step)
    ensures Inv(cfg, Apply(cfg, s, step))
  {
    match step
    case Submit(t, e, send) => SubmitOk(cfg, s, t, e, send);
    case TakeLock(t) => TakeLockOk(cfg, s, t);
    case HandOver(t, n) => HandOverOk(cfg, s, t, n);
    case Relock(t) => RelockOk(cfg, s, t);
    case Deliver(e, i) => DeliverOk(cfg, s, e, i);
    case FailSend(e, i) => FailSendOk(cfg, s, e, i);
    case ReportCredits(t, rpt) => ReportCreditsOk(cfg, s, t, rpt);
    case Inactive(t) => InactiveOk(cfg, s, t);
    case Visit(t) => VisitOk(cfg, s, t);
    case Flush(e, tag) => FlushOk(cfg, s, e, tag);
  }

  /** A thread that is inside can always go on: nothing but the lock is waited for. */
  lemma ThreadsGoOn(cfg: Config, s: State, t: nat)
    requires cfg.Valid() && Inv(cfg, s) && t < |s.threads| && s.threads[t].pc != Out
    requires s.threads[t].pc.e < ENDPOINT_MAX
    ensures match s.threads[t].pc
            case AtLock(_, _) => Enabled(cfg, s, TakeLock(t))
            case Draining(_, local) =>
              if local == [] then Enabled(cfg, s, Relock(t)) else Enabled(cfg, s, HandOver(t, |local|))
            case Out => true
  {
  }

  // --- what callers bring -----------------------------------------------------------------------

  /** What a thread that waits for the lock of e brings to it. */
  function BroughtBy(th: Thread, e: nat): seq<Packet> {
    if th.pc.AtLock? && th.pc.e == e then th.pc.send else []
  }

  /** What all of them bring. */
  function Brought(threads: seq<Thread>, e: nat): multiset<Packet>
  {
    if threads == [] then multiset{} else multiset(BroughtBy(threads[0], e)) + Brought(threads[1..], e)
  }

  lemma Exchanged(a: multiset<Packet>, b: multiset<Packet>, x: multiset<Packet>, rest: multiset<Packet>,
      more: multiset<Packet>)
    requires rest + a == more + b
    ensures (x + rest) + a == (x + more) + b
  {
    assert (x + rest) + a == x + (rest + a);
    assert (x + more) + b == x + (more + b);
  }

  lemma {:induction false} BroughtChanges(threads: seq<Thread>, t: nat, now: Thread, e: nat)
    requires t < |threads|
    ensures Brought(threads[t := now], e) + multiset(BroughtBy(threads[t], e))
         == Brought(threads, e) + multiset(BroughtBy(now, e))
  {
    var changed := threads[t := now];
    if t == 0 {
      assert changed[1..] == threads[1..];
    } else {
      BroughtChanges(threads[1..], t - 1, now, e);
      assert changed[1..] == threads[1..][t - 1 := now];
      Exchanged(multiset(BroughtBy(threads[t], e)), multiset(BroughtBy(now, e)), multiset(BroughtBy(threads[0], e)),
        Brought(changed[1..], e), Brought(threads[1..], e));
    }
  }

  /** The packets a step brings for e. */
  function BroughtIn(step: Step, e: nat): seq<Packet> {
    if step.Submit? && step.e == e then step.send else []
  }

  /** The threads do not change, or only thread t does, and then it stops waiting for a lock with
      what e has accepted since, or starts to with what it brings. */
  ghost predicate Moves(s: State, s': State, t: nat, e: nat, came: seq<Packet>)
    requires |s.conns| == |s'.conns| == ENDPOINT_MAX && e < ENDPOINT_MAX
  {
    && t < |s.threads| == |s'.threads| && s'.threads == s.threads[t := s'.threads[t]]
    && multiset(s'.conns[e].accepted) + multiset(BroughtBy(s'.threads[t], e))
       == multiset(s.conns[e].accepted) + multiset(BroughtBy(s.threads[t], e)) + multiset(came)
  }

  lemma SubmitMoves(cfg: Config, s: State, step: Step, e: nat)
    requires |s.conns| == ENDPOINT_MAX && e < ENDPOINT_MAX && Enabled(cfg, s, step) && step.Submit?
    ensures Moves(s, Apply(cfg, s, step), step.t, e, BroughtIn(step, e))
  {
  }

  lemma TakeLockMoves(cfg: Config, s: State, step: Step, e: nat)
    requires |s.conns| == ENDPOINT_MAX && e < ENDPOINT_MAX && Enabled(cfg, s, step) && step.TakeLock?
    ensures Moves(s, Apply(cfg, s, step), step.t, e, [])
  {
  }

  lemma ThreadMoves(cfg: Config, s: State, step: Step, e: nat)
    requires |s.conns| == ENDPOINT_MAX && e < ENDPOINT_MAX && Enabled(cfg, s, step)
    requires step.HandOver? || step.Relock? || step.ReportCredits? || step.Inactive? || step.Visit?
    ensures Moves(s, Apply(cfg, s, step), step.t, e, [])
  {
  }

  lemma ConnMoves(cfg: Config, s: State, step: Step, e: nat)
    requires |s.conns| == ENDPOINT_MAX && e < ENDPOINT_MAX && Enabled(cfg, s, step)
    requires step.Deliver? || step.FailSend? || step.Flush?
    ensures var s' := Apply(cfg, s, step);
      s'.threads == s.threads && s'.conns[e].accepted == s.conns[e].accepted
  {
  }

  lemma Balanced(a: multiset<Packet>, a': multiset<Packet>, b: multiset<Packet>, b': multiset<Packet>,
      x: multiset<Packet>, x': multiset<Packet>, came: multiset<Packet>)
    requires a' + x' == a + x + came && b' + x == b + x'
    ensures a' + b' == a + b + came
  {
    forall p
      ensures (a' + b')[p] == (a + b + came)[p]
    {
      assert (a' + x')[p] == (a + x + came)[p] && (b' + x)[p] == (b + x')[p];
    }
  }

  /** No step loses a packet on its way into a queue, or makes one up. */
  lemma StepBrings(cfg: Config, s: State, step: Step, e: nat)
    requires |s.conns| == ENDPOINT_MAX && e < ENDPOINT_MAX && Enabled(cfg, s, step)
    ensures var s' := Apply(cfg, s, step);
      multiset(s'.conns[e].accepted) + Brought(s'.threads, e)
        == multiset(s.conns[e].accepted) + Brought(s.threads, e) + multiset(BroughtIn(step, e))
  {
    var s' := Apply(cfg, s, step);
    if step.Deliver? || step.FailSend? || step.Flush? {
      ConnMoves(cfg, s, step, e);
    } else {
      if step.Submit? {
        SubmitMoves(cfg, s, step, e);
      } else if step.TakeLock? {
        TakeLockMoves(cfg, s, step, e);
      } else {
        ThreadMoves(cfg, s, step, e);
      }
      BroughtChanges(s.threads, step.t, s'.threads[step.t], e);
      Balanced(multiset(s.conns[e].accepted), multiset(s'.conns[e].accepted), Brought(s.threads, e),
        Brought(s'.threads, e), multiset(BroughtBy(s.threads[step.t], e)),
        multiset(BroughtBy(s'.threads[step.t], e)), multiset(BroughtIn(step, e)));
    }
  }

  /** A report that brings credits, and an endpoint that goes inactive, make their thread look at
      every listed endpoint. */
  lemma LooksAtAll(cfg: Config, s: State, step: Step, d: nat)
    requires |s.conns| == ENDPOINT_MAX && Enabled(cfg, s, step) && d in cfg.distList
    requires step.Inactive? || (step.ReportCredits? && 0 < TotalCredits(Usable(step.rpt)))
    ensures Due(Apply(cfg, s, step), step.t, d)
  {
  }

  // --- who is left alone with a packet that could be sent ---------------------------------------

  /** Somebody is at work on e or bound to look at it. */
  ghost predicate Attended(s: State, e: nat)
    requires |s.conns| == ENDPOINT_MAX && e < ENDPOINT_MAX
  {
    s.conns[e].ep.processCount == 1 || exists t: nat :: Due(s, t, e)
  }

  /** The head packet of e can be sent, and nobody will. */
  ghost predicate Stranded(cfg: Config, s: State, e: nat)
    requires |s.conns| == ENDPOINT_MAX && e < ENDPOINT_MAX
  {
    Sendable(cfg, s.conns[e].ep) && !Attended(s, e)
  }

  /** A failed send gives an unattended endpoint the credits for its head packet, or a flush
      leaves it a head packet it has the credits for. */
  ghost predicate Uncovers(cfg: Config, s: State, step: Step, e: nat)
    requires |s.conns| == ENDPOINT_MAX && e < ENDPOINT_MAX && Enabled(cfg, s, step)
  {
    var ep := s.conns[e].ep;
    match step
    case FailSend(f, i) =>
      && f == e && InDistribution(cfg, e) && !Attended(s, e)
      && ep.txQueue != [] && cfg.cost(ep.txQueue[0]) <= ep.credits + s.conns[e].inDevice[i].creditsUsed
    case Flush(f, tag) =>
      && f == e && !Attended(s, e)
      && Kept(ep.txQueue, tag) != [] && cfg.cost(Kept(ep.txQueue, tag)[0]) <= ep.credits
    case _ => false
  }

  /** Whoever was due stays due, but for thread t, which was at the lock for e. */
  lemma StaysAttended(s: State, s': State, t: nat, e: nat, d: nat)
    requires LocalChange(s, s', t, e) && d < ENDPOINT_MAX && d != e
    ensures Attended(s, d) <==> Attended(s', d)
  {
    assert forall u: nat :: Due(s, u, d) <==> Due(s', u, d);
  }

  lemma TurnStrandsNobody(cfg: Config, s: State, t: nat, e: nat, c: Conn, d: nat)
    requires |s.conns| == ENDPOINT_MAX && t < |s.threads| && e < ENDPOINT_MAX && d < ENDPOINT_MAX && AtTurn(cfg, c)
    requires (s.threads[t].pc.AtLock? || s.threads[t].pc.Draining?) && s.threads[t].pc.e == e
    ensures Stranded(cfg, Turn(cfg, s, t, e, c), d) ==> Stranded(cfg, s, d)
  {
    PassedOk(cfg, c);
    if d != e { StaysAttended(s, Turn(cfg, s, t, e, c), t, e, d); }
  }

  lemma TakeLockStrandsNobody(cfg: Config, s: State, t: nat, d: nat)
    requires Inv(cfg, s) && Enabled(cfg, s, TakeLock(t)) && d < ENDPOINT_MAX
    ensures Stranded(cfg, Apply(cfg, s, TakeLock(t)), d) ==> Stranded(cfg, s, d)
  {
    var AtLock(e, send) := s.threads[t].pc;
    if s.conns[e].ep.processCount == 1 {
      if d != e { StaysAttended(s, Apply(cfg, s, TakeLock(t)), t, e, d); }
    } else {
      QueuedOk(cfg, s.conns[e], send);
      BeginTurn(cfg, Queued(s.conns[e], send));
      TurnStrandsNobody(cfg, s, t, e, Started(Queued(s.conns[e], send)), d);
    }
  }

  lemma RelockStrandsNobody(cfg: Config, s: State, t: nat, d: nat)
    requires Inv(cfg, s) && Enabled(cfg, s, Relock(t)) && d < ENDPOINT_MAX
    ensures Stranded(cfg, Apply(cfg, s, Relock(t)), d) ==> Stranded(cfg, s, d)
  {
    var e := s.threads[t].pc.e;
    assert Drains(s, t, e);
    assert |Local(s.conns[e])| == 0;
    TurnStrandsNobody(cfg, s, t, e, s.conns[e], d);
  }

  lemma HandOverStrandsNobody(cfg: Config, s: State, t: nat, n: nat, d: nat)
    requires Inv(cfg, s) && Enabled(cfg, s, HandOver(t, n)) && d < ENDPOINT_MAX
    ensures Stranded(cfg, Apply(cfg, s, HandOver(t, n)), d) ==> Stranded(cfg, s, d)
  {
    var e := s.threads[t].pc.e;
    assert Drains(s, t, e);
    if d != e { StaysAttended(s, Apply(cfg, s, HandOver(t, n)), t, e, d); }
  }

  lemma ReportStrandsNobody(cfg: Config, s: State, t: nat, rpt: seq<Report>, d: nat)
    requires cfg.Valid() && Inv(cfg, s) && Enabled(cfg, s, ReportCredits(t, rpt)) && d < ENDPOINT_MAX
    ensures Stranded(cfg, Apply(cfg, s, ReportCredits(t, rpt)), d) ==> Stranded(cfg, s, d)
  {
    var s' := Apply(cfg, s, ReportCredits(t, rpt));
    NoCreditsNoTotal(Usable(rpt), d);
    assert forall u: nat :: Due(s, u, d) ==> Due(s', u, d);
    if TotalCredits(Usable(rpt)) != 0 && d in cfg.distList { assert Due(s', t, d); }
    assert d !in cfg.distList ==> d != 0 && !InDistribution(cfg, d);
  }

  lemma VisitStrandsNobody(cfg: Config, s: State, t: nat, d: nat)
    requires Inv(cfg, s) && Enabled(cfg, s, Visit(t)) && d < ENDPOINT_MAX
    ensures Stranded(cfg, Apply(cfg, s, Visit(t)), d) ==> Stranded(cfg, s, d)
  {
    var s' := Apply(cfg, s, Visit(t));
    var e := s.threads[t].visits[0];
    assert forall u: nat :: Due(s, u, d) && (d != e || s.conns[e].ep.txQueue != []) ==> Due(s', u, d);
  }

  /** A failed send leaves its endpoint stranded exactly when it uncovers its head packet. On an
      endpoint that gets no share of the distribution it changes nothing. */
  lemma FailedSendStrandsIff(cfg: Config, s: State, e: nat, i: nat)
    requires Inv(cfg, s) && Enabled(cfg, s, FailSend(e, i))
    ensures var step := FailSend(e, i);
      Stranded(cfg, Apply(cfg, s, step), e) <==>
        if InDistribution(cfg, e) then Uncovers(cfg, s, step, e) else Stranded(cfg, s, e)
  {
    var s' := Apply(cfg, s, FailSend(e, i));
    var hit := Failed(s.conns[e], i);
    assert s'.conns[e] == if InDistribution(cfg, e) then Distributed(hit) else hit;
    assert forall u: nat :: Due(s, u, e) <==> Due(s', u, e);
  }

  /** A flush leaves its endpoint stranded exactly when it uncovers a packet. */
  lemma FlushStrandsIff(cfg: Config, s: State, e: nat, tag: nat)
    requires Inv(cfg, s) && Enabled(cfg, s, Flush(e, tag))
    ensures Stranded(cfg, Apply(cfg, s, Flush(e, tag)), e) <==> Uncovers(cfg, s, Flush(e, tag), e)
  {
    assert forall u: nat :: Due(s, u, e) <==> Due(Apply(cfg, s, Flush(e, tag)), u, e);
  }

  lemma FailSendStrandsOnly(cfg: Config, s: State, e: nat, i: nat, d: nat)
    requires Inv(cfg, s) && Enabled(cfg, s, FailSend(e, i)) && d < ENDPOINT_MAX
    ensures var step := FailSend(e, i);
      Stranded(cfg, Apply(cfg, s, step), d) ==> Stranded(cfg, s, d) || Uncovers(cfg, s, step, d)
  {
    if d == e {
      FailedSendStrandsIff(cfg, s, e, i);
    } else {
      FailSendConns(cfg, s, e, i);
      assert forall u: nat :: Due(s, u, d) <==> Due(Apply(cfg, s, FailSend(e, i)), u, d);
    }
  }

  lemma FlushStrandsOnly(cfg: Config, s: State, e: nat, tag: nat, d: nat)
    requires Inv(cfg, s) && Enabled(cfg, s, Flush(e, tag)) && d < ENDPOINT_MAX
    ensures var step := Flush(e, tag);
      Stranded(cfg, Apply(cfg, s, step), d) ==> Stranded(cfg, s, d) || Uncovers(cfg, s, step, d)
  {
    if d == e {
      FlushStrandsIff(cfg, s, e, tag);
    } else {
      assert forall u: nat :: Due(s, u, d) <==> Due(Apply(cfg, s, Flush(e, tag)), u, d);
    }
  }

  /** Endpoints and whoever is due at them stay as they are, or become due. */
  lemma QuietStepStrandsNobody(cfg: Config, s: State, step: Step, d: nat)
    requires |s.conns| == ENDPOINT_MAX && Enabled(cfg, s, step) && d < ENDPOINT_MAX
    requires step.Submit? || step.Deliver? || step.Inactive?
    ensures Stranded(cfg, Apply(cfg, s, step), d) ==> Stranded(cfg, s, d)
  {
    assert forall u: nat :: Due(s, u, d) ==> Due(Apply(cfg, s, step), u, d);
  }

  /** No other step leaves an endpoint stranded that was not so before. */
  lemma OnlyUncoveringStrands(cfg: Config, s: State, step: Step, d: nat)
    requires cfg.Valid() && Inv(cfg, s) && Enabled(cfg, s, step) && d < ENDPOINT_MAX
    ensures Stranded(cfg, Apply(cfg, s, step), d) ==> Stranded(cfg, s, d) || Uncovers(cfg, s, step, d)
  {
    match step
    case TakeLock(t) => TakeLockStrandsNobody(cfg, s, t, d);
    case HandOver(t, n) => HandOverStrandsNobody(cfg, s, t, n, d);
    case Relock(t) => RelockStrandsNobody(cfg, s, t, d);
    case ReportCredits(t, rpt) => ReportStrandsNobody(cfg, s, t, rpt, d);
    case Visit(t) => VisitStrandsNobody(cfg, s, t, d);
    case FailSend(e, i) => FailSendStrandsOnly(cfg, s, e, i, d);
    case Flush(e, tag) => FlushStrandsOnly(cfg, s, e, tag, d);
    case _ => QuietStepStrandsNobody(cfg, s, step, d);
  }

  // --- the in-place sections are these steps ------------------------------------------

  /** What HtcSend.Endpoint.TakeTxLock computes is the step a thread takes at the lock. */
  lemma TakeTxLockIsStep(cfg: Config, s: State, t: nat)
    requires |s.conns| == ENDPOINT_MAX && Enabled(cfg, s, TakeLock(t))
    ensures var AtLock(e, send) := s.threads[t].pc;
      var section, s' := Enter(cfg, s.conns[e].ep, send), Apply(cfg, s, TakeLock(t));
      && s'.conns[e].ep == section.ep
      && s'.threads[t].pc == (if section.local == [] then Out else Draining(e, section.local))
      && s'.conns[e].taken == s.conns[e].taken + section.local
  {
  }

  /** What HtcSend.Endpoint.DrainTurn computes is the step a draining thread takes. */
  lemma DrainTurnIsStep(cfg: Config, s: State, t: nat)
    requires |s.conns| == ENDPOINT_MAX && Enabled(cfg, s, Relock(t))
    ensures var e := s.threads[t].pc.e;
      var section, s' := Pass(cfg, s.conns[e].ep), Apply(cfg, s, Relock(t));
      && s'.conns[e].ep == section.ep
      && s'.threads[t].pc == (if section.local == [] then Out else Draining(e, section.local))
      && s'.conns[e].taken == s.conns[e].taken + section.local
  {
  }
}
